/** The event loop of a transfer and its peers as a step protocol: transfer.go,
    with the delivering and the aborting side of peer_connection.go.

    Every handled event is one step. Channels are queues, the file is a byte
    sequence, and MD4 is an arbitrary function of the bytes. */
module Transfers {
  import opened Bytes
  import opened Geometry
  import opened Peers
  import opened PendingBlocks
  import opened Pickers
  import opened ReceivingPieces

  const REQUEST_QUEUE_SIZE: nat := 3

  /** The packet that asks for blocks has this many slots for offsets. */
  const PARTS_IN_REQUEST: nat := 3

  /** A peer connection: the blocks it was asked for, and whether it still reads. */
  datatype Conn = Conn(peer: Peer, requested: seq<Pending>, alive: bool)

  /** verified is a history variable: the hash each finished piece was checked against. */
  datatype State = State(
    size: nat,
    picker: Picker,
    incoming: map<nat, Receiving>,
    file: seq<byte>,
    hashSet: Option<seq<Hash>>,
    conns: seq<Conn>,
    deliveries: seq<Pending>,
    finishedSent: bool,
    verified: map<nat, Hash>)

  /** What can happen next. slower and slow are the peers' speeds at that moment. */
  datatype Step =
    | Connect(peer: Peer)
    | ReceiveHashSet(hashes: seq<Hash>)
    | Ask(c: nat, slower: set<Peer>, slow: bool)
    | ReceivePart(c: nat, part: Part)
    | Die(c: nat)
    | AbortNext(c: nat)
    | Deliver

  datatype Reason =
    | RequestSlots
    | SliceBounds
    | BlockIndex
    | FinishNotRequested
    | NoHashSet
    | NoPieceHash
    | NotAllFinished
    | PieceBitClear

  datatype Outcome = Running(state: State) | Panic(reason: Reason)

  function Init(size: nat, file: seq<byte>): State {
    var shape := NumPiecesAndBlocks(size);
    State(size, Create(shape.pieces, shape.blocksInLastPiece), map[], file, None, [], [], false, map[])
  }

  /** Seek and write: a write past the end of the file fills the hole with zeros. */
  function WriteAt(file: seq<byte>, at: nat, data: seq<byte>): (r: seq<byte>)
    ensures |r| == (if |file| < at + |data| then at + |data| else |file|) && r[at..at + |data|] == data
    ensures forall i :: 0 <= i < |file| && !(at <= i < at + |data|) ==> r[i] == file[i]
    ensures forall i :: |file| <= i < at ==> r[i] == 0
  {
    var base := if |file| < at + |data| then file + Zeros(at + |data| - |file|) else file;
    var r := Overlay(base, at, data);
    assert r[at..at + |data|] == data;
    r
  }

  // ----- a peer asks for work

  function Requests(blocks: seq<PieceBlock>, size: nat): seq<Pending> {
    seq(|blocks|, i requires 0 <= i < |blocks| => MakePending(blocks[i], size))
  }

  function StartReceiving(incoming: map<nat, Receiving>, blocks: seq<PieceBlock>): map<nat, Receiving> {
    if blocks == [] then incoming
    else
      var before := StartReceiving(incoming, blocks[..|blocks| - 1]);
      var p := blocks[|blocks| - 1].pieceIndex;
      if p in before then before else before[p := EMPTY]
  }

  /** A peer that gets nothing is disconnected. */
  function DoAsk(s: State, c: nat, slower: set<Peer>, slow: bool): State
    requires c < |s.conns|
  {
    var conn := s.conns[c];
    var (picker, blocks) := PickPieces(s.picker, REQUEST_QUEUE_SIZE, conn.peer, slower, slow);
    var requested := conn.requested + Requests(blocks, s.size);
    s.(picker := picker,
       incoming := StartReceiving(s.incoming, blocks),
       conns := s.conns[c := conn.(requested := requested, alive := blocks != [])])
  }

  /** The blocks that an ask hands out. */
  function AskedBlocks(s: State, c: nat, slower: set<Peer>, slow: bool): seq<PieceBlock>
    requires c < |s.conns|
  {
    PickPieces(s.picker, REQUEST_QUEUE_SIZE, s.conns[c].peer, slower, slow).1
  }

  /** The offsets of the blocks in a request packet, whose slots are zero at first. */
  datatype RequestParts = RequestParts(begin: seq<nat>, end: seq<nat>)

  const EMPTY_REQUEST := RequestParts(seq(PARTS_IN_REQUEST, _ => 0), seq(PARTS_IN_REQUEST, _ => 0))

  /** What the packet asks for: the range of each block in its slot, and nothing in the others. */
  predicate AsksFor(request: RequestParts, blocks: seq<PieceBlock>, size: nat) {
    && |request.begin| == |request.end| == PARTS_IN_REQUEST && |blocks| <= PARTS_IN_REQUEST
    && forall i :: 0 <= i < PARTS_IN_REQUEST ==>
         && request.begin[i] == (if i < |blocks| then blocks[i].Start() else 0)
         && request.end[i] == (if i < |blocks| then BlockEnd(size, blocks[i]) else 0)
  }

  // ----- a part arrives

  /** The first request for the block; the number of requests if there is none. */
  function FindRequest(ps: seq<Pending>, b: PieceBlock): (i: nat)
    ensures i <= |ps| && (i < |ps| ==> ps[i].block == b)
  {
    if ps == [] || ps[0].block == b then 0 else 1 + FindRequest(ps[1..], b)
  }

  lemma {:induction false} FirstRequest(ps: seq<Pending>, b: PieceBlock, k: nat)
    requires k < |ps|
    ensures k < FindRequest(ps, b) ==> ps[k].block != b
    ensures ps[k].block == b ==> FindRequest(ps, b) <= k
  {
    if ps[0].block != b && 0 < k {
      FirstRequest(ps[1..], b, k - 1);
    }
  }

  /** Data nobody asked for, and data cut short, end the connection; a complete block goes to
      the transfer. */
  function DoReceive(s: State, c: nat, part: Part): Outcome
    requires c < |s.conns|
  {
    var conn := s.conns[c];
    var i := FindRequest(conn.requested, FromOffset(part.begin));
    if i == |conn.requested| then Running(s.(conns := s.conns[c := conn.(alive := false)]))
    else if !HasSlice(conn.requested[i], part) then Panic(SliceBounds)
    else
      var pb := TakePart(conn.requested[i], part);
      if CutShort(part) then
        Running(s.(conns := s.conns[c := conn.(requested := conn.requested[i := pb], alive := false)]))
      else if pb.segs == [] then
        Running(s.(conns := s.conns[c := conn.(requested := RemoveAt(conn.requested, i))],
                   deliveries := s.deliveries + [pb]))
      else Running(s.(conns := s.conns[c := conn.(requested := conn.requested[i := pb])]))
  }

  // ----- a dead peer's blocks are aborted one by one

  predicate InRange(pk: Picker, b: PieceBlock) {
    Listed(pk, b.pieceIndex) ==> b.blockIndex < |PieceAt(pk, b.pieceIndex).blocks|
  }

  function DoAbort(s: State, c: nat): Outcome
    requires c < |s.conns| && s.conns[c].requested != []
  {
    var conn := s.conns[c];
    var b := conn.requested[0].block;
    if !InRange(s.picker, b) then Panic(BlockIndex)
    else Running(s.(picker := Abort(s.picker, b, conn.peer),
                    conns := s.conns[c := conn.(requested := conn.requested[1..])]))
  }

  // ----- a complete block is delivered

  /** The end of a piece: compare the hash, then mark the piece as finished twice. */
  function DoComplete(md4: seq<byte> -> Hash, s: State, piece: nat, hashed: seq<byte>): Outcome
  {
    if s.hashSet.None? then Panic(NoHashSet)
    else if piece >= |s.hashSet.value| then Panic(NoPieceHash)
    else
      var hash := md4(hashed);
      var match_ := hash == s.hashSet.value[piece];
      if match_ && !CanSetHave(s.picker, piece) then Panic(NotAllFinished)
      else if !match_ && piece >= |s.picker.pieces| then Panic(PieceBitClear)
      else
        var picker := if match_ then SetHave(s.picker, piece) else RemoveDownloadingPiece(s.picker, piece);
        var wasFinished := IsFinished(picker);
        if !CanSetHave(picker, piece) then Panic(PieceBitClear)
        else
          var after := SetHave(picker, piece);
          Running(s.(picker := after,
                     incoming := s.incoming - {piece},
                     finishedSent := s.finishedSent || (!wasFinished && IsFinished(after)),
                     verified := if match_ then s.verified[piece := hash] else s.verified))
  }

  /** The queue without its head. */
  function Rest(s: State): State
    requires s.deliveries != []
  {
    s.(deliveries := s.deliveries[1..])
  }

  function DoDeliver(md4: seq<byte> -> Hash, s: State): Outcome
    requires s.deliveries != []
  {
    var pb := s.deliveries[0];
    var b := pb.block;
    var p := b.pieceIndex;
    var rest := Rest(s);
    if p !in s.incoming || Has(s.incoming[p].blocks, b.blockIndex) then Running(rest)
    else
      var rp := Insert(s.incoming[p], Stored(b.blockIndex, pb.data));
      var file := WriteAt(s.file, b.Start(), pb.data);
      if !InRange(s.picker, b) then Panic(BlockIndex)
      else if Listed(s.picker, p) && !Look(s.picker, b).requested then Panic(FinishNotRequested)
      else
        var t := rest.(incoming := s.incoming[p := rp], file := file, picker := Finish(s.picker, b));
        if |rp.blocks| == BlocksIn(t.picker, p) then DoComplete(md4, t, p, rp.hashed) else Running(t)
  }

  /** One step; an event that cannot occur in this state leaves it as it is. */
  function Apply(md4: seq<byte> -> Hash, s: State, step: Step): Outcome {
    match step
    case Connect(peer) => Running(s.(conns := s.conns + [Conn(peer, [], true)]))
    case ReceiveHashSet(hashes) => Running(s.(hashSet := Some(hashes)))
    case Ask(c, slower, slow) =>
      if c < |s.conns| && s.conns[c].alive then
        if |AskedBlocks(s, c, slower, slow)| > PARTS_IN_REQUEST then Panic(RequestSlots)
        else Running(DoAsk(s, c, slower, slow))
      else Running(s)
    case ReceivePart(c, part) =>
      if c < |s.conns| && s.conns[c].alive then DoReceive(s, c, part) else Running(s)
    case Die(c) =>
      if c < |s.conns| then Running(s.(conns := s.conns[c := s.conns[c].(alive := false)])) else Running(s)
    case AbortNext(c) =>
      if c < |s.conns| && !s.conns[c].alive && s.conns[c].requested != [] then DoAbort(s, c) else Running(s)
    case Deliver =>
      if s.deliveries != [] then DoDeliver(md4, s) else Running(s)
  }

  /** A panic ends the run. */
  function Run(md4: seq<byte> -> Hash, s: State, steps: seq<Step>): Outcome {
    if steps == [] then Running(s)
    else
      var before := Run(md4, s, steps[..|steps| - 1]);
      if before.Panic? then before else Apply(md4, before.state, steps[|steps| - 1])
  }
}
