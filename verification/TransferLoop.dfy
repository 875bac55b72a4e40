/** The handlers of the event loop and of a peer connection as they run, on the
    objects they change (transfer.go and peer_connection.go). Each is shown to do
    the step of the protocol in Transfers. */
module TransferLoop {
  import opened Bytes
  import opened Geometry
  import opened Peers
  import opened PendingBlocks
  import opened DownloadingPieces
  import opened Pickers
  import opened PiecePickers
  import opened ReceivingPieces
  import opened Transfers
  import opened TransferSafety

  /** The receiving side of a peer connection. */
  class Connection {
    const peer: Peer
    var requestedBlocks: seq<PendingBlock>

    constructor (p: Peer)
      ensures peer == p && requestedBlocks == [] && Valid()
    {
      peer, requestedBlocks := p, [];
    }

    /** No two requests share their buffer or their region. */
    ghost predicate Valid()
      reads this
    {
      forall i, j :: 0 <= i < j < |requestedBlocks| ==>
        requestedBlocks[i].data != requestedBlocks[j].data && requestedBlocks[i].region != requestedBlocks[j].region
    }

    ghost function Parts(): set<object>
      reads this
    {
      (set pb | pb in requestedBlocks :: pb.data as object) + (set pb | pb in requestedBlocks :: pb.region as object)
    }

    ghost function Requested(): (r: seq<Pending>)
      reads this, Parts()
      ensures |r| == |requestedBlocks|
      ensures forall i :: 0 <= i < |r| ==> r[i] == requestedBlocks[i].Value()
    {
      seq(|requestedBlocks|, i requires 0 <= i < |requestedBlocks| reads this, Parts() => requestedBlocks[i].Value())
    }

    method FindRequest(block: PieceBlock) returns (i: nat)
      ensures i == Transfers.FindRequest(Requested(), block)
    {
      i := 0;
      ghost var all := Requested();
      assert all[0..] == all;
      while i < |requestedBlocks| && requestedBlocks[i].block != block
        invariant i <= |requestedBlocks|
        invariant Transfers.FindRequest(all, block) == i + Transfers.FindRequest(all[i..], block)
      {
        assert all[i..][0] == all[i] && all[i..][1..] == all[i + 1..];
        i := i + 1;
      }
      if i < |requestedBlocks| {
        assert all[i..][0] == all[i];
      }
    }

    /** The requests of connection c, whether it goes on, and what it sent to the transfer, as
        after a step of the protocol. */
    ghost predicate Stepped(s: State, c: nat, t: State, ok: bool, delivered: PendingBlock?)
      requires c < |s.conns| == |t.conns|
      reads this, Parts(), if delivered == null then {} else {delivered.data, delivered.region}
    {
      && t == s.(conns := s.conns[c := s.conns[c].(requested := Requested(), alive := ok && s.conns[c].alive)],
                 deliveries := t.deliveries)
      && t.deliveries == s.deliveries + if delivered == null then [] else [delivered.Value()]
    }

    /** An announced part, read from the connection's stream. A part nobody asked for, or
        cut short, is an error and ends the connection. */
    method ReceivePart(reader: seq<byte>, begin: nat, end: nat, ghost s: State, ghost c: nat)
      returns (ok: bool, delivered: PendingBlock?)
      requires Valid() && c < |s.conns| && s.conns[c].requested == Requested()
      requires DoReceive(s, c, Part(begin, end, reader)).Running?
      modifies this, Parts()
      ensures Valid() && Parts() <= old(Parts())
      ensures var i := Transfers.FindRequest(old(Requested()), FromOffset(begin));
              ok <==> i < |old(Requested())| && !CutShort(Part(begin, end, reader))
      ensures var t := DoReceive(s, c, Part(begin, end, reader)).state;
              |t.conns| == |s.conns| && Stepped(s, c, t, ok, delivered)
    {
      hide TakePart, CutShort, RemoveAt;
      ghost var part := Part(begin, end, reader);
      ghost var before := Requested();
      var i := FindRequest(FromOffset(begin));
      delivered := null;
      assert s.deliveries + [] == s.deliveries;
      if i == |requestedBlocks| {
        return false, null;
      }
      ok := ReceiveInto(i, reader, begin, end);
      if ok {
        hide Stepped;
        delivered := Deliver(i, before, part, s, c);
      }
    }

    /** A compressed part: unpacked is what comes out of it, or nothing when the connection or
        the compressed header fails. It has to fill its block from the offset to its end. */
    method ReceiveCompressedPart(unpacked: Option<seq<byte>>, begin: nat, ghost s: State, ghost c: nat)
      returns (ok: bool, delivered: PendingBlock?)
      requires Valid() && c < |s.conns| && s.conns[c].requested == Requested()
      requires DoReceive(s, c, Part(begin, begin, [])).Running?
      modifies this, Parts()
      ensures Valid() && Parts() <= old(Parts())
      ensures unpacked.None? ==> !ok && delivered == null && Requested() == old(Requested())
      ensures unpacked.Some? ==>
                var part := Unpacked(old(Requested()), begin, unpacked.value);
                && (ok <==> Transfers.FindRequest(old(Requested()), FromOffset(begin)) < |old(Requested())|
                            && !CutShort(part))
                && var step := DoReceive(s, c, part);
                   step.Running? && |step.state.conns| == |s.conns| && Stepped(s, c, step.state, ok, delivered)
    {
      hide TakePart, CutShort, RemoveAt;
      ghost var before := Requested();
      var i := FindRequest(FromOffset(begin));
      delivered := null;
      assert s.deliveries + [] == s.deliveries;
      if i == |requestedBlocks| || unpacked.None? {
        return false, null;
      }
      var n, received := ReceiveRest(i, unpacked.value, begin);
      ok := received;
      if ok {
        hide Stepped;
        delivered := Deliver(i, before, Unpacked(before, begin, unpacked.value), s, c);
      }
    }

    /** Part of a block arrived: when it was the last part, the block leaves the requests. */
    method Deliver(i: nat, ghost before: seq<Pending>, ghost part: Part, ghost s: State, ghost c: nat)
      returns (delivered: PendingBlock?)
      requires Valid() && c < |s.conns| && s.conns[c].requested == before && i < |before|
      requires i == Transfers.FindRequest(before, FromOffset(part.begin))
      requires HasSlice(before[i], part) && !CutShort(part)
      requires Requested() == before[i := TakePart(before[i], part)]
      modifies this
      ensures Valid() && Parts() <= old(Parts())
      ensures delivered != null ==> delivered.data in old(Parts()) && delivered.region in old(Parts())
      ensures var step := DoReceive(s, c, part);
              step.Running? && |step.state.conns| == |s.conns| && Stepped(s, c, step.state, true, delivered)
    {
      hide TakePart, RemoveAt, HasSlice, CutShort;
      delivered := null;
      var x := requestedBlocks[i];
      assert x.Value() == TakePart(before[i], part);
      if x.region.IsEmpty() {
        delivered := x;
        RemovePendingBlock(i);
        SameRemoved(before, i, x.Value());
      } else {
        assert s.deliveries + [] == s.deliveries;
      }
    }

    /** One more block asked for, and the range to ask for. */
    method AddRequest(block: PieceBlock, size: nat) returns (begin: nat, end: nat)
      requires Valid() && block.Start() <= size
      modifies this
      ensures Valid() && fresh(Parts() - old(Parts()))
      ensures Requested() == old(Requested()) + [MakePending(block, size)]
      ensures begin == block.Start() && end == BlockEnd(size, block)
    {
      var pb := new PendingBlock.MakePendingBlock(block, size);
      requestedBlocks := requestedBlocks + [pb];
      assert pb.Value().segs == MakePending(block, size).segs;
      begin, end := pb.region.Segments[0].begin, pb.region.Segments[0].end;
    }

    method ReceiveInto(i: nat, reader: seq<byte>, begin: nat, end: nat) returns (ok: bool)
      requires Valid() && i < |requestedBlocks| && HasSlice(requestedBlocks[i].Value(), Part(begin, end, reader))
      modifies Parts()
      ensures ok <==> !CutShort(Part(begin, end, reader))
      ensures Requested() == old(Requested())[i := TakePart(old(Requested())[i], Part(begin, end, reader))]
    {
      hide ReceiveChunk;
      var x := requestedBlocks[i];
      var n, received := x.Receive(reader, begin, end);
      ok := received;
    }

    method ReceiveRest(i: nat, reader: seq<byte>, begin: nat) returns (n: nat, ok: bool)
      requires Valid() && i < |requestedBlocks| && Fits(requestedBlocks[i].Value(), begin, 0)
      modifies Parts()
      ensures var x := old(Requested())[i];
              var part := Part(begin, begin + |x.data| - InBlockOffset(begin), reader);
              (ok <==> !CutShort(part)) && Requested() == old(Requested())[i := TakePart(x, part)]
    {
      hide ReceiveChunk;
      var x := requestedBlocks[i];
      n, ok := x.ReceiveToEof(reader, begin);
    }

    method RemovePendingBlock(i: nat)
      requires Valid() && i < |requestedBlocks|
      modifies this
      ensures Valid() && Parts() <= old(Parts()) && Requested() == RemoveAt(old(Requested()), i)
    {
      requestedBlocks := requestedBlocks[i := requestedBlocks[|requestedBlocks| - 1]];
      requestedBlocks := requestedBlocks[..|requestedBlocks| - 1];
    }
  }

  /** A compressed part as a part: it has to reach the end of the block it starts in. */
  function Unpacked(ps: seq<Pending>, begin: nat, bytes: seq<byte>): Part {
    var i := Transfers.FindRequest(ps, FromOffset(begin));
    if i < |ps| && Fits(ps[i], begin, 0) then Part(begin, begin + |ps[i].data| - InBlockOffset(begin), bytes)
    else Part(begin, begin, bytes)
  }

  lemma SameRemoved(ps: seq<Pending>, i: nat, p: Pending)
    requires i < |ps|
    ensures RemoveAt(ps[i := p], i) == RemoveAt(ps, i)
  {
  }

  function Inserted(s: State, pb: Pending): State
    requires pb.block.pieceIndex in s.incoming
  {
    var p := pb.block.pieceIndex;
    s.(incoming := s.incoming[p := ReceivingPieces.Insert(s.incoming[p], Stored(pb.block.blockIndex, pb.data))])
  }

  /** What follows once a block is stored with its piece. */
  function AfterInsert(md4: seq<byte> -> Hash, s: State, b: PieceBlock, data: seq<byte>): Outcome
    requires b.pieceIndex in s.incoming && InRange(s.picker, b)
  {
    var t := s.(file := WriteAt(s.file, b.Start(), data), picker := Finish(s.picker, b));
    if |s.incoming[b.pieceIndex].blocks| == BlocksIn(t.picker, b.pieceIndex)
    then DoComplete(md4, t, b.pieceIndex, s.incoming[b.pieceIndex].hashed) else Running(t)
  }

  lemma DeliverIs(md4: seq<byte> -> Hash, s: State)
    requires s.deliveries != [] && DoDeliver(md4, s).Running?
    ensures var pb := s.deliveries[0];
            var p := pb.block.pieceIndex;
            if p !in s.incoming || Has(s.incoming[p].blocks, pb.block.blockIndex) then DoDeliver(md4, s)
                == Running(Rest(s))
            else InRange(s.picker, pb.block) && (Listed(s.picker, p) ==> Look(s.picker, pb.block).requested)
                 && DoDeliver(md4, s) == AfterInsert(md4, Inserted(Rest(s), pb), pb.block, pb.data)
  {
  }

  lemma AskIs(s: State, c: nat, slower: set<Peer>, slow: bool)
    requires c < |s.conns|
    ensures var (picker, blocks) := PickPieces(s.picker, REQUEST_QUEUE_SIZE, s.conns[c].peer, slower, slow);
            var t := DoAsk(s, c, slower, slow);
            && t == s.(picker := picker, incoming := StartReceiving(s.incoming, blocks), conns := t.conns)
            && |t.conns| == |s.conns| && t.conns[c].requested == s.conns[c].requested + Requests(blocks, s.size)
            && t.conns[c].alive == (blocks != [])
  {
  }

  /** Only blocks of the file are picked. */
  lemma PickedStart(md4: seq<byte> -> Hash, s: State, peer: Peer, slower: set<Peer>, slow: bool)
    requires Inv(md4, s)
    ensures var blocks := PickPieces(s.picker, REQUEST_QUEUE_SIZE, peer, slower, slow).1;
            forall i :: 0 <= i < |blocks| ==> blocks[i].Start() <= s.size
  {
    hide PickPieces;
    PickedAreOfFile(s, REQUEST_QUEUE_SIZE, peer, slower, slow);
    var blocks := PickPieces(s.picker, REQUEST_QUEUE_SIZE, peer, slower, slow).1;
    forall i | 0 <= i < |blocks|
      ensures blocks[i].Start() <= s.size
    {
      assert blocks[i] in blocks;
      BlockBounds(s.size, blocks[i]);
    }
  }

  lemma EmptyIsHashed()
    ensures HashedToGap(EMPTY)
  {
  }

  lemma NextBlock(m: map<nat, Receiving>, blocks: seq<PieceBlock>, i: nat, size: nat)
    requires i < |blocks|
    ensures var before := StartReceiving(m, blocks[..i]);
            var p := blocks[i].pieceIndex;
            StartReceiving(m, blocks[..i + 1]) == if p in before then before else before[p := EMPTY]
    ensures Requests(blocks[..i + 1], size) == Requests(blocks[..i], size) + [MakePending(blocks[i], size)]
  {
    assert blocks[..i + 1][..i] == blocks[..i];
  }

  lemma InsertOld(r: Receiving, b: Stored)
    requires Has(r.blocks, b.index)
    ensures ReceivingPieces.Insert(r, b) == r
  {
  }

  class Transfer {
    const Size: nat
    /** The digest of a byte string. */
    const md4: seq<byte> -> Hash
    const piecePicker: PiecePicker
    var incomingPieces: map<nat, ReceivingPiece>
    var file: seq<byte>
    var hashSet: Option<seq<Hash>>
    var finishedSent: bool

    ghost function Buffers(): set<object>
      reads this`incomingPieces, incomingPieces.Values
    {
      set rp, pb | rp in incomingPieces.Values && pb in rp.blocks :: pb.data as object
    }

    /** Every incoming piece is its own object and well formed. */
    ghost predicate IncomingOk()
      reads this`incomingPieces, incomingPieces.Values, Buffers()
    {
      && (forall p :: p in incomingPieces ==> HashedToGap(incomingPieces[p].Value()) && incomingPieces[p].md4 == md4)
      && (forall p, q :: p in incomingPieces && q in incomingPieces && p != q
                         ==> incomingPieces[p] != incomingPieces[q])
    }

    ghost predicate IncomingIs(m: map<nat, Receiving>)
      reads this`incomingPieces, incomingPieces.Values, Buffers()
    {
      && m.Keys == incomingPieces.Keys
      && forall p :: p in incomingPieces ==> m[p] == incomingPieces[p].Value()
    }

    ghost predicate Valid()
      reads this`incomingPieces, incomingPieces.Values, Buffers(), piecePicker, piecePicker.Repr
    {
      && piecePicker.Valid() && this !in piecePicker.Repr
      && incomingPieces.Values !! piecePicker.Repr && Buffers() !! piecePicker.Repr
      && IncomingOk()
    }

    /** The transfer's part of a state of the protocol. */
    ghost predicate Is(s: State)
      requires Valid()
      reads this, incomingPieces.Values, Buffers(), piecePicker, piecePicker.Repr
    {
      && s.size == Size && s.file == file && s.hashSet == hashSet && s.finishedSent == finishedSent
      && s.picker == piecePicker.Value() && IncomingIs(s.incoming)
    }

    constructor (size: nat, md4: seq<byte> -> Hash, content: seq<byte>)
      ensures Valid() && Is(Init(size, content)) && fresh(piecePicker.Repr) && this.md4 == md4
    {
      Size, this.md4, file := size, md4, content;
      var shape := NumPiecesAndBlocks(size);
      piecePicker := new PiecePicker.CreatePiecePicker(shape.pieces, shape.blocksInLastPiece);
      incomingPieces, hashSet, finishedSent := map[], None, false;
    }

    lemma SamePieces(m: map<nat, Receiving>)
      requires IncomingIs(m)
      ensures m.Keys == incomingPieces.Keys && forall p :: p in incomingPieces ==> m[p] == incomingPieces[p].Value()
    {
    }

    /** The queues, the connections and the history are not the transfer's. */
    lemma IsDespite(s: State, t: State)
      requires Valid() && Is(s) && t == s.(conns := t.conns, deliveries := t.deliveries, verified := t.verified)
      ensures Is(t)
    {
    }

    // ----- one change at a time

    method AbortBlock(block: PieceBlock, peer: Peer, ghost s: State)
      requires Valid() && Is(s) && InRange(s.picker, block)
      modifies piecePicker.Repr
      ensures Valid() && Is(s.(picker := Abort(s.picker, block, peer))) && piecePicker.Repr == old(piecePicker.Repr)
      ensures incomingPieces == old(incomingPieces)
    {
      hide Abort, IncomingOk, IncomingIs, Look;
      var _ := piecePicker.AbortBlock(block, peer);
    }

    method FinishBlock(block: PieceBlock, ghost s: State)
      requires Valid() && Is(s) && InRange(s.picker, block)
      requires Listed(s.picker, block.pieceIndex) ==> Look(s.picker, block).requested
      modifies piecePicker.Repr
      ensures Valid() && Is(s.(picker := Finish(s.picker, block))) && piecePicker.Repr == old(piecePicker.Repr)
      ensures incomingPieces == old(incomingPieces)
    {
      hide Finish, IncomingOk, IncomingIs, Look;
      piecePicker.FinishBlock(block);
    }

    method SetHave(p: nat, ghost s: State)
      requires Valid() && Is(s) && CanSetHave(s.picker, p)
      modifies piecePicker.Repr
      ensures Valid() && Is(s.(picker := Pickers.SetHave(s.picker, p))) && piecePicker.Repr == old(piecePicker.Repr)
      ensures incomingPieces == old(incomingPieces)
    {
      hide Pickers.SetHave, CanSetHave, IncomingOk, IncomingIs;
      piecePicker.SetHave(p);
    }

    method RemovePiece(p: nat, ghost s: State)
      requires Valid() && Is(s) && p < |s.picker.pieces|
      modifies piecePicker.Repr
      ensures Valid() && Is(s.(picker := RemoveDownloadingPiece(s.picker, p)))
              && piecePicker.Repr == old(piecePicker.Repr)
      ensures incomingPieces == old(incomingPieces)
    {
      hide RemoveDownloadingPiece, IncomingOk, IncomingIs;
      var _ := piecePicker.RemoveDownloadingPiece(p);
    }

    method IsFinished(ghost s: State) returns (finished: bool)
      requires Valid() && Is(s)
      ensures Valid() && Is(s) && finished == Pickers.IsFinished(s.picker)
    {
      hide IncomingOk, IncomingIs;
      finished := piecePicker.IsFinished();
    }

    method WriteFile(at: nat, data: seq<byte>, ghost s: State)
      requires Valid() && Is(s)
      modifies this`file
      ensures Valid() && Is(s.(file := WriteAt(s.file, at, data)))
    {
      hide IncomingOk, IncomingIs, WriteAt;
      file := WriteAt(file, at, data);
    }

    method DropPiece(p: nat, ghost s: State)
      requires Valid() && Is(s)
      modifies this`incomingPieces
      ensures Valid() && Is(s.(incoming := s.incoming - {p}))
      ensures forall q :: q in incomingPieces ==>
                q in old(incomingPieces) && incomingPieces[q] == old(incomingPieces)[q]
    {
      hide HashedToGap;
      incomingPieces := incomingPieces - {p};
    }

    method SendFinished(ghost s: State)
      requires Valid() && Is(s)
      modifies this`finishedSent
      ensures Valid() && Is(s.(finishedSent := true))
    {
      hide IncomingOk, IncomingIs;
      finishedSent := true;
    }

    method PickPieces(peer: Peer, ghost slower: set<Peer>, ghost s: State) returns (blocks: seq<PieceBlock>)
      requires Valid() && Is(s) && SlowerIn(AllDownloaders(piecePicker.Values()), slower, peer)
      modifies piecePicker.Repr
      ensures var slow := peer.Speed == PEER_SPEED_SLOW;
              var picked := Pickers.PickPieces(s.picker, REQUEST_QUEUE_SIZE, peer, slower, slow);
              Valid() && Is(s.(picker := picked.0)) && blocks == picked.1
      ensures fresh(piecePicker.Repr - old(piecePicker.Repr)) && incomingPieces == old(incomingPieces)
    {
      hide IncomingOk, IncomingIs, Pickers.PickPieces, SlowerIn, AllDownloaders;
      blocks := piecePicker.PickPieces(REQUEST_QUEUE_SIZE, peer, slower);
    }

    method StartPiece(p: nat, ghost s: State)
      requires Valid() && Is(s)
      modifies this`incomingPieces
      ensures Valid() && Is(s.(incoming := if p in s.incoming then s.incoming else s.incoming[p := EMPTY]))
    {
      hide IncomingOk, IncomingIs, PiecePicker.Value, PiecePicker.Valid;
      NewPiece(p, s.incoming);
    }

    method NewPiece(p: nat, ghost m: map<nat, Receiving>)
      requires IncomingOk() && IncomingIs(m)
      modifies this`incomingPieces
      ensures IncomingOk() && IncomingIs(if p in m then m else m[p := EMPTY])
      ensures fresh(incomingPieces.Values - old(incomingPieces).Values) && Buffers() <= old(Buffers())
    {
      hide HashedToGap;
      EmptyIsHashed();
      if p !in incomingPieces {
        var rp := new ReceivingPiece(md4);
        AddPiece(p, rp, m);
      }
    }

    method AddPiece(p: nat, rp: ReceivingPiece, ghost m: map<nat, Receiving>)
      requires IncomingOk() && IncomingIs(m) && p !in incomingPieces && rp !in incomingPieces.Values
      requires rp.Value() == EMPTY && rp.blocks == [] && rp.md4 == md4 && HashedToGap(EMPTY)
      modifies this`incomingPieces
      ensures IncomingOk() && IncomingIs(m[p := EMPTY])
      ensures incomingPieces == old(incomingPieces)[p := rp] && Buffers() <= old(Buffers())
    {
      hide HashedToGap;
      incomingPieces := incomingPieces[p := rp];
    }

    method AddRequest(conn: Connection, block: PieceBlock, ghost s: State) returns (begin: nat, end: nat)
      requires Valid() && Is(s) && conn.Valid() && conn !in piecePicker.Repr && block.Start() <= Size
      modifies conn
      ensures Valid() && Is(s) && conn.Valid()
      ensures conn.Requested() == old(conn.Requested()) + [MakePending(block, Size)]
      ensures begin == block.Start() && end == BlockEnd(Size, block)
    {
      hide IncomingOk, IncomingIs, Connection.Valid, Connection.Requested, Connection.Parts;
      begin, end := conn.AddRequest(block, Size);
    }

    // ----- the events

    /** A connection is ready for more requests: what the packet asks for, or without any
        block left that it is closed. */
    method OnPeer(conn: Connection, ghost s: State, ghost c: nat, ghost slower: set<Peer>)
      returns (close: bool, req: RequestParts)
      requires Valid() && Is(s) && conn.Valid() && c < |s.conns| && s.conns[c].requested == conn.Requested()
      requires s.conns[c].peer == conn.peer && SlowerIn(AllDownloaders(piecePicker.Values()), slower, conn.peer)
      requires conn !in piecePicker.Repr && conn.Parts() !! piecePicker.Repr && Inv(md4, s)
      modifies this`incomingPieces, piecePicker.Repr, conn
      ensures var t := DoAsk(s, c, slower, conn.peer.Speed == PEER_SPEED_SLOW);
              && Valid() && Is(t) && conn.Valid() && conn.Requested() == t.conns[c].requested
              && close == !t.conns[c].alive
      ensures AsksFor(req, AskedBlocks(s, c, slower, conn.peer.Speed == PEER_SPEED_SLOW), Size)
    {
      hide AsksFor, Buffers, DoAsk, Pickers.PickPieces, SlowerIn, AllDownloaders, Inv, StartReceiving, Requests;
      ghost var slow := conn.peer.Speed == PEER_SPEED_SLOW;
      AskIs(s, c, slower, slow);
      PickedStart(md4, s, conn.peer, slower, slow);
      AskFitsInv(md4, s, c, slower, slow);
      SameSize(s);
      hide Valid, Is, Connection.Valid, Connection.Requested, Connection.Parts;
      var blocks := PickPieces(conn.peer, slower, s);
      ghost var t := s.(picker := Pickers.PickPieces(s.picker, REQUEST_QUEUE_SIZE, conn.peer, slower, slow).0);
      assert conn.Requested() == old(conn.Requested());
      req := Request(conn, blocks, t);
      IsDespite(t.(incoming := StartReceiving(s.incoming, blocks)), DoAsk(s, c, slower, slow));
      close := |blocks| == 0;
    }

    lemma SameSize(s: State)
      requires Valid() && Is(s)
      ensures s.size == Size
    {
    }

    method Request(conn: Connection, blocks: seq<PieceBlock>, ghost s: State) returns (req: RequestParts)
      requires |blocks| <= PARTS_IN_REQUEST
      requires Valid() && Is(s) && conn.Valid() && conn !in piecePicker.Repr && s.size == Size
      requires forall i :: 0 <= i < |blocks| ==> blocks[i].Start() <= Size
      modifies this`incomingPieces, conn
      ensures Valid() && Is(s.(incoming := StartReceiving(s.incoming, blocks)))
      ensures conn.Valid() && conn.Requested() == old(conn.Requested()) + Requests(blocks, Size)
      ensures AsksFor(req, blocks, Size)
    {
      req := EMPTY_REQUEST;
      hide Valid, Is, Connection.Valid, Connection.Requested, Connection.Parts, MakePending;
      for i := 0 to |blocks|
        invariant Valid() && Is(s.(incoming := StartReceiving(s.incoming, blocks[..i])))
        invariant conn.Valid() && conn.Requested() == old(conn.Requested()) + Requests(blocks[..i], Size)
        invariant AsksFor(req, blocks[..i], Size)
      {
        ghost var m := StartReceiving(s.incoming, blocks[..i]);
        NextBlock(s.incoming, blocks, i, Size);
        StartPiece(blocks[i].pieceIndex, s.(incoming := m));
        var begin, end := AddRequest(conn, blocks[i], s.(incoming := StartReceiving(s.incoming, blocks[..i + 1])));
        req := req.(begin := req.begin[i := begin], end := req.end[i := end]);
      }
      assert blocks[..|blocks|] == blocks;
    }

    /** A hash set arrived. */
    method OnHashSet(hashes: seq<Hash>, ghost s: State)
      requires Valid() && Is(s)
      modifies this`hashSet
      ensures Valid() && Is(Apply(md4, s, ReceiveHashSet(hashes)).state)
    {
      hide IncomingOk, IncomingIs;
      hashSet := Some(hashes);
    }

    /** A block to abort arrived. */
    method OnAbort(block: PieceBlock, peer: Peer, ghost s: State, ghost c: nat)
      requires Valid() && Is(s) && c < |s.conns| && s.conns[c].requested != [] && DoAbort(s, c).Running?
      requires s.conns[c].requested[0].block == block && s.conns[c].peer == peer
      modifies piecePicker.Repr
      ensures Valid() && Is(DoAbort(s, c).state)
    {
      hide Valid, Is, Abort, Look;
      AbortBlock(block, peer, s);
      IsDespite(s.(picker := Abort(s.picker, block, peer)), DoAbort(s, c).state);
    }

    /** A complete block arrived: store and write it, and finish the piece with its last block. */
    method OnData(pb: PendingBlock, ghost s: State)
      requires Valid() && Is(s) && pb.data !in piecePicker.Repr
      requires s.deliveries != [] && s.deliveries[0] == pb.Value() && DoDeliver(md4, s).Running?
      modifies this, piecePicker.Repr, incomingPieces.Values
      ensures Valid() && Is(DoDeliver(md4, s).state)
    {
      SamePieces(s.incoming);
      DeliverIs(md4, s);
      hide Valid, Is, Buffers, DoDeliver, AfterInsert, Inserted, Has, InRange, Look;
      ghost var rest := Rest(s);
      IsDespite(s, rest);
      if pb.block.pieceIndex in incomingPieces {
        ghost var d := s.deliveries[0];
        var inserted := InsertBlock(pb, d, rest);
        if inserted {
          Keep(pb, d, Inserted(rest, d));
        }
      }
    }

    method Keep(pb: PendingBlock, ghost d: Pending, ghost s: State)
      requires pb.Value() == d && Valid() && Is(s) && pb.data !in piecePicker.Repr
               && pb.block.pieceIndex in incomingPieces
      requires pb.block.pieceIndex in s.incoming && InRange(s.picker, pb.block)
               && AfterInsert(md4, s, d.block, d.data).Running?
      requires Listed(s.picker, pb.block.pieceIndex) ==> Look(s.picker, pb.block).requested
      modifies this, piecePicker.Repr
      ensures Valid() && Is(AfterInsert(md4, s, d.block, d.data).state)
    {
      hide Valid, Is, Buffers, DoComplete, WriteAt, Finish, Look, BlocksIn;
      var data := pb.data[..];
      WriteFile(pb.block.Start(), data, s);
      ghost var t := s.(file := WriteAt(s.file, pb.block.Start(), data));
      FinishBlock(pb.block, t);
      t := t.(picker := Finish(t.picker, pb.block));
      var complete := IsComplete(pb.block.pieceIndex, t);
      if complete {
        Complete(pb.block.pieceIndex, t);
      }
    }

    method InsertBlock(pb: PendingBlock, ghost d: Pending, ghost s: State) returns (inserted: bool)
      requires pb.Value() == d && d.block.pieceIndex in s.incoming && Valid() && Is(s) && pb.data !in piecePicker.Repr
               && pb.block.pieceIndex in incomingPieces
      modifies incomingPieces[pb.block.pieceIndex]
      ensures pb.Value() == d && Valid()
              && inserted == !Has(s.incoming[pb.block.pieceIndex].blocks, pb.block.blockIndex)
      ensures Is(if inserted then Inserted(s, d) else s)
    {
      hide IncomingOk, IncomingIs, HashedToGap, ReceivingPieces.Insert, Has;
      inserted := Insert(pb.block.pieceIndex, pb, s.incoming);
    }

    method IsComplete(p: nat, ghost t: State) returns (complete: bool)
      requires Valid() && Is(t) && p in incomingPieces && p in t.incoming
      ensures Valid() && Is(t) && complete == (|t.incoming[p].blocks| == BlocksIn(t.picker, p))
    {
      complete := |incomingPieces[p].blocks| == piecePicker.BlocksInPiece(p);
    }

    /** The hash decides between have and not have; then the piece is marked as have in either case. */
    method Complete(p: nat, ghost t: State)
      requires Valid() && Is(t) && p in incomingPieces && p in t.incoming
      requires DoComplete(md4, t, p, t.incoming[p].hashed).Running?
      modifies this, piecePicker.Repr
      ensures Valid() && Is(DoComplete(md4, t, p, t.incoming[p].hashed).state)
    {
      hide Valid, Is, CanSetHave, Pickers.SetHave, RemoveDownloadingPiece, Pickers.IsFinished;
      ghost var after := DoComplete(md4, t, p, t.incoming[p].hashed).state;
      var matches := HashMatches(p, t);
      ghost var u := t;
      if matches {
        SetHave(p, t);
        u := t.(picker := Pickers.SetHave(t.picker, p));
      } else {
        RemovePiece(p, t);
        u := t.(picker := RemoveDownloadingPiece(t.picker, p));
      }
      var wasFinished := IsFinished(u);
      SetHave(p, u);
      u := u.(picker := Pickers.SetHave(u.picker, p));
      DropPiece(p, u);
      u := u.(incoming := u.incoming - {p});
      var isFinished := IsFinished(u);
      if !wasFinished && isFinished {
        SendFinished(u);
        u := u.(finishedSent := true);
      }
      IsDespite(u, after);
    }

    method HashMatches(p: nat, ghost t: State) returns (matches: bool)
      requires Valid() && Is(t) && p in incomingPieces && p in t.incoming
      requires t.hashSet.Some? && p < |t.hashSet.value|
      ensures Valid() && Is(t) && matches == (md4(t.incoming[p].hashed) == t.hashSet.value[p])
    {
      matches := incomingPieces[p].Hash() == hashSet.value[p];
    }

    /** Only one incoming piece changes. */
    method Insert(p: nat, pb: PendingBlock, ghost m: map<nat, Receiving>) returns (inserted: bool)
      requires IncomingOk() && IncomingIs(m) && p in incomingPieces
      modifies incomingPieces[p]
      ensures IncomingOk()
      ensures inserted == !Has(m[p].blocks, pb.block.blockIndex)
      ensures Buffers() <= old(Buffers()) + {pb.data}
      ensures var stored := Stored(pb.block.blockIndex, pb.data[..]);
              IncomingIs(if inserted then m[p := ReceivingPieces.Insert(m[p], stored)] else m)
    {
      hide HashedToGap, ReceivingPieces.Insert, Has;
      inserted := incomingPieces[p].InsertBlock(pb);
      if !inserted {
        InsertOld(m[p], Stored(pb.block.blockIndex, pb.data[..]));
      }
      forall q | q in incomingPieces && q != p
        ensures incomingPieces[q].Value() == old(incomingPieces[q].Value())
                && incomingPieces[q].blocks == old(incomingPieces[q].blocks)
      {
        assert incomingPieces[q] != incomingPieces[p];
      }
      assert IncomingOk();
      hide IncomingOk;
      ghost var stored := Stored(pb.block.blockIndex, pb.data[..]);
      assert incomingPieces[p].Value() == if inserted then ReceivingPieces.Insert(m[p], stored) else m[p];
    }
  }
}
