/** What a transfer downloads from peers that send the right bytes: exactly the file they
    have (peer_connection.go:239-335 and transfer.go:145-283). */
module TransferHonest {
  import opened Bytes
  import opened Geometry
  import opened Regions
  import opened Peers
  import opened PendingBlocks
  import opened Pickers
  import opened ReceivingPieces
  import opened Transfers
  import opened TransferSafety
  import opened TransferResults
  import opened RestartSafety
  import opened TransferProgress
  import opened TransferEnds

  /** Every byte of the request is missing or the target's. */
  ghost predicate HonestPending(size: nat, target: seq<byte>, p: Pending)
    requires |target| == size
  {
    && GoodRequest(size, p) && Sorted(p.segs)
    && forall x: nat :: p.block.Start() <= x < p.block.Start() + |p.data| && x < size
                        ==> Covers(p.segs, x) || p.data[x - p.block.Start()] == target[x]
  }

  ghost predicate HonestRequests(s: State, target: seq<byte>)
    requires |target| == s.size
  {
    forall c, p :: 0 <= c < |s.conns| && p in s.conns[c].requested ==> HonestPending(s.size, target, p)
  }

  ghost predicate HonestQueue(s: State, target: seq<byte>) {
    forall d :: d in s.deliveries ==> OnDisk(s.size, target, d.block, d.data)
  }

  function Identity(bytes: seq<byte>): Hash {
    bytes
  }

  /** The bytes of the target for the pieces we have. */
  function Exact(size: nat, pk: Picker, target: seq<byte>): map<nat, Hash>
    requires |target| == size && Representable(size) && |pk.pieces| == NumPiecesAndBlocks(size).pieces
  {
    PiecesInFile(size);
    map p: nat | p < |pk.pieces| && Have(pk, p) :: target[p * PIECE_SIZE..PieceEnd(size, p)]
  }

  /** All that was received is the target's: what is stored, in the queue, in the buffers and in the file. */
  ghost predicate Honest(s: State, target: seq<byte>) {
    && |target| == s.size && Shape(s)
    && HonestRequests(s, target) && HonestQueue(s, target)
    && IncomingOk(s.size, s.picker, s.incoming, target)
    && VerifiedOk(Identity, s.size, s.picker, s.file, Exact(s.size, s.picker, target))
  }

  // ----- buffers

  lemma MadeIsHonest(size: nat, target: seq<byte>, b: PieceBlock)
    requires Representable(size) && |target| == size && IsBlockOf(size, b)
    ensures HonestPending(size, target, MakePending(b, size))
  {
    BlockBounds(size, b);
    var p := MakePending(b, size);
    forall x: nat | b.Start() <= x < b.Start() + |p.data|
      ensures Covers(p.segs, x)
    {
      assert Holds(p.segs[0], x);
    }
  }

  lemma ChunkStart(p: Pending, c: Chunk)
    requires FromOffset(c.begin) == p.block
    ensures c.begin == p.block.Start() + InBlockOffset(c.begin)
  {
    OffsetInItsBlock(c.begin);
    FromOffsetStart(p.block, c.begin - p.block.Start());
  }

  /** One byte of the buffer after a chunk. */
  lemma ReceivedByte(p: Pending, c: Chunk, k: nat)
    requires Fits(p, c.begin, |c.bytes|) && k < |p.data|
    ensures var at := InBlockOffset(c.begin);
            |ReceiveChunk(p, c).data| == |p.data|
            && ReceiveChunk(p, c).data[k] == if at <= k < at + |c.bytes| then c.bytes[k - at] else p.data[k]
  {
    hide SubAll;
  }

  lemma ReceivedSegments(p: Pending, c: Chunk, x: int)
    requires Fits(p, c.begin, |c.bytes|) && Sorted(p.segs)
    ensures Sorted(ReceiveChunk(p, c).segs)
    ensures Covers(ReceiveChunk(p, c).segs, x) <==> Covers(p.segs, x) && !(c.begin <= x < c.begin + |c.bytes|)
  {
    SubAllRemoves(p.segs, Range(c.begin, c.begin + |c.bytes|));
    hide Overlay;
  }

  lemma ReceivedByteIsHonest(size: nat, target: seq<byte>, p: Pending, c: Chunk, k: nat)
    requires |target| == size && Sorted(p.segs) && HonestChunk(target, c) && FromOffset(c.begin) == p.block
    requires Fits(p, c.begin, |c.bytes|) && k < |p.data| && p.block.Start() + k < size
    requires Covers(p.segs, p.block.Start() + k) || p.data[k] == target[p.block.Start() + k]
    ensures var q := ReceiveChunk(p, c);
            |q.data| == |p.data| && (Covers(q.segs, p.block.Start() + k) || q.data[k] == target[p.block.Start() + k])
  {
    ChunkStart(p, c);
    ReceivedByte(p, c, k);
    ReceivedSegments(p, c, p.block.Start() + k);
    hide ReceiveChunk, Covers, Sorted, InBlockOffset, Fits, PieceBlock.Start;
  }

  lemma ReceivedShape(p: Pending, c: Chunk)
    requires Fits(p, c.begin, |c.bytes|)
    ensures ReceiveChunk(p, c).block == p.block && |ReceiveChunk(p, c).data| == |p.data|
  {
    hide SubAll;
  }

  lemma ReceivedIsHonest(size: nat, target: seq<byte>, p: Pending, c: Chunk)
    requires |target| == size && HonestPending(size, target, p) && HonestChunk(target, c)
    requires FromOffset(c.begin) == p.block && Fits(p, c.begin, |c.bytes|)
    ensures HonestPending(size, target, ReceiveChunk(p, c))
  {
    hide ReceiveChunk, InBlockOffset, Fits, Covers, Sorted, IsBlockOf, BlockLength, HonestChunk, FromOffset,
         PieceBlock.Start;
    var q, start := ReceiveChunk(p, c), p.block.Start();
    ReceivedSegments(p, c, 0);
    ReceivedShape(p, c);
    forall x: nat | start <= x < start + |p.data| && x < size
      ensures Covers(q.segs, x) || q.data[x - start] == target[x]
    {
      ReceivedByteIsHonest(size, target, p, c, x - start);
    }
  }

  /** A part cut short is as honest as a whole one: it only covers less. */
  lemma TakenIsHonest(size: nat, target: seq<byte>, p: Pending, part: Part)
    requires |target| == size && HonestPending(size, target, p) && HonestPart(target, part)
    requires FromOffset(part.begin) == p.block && HasSlice(p, part)
    ensures HonestPending(size, target, TakePart(p, part))
  {
    hide ReceiveChunk, IsBlockOf, BlockLength, HonestChunk, FromOffset, HonestPending;
    if CutShort(part) {
      CutIsHonest(size, target, p, part);
    } else {
      ReceivedIsHonest(size, target, p, Arriving(part));
    }
  }

  lemma CutByteIsHonest(target: seq<byte>, p: Pending, part: Part, k: nat)
    requires HonestPart(target, part) && FromOffset(part.begin) == p.block && HasSlice(p, part) && CutShort(part)
    requires k < |p.data| && p.block.Start() + k < |target|
    ensures |TakePart(p, part).data| == |p.data|
    ensures TakePart(p, part).data[k] == p.data[k] || TakePart(p, part).data[k] == target[p.block.Start() + k]
  {
    ChunkStart(p, Arriving(part));
    hide PieceBlock.Start, InBlockOffset, FromOffset;
    assert Arriving(part).bytes == part.bytes;
  }

  lemma CutShape(p: Pending, part: Part)
    requires HasSlice(p, part) && CutShort(part)
    ensures var q := TakePart(p, part); q.block == p.block && q.segs == p.segs && |q.data| == |p.data|
  {
  }

  lemma CutIsHonest(size: nat, target: seq<byte>, p: Pending, part: Part)
    requires |target| == size && HonestPending(size, target, p) && HonestPart(target, part)
    requires FromOffset(part.begin) == p.block && HasSlice(p, part) && CutShort(part)
    ensures HonestPending(size, target, TakePart(p, part))
  {
    hide TakePart, Covers, Sorted, IsBlockOf, BlockLength, FromOffset, HonestPart, PieceBlock.Start, HasSlice, CutShort;
    var start, q := p.block.Start(), TakePart(p, part);
    CutShape(p, part);
    forall x: nat | start <= x < start + |p.data| && x < size
      ensures Covers(q.segs, x) || q.data[x - start] == target[x]
    {
      CutByteIsHonest(target, p, part, x - start);
    }
  }

  lemma CompleteIsTarget(size: nat, target: seq<byte>, p: Pending)
    requires Representable(size) && |target| == size && HonestPending(size, target, p) && p.segs == []
    ensures OnDisk(size, target, p.block, p.data)
  {
    BlockBounds(size, p.block);
    var slice := target[p.block.Start()..BlockEnd(size, p.block)];
    forall k | 0 <= k < |slice|
      ensures slice[k] == p.data[k]
    {
      assert !Covers(p.segs, p.block.Start() + k);
    }
    assert slice == p.data;
  }

  // ----- steps

  lemma SameExact(s: State, t: State, target: seq<byte>)
    requires |target| == s.size && Shape(s) && t.size == s.size && t.file == s.file && t.incoming == s.incoming
    requires SamePieces(s.picker, t.picker) && IncomingOk(s.size, s.picker, s.incoming, target)
    requires VerifiedOk(Identity, s.size, s.picker, s.file, Exact(s.size, s.picker, target))
    ensures Shape(t) && IncomingOk(t.size, t.picker, t.incoming, target)
    ensures VerifiedOk(Identity, t.size, t.picker, t.file, Exact(t.size, t.picker, target))
  {
    hide Look, Listed, Have, IncomingOk, VerifiedOk;
    IncomingSame(s.(file := target), t.picker);
    assert Exact(t.size, t.picker, target) == Exact(s.size, s.picker, target);
    VerifiedSame(Identity, s.(verified := Exact(s.size, s.picker, target)), t.picker);
  }

  /** Another set of connections, with honest requests. */
  lemma ConnsHonest(s: State, t: State, target: seq<byte>)
    requires Honest(s, target) && t.size == s.size && HonestRequests(t, target) && HonestQueue(t, target)
    requires SamePieces(s.picker, t.picker) && t.file == s.file && t.incoming == s.incoming
    ensures Honest(t, target)
  {
    hide SamePieces, IncomingOk, VerifiedOk, HonestRequests, HonestQueue, Exact, Shape;
    SameExact(s, t, target);
  }

  lemma AskHonest(md4: seq<byte> -> Hash, s: State, target: seq<byte>, c: nat, slower: set<Peer>, slow: bool)
    requires Inv(md4, s) && Honest(s, target) && c < |s.conns|
    ensures Honest(DoAsk(s, c, slower, slow), target)
  {
    var peer, n, t := s.conns[c].peer, REQUEST_QUEUE_SIZE, DoAsk(s, c, slower, slow);
    AskRequestsHonest(s, target, c, slower, slow);
    AskKeepsPicker(s, c, slower, slow);
    PickKeepsHave(s, n, peer, slower, slow);
    IncomingAfterPick(s.(file := target), n, peer, slower, slow);
    assert t.deliveries == s.deliveries && t.size == s.size && t.file == s.file by {
      hide PickPieces, StartReceiving;
    }
    hide Inv, PickPieces, StartReceiving, IncomingOk, VerifiedOk, HonestRequests, Have, Pickers.WellFormed, Sized;
    assert Exact(t.size, t.picker, target) == Exact(s.size, s.picker, target);
    VerifiedSame(Identity, s.(verified := Exact(s.size, s.picker, target)), t.picker);
  }

  lemma AskRequestsHonest(s: State, target: seq<byte>, c: nat, slower: set<Peer>, slow: bool)
    requires PickerOk(s) && |target| == s.size && HonestRequests(s, target) && c < |s.conns|
    ensures HonestRequests(DoAsk(s, c, slower, slow), target)
  {
    PickedAreOfFile(s, REQUEST_QUEUE_SIZE, s.conns[c].peer, slower, slow);
    hide PickPieces, StartReceiving, IsBlockOf, HonestPending, MakePending;
    var t := DoAsk(s, c, slower, slow);
    var blocks := PickPieces(s.picker, REQUEST_QUEUE_SIZE, s.conns[c].peer, slower, slow).1;
    forall d, p | 0 <= d < |t.conns| && p in t.conns[d].requested
      ensures HonestPending(t.size, target, p)
    {
      if d == c && p in Requests(blocks, s.size) {
        var i :| 0 <= i < |blocks| && Requests(blocks, s.size)[i] == p;
        assert blocks[i] in blocks;
        MadeIsHonest(s.size, target, blocks[i]);
      } else {
        assert p in s.conns[d].requested;
      }
    }
  }

  lemma ReceiveHonest(s: State, target: seq<byte>, c: nat, part: Part)
    requires Honest(s, target) && HonestPart(target, part) && c < |s.conns| && DoReceive(s, c, part).Running?
    ensures Honest(DoReceive(s, c, part).state, target)
  {
    hide HonestPending, HonestPart, IncomingOk, VerifiedOk, Exact, TakePart, OnDisk, HasSlice, CutShort, FromOffset;
    var ps, t := s.conns[c].requested, DoReceive(s, c, part).state;
    var i := FindRequest(ps, FromOffset(part.begin));
    assert SamePieces(s.picker, s.picker);
    if i == |ps| {
      assert t == s.(conns := s.conns[c := s.conns[c].(alive := false)]);
    } else {
      assert ps[i] in ps;
      TakenIsHonest(s.size, target, ps[i], part);
      var pb := TakePart(ps[i], part);
      if CutShort(part) {
        assert t.conns == s.conns[c := s.conns[c].(requested := ps[i := pb], alive := false)];
      } else if pb.segs == [] {
        CompleteIsTarget(s.size, target, pb);
        assert forall x :: x in RemoveAt(ps, i) ==> x in ps;
        assert t.deliveries == s.deliveries + [pb];
        assert t.conns == s.conns[c := s.conns[c].(requested := RemoveAt(ps, i))];
      } else {
        assert t.deliveries == s.deliveries && t.conns == s.conns[c := s.conns[c].(requested := ps[i := pb])];
      }
    }
    ReceiveKeepsRest(s, c, part);
    hide DoReceive, SamePieces, FindRequest;
    ConnsHonest(s, t, target);
  }

  lemma ReceiveKeepsRest(s: State, c: nat, part: Part)
    requires c < |s.conns| && DoReceive(s, c, part).Running?
    ensures var t := DoReceive(s, c, part).state;
            t == s.(conns := t.conns, deliveries := t.deliveries)
  {
    hide TakePart, HasSlice;
  }

  lemma AbortHonest(md4: seq<byte> -> Hash, s: State, target: seq<byte>, c: nat)
    requires Inv(md4, s) && Honest(s, target) && c < |s.conns| && s.conns[c].requested != []
    requires DoAbort(s, c).Running?
    ensures Honest(DoAbort(s, c).state, target)
  {
    var b, t := s.conns[c].requested[0].block, DoAbort(s, c).state;
    AbortSamePieces(s.picker, b, s.conns[c].peer);
    hide Inv, Abort, IncomingOk, VerifiedOk, Exact, SamePieces, HonestPending, OnDisk, InRange;
    assert t.conns == s.conns[c := s.conns[c].(requested := s.conns[c].requested[1..])];
    ConnsHonest(s, t, target);
  }

  lemma StoreHonest(s: State, target: seq<byte>)
    requires Honest(s, target) && s.deliveries != [] && NewBlock(s, s.deliveries[0])
    ensures Honest(AfterStore(Rest(s), s.deliveries[0]), target)
  {
    var pb := s.deliveries[0];
    var u, t := AfterStore(Rest(s), pb), AfterStore(s, pb);
    var before := s.(verified := Exact(s.size, s.picker, target));
    StoreAgrees(s, pb, target);
    StoreKeepsVerified(Identity, before, pb);
    AfterStoreRest(s);
    StoreShape(s, target);
    assert u.conns == s.conns && u.deliveries == s.deliveries[1..] && u.file == t.file
        && AfterStore(before, pb).verified == before.verified by {
      hide Insert, WriteAt, Finish;
    }
    hide Insert, WriteAt, Finish, NewBlock, IncomingOk, VerifiedOk, Exact, HonestPending, OnDisk, Shape;
  }

  lemma StoreShape(s: State, target: seq<byte>)
    requires |target| == s.size && Shape(s) && s.deliveries != [] && NewBlock(s, s.deliveries[0])
    ensures var u := AfterStore(Rest(s), s.deliveries[0]);
            Shape(u) && Exact(u.size, u.picker, target) == Exact(s.size, s.picker, target)
  {
    AfterStoreRest(s);
    FinishShape(s, s.deliveries[0], 0);
    assert AfterStore(s, s.deliveries[0]).size == s.size by {
      hide Insert, WriteAt, Finish, Look, NewBlock;
    }
    hide Insert, WriteAt, Finish, Look, Listed, Have, IncomingOk, NewBlock, AfterStore, PickerOk, PieceEnd;
    forall p: nat
      ensures Have(AfterStore(s, s.deliveries[0]).picker, p) <==> Have(s.picker, p)
    {
      FinishShape(s, s.deliveries[0], p);
    }
    SameHave(s.size, s.picker, AfterStore(s, s.deliveries[0]).picker, target);
  }

  lemma SameHave(size: nat, pk: Picker, after: Picker, target: seq<byte>)
    requires |target| == size && Representable(size)
    requires |after.pieces| == |pk.pieces| == NumPiecesAndBlocks(size).pieces
    requires forall q: nat :: Have(after, q) <==> Have(pk, q)
    ensures Exact(size, after, target) == Exact(size, pk, target)
  {
    hide Have, PieceEnd, NumPiecesAndBlocks;
  }

  lemma ExactGrows(size: nat, pk: Picker, after: Picker, target: seq<byte>, p: nat)
    requires |target| == size && Representable(size)
    requires |after.pieces| == |pk.pieces| == NumPiecesAndBlocks(size).pieces && p < |pk.pieces|
    requires forall q: nat :: Have(after, q) <==> Have(pk, q) || q == p
    ensures p * PIECE_SIZE <= PieceEnd(size, p) <= size
    ensures Exact(size, after, target) == Exact(size, pk, target)[p := target[p * PIECE_SIZE..PieceEnd(size, p)]]
  {
    hide Have, PieceEnd, NumPiecesAndBlocks;
    PiecesInFile(size);
  }

  lemma CompletedHaves(u: State, p: nat, hash: Hash)
    requires Full(u, p) && Listed(u.picker, p)
    ensures var after := Completed(u, p, hash).picker;
            && (forall q: nat :: Have(after, q) <==> Have(u.picker, q) || q == p)
            && after.pieces == u.picker.pieces && after.blocksInLastPiece == u.picker.blocksInLastPiece
  {
    RemoveShape(u.picker, p);
    FullIsWellFormed(u, p);
    hide RemovePiece, Have, Full;
    forall q: nat
      ensures Have(RemovePiece(u.picker, p), q) <==> Have(u.picker, q) || q == p
    {
      CompleteHaves(u.picker, p, q);
    }
  }

  lemma CompleteHonest(u: State, target: seq<byte>, p: nat, hash: Hash)
    requires Honest(u, target) && Full(u, p) && Listed(u.picker, p)
    ensures Honest(Completed(u, p, hash), target)
  {
    var t, exact := Completed(u, p, hash), Exact(u.size, u.picker, target);
    CompleteAgrees(u, p, target);
    CompleteKeepsVerified(Identity, u.(verified := exact), p);
    FullPieceIsHashed(u.(file := target), p);
    ListedInFile(u, p);
    CompletedHaves(u, p, hash);
    hide RemovePiece, IncomingOk, VerifiedOk, HonestPending, OnDisk, Have, Look, PickerOk, Exact;
    ExactGrows(u.size, u.picker, t.picker, target, p);
  }

  lemma FullIsWellFormed(u: State, p: nat)
    requires Full(u, p)
    ensures Pickers.WellFormed(u.picker)
  {
  }

  lemma DeliverHonest(md4: seq<byte> -> Hash, s: State, target: seq<byte>)
    requires Inv(md4, s) && Honest(s, target) && s.deliveries != [] && DoDeliver(md4, s).Running?
    ensures Honest(DoDeliver(md4, s).state, target)
  {
    DeliverCases(md4, s);
    var b := s.deliveries[0].block;
    if b.pieceIndex in s.incoming && !Has(s.incoming[b.pieceIndex].blocks, b.blockIndex) {
      hide Inv, DoDeliver, Has, Look, DoComplete, NewBlock, AfterStore, Full, LastOfPiece, Completed, Honest;
      StoreHonest(s, target);
      if LastOfPiece(s, b) {
        var u := AfterStore(Rest(s), s.deliveries[0]);
        LastOutcome(md4, s);
        CompleteHonest(u, target, b.pieceIndex, md4(u.incoming[b.pieceIndex].hashed));
      }
    } else {
      hide Inv, DoDeliver, Has, Look, IncomingOk, VerifiedOk, Exact, HonestPending, OnDisk, Shape;
    }
  }

  lemma StepHonest(md4: seq<byte> -> Hash, s: State, step: Step, target: seq<byte>)
    requires Inv(md4, s) && Honest(s, target) && HonestStep(target, step) && Apply(md4, s, step).Running?
    ensures Honest(Apply(md4, s, step).state, target)
  {
    hide DoAsk, DoAbort, DoReceive, DoDeliver, Inv, IncomingOk, VerifiedOk, Exact, HonestPending, OnDisk, HonestPart;
    match step
    case Ask(c, slower, slow) =>
      if c < |s.conns| {
        AskHonest(md4, s, target, c, slower, slow);
      }
    case AbortNext(c) =>
      if c < |s.conns| && !s.conns[c].alive && s.conns[c].requested != [] {
        AbortHonest(md4, s, target, c);
      }
    case ReceivePart(c, part) =>
      if c < |s.conns| && s.conns[c].alive {
        ReceiveHonest(s, target, c, part);
      }
    case Deliver =>
      if s.deliveries != [] {
        DeliverHonest(md4, s, target);
      }
    case _ =>
  }

  lemma {:induction false} RunHonest(md4: seq<byte> -> Hash, s: State, steps: seq<Step>, target: seq<byte>)
    requires Inv(md4, s) && Honest(s, target) && forall x :: x in steps ==> HonestStep(target, x)
    ensures var o := Run(md4, s, steps); o.Running? ==> Inv(md4, o.state) && Honest(o.state, target)
  {
    hide Apply, Inv, Honest, HonestStep;
    if steps != [] {
      var step := steps[|steps| - 1];
      RunHonest(md4, s, steps[..|steps| - 1], target);
      var before := Run(md4, s, steps[..|steps| - 1]);
      if before.Running? && Apply(md4, before.state, step).Running? {
        StepKeeps(md4, before.state, step);
        StepHonest(md4, before.state, step, target);
      }
    }
  }

  lemma InitHonest(size: nat, file: seq<byte>, target: seq<byte>)
    requires Representable(size) && |target| == size
    ensures Honest(Init(size, file), target)
  {
    var s := Init(size, file);
    if 0 < size {
      ShapeOf(size);
    }
    forall p: nat
      ensures !Listed(s.picker, p) && !Have(s.picker, p)
    {
    }
    assert Exact(size, s.picker, target) == map[];
  }

  // ----- what was downloaded

  /** The pieces of two byte sequences cover the file. */
  lemma AllPiecesSame(size: nat, file: seq<byte>, target: seq<byte>)
    requires Representable(size) && |target| == size
    requires forall p: nat :: p < NumPiecesAndBlocks(size).pieces ==>
               && p * PIECE_SIZE <= PieceEnd(size, p) <= |file| && PieceEnd(size, p) <= size
               && file[p * PIECE_SIZE..PieceEnd(size, p)] == target[p * PIECE_SIZE..PieceEnd(size, p)]
    ensures size <= |file| && file[..size] == target
  {
    if 0 < size {
      ShapeOf(size);
      var n := NumPiecesAndBlocks(size).pieces;
      assert PieceEnd(size, n - 1) == size;
      forall x | 0 <= x < size
        ensures file[x] == target[x]
      {
        var p := x / PIECE_SIZE;
        assert p < n && p * PIECE_SIZE <= x < PieceEnd(size, p);
        assert file[p * PIECE_SIZE..PieceEnd(size, p)][x - p * PIECE_SIZE] == file[x];
        assert target[p * PIECE_SIZE..PieceEnd(size, p)][x - p * PIECE_SIZE] == target[x];
      }
    }
  }

  lemma HonestPieces(s: State, target: seq<byte>, p: nat)
    requires Honest(s, target) && Have(s.picker, p)
    ensures p * PIECE_SIZE <= PieceEnd(s.size, p) <= |s.file| && PieceEnd(s.size, p) <= s.size
    ensures s.file[p * PIECE_SIZE..PieceEnd(s.size, p)] == target[p * PIECE_SIZE..PieceEnd(s.size, p)]
  {
    PiecesInFile(s.size);
    assert p in Exact(s.size, s.picker, target);
  }

  /** Whatever a run of honest peers has completed is the target's, byte for byte, and a
      finished transfer is the whole target, whatever the hash sets were. */
  lemma HonestDownloadIsExact(md4: seq<byte> -> Hash, size: nat, file: seq<byte>, target: seq<byte>, steps: seq<Step>,
          s: State)
    requires Reaches(md4, size, file, steps, s) && |target| == size && forall x :: x in steps ==> HonestStep(target, x)
    ensures forall p: nat :: Have(s.picker, p) ==>
              && p * PIECE_SIZE <= PieceEnd(size, p) <= |s.file| && PieceEnd(size, p) <= size
              && s.file[p * PIECE_SIZE..PieceEnd(size, p)] == target[p * PIECE_SIZE..PieceEnd(size, p)]
    ensures IsFinished(s.picker) ==> size <= |s.file| && s.file[..size] == target
  {
    InitHolds(md4, size, file);
    InitHonest(size, file, target);
    RunHonest(md4, Init(size, file), steps, target);
    RunKeepsSize(md4, Init(size, file), steps);
    HonestIsExact(md4, s, target);
  }

  lemma HonestIsExact(md4: seq<byte> -> Hash, s: State, target: seq<byte>)
    requires Inv(md4, s) && Honest(s, target)
    ensures forall p: nat :: Have(s.picker, p) ==>
              && p * PIECE_SIZE <= PieceEnd(s.size, p) <= |s.file| && PieceEnd(s.size, p) <= s.size
              && s.file[p * PIECE_SIZE..PieceEnd(s.size, p)] == target[p * PIECE_SIZE..PieceEnd(s.size, p)]
    ensures IsFinished(s.picker) ==> s.size <= |s.file| && s.file[..s.size] == target
  {
    FinishedIffAllHave(s.picker);
    hide Inv, Honest, Have, IsFinished, PieceEnd;
    forall p: nat | Have(s.picker, p)
      ensures p * PIECE_SIZE <= PieceEnd(s.size, p) <= |s.file| && PieceEnd(s.size, p) <= s.size
      ensures s.file[p * PIECE_SIZE..PieceEnd(s.size, p)] == target[p * PIECE_SIZE..PieceEnd(s.size, p)]
    {
      HonestPieces(s, target, p);
    }
    if IsFinished(s.picker) {
      HonestShape(s, target);
      AllPiecesSame(s.size, s.file, target);
    }
  }

  lemma HonestShape(s: State, target: seq<byte>)
    requires Honest(s, target)
    ensures Representable(s.size) && |target| == s.size && |s.picker.pieces| == NumPiecesAndBlocks(s.size).pieces
  {
  }

  ghost predicate HonestHashes(md4: seq<byte> -> Hash, target: seq<byte>, step: Step) {
    step.ReceiveHashSet? ==> HashesOf(md4, target, step.hashes)
  }

  ghost predicate KnowsHashes(md4: seq<byte> -> Hash, s: State, target: seq<byte>) {
    s.hashSet.Some? ==> HashesOf(md4, target, s.hashSet.value)
  }

  lemma DeliverNeverMismatches(md4: seq<byte> -> Hash, s: State, target: seq<byte>)
    requires Inv(md4, s) && Honest(s, target) && KnowsHashes(md4, s, target) && s.deliveries != []
    ensures var o := DoDeliver(md4, s); o.Panic? ==> o.reason == NoHashSet
  {
    DeliverCases(md4, s);
    var b := s.deliveries[0].block;
    if b.pieceIndex in s.incoming && !Has(s.incoming[b.pieceIndex].blocks, b.blockIndex) && LastOfPiece(s, b) {
      var u := AfterStore(Rest(s), s.deliveries[0]);
      AfterStoreRest(s);
      hide Inv, DoDeliver, Has, Look, NewBlock, AfterStore, Full, LastOfPiece, Completed;
      StoreHonest(s, target);
      LastOutcome(md4, s);
      if u.hashSet.Some? {
        LastHashAgrees(md4, u, b.pieceIndex, target);
      }
    } else {
      hide Inv, DoDeliver, Has, Look;
    }
  }

  lemma StepNeverMismatches(md4: seq<byte> -> Hash, s: State, step: Step, target: seq<byte>)
    requires Inv(md4, s) && Honest(s, target) && KnowsHashes(md4, s, target) && HonestHashes(md4, target, step)
    ensures var o := Apply(md4, s, step);
            if o.Panic? then o.reason in {SliceBounds, NoHashSet} else KnowsHashes(md4, o.state, target)
  {
    hide DoAsk, DoAbort, DoReceive, DoDeliver, Inv, Honest, HashesOf;
    if Apply(md4, s, step).Running? {
      hide Apply;
      StepHashSet(md4, s, step);
    } else {
      match step
      case Ask(c, slower, slow) =>
        AskFitsInv(md4, s, c, slower, slow);
      case AbortNext(c) =>
        AbortKeeps(md4, s, c);
      case ReceivePart(c, part) =>
        ReceiveFits(s, c, part);
      case Deliver =>
        DeliverNeverMismatches(md4, s, target);
      case _ =>
    }
  }

  /** When the peers' data and hash sets are both the target's, a run can only panic over a part
      that does not fit its block, or because a piece is complete before any hash set has come. */
  lemma {:induction false} HonestNeverMismatches(md4: seq<byte> -> Hash, size: nat, file: seq<byte>, target: seq<byte>,
          steps: seq<Step>)
    requires Representable(size) && |target| == size
    requires forall x :: x in steps ==> HonestStep(target, x) && HonestHashes(md4, target, x)
    ensures var o := Run(md4, Init(size, file), steps);
            if o.Panic? then o.reason in {SliceBounds, NoHashSet} else KnowsHashes(md4, o.state, target)
  {
    hide Apply, Inv, Honest, HonestStep, HonestHashes, KnowsHashes;
    if steps == [] {
      NoHashesYet(md4, size, file, target);
    } else {
      var front, step := steps[..|steps| - 1], steps[|steps| - 1];
      HonestNeverMismatches(md4, size, file, target, front);
      InitHolds(md4, size, file);
      InitHonest(size, file, target);
      RunHonest(md4, Init(size, file), front, target);
      var before := Run(md4, Init(size, file), front);
      if before.Running? {
        StepNeverMismatches(md4, before.state, step, target);
      }
    }
  }

  lemma NoHashesYet(md4: seq<byte> -> Hash, size: nat, file: seq<byte>, target: seq<byte>)
    ensures KnowsHashes(md4, Init(size, file), target)
  {
  }

  /** And from wherever such a run got to, honest peers can complete the target. */
  lemma HonestCanFinish(md4: seq<byte> -> Hash, size: nat, file: seq<byte>, target: seq<byte>, steps: seq<Step>,
          s: State, peer: Peer) returns (more: seq<Step>)
    requires Reaches(md4, size, file, steps, s) && |target| == size && forall x :: x in steps ==> HonestStep(target, x)
    ensures forall x :: x in more ==> HonestStep(target, x) && HonestHashes(md4, target, x)
    ensures var o := Run(md4, s, more);
            o.Running? && IsFinished(o.state.picker) && size <= |o.state.file| && o.state.file[..size] == target
  {
    InitHolds(md4, size, file);
    InitIsOpen(size, file);
    InitHonest(size, file, target);
    RunHonest(md4, Init(size, file), steps, target);
    RunKeepsSize(md4, Init(size, file), steps);
    hide Run, Inv, Honest, IsFinished, LastIsCounted, NoFull, HonestStep, Agrees;
    RunStaysOpen(md4, Init(size, file), steps);
    HonestAgrees(s, target);
    more := CanFinishWith(md4, s, target, peer);
    RunHonest(md4, s, more, target);
    RunKeepsSize(md4, s, more);
    HonestIsExact(md4, Run(md4, s, more).state, target);
  }

  lemma HonestAgrees(s: State, target: seq<byte>)
    requires Honest(s, target)
    ensures Agrees(s, target)
  {
  }
}
