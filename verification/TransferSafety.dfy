/** What every run of the transfer protocol keeps: requests are counted, stored
    blocks are on disk, and finished pieces hold what was verified. */
module TransferSafety {
  import opened Bytes
  import opened Geometry
  import BitFields
  import opened Regions
  import opened Peers
  import opened PendingBlocks
  import opened DownloadingPieces
  import opened Pickers
  import opened ReceivingPieces
  import opened Transfers

  // ----- outstanding requests

  function BlockSeq(ps: seq<Pending>): seq<PieceBlock> {
    seq(|ps|, i requires 0 <= i < |ps| => ps[i].block)
  }

  function BlocksOf(ps: seq<Pending>): multiset<PieceBlock> {
    multiset(BlockSeq(ps))
  }

  function ConnBlocks(conns: seq<Conn>): multiset<PieceBlock> {
    if conns == [] then multiset{} else ConnBlocks(conns[..|conns| - 1]) + BlocksOf(conns[|conns| - 1].requested)
  }

  /** The requests peers hold, dead ones included, and the blocks waiting to be delivered. */
  function Outstanding(s: State): multiset<PieceBlock> {
    ConnBlocks(s.conns) + BlocksOf(s.deliveries)
  }

  lemma BlocksConcat(a: seq<Pending>, b: seq<Pending>)
    ensures BlocksOf(a + b) == BlocksOf(a) + BlocksOf(b)
  {
    assert BlockSeq(a + b) == BlockSeq(a) + BlockSeq(b);
  }

  lemma BlocksTail(ps: seq<Pending>)
    requires ps != []
    ensures BlocksOf(ps) == multiset{ps[0].block} + BlocksOf(ps[1..])
  {
    assert ps == [ps[0]] + ps[1..];
    BlocksConcat([ps[0]], ps[1..]);
    assert BlockSeq([ps[0]]) == [ps[0].block];
  }

  lemma RemoveAtMultiset<T>(s: seq<T>, i: nat)
    requires i < |s|
    ensures multiset(s) == multiset(RemoveAt(s, i)) + multiset{s[i]}
  {
    var n := |s| - 1;
    if i == n {
      assert RemoveAt(s, i) == s[..n] && s == s[..n] + [s[n]];
    } else {
      var a, m := s[..i], s[i + 1..n];
      assert s == a + [s[i]] + m + [s[n]];
      assert RemoveAt(s, i) == a + [s[n]] + m;
      assert multiset(s) == multiset(a) + multiset{s[i]} + multiset(m) + multiset{s[n]};
      assert multiset(RemoveAt(s, i)) == multiset(a) + multiset{s[n]} + multiset(m);
    }
  }

  lemma BlocksRemoveAt(ps: seq<Pending>, i: nat)
    requires i < |ps|
    ensures BlocksOf(ps) == BlocksOf(RemoveAt(ps, i)) + multiset{ps[i].block}
  {
    assert BlockSeq(RemoveAt(ps, i)) == RemoveAt(BlockSeq(ps), i);
    RemoveAtMultiset(BlockSeq(ps), i);
  }

  lemma BlocksUpdate(ps: seq<Pending>, i: nat, p: Pending)
    requires i < |ps| && p.block == ps[i].block
    ensures BlocksOf(ps[i := p]) == BlocksOf(ps)
  {
    assert BlockSeq(ps[i := p]) == BlockSeq(ps);
  }

  lemma {:induction false} ConnBlocksUpdate(conns: seq<Conn>, c: nat, x: Conn)
    requires c < |conns|
    ensures ConnBlocks(conns[c := x]) + BlocksOf(conns[c].requested) == ConnBlocks(conns) + BlocksOf(x.requested)
  {
    var n := |conns| - 1;
    if c == n {
      assert conns[c := x][..n] == conns[..n];
    } else {
      ConnBlocksUpdate(conns[..n], c, x);
      assert conns[c := x][..n] == conns[..n][c := x];
      var before, after, last := ConnBlocks(conns[..n]), ConnBlocks(conns[..n][c := x]), BlocksOf(conns[n].requested);
      assert (after + last) + BlocksOf(conns[c].requested) == (after + BlocksOf(conns[c].requested)) + last;
      assert (before + last) + BlocksOf(x.requested) == (before + BlocksOf(x.requested)) + last;
    }
  }

  lemma {:induction false} ConnHolds(conns: seq<Conn>, c: nat, i: nat)
    requires c < |conns| && i < |conns[c].requested|
    ensures conns[c].requested[i].block in ConnBlocks(conns)
  {
    var n := |conns| - 1;
    if c == n {
      assert BlockSeq(conns[c].requested)[i] == conns[c].requested[i].block;
    } else {
      ConnHolds(conns[..n], c, i);
    }
  }

  /** Replacing one connection and the delivery queue: removed goes, added comes. */
  lemma OutstandingUpdate(s: State, t: State, c: nat, removed: multiset<PieceBlock>, added: multiset<PieceBlock>)
    requires c < |s.conns| == |t.conns| && t.conns == s.conns[c := t.conns[c]]
    requires BlocksOf(t.conns[c].requested) + BlocksOf(t.deliveries) + removed
             == BlocksOf(s.conns[c].requested) + BlocksOf(s.deliveries) + added
    ensures Outstanding(t) + removed == Outstanding(s) + added
  {
    ConnBlocksUpdate(s.conns, c, t.conns[c]);
    hide ConnBlocks, BlocksOf;
    forall b
      ensures (Outstanding(t) + removed)[b] == (Outstanding(s) + added)[b]
    {
      assert (ConnBlocks(t.conns) + BlocksOf(s.conns[c].requested))[b]
          == (ConnBlocks(s.conns) + BlocksOf(t.conns[c].requested))[b];
      assert (BlocksOf(t.conns[c].requested) + BlocksOf(t.deliveries) + removed)[b]
             == (BlocksOf(s.conns[c].requested) + BlocksOf(s.deliveries) + added)[b];
    }
  }

  // ----- the invariant

  /** A restarted transfer has lost the block count of its last piece. */
  predicate Shape(s: State) {
    var shape := NumPiecesAndBlocks(s.size);
    && Representable(s.size) && |s.picker.pieces| == shape.pieces
    && (s.picker.blocksInLastPiece == shape.blocksInLastPiece || s.picker.blocksInLastPiece == 0)
  }

  ghost predicate PickerOk(s: State) {
    && Shape(s) && WellFormed(s.picker) && Sized(s.picker)
  }

  predicate GoodRequest(size: nat, p: Pending) {
    IsBlockOf(size, p.block) && |p.data| == BlockLength(size, p.block)
  }

  ghost predicate AllGood(size: nat, ps: seq<Pending>) {
    forall p :: p in ps ==> GoodRequest(size, p)
  }

  ghost predicate RequestsOk(s: State) {
    && (forall c :: 0 <= c < |s.conns| ==> AllGood(s.size, s.conns[c].requested))
    && AllGood(s.size, s.deliveries)
  }

  /** The downloaders of an unfinished block are its outstanding requests. */
  ghost predicate Counted(pk: Picker, outstanding: multiset<PieceBlock>) {
    && AllCountsOk(pk)
    && (forall b :: b in outstanding ==> b.blockIndex < BlocksIn(pk, b.pieceIndex))
    && forall b :: !Look(pk, b).finished ==> Look(pk, b).downloadersCount == outstanding[b]
  }

  predicate OnDisk(size: nat, file: seq<byte>, b: PieceBlock, data: seq<byte>) {
    b.Start() <= BlockEnd(size, b) <= |file| && file[b.Start()..BlockEnd(size, b)] == data
  }

  /** The stored blocks of a piece are its finished ones, and each is on disk. */
  ghost predicate PieceOk(size: nat, pk: Picker, file: seq<byte>, p: nat, rp: Receiving) {
    && HashedToGap(rp)
    && (forall k: nat :: k in Contents(rp.blocks) <==> k < BlocksIn(pk, p) && Look(pk, PieceBlock(p, k)).finished)
    && (forall k: nat :: k in Contents(rp.blocks) ==> OnDisk(size, file, PieceBlock(p, k), Contents(rp.blocks)[k]))
  }

  /** Incoming are the listed pieces; one without blocks need not be. */
  ghost predicate IncomingOk(size: nat, pk: Picker, incoming: map<nat, Receiving>, file: seq<byte>) {
    && (forall p: nat :: p in incoming ==> Listed(pk, p))
    && (forall p: nat :: Listed(pk, p) && 0 < BlocksIn(pk, p) ==> p in incoming)
    && (forall p: nat :: p in incoming ==> PieceOk(size, pk, file, p, incoming[p]))
  }

  /** The bytes of the piece are in the file and hash to the given value. */
  predicate PieceVerified(md4: seq<byte> -> Hash, size: nat, file: seq<byte>, p: nat, hash: Hash) {
    && p * PIECE_SIZE <= PieceEnd(size, p) <= |file|
    && md4(file[p * PIECE_SIZE..PieceEnd(size, p)]) == hash
  }

  ghost predicate VerifiedOk(md4: seq<byte> -> Hash, size: nat, pk: Picker, file: seq<byte>, verified: map<nat, Hash>) {
    && (forall p: nat :: p in verified <==> Have(pk, p))
    && (forall p: nat :: p in verified ==> PieceVerified(md4, size, file, p, verified[p]))
  }

  ghost predicate Inv(md4: seq<byte> -> Hash, s: State) {
    && PickerOk(s)
    && RequestsOk(s)
    && Counted(s.picker, Outstanding(s))
    && IncomingOk(s.size, s.picker, s.incoming, s.file)
    && VerifiedOk(md4, s.size, s.picker, s.file, s.verified)
    && !s.finishedSent
  }

  ghost predicate Kept(md4: seq<byte> -> Hash, s: State, o: Outcome) {
    if o.Running? then Inv(md4, o.state) else o.reason in {SliceBounds, NoHashSet, NoPieceHash, PieceBitClear}
  }

  lemma InitHolds(md4: seq<byte> -> Hash, size: nat, file: seq<byte>)
    requires Representable(size)
    ensures Inv(md4, Init(size, file))
  {
    var s := Init(size, file);
    if size != 0 {
      ShapeOf(size);
    }
    forall p: nat
      ensures !Listed(s.picker, p) && !Have(s.picker, p)
    {
    }
    assert BlockSeq([]) == [];
    assert Outstanding(s) == multiset{};
  }

  // ----- asking for work

  lemma PickedAreOfFile(s: State, n: int, peer: Peer, slower: set<Peer>, slow: bool)
    requires PickerOk(s)
    ensures forall b :: b in PickPieces(s.picker, n, peer, slower, slow).1 ==> IsBlockOf(s.size, b)
  {
    PickPiecesPicks(s.picker, n, peer, slower, slow);
    forall b | b in PickPieces(s.picker, n, peer, slower, slow).1
      ensures IsBlockOf(s.size, b)
    {
      assert CanPick(Look(s.picker, b), peer, slower, !slow);
    }
  }

  lemma {:induction false} DistinctCounts(bs: seq<PieceBlock>, b: PieceBlock)
    requires Distinct(bs)
    ensures multiset(bs)[b] == if b in bs then 1 else 0
  {
    if bs != [] {
      var n := |bs| - 1;
      DistinctCounts(bs[..n], b);
      assert bs == bs[..n] + [bs[n]];
    }
  }

  lemma AvailableIsInRange(pk: Picker, b: PieceBlock, peer: Peer, slower: set<Peer>, endGame: bool)
    requires WellFormed(pk) && Sized(pk) && CanPick(Look(pk, b), peer, slower, endGame)
    ensures b.blockIndex < BlocksIn(pk, b.pieceIndex) && b.pieceIndex < |pk.pieces|
  {
  }

  lemma CountedAfterPick(pk: Picker, out: multiset<PieceBlock>, n: int, peer: Peer, slower: set<Peer>, slow: bool)
    requires WellFormed(pk) && Sized(pk) && Counted(pk, out)
    ensures var (after, res) := PickPieces(pk, n, peer, slower, slow);
            Counted(after, out + multiset(res))
  {
    PickPiecesPicks(pk, n, peer, slower, slow);
    PickKeepsCounts(pk, n, peer, slower, slow);
    var (after, res) := PickPieces(pk, n, peer, slower, slow);
    PickStartsUsedPieces(pk, n, peer, slower, slow);
    forall b | b in res
      ensures b.blockIndex < BlocksIn(pk, b.pieceIndex)
    {
      AvailableIsInRange(pk, b, peer, slower, !slow);
    }
    hide PickPieces, Look;
    forall b | !Look(after, b).finished
      ensures Look(after, b).downloadersCount == (out + multiset(res))[b]
    {
      DistinctCounts(res, b);
      if b in res {
        assert CanPick(Look(pk, b), peer, slower, !slow);
      }
    }
  }

  lemma RequestsBlocks(blocks: seq<PieceBlock>, size: nat)
    ensures BlocksOf(Requests(blocks, size)) == multiset(blocks)
  {
    assert BlockSeq(Requests(blocks, size)) == blocks;
  }

  lemma {:induction false} StartReceivingAdds(incoming: map<nat, Receiving>, blocks: seq<PieceBlock>, p: nat)
    ensures p in StartReceiving(incoming, blocks)
            <==> p in incoming || exists b: PieceBlock :: b in blocks && b.pieceIndex == p
    ensures p in StartReceiving(incoming, blocks) ==>
              StartReceiving(incoming, blocks)[p] == if p in incoming then incoming[p] else EMPTY
  {
    if blocks != [] {
      var n := |blocks| - 1;
      StartReceivingAdds(incoming, blocks[..n], p);
      assert forall b :: b in blocks <==> b in blocks[..n] || b == blocks[n];
    }
  }

  lemma IncomingAfterPick(s: State, n: int, peer: Peer, slower: set<Peer>, slow: bool)
    requires PickerOk(s) && IncomingOk(s.size, s.picker, s.incoming, s.file)
    ensures var (after, res) := PickPieces(s.picker, n, peer, slower, slow);
            IncomingOk(s.size, after, StartReceiving(s.incoming, res), s.file)
  {
    var pk := s.picker;
    PickPiecesPicks(pk, n, peer, slower, slow);
    PickStartsUsedPieces(pk, n, peer, slower, slow);
    var (after, res) := PickPieces(pk, n, peer, slower, slow);
    var incoming := StartReceiving(s.incoming, res);
    hide PickPieces, PieceOk, Pickers.WellFormed, Sized, Untouched, Look, StartReceiving, Picked;
    forall p: nat
      ensures p in incoming ==> Listed(after, p)
      ensures Listed(after, p) && 0 < BlocksIn(after, p) ==> p in incoming
      ensures p in incoming ==> PieceOk(s.size, after, s.file, p, incoming[p])
    {
      StartReceivingAdds(s.incoming, res, p);
      PickedPieceIsListed(pk, after, res, peer, slower, !slow, p);
      assert StartedIfUsed(pk, after, res, p);
      if p in incoming {
        PieceOkAfterPick(s, after, res, peer, slower, !slow, p, incoming[p]);
      }
    }
  }

  lemma PickedPieceIsListed(pk: Picker, after: Picker, res: seq<PieceBlock>, peer: Peer, slower: set<Peer>,
          endGame: bool, p: nat)
    requires Picked(pk, after, res, peer, slower, endGame)
    ensures (exists b: PieceBlock :: b in res && b.pieceIndex == p) ==> Listed(after, p)
  {
    if b: PieceBlock :| b in res && b.pieceIndex == p {
      assert Look(after, b) == Take(Look(pk, b), peer);
    }
  }

  lemma PieceOkAfterPick(s: State, after: Picker, res: seq<PieceBlock>, peer: Peer, slower: set<Peer>, endGame: bool,
          p: nat, rp: Receiving)
    requires IncomingOk(s.size, s.picker, s.incoming, s.file)
    requires Picked(s.picker, after, res, peer, slower, endGame)
    requires |after.pieces| == |s.picker.pieces| && after.blocksInLastPiece == s.picker.blocksInLastPiece
    requires rp == if p in s.incoming then s.incoming[p] else EMPTY
    requires p in s.incoming || Untouched(s.picker, p)
    ensures PieceOk(s.size, after, s.file, p, rp)
  {
    forall k: nat
      ensures Look(after, PieceBlock(p, k)).finished == Look(s.picker, PieceBlock(p, k)).finished
    {
      var b := PieceBlock(p, k);
      assert b in res ==> Look(after, b) == Take(Look(s.picker, b), peer);
    }
  }

  lemma VerifiedSame(md4: seq<byte> -> Hash, s: State, after: Picker)
    requires VerifiedOk(md4, s.size, s.picker, s.file, s.verified)
    requires forall p: nat :: Have(after, p) <==> Have(s.picker, p)
    ensures VerifiedOk(md4, s.size, after, s.file, s.verified)
  {
  }

  lemma AskKeepsRequests(s: State, c: nat, slower: set<Peer>, slow: bool)
    requires PickerOk(s) && RequestsOk(s) && c < |s.conns|
    ensures RequestsOk(DoAsk(s, c, slower, slow))
  {
    PickedAreOfFile(s, REQUEST_QUEUE_SIZE, s.conns[c].peer, slower, slow);
    hide PickPieces, StartReceiving, IsBlockOf;
    var blocks := PickPieces(s.picker, REQUEST_QUEUE_SIZE, s.conns[c].peer, slower, slow).1;
    forall x | x in Requests(blocks, s.size)
      ensures GoodRequest(s.size, x)
    {
      var i :| 0 <= i < |blocks| && Requests(blocks, s.size)[i] == x;
      assert blocks[i] in blocks;
    }
  }

  lemma AskKeepsPicker(s: State, c: nat, slower: set<Peer>, slow: bool)
    requires PickerOk(s) && c < |s.conns|
    ensures PickerOk(DoAsk(s, c, slower, slow))
  {
    PickPiecesPicks(s.picker, REQUEST_QUEUE_SIZE, s.conns[c].peer, slower, slow);
    PickStartsUsedPieces(s.picker, REQUEST_QUEUE_SIZE, s.conns[c].peer, slower, slow);
    hide PickPieces, StartReceiving, Picked, StartedIfUsed, Pickers.WellFormed, Sized;
  }

  lemma AskKeeps(md4: seq<byte> -> Hash, s: State, c: nat, slower: set<Peer>, slow: bool)
    requires Inv(md4, s) && c < |s.conns|
    ensures Inv(md4, DoAsk(s, c, slower, slow))
  {
    var peer, n := s.conns[c].peer, REQUEST_QUEUE_SIZE;
    PickKeepsHave(s, n, peer, slower, slow);
    IncomingAfterPick(s, n, peer, slower, slow);
    CountedAfterPick(s.picker, Outstanding(s), n, peer, slower, slow);
    VerifiedSame(md4, s, PickPieces(s.picker, n, peer, slower, slow).0);
    AskedOutstanding(s, c, slower, slow);
    AskKeepsRequests(s, c, slower, slow);
    AskKeepsPicker(s, c, slower, slow);
    hide PickPieces, Counted, IncomingOk, VerifiedOk, Shape, Pickers.WellFormed, Sized, StartReceiving, Outstanding,
         RequestsOk, Have;
  }

  /** The offsets of one ask fit the slots of the packet. */
  lemma AskFits(s: State, c: nat, slower: set<Peer>, slow: bool)
    requires Pickers.WellFormed(s.picker) && c < |s.conns|
    ensures |AskedBlocks(s, c, slower, slow)| <= PARTS_IN_REQUEST
  {
    PickPiecesPicks(s.picker, REQUEST_QUEUE_SIZE, s.conns[c].peer, slower, slow);
  }

  /** An ask fills the slots of the packet, or asks for all that is on offer to the peer; for a slow
      one that is the free blocks. A peer that gets nothing is closed. */
  lemma AskFillsSlots(s: State, c: nat, slower: set<Peer>, slow: bool)
    requires PickerOk(s) && c < |s.conns|
    ensures var before, after := s.conns[c], DoAsk(s, c, slower, slow).conns[c];
            var offered := if slow then FreeBlocks(s.picker)
                           else AvailableBlocks(s.picker, before.peer, slower, true);
            && |after.requested| == |before.requested| + Min(PARTS_IN_REQUEST, |offered|)
            && after.requested[..|before.requested|] == before.requested
            && (forall i :: |before.requested| <= i < |after.requested| ==>
                  after.requested[i] == MakePending(after.requested[i].block, s.size)
                  && after.requested[i].block in offered)
            && (after.alive <==> offered != {})
  {
    hide PickPieces, AvailableBlocks, FreeBlocks, StartReceiving, Pickers.WellFormed, Sized, Shape;
    var peer, n := s.conns[c].peer, REQUEST_QUEUE_SIZE;
    PickPiecesExact(s.picker, n, peer, slower, slow);
    if slow {
      SlowPickTakesFreeBlocks(s.picker, n, peer, slower);
    }
    hide PickerOk;
    RequestsAre(s.conns[c].requested, AskedBlocks(s, c, slower, slow), s.size);
  }

  lemma RequestsAre(before: seq<Pending>, blocks: seq<PieceBlock>, size: nat)
    ensures var after := before + Requests(blocks, size);
            && after[..|before|] == before
            && forall i :: |before| <= i < |after| ==>
                 after[i] == MakePending(after[i].block, size) && after[i].block in blocks
  {
    var after := before + Requests(blocks, size);
    forall i | |before| <= i < |after|
      ensures after[i] == MakePending(after[i].block, size) && after[i].block in blocks
    {
      assert after[i] == MakePending(blocks[i - |before|], size);
    }
  }

  lemma AskedOutstanding(s: State, c: nat, slower: set<Peer>, slow: bool)
    requires c < |s.conns|
    ensures Outstanding(DoAsk(s, c, slower, slow))
            == Outstanding(s) + multiset(PickPieces(s.picker, REQUEST_QUEUE_SIZE, s.conns[c].peer, slower, slow).1)
  {
    hide PickPieces, StartReceiving;
    var t := DoAsk(s, c, slower, slow);
    var blocks := PickPieces(s.picker, REQUEST_QUEUE_SIZE, s.conns[c].peer, slower, slow).1;
    BlocksConcat(s.conns[c].requested, Requests(blocks, s.size));
    RequestsBlocks(blocks, s.size);
    OutstandingUpdate(s, t, c, multiset{}, multiset(blocks));
  }

  lemma PickKeepsHave(s: State, n: int, peer: Peer, slower: set<Peer>, slow: bool)
    requires PickerOk(s)
    ensures var after := PickPieces(s.picker, n, peer, slower, slow).0;
            && after.blocksInLastPiece == s.picker.blocksInLastPiece
            && forall p: nat :: Have(after, p) <==> Have(s.picker, p)
  {
    PickStartsUsedPieces(s.picker, n, peer, slower, slow);
    var (after, res) := PickPieces(s.picker, n, peer, slower, slow);
    forall p: nat
      ensures Have(after, p) <==> Have(s.picker, p)
    {
      assert StartedIfUsed(s.picker, after, res, p);
    }
  }

  // ----- receiving a part

  lemma ReceiveKeepsRequests(s: State, c: nat, part: Part)
    requires RequestsOk(s) && c < |s.conns| && DoReceive(s, c, part).Running?
    ensures var t := DoReceive(s, c, part).state;
            && RequestsOk(t) && Outstanding(t) == Outstanding(s)
            && t == s.(conns := t.conns, deliveries := t.deliveries)
  {
    hide SubAll, BlocksOf, Outstanding;
    var conn := s.conns[c];
    var i := FindRequest(conn.requested, FromOffset(part.begin));
    var t := DoReceive(s, c, part).state;
    if i < |conn.requested| {
      var pb := TakePart(conn.requested[i], part);
      assert GoodRequest(s.size, conn.requested[i]) && GoodRequest(s.size, pb);
      if !CutShort(part) && pb.segs == [] {
        BlocksRemoveAt(conn.requested, i);
        BlocksConcat(s.deliveries, [pb]);
        BlocksOne(pb);
        assert forall x :: x in RemoveAt(conn.requested, i) ==> x in conn.requested;
      } else {
        BlocksUpdate(conn.requested, i, pb);
      }
    }
    OutstandingUpdate(s, t, c, multiset{}, multiset{});
    assert Outstanding(t) + multiset{} == Outstanding(t) && Outstanding(s) + multiset{} == Outstanding(s);
  }

  lemma BlocksOne(p: Pending)
    ensures BlocksOf([p]) == multiset{p.block}
  {
    assert BlockSeq([p]) == [p.block];
  }

  lemma ReceiveFits(s: State, c: nat, part: Part)
    requires c < |s.conns|
    ensures DoReceive(s, c, part).Panic? ==> DoReceive(s, c, part).reason == SliceBounds
    ensures var ps := s.conns[c].requested;
            var i := FindRequest(ps, FromOffset(part.begin));
            DoReceive(s, c, part).Panic? <==> i < |ps| && !HasSlice(ps[i], part)
  {
  }

  /** Receiving panics exactly on a part that starts in a block the peer was asked for and
      ends before its begin, or behind the end of that block in the file. */
  lemma ReceivePanicsIff(md4: seq<byte> -> Hash, s: State, c: nat, part: Part)
    requires Inv(md4, s) && c < |s.conns|
    ensures DoReceive(s, c, part).Panic? <==>
            exists x :: x in s.conns[c].requested && x.block.Start() <= part.begin < x.block.Start() + BLOCK_SIZE
                && (part.end < part.begin || BlockEnd(s.size, x.block) < part.end)
  {
    hide Counted, IncomingOk, VerifiedOk, Pickers.WellFormed, Sized, Outstanding, DoReceive;
    var ps, b := s.conns[c].requested, FromOffset(part.begin);
    ReceiveFits(s, c, part);
    forall x | x in ps
      ensures x.block.Start() <= part.begin < x.block.Start() + BLOCK_SIZE <==> x.block == b
      ensures x.block == b ==> (HasSlice(x, part) <==> part.begin <= part.end <= BlockEnd(s.size, b))
    {
      RequestedPart(s.size, x, part.begin);
    }
    if x :| x in ps && x.block == b {
      var k :| 0 <= k < |ps| && ps[k] == x;
      FirstRequest(ps, b, k);
    }
  }

  lemma RequestedPart(size: nat, x: Pending, begin: nat)
    requires Representable(size) && GoodRequest(size, x)
    ensures x.block.Start() <= begin < x.block.Start() + BLOCK_SIZE <==> x.block == FromOffset(begin)
    ensures x.block == FromOffset(begin) ==>
              InBlockOffset(begin) == begin - x.block.Start() && |x.data| == BlockEnd(size, x.block) - x.block.Start()
  {
    OffsetInItsBlock(begin);
    BlockBounds(size, x.block);
    if x.block.Start() <= begin < x.block.Start() + BLOCK_SIZE {
      FromOffsetStart(x.block, begin - x.block.Start());
    }
  }

  lemma ReceiveKeeps(md4: seq<byte> -> Hash, s: State, c: nat, part: Part)
    requires Inv(md4, s) && c < |s.conns|
    ensures Kept(md4, s, DoReceive(s, c, part))
  {
    ReceiveFits(s, c, part);
    hide Counted, IncomingOk, VerifiedOk, Pickers.WellFormed, Sized, SubAll, Outstanding, RequestsOk, DoReceive;
    if DoReceive(s, c, part).Running? {
      ReceiveKeepsRequests(s, c, part);
    }
  }

  // ----- aborting

  lemma AbortLook(pk: Picker, b: PieceBlock, peer: Peer, x: PieceBlock)
    requires Pickers.WellFormed(pk) && InRange(pk, b)
    ensures Look(Abort(pk, b, peer), x)
            == if Listed(pk, b.pieceIndex) && x == b then AbortBlockState(Look(pk, b), peer) else Look(pk, x)
    ensures !Listed(pk, b.pieceIndex) ==> Look(pk, b) == DONE || Look(pk, b) == FRESH
    ensures BlocksIn(Abort(pk, b, peer), x.pieceIndex) == BlocksIn(pk, x.pieceIndex)
  {
    if Listed(pk, b.pieceIndex) {
      UpdateLook(pk, b, AbortBlockState(Look(pk, b), peer));
    }
  }

  lemma CountedAfterAbort(pk: Picker, out: multiset<PieceBlock>, b: PieceBlock, peer: Peer)
    requires Pickers.WellFormed(pk) && InRange(pk, b) && Counted(pk, out) && b in out
    ensures Counted(Abort(pk, b, peer), out - multiset{b})
  {
    var after := Abort(pk, b, peer);
    hide Look, Abort, Pickers.WellFormed, Listed, BlocksIn;
    forall x: PieceBlock
      ensures CountsOk(Look(after, x)) && BlocksIn(after, x.pieceIndex) == BlocksIn(pk, x.pieceIndex)
      ensures !Look(after, x).finished ==> Look(after, x).downloadersCount == (out - multiset{b})[x]
    {
      AbortLook(pk, b, peer, x);
      assert CountsOk(Look(pk, x)) && CountsOk(Look(pk, b));
    }
  }

  /** Aborting changes which blocks are requested, not which pieces are listed or finished. */
  lemma AbortKeepsFinished(pk: Picker, b: PieceBlock, peer: Peer, p: nat)
    requires Pickers.WellFormed(pk) && InRange(pk, b)
    ensures var after := Abort(pk, b, peer);
            && Pickers.WellFormed(after) && (Sized(pk) ==> Sized(after))
            && after.pieces == pk.pieces && after.blocksInLastPiece == pk.blocksInLastPiece
            && (Listed(after, p) <==> Listed(pk, p))
            && (Have(after, p) <==> Have(pk, p))
            && forall x :: Look(after, x).finished == Look(pk, x).finished
  {
    var after := Abort(pk, b, peer);
    if Listed(pk, b.pieceIndex) {
      UpdateLook(pk, b, AbortBlockState(Look(pk, b), peer));
      IndexSame(pk.downloading, after.downloading, p);
    }
  }

  lemma IncomingSame(s: State, after: Picker)
    requires IncomingOk(s.size, s.picker, s.incoming, s.file)
    requires |after.pieces| == |s.picker.pieces| && after.blocksInLastPiece == s.picker.blocksInLastPiece
    requires forall p: nat :: Listed(after, p) <==> Listed(s.picker, p)
    requires forall x :: Look(after, x).finished == Look(s.picker, x).finished
    ensures IncomingOk(s.size, after, s.incoming, s.file)
  {
    hide Look, Listed, HashedToGap, OnDisk, Contents;
    forall p: nat
      ensures BlocksIn(after, p) == BlocksIn(s.picker, p)
      ensures p in s.incoming ==> PieceOk(s.size, after, s.file, p, s.incoming[p])
    {
      assert p in s.incoming ==> PieceOk(s.size, s.picker, s.file, p, s.incoming[p]);
    }
  }

  lemma AbortKeepsRequests(s: State, c: nat)
    requires RequestsOk(s) && c < |s.conns| && s.conns[c].requested != [] && DoAbort(s, c).Running?
    ensures var t := DoAbort(s, c).state;
            var b := s.conns[c].requested[0].block;
            && RequestsOk(t) && b in Outstanding(s) && Outstanding(t) == Outstanding(s) - multiset{b}
            && t == s.(conns := t.conns, picker := Abort(s.picker, b, s.conns[c].peer))
  {
    hide Abort, BlocksOf, ConnBlocks, Listed;
    var conn, t := s.conns[c], DoAbort(s, c).state;
    ConnHolds(s.conns, c, 0);
    BlocksTail(conn.requested);
    var b := conn.requested[0].block;
    OutstandingUpdate(s, t, c, multiset{b}, multiset{});
    assert b in Outstanding(s);
    hide Outstanding;
    assert Outstanding(s) + multiset{} == Outstanding(s);
    assert Outstanding(t) == Outstanding(t) + multiset{b} - multiset{b};
  }

  lemma AbortKeeps(md4: seq<byte> -> Hash, s: State, c: nat)
    requires Inv(md4, s) && c < |s.conns| && s.conns[c].requested != []
    ensures DoAbort(s, c).Running? && Inv(md4, DoAbort(s, c).state)
  {
    var peer, b := s.conns[c].peer, s.conns[c].requested[0].block;
    assert s.conns[c].requested[0] in s.conns[c].requested;
    ConnHolds(s.conns, c, 0);
    RequestInRange(s, b);
    var picker := Abort(s.picker, b, peer);
    AbortKeepsFinished(s.picker, b, peer, 0);
    hide Abort, Look, HashedToGap, Pickers.WellFormed, Sized;
    forall p: nat
      ensures Listed(picker, p) <==> Listed(s.picker, p)
      ensures Have(picker, p) <==> Have(s.picker, p)
    {
      AbortKeepsFinished(s.picker, b, peer, p);
    }
    IncomingSame(s, picker);
    VerifiedSame(md4, s, picker);
    hide IncomingOk, VerifiedOk, Outstanding, RequestsOk, Counted;
    AbortKeepsRequests(s, c);
    CountedAfterAbort(s.picker, Outstanding(s), b, peer);
  }

  lemma RequestInRange(s: State, b: PieceBlock)
    requires PickerOk(s) && Counted(s.picker, Outstanding(s)) && b in Outstanding(s) && IsBlockOf(s.size, b)
    ensures InRange(s.picker, b) && b.blockIndex < BlocksIn(s.picker, b.pieceIndex) && b.pieceIndex < |s.picker.pieces|
  {
  }

  // ----- delivering a block

  lemma CountedAfterDrop(pk: Picker, out: multiset<PieceBlock>, b: PieceBlock)
    requires Counted(pk, out) && Look(pk, b).finished
    ensures Counted(pk, out - multiset{b})
  {
  }

  lemma CountedAfterFinish(pk: Picker, out: multiset<PieceBlock>, b: PieceBlock)
    requires Pickers.WellFormed(pk) && Counted(pk, out) && Listed(pk, b.pieceIndex) && InRange(pk, b)
             && Look(pk, b).requested
    ensures Counted(Finish(pk, b), out - multiset{b})
  {
    var after := Finish(pk, b);
    UpdateLook(pk, b, FinishBlockState(Look(pk, b)));
    hide Look, Update;
    forall x
      ensures CountsOk(Look(after, x))
      ensures !Look(after, x).finished ==> Look(after, x).downloadersCount == (out - multiset{b})[x]
    {
      assert CountsOk(Look(pk, x));
    }
  }

  lemma CountedAfterRemove(pk: Picker, out: multiset<PieceBlock>, piece: nat)
    requires Pickers.WellFormed(pk) && Counted(pk, out) && Listed(pk, piece)
    ensures Counted(RemovePiece(pk, piece), out)
  {
    RemovePieceLook(pk, piece);
    hide Look, RemovePiece;
    forall x: PieceBlock
      ensures CountsOk(Look(RemovePiece(pk, piece), x))
    {
      assert CountsOk(Look(pk, x));
    }
  }

  lemma DeliverKeepsRequests(s: State)
    requires RequestsOk(s) && s.deliveries != []
    ensures var t := s.(deliveries := s.deliveries[1..]);
            var pb := s.deliveries[0];
            && RequestsOk(t) && GoodRequest(s.size, pb)
            && pb.block in Outstanding(s) && Outstanding(t) == Outstanding(s) - multiset{pb.block}
  {
    var pb := s.deliveries[0];
    assert pb in s.deliveries;
    BlocksTail(s.deliveries);
    var b, a, rest := pb.block, ConnBlocks(s.conns), BlocksOf(s.deliveries[1..]);
    assert a + (multiset{b} + rest) - multiset{b} == a + rest;
  }

  /** A block that is not stored was counted, so finishing it does not panic. */
  lemma DeliveredIsRequestedOrFinished(s: State, b: PieceBlock)
    requires PickerOk(s) && Counted(s.picker, Outstanding(s)) && IncomingOk(s.size, s.picker, s.incoming, s.file)
    requires b in Outstanding(s) && IsBlockOf(s.size, b)
    ensures b.pieceIndex !in s.incoming || Has(s.incoming[b.pieceIndex].blocks, b.blockIndex)
            ==> Look(s.picker, b).finished
    ensures b.pieceIndex in s.incoming && !Has(s.incoming[b.pieceIndex].blocks, b.blockIndex) ==>
              && !Look(s.picker, b).finished && Look(s.picker, b).requested && Listed(s.picker, b.pieceIndex)
              && b.blockIndex !in Contents(s.incoming[b.pieceIndex].blocks)
  {
    var p, k := b.pieceIndex, b.blockIndex;
    assert b == PieceBlock(p, k);
    RequestInRange(s, b);
    if p in s.incoming {
      assert PieceOk(s.size, s.picker, s.file, p, s.incoming[p]);
      HasIffStored(s.incoming[p].blocks, k);
      assert CountsOk(Look(s.picker, b));
    } else {
      assert Look(s.picker, b) == DONE || Look(s.picker, b) == FRESH;
    }
  }

  lemma WriteKeepsBlock(size: nat, file: seq<byte>, b: PieceBlock, data: seq<byte>, x: PieceBlock, dx: seq<byte>)
    requires Representable(size) && IsBlockOf(size, b) && IsBlockOf(size, x) && x != b
    requires |data| <= BlockLength(size, b) && OnDisk(size, file, x, dx)
    ensures OnDisk(size, WriteAt(file, b.Start(), data), x, dx)
  {
    BlockBounds(size, b);
    BlocksDisjoint(size, x, b);
    var after := WriteAt(file, b.Start(), data);
    assert after[x.Start()..BlockEnd(size, x)] == file[x.Start()..BlockEnd(size, x)];
  }

  lemma WriteStoresBlock(size: nat, file: seq<byte>, b: PieceBlock, data: seq<byte>)
    requires Representable(size) && IsBlockOf(size, b) && |data| == BlockLength(size, b)
    ensures OnDisk(size, WriteAt(file, b.Start(), data), b, data)
  {
    BlockBounds(size, b);
  }

  lemma WriteKeepsPiece(md4: seq<byte> -> Hash, size: nat, file: seq<byte>, b: PieceBlock, data: seq<byte>, p: nat,
          hash: Hash)
    requires Representable(size) && IsBlockOf(size, b) && |data| <= BlockLength(size, b)
    requires p != b.pieceIndex && PieceVerified(md4, size, file, p, hash)
    ensures PieceVerified(md4, size, WriteAt(file, b.Start(), data), p, hash)
  {
    BlockBounds(size, b);
    var after := WriteAt(file, b.Start(), data);
    assert if p < b.pieceIndex then (p + 1) * PIECE_SIZE <= b.pieceIndex * PIECE_SIZE
           else (b.pieceIndex + 1) * PIECE_SIZE <= p * PIECE_SIZE;
    assert after[p * PIECE_SIZE..PieceEnd(size, p)] == file[p * PIECE_SIZE..PieceEnd(size, p)];
  }

  /** The state after a new block was stored, written and finished. */
  function AfterStore(s: State, pb: Pending): State
    requires pb.block.pieceIndex in s.incoming && InRange(s.picker, pb.block)
  {
    var b := pb.block;
    s.(incoming := s.incoming[b.pieceIndex := Insert(s.incoming[b.pieceIndex], Stored(b.blockIndex, pb.data))],
       file := WriteAt(s.file, b.Start(), pb.data),
       picker := Finish(s.picker, b))
  }

  ghost predicate NewBlock(s: State, pb: Pending) {
    var b := pb.block;
    && PickerOk(s) && GoodRequest(s.size, pb) && IncomingOk(s.size, s.picker, s.incoming, s.file)
    && b.pieceIndex in s.incoming && b.blockIndex !in Contents(s.incoming[b.pieceIndex].blocks)
    && InRange(s.picker, b) && Listed(s.picker, b.pieceIndex)
  }

  lemma FinishShape(s: State, pb: Pending, p: nat)
    requires NewBlock(s, pb)
    ensures var t := AfterStore(s, pb);
            && PickerOk(t) && t.picker.pieces == s.picker.pieces
                && t.picker.blocksInLastPiece == s.picker.blocksInLastPiece
            && (Listed(t.picker, p) <==> Listed(s.picker, p)) && (Have(t.picker, p) <==> Have(s.picker, p))
            && forall x :: Look(t.picker, x).finished == (x == pb.block || Look(s.picker, x).finished)
  {
    var t := AfterStore(s, pb);
    UpdateLook(s.picker, pb.block, FinishBlockState(Look(s.picker, pb.block)));
    IndexSame(s.picker.downloading, t.picker.downloading, p);
  }

  /** The contents of a piece after the new block: one more block in its own piece. */
  lemma StoredContents(s: State, pb: Pending, p: nat)
    requires NewBlock(s, pb) && p in s.incoming
    ensures var before, after := s.incoming[p], AfterStore(s, pb).incoming[p];
            && HashedToGap(after)
            && Contents(after.blocks) == if p != pb.block.pieceIndex then Contents(before.blocks)
                                         else Contents(before.blocks)[pb.block.blockIndex := pb.data]
  {
    assert PieceOk(s.size, s.picker, s.file, p, s.incoming[p]);
    if p == pb.block.pieceIndex {
      InsertKeepsFirst(s.incoming[p], Stored(pb.block.blockIndex, pb.data));
    }
  }

  lemma StoredOnDisk(s: State, pb: Pending, p: nat, k: nat)
    requires NewBlock(s, pb) && p in s.incoming && k in Contents(AfterStore(s, pb).incoming[p].blocks)
    ensures OnDisk(s.size, AfterStore(s, pb).file, PieceBlock(p, k), Contents(AfterStore(s, pb).incoming[p].blocks)[k])
  {
    hide Insert, WriteAt, Finish, Look, HashedToGap, Contents, OnDisk, Sized, Pickers.WellFormed;
    StoredContents(s, pb, p);
    var b, x := pb.block, PieceBlock(p, k);
    assert PieceOk(s.size, s.picker, s.file, p, s.incoming[p]);
    if x == b {
      WriteStoresBlock(s.size, s.file, b, pb.data);
    } else {
      ListedBlockOfFile(s, p, k);
      WriteKeepsBlock(s.size, s.file, b, pb.data, x, Contents(s.incoming[p].blocks)[k]);
    }
  }

  lemma StoredFinished(s: State, pb: Pending, p: nat, k: nat)
    requires NewBlock(s, pb) && p in s.incoming
    ensures var t := AfterStore(s, pb);
            k in Contents(t.incoming[p].blocks)
            <==> k < BlocksIn(t.picker, p) && Look(t.picker, PieceBlock(p, k)).finished
  {
    hide Insert, WriteAt, Finish, Look, HashedToGap, Contents, OnDisk, Sized, Pickers.WellFormed;
    FinishShape(s, pb, p);
    StoredContents(s, pb, p);
    NewInRange(s, pb);
    assert PieceOk(s.size, s.picker, s.file, p, s.incoming[p]);
    assert PieceBlock(p, k) == pb.block <==> p == pb.block.pieceIndex && k == pb.block.blockIndex;
    assert k in Contents(s.incoming[p].blocks)
        <==> k < BlocksIn(s.picker, p) && Look(s.picker, PieceBlock(p, k)).finished;
  }

  lemma NewInRange(s: State, pb: Pending)
    requires NewBlock(s, pb)
    ensures pb.block.blockIndex < BlocksIn(s.picker, pb.block.pieceIndex)
  {
  }

  lemma MakePieceOk(size: nat, pk: Picker, file: seq<byte>, p: nat, rp: Receiving)
    requires HashedToGap(rp)
    requires forall k: nat :: k in Contents(rp.blocks) <==> k < BlocksIn(pk, p) && Look(pk, PieceBlock(p, k)).finished
    requires forall k: nat :: k in Contents(rp.blocks) ==> OnDisk(size, file, PieceBlock(p, k), Contents(rp.blocks)[k])
    ensures PieceOk(size, pk, file, p, rp)
  {
  }

  lemma StoreKeepsPiece(s: State, pb: Pending, p: nat)
    requires NewBlock(s, pb) && p in s.incoming
    ensures var t := AfterStore(s, pb); PieceOk(s.size, t.picker, t.file, p, t.incoming[p])
  {
    var t := AfterStore(s, pb);
    var pk, file, rp := t.picker, t.file, t.incoming[p];
    hide NewBlock, AfterStore, PieceOk, IncomingOk, Contents, OnDisk, Look, HashedToGap, BlocksIn;
    StoredContents(s, pb, p);
    forall k: nat
      ensures k in Contents(rp.blocks) <==> k < BlocksIn(pk, p) && Look(pk, PieceBlock(p, k)).finished
      ensures k in Contents(rp.blocks) ==> OnDisk(s.size, file, PieceBlock(p, k), Contents(rp.blocks)[k])
    {
      StoredFinished(s, pb, p, k);
      if k in Contents(rp.blocks) {
        StoredOnDisk(s, pb, p, k);
      }
    }
    MakePieceOk(s.size, pk, file, p, rp);
  }

  lemma ListedBlockOfFile(s: State, p: nat, k: nat)
    requires PickerOk(s) && Listed(s.picker, p) && k < BlocksIn(s.picker, p)
    ensures IsBlockOf(s.size, PieceBlock(p, k))
  {
  }

  lemma StoreKeepsIncoming(s: State, pb: Pending)
    requires NewBlock(s, pb)
    ensures var t := AfterStore(s, pb); IncomingOk(t.size, t.picker, t.incoming, t.file)
  {
    var t := AfterStore(s, pb);
    forall p: nat
      ensures p in t.incoming ==> Listed(t.picker, p)
      ensures Listed(t.picker, p) && 0 < BlocksIn(t.picker, p) ==> p in t.incoming
      ensures p in t.incoming ==> PieceOk(t.size, t.picker, t.file, p, t.incoming[p])
    {
      hide Insert, WriteAt, Finish, Look, Pickers.WellFormed, Sized, PieceOk, Listed;
      FinishShape(s, pb, p);
      if p in s.incoming {
        StoreKeepsPiece(s, pb, p);
      }
    }
  }

  lemma StoredRest(s: State, pb: Pending)
    requires NewBlock(s, pb)
    ensures var t := AfterStore(s, pb);
            t.size == s.size && t.verified == s.verified && t.file == WriteAt(s.file, pb.block.Start(), pb.data)
  {
    hide Insert, WriteAt, Finish, Look, Pickers.WellFormed, Sized, IncomingOk;
  }

  /** Storing a new block leaves the finished pieces alone. */
  lemma StoreKeepsVerified(md4: seq<byte> -> Hash, s: State, pb: Pending)
    requires NewBlock(s, pb) && VerifiedOk(md4, s.size, s.picker, s.file, s.verified)
    ensures var t := AfterStore(s, pb); VerifiedOk(md4, t.size, t.picker, t.file, t.verified)
  {
    hide AfterStore, WriteAt, Look, Pickers.WellFormed, Sized, IncomingOk, PieceVerified, Have, Listed, InRange;
    StoredRest(s, pb);
    NotHad(s, pb);
    forall p: nat
      ensures Have(AfterStore(s, pb).picker, p) <==> Have(s.picker, p)
    {
      FinishShape(s, pb, p);
    }
    forall p: nat | p in s.verified
      ensures PieceVerified(md4, s.size, WriteAt(s.file, pb.block.Start(), pb.data), p, s.verified[p])
    {
      WriteKeepsPiece(md4, s.size, s.file, pb.block, pb.data, p, s.verified[p]);
    }
  }

  lemma NotHad(s: State, pb: Pending)
    requires NewBlock(s, pb)
    ensures !Have(s.picker, pb.block.pieceIndex)
  {
  }

  // ----- completing a piece

  lemma AppendSlice(file: seq<byte>, a: nat, b: nat, c: nat)
    requires a <= b <= c <= |file|
    ensures file[a..b] + file[b..c] == file[a..c]
  {
  }

  lemma {:induction false} InOrderIsFile(size: nat, file: seq<byte>, p: nat, m: map<nat, seq<byte>>, n: nat)
    requires Representable(size) && 0 < n <= BlocksInPiece(NumPiecesAndBlocks(size), p)
             && p < NumPiecesAndBlocks(size).pieces
    requires forall k: nat :: k < n ==> k in m && OnDisk(size, file, PieceBlock(p, k), m[k])
    ensures var end := BlockEnd(size, PieceBlock(p, n - 1));
            p * PIECE_SIZE <= end <= |file| && InOrder(m, n) == file[p * PIECE_SIZE..end]
  {
    hide NumPiecesAndBlocks;
    var b := PieceBlock(p, n - 1);
    BlockBounds(size, b);
    assert OnDisk(size, file, b, m[n - 1]);
    if n == 1 {
      assert InOrder(m, 0) == [];
    } else {
      InOrderIsFile(size, file, p, m, n - 1);
      BlocksOfPieceAreConsecutive(size, PieceBlock(p, n - 2));
      AppendSlice(file, p * PIECE_SIZE, b.Start(), BlockEnd(size, b));
    }
  }

  /** A full piece: what was hashed is what the file holds over the piece's range. */
  lemma FullPieceIsHashed(s: State, p: nat)
    requires PickerOk(s) && IncomingOk(s.size, s.picker, s.incoming, s.file)
    requires p in s.incoming && |s.incoming[p].blocks| == BlocksIn(s.picker, p) > 0
    ensures p * PIECE_SIZE <= PieceEnd(s.size, p) <= |s.file|
    ensures s.incoming[p].hashed == s.file[p * PIECE_SIZE..PieceEnd(s.size, p)]
    ensures forall k: nat :: k < BlocksIn(s.picker, p) ==> Look(s.picker, PieceBlock(p, k)).finished
  {
    var rp, n := s.incoming[p], BlocksIn(s.picker, p);
    assert PieceOk(s.size, s.picker, s.file, p, rp);
    assert p < |s.picker.pieces|;
    forall i | 0 <= i < |rp.blocks|
      ensures rp.blocks[i].index < n
    {
      ContentsAt(rp.blocks, i);
    }
    CompleteIsHashedInOrder(rp, n);
    ShapeOf(s.size);
    InOrderIsFile(s.size, s.file, p, Contents(rp.blocks), n);
    BlocksOfPieceAreConsecutive(s.size, PieceBlock(p, n - 1));
  }

  lemma FullPieceIsAllFinished(pk: Picker, p: nat)
    requires Pickers.WellFormed(pk) && Sized(pk) && Listed(pk, p)
    requires forall k: nat :: k < BlocksIn(pk, p) ==> Look(pk, PieceBlock(p, k)).finished
    ensures CanSetHave(pk, p) && SetHave(pk, p) == RemovePiece(pk, p)
  {
    var blocks := PieceAt(pk, p).blocks;
    forall k | 0 <= k < |blocks|
      ensures Finished(blocks)[k]
    {
      assert Look(pk, PieceBlock(p, k)) == blocks[k];
    }
    BitFields.CountAllIff(Finished(blocks), |blocks|);
  }

  predicate HashAgrees(md4: seq<byte> -> Hash, hashSet: Option<seq<Hash>>, p: nat, bytes: seq<byte>) {
    hashSet.Some? && p < |hashSet.value| && md4(bytes) == hashSet.value[p]
  }

  ghost predicate Full(s: State, p: nat) {
    && PickerOk(s) && IncomingOk(s.size, s.picker, s.incoming, s.file)
    && p in s.incoming && |s.incoming[p].blocks| == BlocksIn(s.picker, p) > 0
  }

  /** Completing a full piece succeeds exactly when its hash is known and matches;
      then the piece leaves the list, and no finished message is sent. */
  lemma CompleteOutcome(md4: seq<byte> -> Hash, s: State, p: nat)
    requires Full(s, p)
    ensures var hashed := s.incoming[p].hashed;
            var o := DoComplete(md4, s, p, hashed);
            if HashAgrees(md4, s.hashSet, p, hashed)
            then o == Running(s.(picker := RemovePiece(s.picker, p), incoming := s.incoming - {p},
                                 verified := s.verified[p := md4(hashed)]))
            else o.Panic? && o.reason in {NoHashSet, NoPieceHash, PieceBitClear}
  {
    FullPieceIsHashed(s, p);
    FullPieceIsAllFinished(s.picker, p);
    RemovePieceLook(s.picker, p);
    RemovePieceList(s.picker, p, p);
    assert p < |s.picker.pieces|;
    hide Look, PieceOk, IsFinished, AllFinished;
    var removed := RemoveDownloadingPiece(s.picker, p);
    assert removed.pieces == s.picker.pieces[p := false];
    var after := RemovePiece(s.picker, p);
    assert CanSetHave(after, p) && SetHave(after, p) == after;
  }

  lemma RemoveKeepsPiece(s: State, p: nat, q: nat)
    requires Full(s, p) && q in s.incoming && q != p
    ensures PieceOk(s.size, RemovePiece(s.picker, p), s.file, q, s.incoming[q])
  {
    RemovePieceLook(s.picker, p);
    var after := RemovePiece(s.picker, p);
    hide Look, RemovePiece, HashedToGap, OnDisk, Contents;
    assert PieceOk(s.size, s.picker, s.file, q, s.incoming[q]);
    forall k: nat
      ensures Look(after, PieceBlock(q, k)) == Look(s.picker, PieceBlock(q, k))
    {
    }
    BlocksInAfterRemove(s.picker, p, q);
  }

  lemma BlocksInAfterRemove(pk: Picker, p: nat, q: nat)
    requires Listed(pk, p)
    ensures BlocksIn(RemovePiece(pk, p), q) == BlocksIn(pk, q)
  {
  }

  lemma CompleteKeepsIncoming(s: State, p: nat)
    requires Full(s, p)
    ensures IncomingOk(s.size, RemovePiece(s.picker, p), s.incoming - {p}, s.file)
  {
    var after, incoming := RemovePiece(s.picker, p), s.incoming - {p};
    hide PieceOk, RemovePiece, Listed, Sized, Pickers.WellFormed, BlocksIn, Shape;
    forall q: nat
      ensures q in incoming ==> Listed(after, q)
      ensures Listed(after, q) && 0 < BlocksIn(after, q) ==> q in incoming
      ensures q in incoming ==> PieceOk(s.size, after, s.file, q, incoming[q])
    {
      RemovePieceList(s.picker, p, q);
      BlocksInAfterRemove(s.picker, p, q);
      if q in incoming {
        RemoveKeepsPiece(s, p, q);
      }
    }
  }

  lemma CompleteHaves(pk: Picker, p: nat, q: nat)
    requires Pickers.WellFormed(pk) && Listed(pk, p)
    ensures Have(RemovePiece(pk, p), q) <==> Have(pk, q) || q == p
  {
    RemovePieceList(pk, p, q);
    assert PieceAt(pk, p) in pk.downloading;
  }

  lemma CompleteKeepsVerified(md4: seq<byte> -> Hash, s: State, p: nat)
    requires Full(s, p) && VerifiedOk(md4, s.size, s.picker, s.file, s.verified)
    ensures VerifiedOk(md4, s.size, RemovePiece(s.picker, p), s.file, s.verified[p := md4(s.incoming[p].hashed)])
  {
    hide Look, Have, PieceOk, RemovePiece;
    FullPieceIsHashed(s, p);
    forall q: nat
      ensures Have(RemovePiece(s.picker, p), q) <==> Have(s.picker, q) || q == p
    {
      CompleteHaves(s.picker, p, q);
    }
  }

  /** The delivered block is the last one its piece lacks. */
  predicate LastOfPiece(s: State, b: PieceBlock) {
    && b.pieceIndex in s.incoming && !Has(s.incoming[b.pieceIndex].blocks, b.blockIndex)
    && |s.incoming[b.pieceIndex].blocks| + 1 == BlocksIn(s.picker, b.pieceIndex)
  }

  /** The bytes of the piece once the block is written. */
  function PieceBytesWith(s: State, pb: Pending): seq<byte>
    requires Representable(s.size) && GoodRequest(s.size, pb)
  {
    var file := WriteAt(s.file, pb.block.Start(), pb.data);
    var p := pb.block.pieceIndex;
    if p * PIECE_SIZE <= PieceEnd(s.size, p) <= |file| then file[p * PIECE_SIZE..PieceEnd(s.size, p)] else []
  }

  /** What a delivery does, case by case. */
  lemma DeliverCases(md4: seq<byte> -> Hash, s: State)
    requires Inv(md4, s) && s.deliveries != []
    ensures var pb := s.deliveries[0];
            var b, p := pb.block, pb.block.pieceIndex;
            var rest := s.(deliveries := s.deliveries[1..]);
            && GoodRequest(s.size, pb) && b in Outstanding(s)
            && if p !in s.incoming || Has(s.incoming[p].blocks, b.blockIndex)
               then DoDeliver(md4, s) == Running(rest) && Look(s.picker, b).finished
               else && NewBlock(s, pb) && Look(s.picker, b).requested
                    && var t := AfterStore(rest, pb);
                       && |t.incoming[p].blocks| == |s.incoming[p].blocks| + 1
                       && DoDeliver(md4, s) == if LastOfPiece(s, b) then DoComplete(md4, t, p, t.incoming[p].hashed)
                                               else Running(t)
  {
    var pb := s.deliveries[0];
    var b, p := pb.block, pb.block.pieceIndex;
    DeliverKeepsRequests(s);
    DeliveredIsRequestedOrFinished(s, b);
    hide Look, DoComplete, Insert, Outstanding, Counted, VerifiedOk, RequestsOk, PieceOk, HashedToGap, WriteAt, Has;
    if p in s.incoming && !Has(s.incoming[p].blocks, b.blockIndex) {
      RequestInRange(s, b);
      assert PieceOk(s.size, s.picker, s.file, p, s.incoming[p]);
      PieceIsHashed(s, p);
      InsertKeepsFirst(s.incoming[p], Stored(b.blockIndex, pb.data));
      FinishShape(s, pb, p);
    }
  }

  lemma PieceIsHashed(s: State, p: nat)
    requires IncomingOk(s.size, s.picker, s.incoming, s.file) && p in s.incoming
    ensures HashedToGap(s.incoming[p])
  {
    assert PieceOk(s.size, s.picker, s.file, p, s.incoming[p]);
  }

  lemma DropKeeps(md4: seq<byte> -> Hash, s: State)
    requires Inv(md4, s) && s.deliveries != [] && Look(s.picker, s.deliveries[0].block).finished
    ensures Inv(md4, s.(deliveries := s.deliveries[1..]))
  {
    DeliverKeepsRequests(s);
    CountedAfterDrop(s.picker, Outstanding(s), s.deliveries[0].block);
  }

  /** A delivery keeps the invariant; it panics exactly when it completes a piece
      whose hash is unknown or differs from that of the bytes received. */
  lemma DeliverKeeps(md4: seq<byte> -> Hash, s: State)
    requires Inv(md4, s) && s.deliveries != []
    ensures Kept(md4, s, DoDeliver(md4, s))
    ensures var pb := s.deliveries[0];
            GoodRequest(s.size, pb)
            && (DoDeliver(md4, s).Panic? <==>
                LastOfPiece(s, pb.block) && !HashAgrees(md4, s.hashSet, pb.block.pieceIndex, PieceBytesWith(s, pb)))
  {
    DeliverCases(md4, s);
    var pb := s.deliveries[0];
    var b, p := pb.block, pb.block.pieceIndex;
    var t := s.(deliveries := s.deliveries[1..]);
    if p !in s.incoming || Has(s.incoming[p].blocks, b.blockIndex) {
      hide Inv, DoDeliver, Has, Look;
      DropKeeps(md4, s);
    } else {
      hide Inv, DoDeliver, Has, Look, NewBlock;
      StoreKeepsAll(md4, s, pb);
      if LastOfPiece(s, b) {
        LastMakesFull(md4, s, pb);
        CompleteKeeps(md4, AfterStore(t, pb), p);
      }
    }
  }

  lemma LastMakesFull(md4: seq<byte> -> Hash, s: State, pb: Pending)
    requires NewBlock(s, pb) && s.deliveries != [] && LastOfPiece(s, pb.block)
    requires |AfterStore(s.(deliveries := s.deliveries[1..]), pb).incoming[pb.block.pieceIndex].blocks|
             == |s.incoming[pb.block.pieceIndex].blocks| + 1
    requires Inv(md4, AfterStore(s.(deliveries := s.deliveries[1..]), pb))
    ensures var t, p := AfterStore(s.(deliveries := s.deliveries[1..]), pb), pb.block.pieceIndex;
            Full(t, p) && t.incoming[p].hashed == PieceBytesWith(s, pb)
  {
    FinishShape(s, pb, pb.block.pieceIndex);
    FullPieceIsHashed(AfterStore(s.(deliveries := s.deliveries[1..]), pb), pb.block.pieceIndex);
  }

  lemma StoreKeepsAll(md4: seq<byte> -> Hash, s: State, pb: Pending)
    requires Inv(md4, s) && NewBlock(s, pb) && s.deliveries != [] && pb == s.deliveries[0]
             && Look(s.picker, pb.block).requested
    ensures Inv(md4, AfterStore(s.(deliveries := s.deliveries[1..]), pb))
  {
    var rest := s.(deliveries := s.deliveries[1..]);
    var t := AfterStore(rest, pb);
    DeliverKeepsRequests(s);
    StoreKeepsIncoming(rest, pb);
    StoreKeepsVerified(md4, rest, pb);
    FinishShape(rest, pb, 0);
    CountedAfterFinish(s.picker, Outstanding(s), pb.block);
  }

  lemma CompleteKeeps(md4: seq<byte> -> Hash, s: State, p: nat)
    requires Inv(md4, s) && Full(s, p)
    ensures var o := DoComplete(md4, s, p, s.incoming[p].hashed);
            && Kept(md4, s, o)
            && (o.Running? <==> HashAgrees(md4, s.hashSet, p, s.incoming[p].hashed))
  {
    CompleteOutcome(md4, s, p);
    hide DoComplete;
    if HashAgrees(md4, s.hashSet, p, s.incoming[p].hashed) {
      CompletedKeeps(md4, s, p);
    }
  }

  lemma CompletedKeeps(md4: seq<byte> -> Hash, s: State, p: nat)
    requires Inv(md4, s) && Full(s, p)
    ensures Inv(md4, s.(picker := RemovePiece(s.picker, p), incoming := s.incoming - {p},
                        verified := s.verified[p := md4(s.incoming[p].hashed)]))
  {
    CompleteKeepsIncoming(s, p);
    CompleteKeepsVerified(md4, s, p);
    CompleteKeepsPicker(s, p);
    assert Listed(s.picker, p);
    CountedAfterRemove(s.picker, Outstanding(s), p);
    hide IncomingOk, VerifiedOk, Counted, RemovePiece, Listed, PickerOk, GoodRequest;
  }

  lemma CompleteKeepsPicker(s: State, p: nat)
    requires Full(s, p)
    ensures PickerOk(s.(picker := RemovePiece(s.picker, p)))
  {
    RemovePieceLook(s.picker, p);
    hide Look, IncomingOk;
  }

  // ----- every run

  /** Every step of every peer and of the transfer keeps the invariant or is one of the known panics. */
  lemma StepKeeps(md4: seq<byte> -> Hash, s: State, step: Step)
    requires Inv(md4, s)
    ensures Kept(md4, s, Apply(md4, s, step))
  {
    hide Inv, DoAsk, DoReceive, DoAbort, DoDeliver;
    match step
    case Connect(peer) =>
      ConnectKeeps(md4, s, peer);
    case ReceiveHashSet(hashes) =>
      HashSetKeeps(md4, s, hashes);
    case Ask(c, slower, slow) =>
      if c < |s.conns| {
        AskFitsInv(md4, s, c, slower, slow);
        AskKeeps(md4, s, c, slower, slow);
      }
    case ReceivePart(c, part) =>
      if c < |s.conns| {
        ReceiveKeeps(md4, s, c, part);
      }
    case Die(c) =>
      if c < |s.conns| {
        DieKeeps(md4, s, c);
      }
    case AbortNext(c) =>
      if c < |s.conns| && s.conns[c].requested != [] {
        AbortKeeps(md4, s, c);
      }
    case Deliver =>
      if s.deliveries != [] {
        DeliverKeeps(md4, s);
      }
  }

  lemma AskFitsInv(md4: seq<byte> -> Hash, s: State, c: nat, slower: set<Peer>, slow: bool)
    requires Inv(md4, s) && c < |s.conns|
    ensures |AskedBlocks(s, c, slower, slow)| <= PARTS_IN_REQUEST
  {
    AskFits(s, c, slower, slow);
  }

  lemma HashSetKeeps(md4: seq<byte> -> Hash, s: State, hashes: seq<Hash>)
    requires Inv(md4, s)
    ensures Inv(md4, s.(hashSet := Some(hashes)))
  {
  }

  lemma ConnectKeeps(md4: seq<byte> -> Hash, s: State, peer: Peer)
    requires Inv(md4, s)
    ensures Inv(md4, s.(conns := s.conns + [Conn(peer, [], true)]))
  {
    var t := s.(conns := s.conns + [Conn(peer, [], true)]);
    assert t.conns[..|t.conns| - 1] == s.conns;
    assert BlocksOf([]) == multiset{} by {
      assert BlockSeq([]) == [];
    }
    assert ConnBlocks(t.conns) == ConnBlocks(s.conns);
  }

  lemma DieSame(s: State, c: nat)
    requires c < |s.conns|
    ensures Outstanding(s.(conns := s.conns[c := s.conns[c].(alive := false)])) == Outstanding(s)
  {
    var t := s.(conns := s.conns[c := s.conns[c].(alive := false)]);
    OutstandingUpdate(s, t, c, multiset{}, multiset{});
    hide Outstanding;
    assert Outstanding(t) + multiset{} == Outstanding(t) && Outstanding(s) + multiset{} == Outstanding(s);
  }

  lemma DieKeeps(md4: seq<byte> -> Hash, s: State, c: nat)
    requires Inv(md4, s) && c < |s.conns|
    ensures Inv(md4, s.(conns := s.conns[c := s.conns[c].(alive := false)]))
  {
    DieSame(s, c);
    hide Outstanding, Counted, IncomingOk, VerifiedOk, Pickers.WellFormed, Sized;
  }

  lemma {:induction false} RunKeeps(md4: seq<byte> -> Hash, s: State, steps: seq<Step>)
    requires Inv(md4, s)
    ensures Kept(md4, s, Run(md4, s, steps))
  {
    if steps != [] {
      var n := |steps| - 1;
      RunKeeps(md4, s, steps[..n]);
      var before := Run(md4, s, steps[..n]);
      if before.Running? {
        StepKeeps(md4, before.state, steps[n]);
      }
    }
  }
}
