/** Whether a transfer can still finish: from which states some further events,
    with the right data and hash set, complete every piece (transfer.go:145-283). */
module TransferProgress {
  import opened Bytes
  import opened Geometry
  import opened Regions
  import opened Peers
  import opened PendingBlocks
  import opened DownloadingPieces
  import opened Pickers
  import opened ReceivingPieces
  import opened Transfers
  import opened TransferSafety
  import opened Restarts
  import opened RestartSafety

  /** The chunk lies in the target and has its bytes. */
  predicate HonestChunk(target: seq<byte>, c: Chunk) {
    c.begin + |c.bytes| <= |target| && c.bytes == target[c.begin..c.begin + |c.bytes|]
  }

  /** What arrives of the part is the target's, wherever the part is announced to end. */
  predicate HonestPart(target: seq<byte>, part: Part) {
    HonestChunk(target, Arriving(part))
  }

  predicate HonestStep(target: seq<byte>, step: Step) {
    step.ReceivePart? ==> HonestPart(target, step.part)
  }

  /** No incoming piece has all its blocks: the last one completes it and takes it off the list. */
  ghost predicate NoFull(s: State) {
    forall p: nat :: p in s.incoming ==> |s.incoming[p].blocks| < BlocksIn(s.picker, p)
  }

  /** The last piece has its block count, or we have it. */
  predicate LastIsCounted(pk: Picker) {
    pk.blocksInLastPiece > 0 || HasLast(pk)
  }

  /** The delivery is for an unfinished block, and no earlier one in the queue is for the same. */
  predicate First(s: State, i: nat)
    requires i < |s.deliveries|
  {
    && !Look(s.picker, s.deliveries[i].block).finished
    && forall j :: 0 <= j < i ==> s.deliveries[j].block != s.deliveries[i].block
  }

  ghost predicate QueueAgrees(s: State, target: seq<byte>) {
    forall i: nat :: i < |s.deliveries| && First(s, i)
                     ==> OnDisk(s.size, target, s.deliveries[i].block, s.deliveries[i].data)
  }

  /** The blocks stored, and those that will be stored from the queue, are those of the target. */
  ghost predicate Agrees(s: State, target: seq<byte>) {
    && |target| == s.size
    && IncomingOk(s.size, s.picker, s.incoming, target)
    && QueueAgrees(s, target)
  }

  lemma PiecesInFile(size: nat)
    requires Representable(size)
    ensures forall p :: 0 <= p < NumPiecesAndBlocks(size).pieces ==> p * PIECE_SIZE <= PieceEnd(size, p) <= size
  {
    if 0 < size {
      ShapeOf(size);
    }
  }

  /** The hash of every piece of the target. The hash set of a file that ends with a whole
      piece has one more entry. */
  ghost predicate HashesOf(md4: seq<byte> -> Hash, target: seq<byte>, hashes: seq<Hash>) {
    var size := |target|;
    && |hashes| >= NumPiecesAndBlocks(size).pieces
    && forall p: nat :: p < NumPiecesAndBlocks(size).pieces ==>
         && p * PIECE_SIZE <= PieceEnd(size, p) <= size
         && hashes[p] == md4(target[p * PIECE_SIZE..PieceEnd(size, p)])
  }

  function MakeHashes(md4: seq<byte> -> Hash, target: seq<byte>): (hashes: seq<Hash>)
    requires Representable(|target|)
    ensures HashesOf(md4, target, hashes)
  {
    PiecesInFile(|target|);
    seq(NumPiecesAndBlocks(|target|).pieces, p requires 0 <= p < NumPiecesAndBlocks(|target|).pieces =>
        md4(target[p * PIECE_SIZE..PieceEnd(|target|, p)]))
  }

  /** A state from which the target can be completed. */
  ghost predicate Good(md4: seq<byte> -> Hash, s: State, target: seq<byte>) {
    && Inv(md4, s) && LastIsCounted(s.picker) && NoFull(s) && Agrees(s, target)
    && s.hashSet.Some? && HashesOf(md4, target, s.hashSet.value)
  }

  ghost function Unfinished(pk: Picker): set<PieceBlock> {
    set p: nat, k: nat | p < |pk.pieces| && k < BLOCKS_PER_PIECE
        && !Look(pk, PieceBlock(p, k)).finished :: PieceBlock(p, k)
  }

  // ----- delivering

  lemma RestAgrees(s: State, target: seq<byte>, i: nat)
    requires s.deliveries != [] && i < |s.deliveries| - 1 && QueueAgrees(s, target)
    requires s.deliveries[i + 1].block != s.deliveries[0].block && First(Rest(s), i)
    ensures OnDisk(s.size, target, s.deliveries[i + 1].block, s.deliveries[i + 1].data)
  {
    var rest := Rest(s);
    hide Look;
    forall j | 0 <= j < i + 1
      ensures s.deliveries[j].block != s.deliveries[i + 1].block
    {
      if 0 < j {
        assert rest.deliveries[j - 1].block != rest.deliveries[i].block;
      }
    }
    assert First(s, i + 1);
  }

  /** The queue without its head agrees in every later state in which the head's block is finished. */
  lemma QueueAgreesAfter(s: State, target: seq<byte>, t: State)
    requires s.deliveries != [] && QueueAgrees(s, target)
    requires t.size == s.size && t.deliveries == s.deliveries[1..]
    requires Look(t.picker, s.deliveries[0].block).finished
    requires forall b :: Look(s.picker, b).finished ==> Look(t.picker, b).finished
    ensures QueueAgrees(t, target)
  {
    hide Look;
    forall i: nat | i < |t.deliveries| && First(t, i)
      ensures OnDisk(t.size, target, t.deliveries[i].block, t.deliveries[i].data)
    {
      assert t.deliveries[i] == s.deliveries[i + 1];
      forall j | 0 <= j < i
        ensures Rest(s).deliveries[j].block != t.deliveries[i].block
      {
      }
      assert First(Rest(s), i);
      RestAgrees(s, target, i);
    }
  }

  /** Storing a block of the target keeps the stored blocks those of the target. */
  lemma StoreAgrees(s: State, pb: Pending, target: seq<byte>)
    requires NewBlock(s, pb) && |target| == s.size && IncomingOk(s.size, s.picker, s.incoming, target)
    requires OnDisk(s.size, target, pb.block, pb.data)
    ensures var t := AfterStore(s, pb); IncomingOk(s.size, t.picker, t.incoming, target)
  {
    var u := s.(file := target);
    hide Insert, Finish, Look, IncomingOk;
    StoreKeepsIncoming(u, pb);
    OverlaySame(target, pb.block.Start(), pb.data);
  }

  lemma OverlaySame(target: seq<byte>, at: nat, data: seq<byte>)
    requires at + |data| <= |target| && target[at..at + |data|] == data
    ensures WriteAt(target, at, data) == target
  {
    assert forall i :: 0 <= i < |target| ==> WriteAt(target, at, data)[i] == target[i];
    assert |WriteAt(target, at, data)| == |target|;
  }

  /** The piece completed by a block of the target has the target's hash. */
  lemma LastHashAgrees(md4: seq<byte> -> Hash, s: State, p: nat, target: seq<byte>)
    requires Full(s, p) && |target| == s.size && IncomingOk(s.size, s.picker, s.incoming, target)
    requires s.hashSet.Some? && HashesOf(md4, target, s.hashSet.value)
    ensures HashAgrees(md4, s.hashSet, p, s.incoming[p].hashed)
  {
    hide IncomingOk, Look, Sized;
    FullPieceIsHashed(s.(file := target), p);
    ListedInFile(s, p);
  }

  lemma ListedInFile(s: State, p: nat)
    requires Full(s, p)
    ensures Listed(s.picker, p) && p < |s.picker.pieces| == NumPiecesAndBlocks(s.size).pieces
  {
    assert PieceAt(s.picker, p) in s.picker.downloading;
  }

  /** What completing a piece leaves of the stored blocks. */
  lemma CompleteAgrees(s: State, p: nat, target: seq<byte>)
    requires Full(s, p) && |target| == s.size && IncomingOk(s.size, s.picker, s.incoming, target)
    ensures IncomingOk(s.size, RemovePiece(s.picker, p), s.incoming - {p}, target)
  {
    hide IncomingOk, Look, Sized;
    CompleteKeepsIncoming(s.(file := target), p);
  }

  /** What a delivery that does not panic leaves as it was, or finished. */
  ghost predicate Delivered(s: State, t: State) {
    && s.deliveries != [] && t.size == s.size && t.conns == s.conns && t.deliveries == s.deliveries[1..]
    && t.hashSet == s.hashSet && t.picker.blocksInLastPiece == s.picker.blocksInLastPiece
    && |t.picker.pieces| == |s.picker.pieces|
    && (forall b :: Look(s.picker, b).finished || b == s.deliveries[0].block ==> Look(t.picker, b).finished)
    && (forall p: nat :: Have(s.picker, p) ==> Have(t.picker, p))
  }

  lemma StoreDelivers(s: State)
    requires s.deliveries != [] && NewBlock(s, s.deliveries[0])
    ensures Delivered(s, AfterStore(Rest(s), s.deliveries[0]))
  {
    hide Insert, WriteAt, Finish, IncomingOk, Look, Sized, Pickers.WellFormed, Have, Listed;
    forall p: nat
      ensures Have(s.picker, p) ==> Have(AfterStore(s, s.deliveries[0]).picker, p)
    {
      FinishShape(s, s.deliveries[0], p);
    }
    FinishShape(s, s.deliveries[0], 0);
  }

  function Completed(s: State, p: nat, hash: Hash): State
    requires Listed(s.picker, p)
  {
    s.(picker := RemovePiece(s.picker, p), incoming := s.incoming - {p}, verified := s.verified[p := hash])
  }

  lemma CompleteDelivers(s: State, u: State, p: nat, hash: Hash)
    requires Delivered(s, u) && Full(u, p) && Listed(u.picker, p)
    ensures Delivered(s, Completed(u, p, hash))
  {
    hide IncomingOk, Look, Sized, Pickers.WellFormed, Have, RemovePiece;
    RemovePieceLook(u.picker, p);
    RemoveShape(u.picker, p);
    forall q: nat
      ensures Have(u.picker, q) ==> Have(RemovePiece(u.picker, p), q)
    {
      CompleteHaves(u.picker, p, q);
    }
  }

  lemma RemoveShape(pk: Picker, p: nat)
    requires Listed(pk, p)
    ensures RemovePiece(pk, p).blocksInLastPiece == pk.blocksInLastPiece && RemovePiece(pk, p).pieces == pk.pieces
  {
  }

  /** The stored blocks grow by one in the piece of the block and stay as they are in the others. */
  lemma StoreKeepsNoFull(s: State)
    requires s.deliveries != [] && NewBlock(s, s.deliveries[0]) && NoFull(s)
    requires var b := s.deliveries[0].block;
             !LastOfPiece(s, b) && !Has(s.incoming[b.pieceIndex].blocks, b.blockIndex)
    ensures NoFull(AfterStore(Rest(s), s.deliveries[0]))
  {
    var pb := s.deliveries[0];
    InsertedLength(s.incoming[pb.block.pieceIndex], Stored(pb.block.blockIndex, pb.data));
    FinishShape(s, pb, 0);
    hide Insert, WriteAt, Finish, IncomingOk, Look, Sized, Pickers.WellFormed, Has;
  }

  lemma CompleteKeepsNoFull(u: State, p: nat, hash: Hash)
    requires Listed(u.picker, p)
    requires forall q: nat :: q in u.incoming && q != p ==> |u.incoming[q].blocks| < BlocksIn(u.picker, q)
    ensures NoFull(Completed(u, p, hash))
  {
    RemoveShape(u.picker, p);
    hide RemovePiece;
  }

  lemma OthersNotFull(s: State)
    requires s.deliveries != [] && NewBlock(s, s.deliveries[0]) && NoFull(s)
    ensures var u := AfterStore(Rest(s), s.deliveries[0]);
            forall q: nat :: q in u.incoming && q != s.deliveries[0].block.pieceIndex
                             ==> |u.incoming[q].blocks| < BlocksIn(u.picker, q)
  {
    FinishShape(s, s.deliveries[0], 0);
    hide Insert, WriteAt, Finish, IncomingOk, Look, Sized, Pickers.WellFormed;
  }

  lemma NewIsNotHad(s: State, pb: Pending)
    requires NewBlock(s, pb)
    ensures !Has(s.incoming[pb.block.pieceIndex].blocks, pb.block.blockIndex)
  {
    var p := pb.block.pieceIndex;
    assert PieceOk(s.size, s.picker, s.file, p, s.incoming[p]);
    HasIffStored(s.incoming[p].blocks, pb.block.blockIndex);
  }

  /** The last block of a piece: full, then off the list. */
  lemma LastOutcome(md4: seq<byte> -> Hash, s: State)
    requires Inv(md4, s) && s.deliveries != [] && NewBlock(s, s.deliveries[0]) && LastOfPiece(s, s.deliveries[0].block)
    requires Look(s.picker, s.deliveries[0].block).requested
    ensures var u, p := AfterStore(Rest(s), s.deliveries[0]), s.deliveries[0].block.pieceIndex;
            && Full(u, p) && Listed(u.picker, p)
            && var o := DoComplete(md4, u, p, u.incoming[p].hashed);
               (o.Running? <==> HashAgrees(md4, u.hashSet, p, u.incoming[p].hashed))
               && (o.Running? ==> o.state == Completed(u, p, md4(u.incoming[p].hashed)))
  {
    var pb := s.deliveries[0];
    var u, p := AfterStore(Rest(s), pb), pb.block.pieceIndex;
    NewIsNotHad(s, pb);
    InsertedLength(s.incoming[p], Stored(pb.block.blockIndex, pb.data));
    hide Inv, NewBlock, Insert, WriteAt, Finish, Look, Has, Full, LastOfPiece;
    StoreKeepsAll(md4, s, pb);
    LastMakesFull(md4, s, pb);
    ListedInFile(u, p);
    CompleteOutcome(md4, u, p);
  }

  lemma LastDelivers(md4: seq<byte> -> Hash, s: State)
    requires Inv(md4, s) && s.deliveries != [] && NewBlock(s, s.deliveries[0]) && LastOfPiece(s, s.deliveries[0].block)
    requires Look(s.picker, s.deliveries[0].block).requested
    ensures var u, p := AfterStore(Rest(s), s.deliveries[0]), s.deliveries[0].block.pieceIndex;
            && Listed(u.picker, p)
            && Delivered(s, Completed(u, p, md4(u.incoming[p].hashed)))
            && (NoFull(s) ==> NoFull(Completed(u, p, md4(u.incoming[p].hashed))))
  {
    var u, p := AfterStore(Rest(s), s.deliveries[0]), s.deliveries[0].block.pieceIndex;
    LastOutcome(md4, s);
    assert p in u.incoming;
    hide Inv, NewBlock, AfterStore, Look, DoComplete, Delivered, NoFull, LastOfPiece, Full, Completed;
    StoreDelivers(s);
    CompleteDelivers(s, u, p, md4(u.incoming[p].hashed));
    if NoFull(s) {
      OthersNotFull(s);
      CompleteKeepsNoFull(u, p, md4(u.incoming[p].hashed));
    }
  }

  lemma DropDelivers(s: State)
    requires s.deliveries != [] && Look(s.picker, s.deliveries[0].block).finished
    ensures Delivered(s, Rest(s)) && (NoFull(s) ==> NoFull(Rest(s)))
  {
    hide Look;
  }

  /** Every delivery: the head of the queue is finished afterwards, what was finished stays so,
      and no piece is left full. */
  lemma DeliverOutcome(md4: seq<byte> -> Hash, s: State)
    requires Inv(md4, s) && s.deliveries != [] && DoDeliver(md4, s).Running?
    ensures Delivered(s, DoDeliver(md4, s).state)
    ensures NoFull(s) ==> NoFull(DoDeliver(md4, s).state)
  {
    DeliverCases(md4, s);
    var b := s.deliveries[0].block;
    hide Inv, DoDeliver, NewBlock, AfterStore, Has, Look, DoComplete, Delivered, NoFull, Completed, Outstanding;
    if b.pieceIndex in s.incoming && !Has(s.incoming[b.pieceIndex].blocks, b.blockIndex) {
      if LastOfPiece(s, b) {
        LastOutcome(md4, s);
        LastDelivers(md4, s);
      } else {
        StoreDelivers(s);
        if NoFull(s) {
          StoreKeepsNoFull(s);
        }
      }
    } else {
      DropDelivers(s);
    }
  }

  // ----- a good state stays good

  lemma LastStaysCounted(s: State, t: State)
    requires Delivered(s, t) && LastIsCounted(s.picker)
    ensures LastIsCounted(t.picker)
  {
  }

  lemma NewIsFirst(s: State)
    requires s.deliveries != [] && NewBlock(s, s.deliveries[0])
    ensures First(s, 0)
  {
    var b := s.deliveries[0].block;
    assert PieceOk(s.size, s.picker, s.file, b.pieceIndex, s.incoming[b.pieceIndex]);
    NewInRange(s, s.deliveries[0]);
    assert b == PieceBlock(b.pieceIndex, b.blockIndex);
  }

  lemma DeliverAgrees(md4: seq<byte> -> Hash, s: State, target: seq<byte>)
    requires Good(md4, s, target) && s.deliveries != []
    ensures var o := DoDeliver(md4, s);
            o.Running? && IncomingOk(s.size, o.state.picker, o.state.incoming, target)
  {
    DeliverCases(md4, s);
    var pb := s.deliveries[0];
    var b, p := pb.block, pb.block.pieceIndex;
    if p in s.incoming && !Has(s.incoming[p].blocks, b.blockIndex) {
      NewIsFirst(s);
      assert OnDisk(s.size, target, b, pb.data);
      hide Inv, DoDeliver, AfterStore, Has, Look, DoComplete, NewBlock, IncomingOk, OnDisk, LastOfPiece, NoFull;
      StoreAgrees(s, pb, target);
      if LastOfPiece(s, b) {
        LastOutcome(md4, s);
        var u := AfterStore(Rest(s), pb);
        AfterStoreRest(s);
        LastHashAgrees(md4, u, p, target);
        CompleteAgrees(u, p, target);
      } else {
        AfterStoreRest(s);
      }
    }
  }

  lemma AfterStoreRest(s: State)
    requires s.deliveries != [] && NewBlock(s, s.deliveries[0])
    ensures var t, u := AfterStore(s, s.deliveries[0]), AfterStore(Rest(s), s.deliveries[0]);
            u.picker == t.picker && u.incoming == t.incoming && u.size == s.size && u.hashSet == s.hashSet
  {
  }

  /** A delivery in a good state is not a panic, and the state stays good. */
  lemma DeliverIsGood(md4: seq<byte> -> Hash, s: State, target: seq<byte>)
    requires Good(md4, s, target) && s.deliveries != []
    ensures var o := DoDeliver(md4, s);
            o.Running? && Good(md4, o.state, target) && Delivered(s, o.state)
  {
    DeliverAgrees(md4, s, target);
    DeliverKeeps(md4, s);
    DeliverOutcome(md4, s);
    var t := DoDeliver(md4, s).state;
    hide Inv, DoDeliver, IncomingOk, NoFull, Look, LastIsCounted, QueueAgrees, HashesOf;
    LastStaysCounted(s, t);
    QueueAgreesAfter(s, target, t);
  }

  /** A delivery leaves one block less outstanding, and its block finished. */
  lemma DeliverMeasure(s: State, t: State)
    requires Delivered(s, t)
    ensures Unfinished(t.picker) <= Unfinished(s.picker) && |Outstanding(t)| < |Outstanding(s)|
    ensures s.deliveries[0].block in Unfinished(s.picker) ==> Unfinished(t.picker) < Unfinished(s.picker)
  {
    BlocksTail(s.deliveries);
    assert |Outstanding(s)| == |ConnBlocks(s.conns)| + |BlocksOf(s.deliveries)|;
    hide Look, ConnBlocks, BlocksOf;
    forall b | b in Unfinished(t.picker)
      ensures b in Unfinished(s.picker) && b != s.deliveries[0].block
    {
    }
  }

  lemma QueueSame(s: State, t: State, target: seq<byte>)
    requires QueueAgrees(s, target) && t.size == s.size && t.deliveries == s.deliveries
    requires forall b :: Look(t.picker, b).finished == Look(s.picker, b).finished
    ensures QueueAgrees(t, target)
  {
    hide Look;
    forall i: nat | i < |t.deliveries| && First(t, i)
      ensures OnDisk(t.size, target, t.deliveries[i].block, t.deliveries[i].data)
    {
      assert First(s, i);
    }
  }

  /** The same pieces are listed and had, and the same blocks finished. */
  ghost predicate SamePieces(pk: Picker, after: Picker) {
    && |after.pieces| == |pk.pieces| && after.blocksInLastPiece == pk.blocksInLastPiece
    && (forall p: nat :: (Listed(after, p) <==> Listed(pk, p)) && (Have(after, p) <==> Have(pk, p)))
    && (forall b :: Look(after, b).finished == Look(pk, b).finished)
  }

  lemma StaysGood(md4: seq<byte> -> Hash, s: State, t: State, target: seq<byte>)
    requires Good(md4, s, target) && Inv(md4, t) && SamePieces(s.picker, t.picker)
    requires t.size == s.size && t.hashSet == s.hashSet && t.deliveries == s.deliveries && t.incoming == s.incoming
    ensures Good(md4, t, target) && Unfinished(t.picker) == Unfinished(s.picker)
  {
    hide Inv, Look, Listed, Have, IncomingOk, HashesOf, QueueAgrees;
    IncomingSame(s.(file := target), t.picker);
    QueueSame(s, t, target);
    forall p: nat
      ensures BlocksIn(t.picker, p) == BlocksIn(s.picker, p)
    {
    }
    forall b
      ensures b in Unfinished(t.picker) <==> b in Unfinished(s.picker)
    {
    }
  }

  lemma AbortSamePieces(pk: Picker, b: PieceBlock, peer: Peer)
    requires Pickers.WellFormed(pk) && InRange(pk, b)
    ensures SamePieces(pk, Abort(pk, b, peer))
  {
    hide Abort, Look, Listed, Have;
    AbortKeepsFinished(pk, b, peer, 0);
    forall p: nat
      ensures (Listed(Abort(pk, b, peer), p) <==> Listed(pk, p)) && (Have(Abort(pk, b, peer), p) <==> Have(pk, p))
    {
      AbortKeepsFinished(pk, b, peer, p);
    }
  }

  /** An abort leaves one block less outstanding. */
  lemma AbortIsGood(md4: seq<byte> -> Hash, s: State, target: seq<byte>, c: nat)
    requires Good(md4, s, target) && c < |s.conns| && s.conns[c].requested != []
    ensures var o := DoAbort(s, c);
            && o.Running? && Good(md4, o.state, target)
            && Unfinished(o.state.picker) == Unfinished(s.picker) && |Outstanding(o.state)| < |Outstanding(s)|
  {
    AbortKeeps(md4, s, c);
    AbortKeepsRequests(s, c);
    var b, t := s.conns[c].requested[0].block, DoAbort(s, c).state;
    AbortSamePieces(s.picker, b, s.conns[c].peer);
    hide Inv, Abort, Outstanding, Agrees, SamePieces, NoFull, LastIsCounted, InRange, Unfinished;
    assert t.picker == Abort(s.picker, b, s.conns[c].peer);
    assert Outstanding(s) == Outstanding(t) + multiset{b};
    StaysGood(md4, s, t, target);
  }

  lemma DieIsGood(md4: seq<byte> -> Hash, s: State, target: seq<byte>, c: nat)
    requires Good(md4, s, target) && c < |s.conns|
    ensures var t := s.(conns := s.conns[c := s.conns[c].(alive := false)]);
            Good(md4, t, target) && Outstanding(t) == Outstanding(s)
  {
    var t := s.(conns := s.conns[c := s.conns[c].(alive := false)]);
    DieKeeps(md4, s, c);
    DieSame(s, c);
    hide Inv, Outstanding, Agrees, NoFull, LastIsCounted, Unfinished;
    assert SamePieces(s.picker, t.picker);
    StaysGood(md4, s, t, target);
  }

  lemma ConnectIsGood(md4: seq<byte> -> Hash, s: State, target: seq<byte>, peer: Peer)
    requires Good(md4, s, target)
    ensures Good(md4, s.(conns := s.conns + [Conn(peer, [], true)]), target)
  {
    ConnectKeeps(md4, s, peer);
    hide Inv, Agrees, NoFull, LastIsCounted, Unfinished;
    assert SamePieces(s.picker, s.picker);
    StaysGood(md4, s, s.(conns := s.conns + [Conn(peer, [], true)]), target);
  }

  // ----- fetching one more block

  /** A piece that is started has no block yet and needs one. */
  lemma AskKeepsNoFull(s: State, c: nat, slower: set<Peer>, slow: bool)
    requires PickerOk(s) && NoFull(s) && c < |s.conns|
    ensures NoFull(DoAsk(s, c, slower, slow))
  {
    var peer, n := s.conns[c].peer, REQUEST_QUEUE_SIZE;
    PickPiecesPicks(s.picker, n, peer, slower, slow);
    PickStartsUsedPieces(s.picker, n, peer, slower, slow);
    var (after, res) := PickPieces(s.picker, n, peer, slower, slow);
    hide PickPieces, Look, Pickers.WellFormed, Sized;
    forall p: nat | p in StartReceiving(s.incoming, res)
      ensures |StartReceiving(s.incoming, res)[p].blocks| < BlocksIn(after, p)
    {
      StartReceivingAdds(s.incoming, res, p);
      if p !in s.incoming {
        var b: PieceBlock :| b in res && b.pieceIndex == p;
        AvailableIsInRange(s.picker, b, peer, slower, !slow);
      }
    }
  }

  lemma AskSameFinished(s: State, c: nat, slower: set<Peer>, slow: bool)
    requires PickerOk(s) && c < |s.conns|
    ensures var after := DoAsk(s, c, slower, slow).picker;
            && (forall b :: Look(after, b).finished == Look(s.picker, b).finished)
            && (LastIsCounted(s.picker) ==> LastIsCounted(after))
            && Unfinished(after) == Unfinished(s.picker)
  {
    var peer, n := s.conns[c].peer, REQUEST_QUEUE_SIZE;
    PickPiecesPicks(s.picker, n, peer, slower, slow);
    PickKeepsHave(s, n, peer, slower, slow);
    var (after, res) := PickPieces(s.picker, n, peer, slower, slow);
    hide PickPieces, StartReceiving, Look, Have, Pickers.WellFormed, Sized;
    forall b
      ensures Look(after, b).finished == Look(s.picker, b).finished
    {
      assert b in res ==> Look(after, b) == Take(Look(s.picker, b), peer);
    }
    forall b
      ensures b in Unfinished(after) <==> b in Unfinished(s.picker)
    {
    }
  }

  lemma AskIsGood(md4: seq<byte> -> Hash, s: State, target: seq<byte>, c: nat, slower: set<Peer>, slow: bool)
    requires Good(md4, s, target) && c < |s.conns|
    ensures Good(md4, DoAsk(s, c, slower, slow), target)
  {
    AskKeeps(md4, s, c, slower, slow);
    AskKeepsNoFull(s, c, slower, slow);
    AskSameFinished(s, c, slower, slow);
    IncomingAfterPick(s.(file := target), REQUEST_QUEUE_SIZE, s.conns[c].peer, slower, slow);
    hide Inv, PickPieces, StartReceiving, IncomingOk, NoFull, Look, LastIsCounted, Unfinished, HashesOf;
    QueueSame(s, DoAsk(s, c, slower, slow), target);
  }

  /** When nothing is outstanding every unfinished block is free. */
  lemma UnfinishedIsFree(md4: seq<byte> -> Hash, s: State, b: PieceBlock)
    requires Inv(md4, s) && Outstanding(s) == multiset{}
    ensures b in FreeBlocks(s.picker) <==> b in Unfinished(s.picker)
  {
    hide Look, IncomingOk, VerifiedOk, RequestsOk, Outstanding;
    assert CountsOk(Look(s.picker, b));
    assert b == PieceBlock(b.pieceIndex, b.blockIndex);
  }

  function Connected(s: State, peer: Peer): State {
    s.(conns := s.conns + [Conn(peer, [], true)])
  }

  lemma SlowPickUnfinished(md4: seq<byte> -> Hash, s: State, peer: Peer)
    requires Inv(md4, s) && Outstanding(s) == multiset{} && Unfinished(s.picker) != {}
    ensures var res := PickPieces(s.picker, REQUEST_QUEUE_SIZE, peer, {}, true).1;
            res != [] && res[0] in Unfinished(s.picker) && IsBlockOf(s.size, res[0])
  {
    var b0 :| b0 in Unfinished(s.picker);
    UnfinishedIsFree(md4, s, b0);
    SlowPickTakesFreeBlocks(s.picker, REQUEST_QUEUE_SIZE, peer, {});
    PickedAreOfFile(s, REQUEST_QUEUE_SIZE, peer, {}, true);
    var res := PickPieces(s.picker, REQUEST_QUEUE_SIZE, peer, {}, true).1;
    hide Inv, PickPieces, FreeBlocks, Unfinished, IsBlockOf, Look, Outstanding;
    assert Min(REQUEST_QUEUE_SIZE, |FreeBlocks(s.picker)|) > 0;
    assert res[0] in res;
    UnfinishedIsFree(md4, s, res[0]);
  }

  /** A new peer that asks while nothing is outstanding gets an unfinished block first. */
  lemma AskPicks(md4: seq<byte> -> Hash, s: State, peer: Peer)
    requires Inv(md4, s) && Outstanding(s) == multiset{} && Unfinished(s.picker) != {}
    ensures var t := DoAsk(Connected(s, peer), |s.conns|, {}, true);
            var conn := t.conns[|s.conns|];
            && conn.alive && conn.requested != [] && t.deliveries == s.deliveries
            && var b := conn.requested[0].block;
               conn.requested[0] == MakePending(b, s.size) && b in Unfinished(s.picker) && IsBlockOf(s.size, b)
  {
    SlowPickUnfinished(md4, s, peer);
    var res := PickPieces(s.picker, REQUEST_QUEUE_SIZE, peer, {}, true).1;
    hide Inv, PickPieces, StartReceiving, Unfinished, IsBlockOf, MakePending, Outstanding;
    assert Requests(res, s.size)[0] == MakePending(res[0], s.size);
    assert [] + Requests(res, s.size) == Requests(res, s.size);
    assert MakePending(res[0], s.size).block == res[0] by {
      MakePendingBlock(res[0], s.size);
    }
  }

  lemma MakePendingBlock(b: PieceBlock, size: nat)
    ensures MakePending(b, size).block == b
  {
  }

  function WholePart(size: nat, target: seq<byte>, b: PieceBlock): Part
    requires b.Start() <= BlockEnd(size, b) <= |target|
  {
    Part(b.Start(), BlockEnd(size, b), target[b.Start()..BlockEnd(size, b)])
  }

  /** One part with all bytes of a block completes a fresh request for it. */
  lemma WholeBlock(size: nat, target: seq<byte>, b: PieceBlock)
    requires Representable(size) && IsBlockOf(size, b) && |target| == size
    ensures b.Start() <= BlockEnd(size, b) <= |target|
    ensures var p, part := MakePending(b, size), WholePart(size, target, b);
            && FromOffset(part.begin) == b && HasSlice(p, part) && !CutShort(part)
            && TakePart(p, part) == Pending(b, part.bytes, [])
  {
    BlockBounds(size, b);
    FromOffsetStart(b, 0);
    var p, c := MakePending(b, size), Arriving(WholePart(size, target, b));
    assert c.bytes == target[b.Start()..BlockEnd(size, b)];
    assert p.segs[..0] == [] && SubRange(p.segs[0], Range(c.begin, c.begin + |c.bytes|)) == [];
    assert SubAll(p.segs, Range(c.begin, c.begin + |c.bytes|)) == [];
    assert Overlay(p.data, 0, c.bytes) == c.bytes;
  }

  lemma ReceiveStep(s: State, target: seq<byte>, c: nat)
    requires Representable(s.size) && |target| == s.size && c < |s.conns| && s.conns[c].requested != []
    requires var b := s.conns[c].requested[0].block;
             s.conns[c].requested[0] == MakePending(b, s.size) && IsBlockOf(s.size, b)
    ensures var b := s.conns[c].requested[0].block;
            && b.Start() <= BlockEnd(s.size, b) <= |target|
            && var part := WholePart(s.size, target, b);
               DoReceive(s, c, part)
               == Running(s.(conns := s.conns[c := s.conns[c].(requested := RemoveAt(s.conns[c].requested, 0))],
                             deliveries := s.deliveries + [Pending(b, part.bytes, [])]))
  {
    var b := s.conns[c].requested[0].block;
    WholeBlock(s.size, target, b);
    hide HasSlice, TakePart, CutShort, MakePending, WholePart, IsBlockOf;
    assert FindRequest(s.conns[c].requested, b) == 0;
  }

  lemma OneInQueue(s: State, target: seq<byte>, b: PieceBlock)
    requires b.Start() <= BlockEnd(s.size, b) <= |target|
    requires s.deliveries == [Pending(b, WholePart(s.size, target, b).bytes, [])]
    ensures QueueAgrees(s, target)
  {
  }

  lemma GoodWithQueue(md4: seq<byte> -> Hash, s: State, t: State, target: seq<byte>)
    requires Good(md4, s, target) && Inv(md4, t) && QueueAgrees(t, target)
    requires t == s.(conns := t.conns, deliveries := t.deliveries)
    ensures Good(md4, t, target)
  {
  }

  /** A request that comes whole ends in the queue. */
  lemma ReceiveWhole(md4: seq<byte> -> Hash, s: State, target: seq<byte>, c: nat)
    requires Good(md4, s, target) && c < |s.conns| && s.conns[c].requested != [] && s.deliveries == []
    requires var b := s.conns[c].requested[0].block;
             s.conns[c].requested[0] == MakePending(b, s.size) && IsBlockOf(s.size, b)
    ensures var b := s.conns[c].requested[0].block;
            && b.Start() <= BlockEnd(s.size, b) <= |target|
            && var o := DoReceive(s, c, WholePart(s.size, target, b));
               && o.Running? && Good(md4, o.state, target) && o.state.picker == s.picker
               && |o.state.deliveries| == 1 && o.state.deliveries[0].block == b
  {
    var b := s.conns[c].requested[0].block;
    ReceiveStep(s, target, c);
    var part := WholePart(s.size, target, b);
    ReceiveKeeps(md4, s, c, part);
    hide DoReceive, Inv, Good, MakePending, IsBlockOf, RemoveAt, QueueAgrees, WholePart;
    var t := DoReceive(s, c, part).state;
    assert [] + [Pending(b, part.bytes, [])] == [Pending(b, part.bytes, [])];
    OneInQueue(t, target, b);
    GoodWithQueue(md4, s, t, target);
  }

  // ----- runs that finish

  lemma {:induction false} RunCons(md4: seq<byte> -> Hash, s: State, step: Step, steps: seq<Step>)
    requires Apply(md4, s, step).Running?
    ensures Run(md4, s, [step] + steps) == Run(md4, Apply(md4, s, step).state, steps)
  {
    hide Apply;
    var all := [step] + steps;
    if steps == [] {
      assert all[..0] == [] && all == [step];
    } else {
      var n := |steps| - 1;
      assert all[..|all| - 1] == [step] + steps[..n] && all[|all| - 1] == steps[n];
      RunCons(md4, s, step, steps[..n]);
    }
  }

  /** A block of indexes 0..n-1 takes n stored blocks. */
  lemma {:induction false} AllStored(blocks: seq<Stored>, n: nat)
    requires Ascending(blocks) && forall k: nat :: k < n ==> k in Contents(blocks)
    ensures n <= |blocks| && (n > 0 ==> blocks[n - 1].index == n - 1)
  {
    hide Contents;
    if n > 0 {
      AllStored(blocks, n - 1);
      var i := ContentsFind(blocks, n - 1);
      IndexAtLeast(blocks, i);
      assert n >= 2 ==> n - 2 < i;
      assert i == n - 1;
    }
  }

  /** Where no block is unfinished, no piece is missing. */
  lemma AllDone(md4: seq<byte> -> Hash, s: State)
    requires Inv(md4, s) && LastIsCounted(s.picker) && NoFull(s) && Unfinished(s.picker) == {}
    ensures IsFinished(s.picker)
  {
    var pk := s.picker;
    forall p: nat | p < |pk.pieces|
      ensures Have(pk, p)
    {
      PieceDone(md4, s, p);
    }
    FinishedIffAllHave(pk);
  }

  lemma PieceDone(md4: seq<byte> -> Hash, s: State, p: nat)
    requires Inv(md4, s) && LastIsCounted(s.picker) && NoFull(s) && Unfinished(s.picker) == {} && p < |s.picker.pieces|
    ensures Have(s.picker, p)
  {
    var pk := s.picker;
    hide Counted, RequestsOk, VerifiedOk, Unfinished, OnDisk;
    if !Have(pk, p) {
      assert BlocksIn(pk, p) > 0;
      if Listed(pk, p) {
        assert PieceOk(s.size, pk, s.file, p, s.incoming[p]);
        forall k: nat | k < BlocksIn(pk, p)
          ensures Look(pk, PieceBlock(p, k)).finished
        {
          NotUnfinished(pk, PieceBlock(p, k));
        }
        AllStored(s.incoming[p].blocks, BlocksIn(pk, p));
      } else {
        assert Look(pk, PieceBlock(p, 0)) == FRESH;
        NotUnfinished(pk, PieceBlock(p, 0));
      }
      assert false;
    }
  }

  lemma NotUnfinished(pk: Picker, b: PieceBlock)
    requires Unfinished(pk) == {} && b.pieceIndex < |pk.pieces| && b.blockIndex < BLOCKS_PER_PIECE
    ensures Look(pk, b).finished
  {
    assert b == PieceBlock(b.pieceIndex, b.blockIndex);
    assert b !in Unfinished(pk);
  }

  lemma NothingHeld(s: State)
    requires s.deliveries == [] && forall c :: 0 <= c < |s.conns| ==> s.conns[c].requested == []
    ensures Outstanding(s) == multiset{}
  {
    NoConnBlocks(s.conns);
    assert BlockSeq([]) == [];
  }

  lemma {:induction false} NoConnBlocks(conns: seq<Conn>)
    requires forall c :: 0 <= c < |conns| ==> conns[c].requested == []
    ensures ConnBlocks(conns) == multiset{}
  {
    if conns != [] {
      NoConnBlocks(conns[..|conns| - 1]);
      assert BlockSeq([]) == [];
    }
  }

  /** The state in which a new peer holds requests for free blocks. */
  function Asked(s: State, peer: Peer): State {
    DoAsk(Connected(s, peer), |s.conns|, {}, true)
  }

  lemma AskedIsGood(md4: seq<byte> -> Hash, s: State, target: seq<byte>, peer: Peer)
    requires Good(md4, s, target) && Outstanding(s) == multiset{} && Unfinished(s.picker) != {}
    ensures Good(md4, Asked(s, peer), target) && Unfinished(Asked(s, peer).picker) == Unfinished(s.picker)
  {
    ConnectIsGood(md4, s, target, peer);
    AskIsGood(md4, Connected(s, peer), target, |s.conns|, {}, true);
    hide Agrees, NoFull, LastIsCounted, PickPieces, StartReceiving, Unfinished, HashesOf;
    AskSameFinished(Connected(s, peer), |s.conns|, {}, true);
  }

  lemma WholeIsHonest(size: nat, target: seq<byte>, b: PieceBlock)
    requires b.Start() <= BlockEnd(size, b) <= |target|
    ensures HonestPart(target, WholePart(size, target, b))
  {
  }

  /** A peer that sends the first block it was asked for, whole, finishes it. */
  lemma PartFinishes(md4: seq<byte> -> Hash, s: State, target: seq<byte>, c: nat) returns (part: Part, t: State)
    requires Good(md4, s, target) && c < |s.conns| && s.conns[c].requested != [] && s.deliveries == []
    requires var b := s.conns[c].requested[0].block;
             s.conns[c].requested[0] == MakePending(b, s.size) && IsBlockOf(s.size, b) && b in Unfinished(s.picker)
    ensures Good(md4, t, target) && Unfinished(t.picker) < Unfinished(s.picker) && HonestPart(target, part)
    ensures var o := DoReceive(s, c, part);
            o.Running? && o.state.deliveries != [] && DoDeliver(md4, o.state) == Running(t)
  {
    ReceiveWhole(md4, s, target, c);
    hide Good, Unfinished, IsBlockOf, MakePending, DoReceive, DoDeliver, WholePart;
    WholeIsHonest(s.size, target, s.conns[c].requested[0].block);
    part := WholePart(s.size, target, s.conns[c].requested[0].block);
    var u := DoReceive(s, c, part).state;
    DeliverIsGood(md4, u, target);
    t := DoDeliver(md4, u).state;
    DeliverMeasure(u, t);
  }

  lemma ApplyFetch(md4: seq<byte> -> Hash, s: State, peer: Peer, u: State, c: nat, part: Part, v: State)
    ensures Apply(md4, s, Connect(peer)) == Running(Connected(s, peer))
    ensures Pickers.WellFormed(s.picker)
            ==> Apply(md4, Connected(s, peer), Ask(|s.conns|, {}, true)) == Running(Asked(s, peer))
    ensures c < |u.conns| && u.conns[c].alive ==> Apply(md4, u, ReceivePart(c, part)) == DoReceive(u, c, part)
    ensures v.deliveries != [] ==> Apply(md4, v, Deliver) == DoDeliver(md4, v)
  {
    if Pickers.WellFormed(s.picker) {
      AskFits(Connected(s, peer), |s.conns|, {}, true);
    }
    hide DoAsk, AskedBlocks, DoReceive, DoDeliver;
  }

  /** Four steps that finish one more block: a new peer connects, asks, and sends it, and it is delivered. */
  lemma FetchOne(md4: seq<byte> -> Hash, s: State, target: seq<byte>, peer: Peer)
    returns (sent: Step, t: State)
    requires Good(md4, s, target) && s.deliveries == [] && Outstanding(s) == multiset{} && Unfinished(s.picker) != {}
    ensures Good(md4, t, target) && Unfinished(t.picker) < Unfinished(s.picker)
    ensures sent.ReceivePart? && HonestPart(target, sent.part)
    ensures forall steps :: Run(md4, s, [Connect(peer)] + ([Ask(|s.conns|, {}, true)] + ([sent] + ([Deliver] + steps))))
                            == Run(md4, t, steps)
  {
    AskPicks(md4, s, peer);
    AskedIsGood(md4, s, target, peer);
    assert Pickers.WellFormed(s.picker);
    hide Inv, Good, Pickers.WellFormed, HonestPart, Unfinished, IsBlockOf, MakePending, DoReceive, DoDeliver, DoAsk,
         Outstanding, Run, Apply, Connected;
    var u, c := Asked(s, peer), |s.conns|;
    AskedKeepsSize(s, peer);
    var part, end := PartFinishes(md4, u, target, c);
    sent, t := ReceivePart(c, part), end;
    var v := DoReceive(u, c, part).state;
    ApplyFetch(md4, s, peer, u, c, part, v);
    forall steps
      ensures Run(md4, s, [Connect(peer)] + ([Ask(c, {}, true)] + ([sent] + ([Deliver] + steps)))) == Run(md4, t, steps)
    {
      RunCons(md4, s, Connect(peer), [Ask(c, {}, true)] + ([sent] + ([Deliver] + steps)));
      RunCons(md4, Connected(s, peer), Ask(c, {}, true), [sent] + ([Deliver] + steps));
      RunCons(md4, u, sent, [Deliver] + steps);
      RunCons(md4, v, Deliver, steps);
    }
  }

  lemma AskedKeepsSize(s: State, peer: Peer)
    ensures Asked(s, peer).size == s.size && |Asked(s, peer).conns| == |s.conns| + 1
  {
    hide StartReceiving, PickPieces;
  }

  lemma AbortRuns(md4: seq<byte> -> Hash, s: State, target: seq<byte>, c: nat) returns (t: State)
    requires Good(md4, s, target) && c < |s.conns| && s.conns[c].requested != []
    ensures Good(md4, t, target) && Unfinished(t.picker) == Unfinished(s.picker) && |Outstanding(t)| < |Outstanding(s)|
    ensures forall steps :: Run(md4, s, [Die(c)] + ([AbortNext(c)] + steps)) == Run(md4, t, steps)
  {
    hide Inv, Good, Unfinished, DoAbort, Outstanding, Run;
    var u := s.(conns := s.conns[c := s.conns[c].(alive := false)]);
    DieIsGood(md4, s, target, c);
    AbortIsGood(md4, u, target, c);
    t := DoAbort(u, c).state;
    assert Apply(md4, s, Die(c)) == Running(u) && Apply(md4, u, AbortNext(c)) == Running(t);
    hide Apply;
    forall steps
      ensures Run(md4, s, [Die(c)] + ([AbortNext(c)] + steps)) == Run(md4, t, steps)
    {
      RunCons(md4, s, Die(c), [AbortNext(c)] + steps);
      RunCons(md4, u, AbortNext(c), steps);
    }
  }

  lemma DeliverRuns(md4: seq<byte> -> Hash, s: State, target: seq<byte>) returns (t: State)
    requires Good(md4, s, target) && s.deliveries != []
    ensures Good(md4, t, target) && Unfinished(t.picker) <= Unfinished(s.picker) && |Outstanding(t)| < |Outstanding(s)|
    ensures forall steps :: Run(md4, s, [Deliver] + steps) == Run(md4, t, steps)
  {
    hide Inv, Good, Unfinished, DoDeliver, Outstanding, Run;
    DeliverIsGood(md4, s, target);
    t := DoDeliver(md4, s).state;
    DeliverMeasure(s, t);
    assert Apply(md4, s, Deliver) == Running(t);
    hide Apply;
    forall steps
      ensures Run(md4, s, [Deliver] + steps) == Run(md4, t, steps)
    {
      RunCons(md4, s, Deliver, steps);
    }
  }

  /** From a good state the queue can be emptied, the requests given up, and the unfinished
      blocks fetched one by one, until the transfer is finished. */
  lemma {:induction false} CanComplete(md4: seq<byte> -> Hash, s: State, target: seq<byte>, peer: Peer)
    returns (steps: seq<Step>)
    requires Good(md4, s, target)
    ensures forall x :: x in steps ==> HonestStep(target, x) && !x.ReceiveHashSet?
    ensures Run(md4, s, steps).Running? && IsFinished(Run(md4, s, steps).state.picker)
    decreases Unfinished(s.picker), |Outstanding(s)|
  {
    hide Good, Unfinished, Outstanding, Run, IsFinished, HonestPart;
    if s.deliveries != [] {
      var t := DeliverRuns(md4, s, target);
      var rest := CanComplete(md4, t, target, peer);
      steps := [Deliver] + rest;
    } else if c: nat :| c < |s.conns| && s.conns[c].requested != [] {
      var t := AbortRuns(md4, s, target, c);
      var rest := CanComplete(md4, t, target, peer);
      steps := [Die(c)] + ([AbortNext(c)] + rest);
    } else {
      NothingHeld(s);
      if Unfinished(s.picker) != {} {
        var sent, t := FetchOne(md4, s, target, peer);
        var rest := CanComplete(md4, t, target, peer);
        steps := [Connect(peer)] + ([Ask(|s.conns|, {}, true)] + ([sent] + ([Deliver] + rest)));
      } else {
        steps := [];
        GoodIsDone(md4, s, target);
      }
    }
  }

  lemma GoodIsDone(md4: seq<byte> -> Hash, s: State, target: seq<byte>)
    requires Good(md4, s, target) && Unfinished(s.picker) == {}
    ensures Run(md4, s, []) == Running(s) && IsFinished(s.picker)
  {
    AllDone(md4, s);
  }
}
