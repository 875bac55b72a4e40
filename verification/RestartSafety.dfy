/** Safety across restarts: a transfer that is started again from what it saved,
    any number of times, whatever its last piece was doing (transfer.go:87-283). */
module RestartSafety {
  import opened Bytes
  import opened Geometry
  import opened Peers
  import opened PendingBlocks
  import opened DownloadingPieces
  import opened Pickers
  import opened PiecePickers
  import opened ReceivingPieces
  import opened Transfers
  import opened TransferSafety
  import opened TransferResults
  import opened Restarts

  function LastCount(s: State): nat {
    NumPiecesAndBlocks(s.size).blocksInLastPiece
  }

  /** The count is lost and the last piece is started: with the count the invariant holds. */
  ghost predicate Seen(md4: seq<byte> -> Hash, s: State) {
    && s.picker.blocksInLastPiece == 0 && LastTaken(s.picker)
    && Inv(md4, WithLast(s, LastCount(s)))
  }

  /** What every run of a transfer keeps, restarted or not. */
  ghost predicate Alive(md4: seq<byte> -> Hash, s: State) {
    Inv(md4, s) || Seen(md4, s)
  }

  // ----- steps

  lemma {:induction false} PickKeepsBits(pk: Picker, n: int, peer: Peer, slower: set<Peer>, slow: bool)
    ensures var after := PickPieces(pk, n, peer, slower, slow).0;
            && after.blocksInLastPiece == pk.blocksInLastPiece && |after.pieces| == |pk.pieces|
            && forall i :: 0 <= i < |pk.pieces| && pk.pieces[i] ==> after.pieces[i]
    decreases Unset(pk.pieces)
  {
    hide AddFrom;
    var (pk1, res) := TwoPasses(pk, n, peer, slower, slow);
    if |res| < n && FirstUnset(pk1.pieces) < |pk1.pieces| {
      ChooseUnsets(pk1);
      PickKeepsBits(Choose(pk1), n - |res|, peer, slower, slow);
    }
  }

  /** The bit of the last piece and the count stay as they are. */
  predicate KeepsLast(s: State, t: State) {
    && t.size == s.size && t.picker.blocksInLastPiece == s.picker.blocksInLastPiece
    && (LastTaken(s.picker) ==> LastTaken(t.picker))
  }

  lemma DeliverKeepsLast(md4: seq<byte> -> Hash, s: State)
    requires s.deliveries != []
    ensures DoDeliver(md4, s).Running? ==> KeepsLast(s, DoDeliver(md4, s).state)
  {
    hide FinishBlockState, AllFinished, WriteAt, Insert, IsFinished, Has, Look, RemoveAt;
  }

  lemma StepKeepsLast(md4: seq<byte> -> Hash, s: State, step: Step)
    ensures Apply(md4, s, step).Running? ==> KeepsLast(s, Apply(md4, s, step).state)
  {
    hide PickPieces, StartReceiving, AbortBlockState, DoDeliver, DoReceive;
    match step
    case Ask(c, slower, slow) =>
      if c < |s.conns| {
        PickKeepsBits(s.picker, REQUEST_QUEUE_SIZE, s.conns[c].peer, slower, slow);
      }
    case ReceivePart(c, part) =>
      if c < |s.conns| {
        ReceiveKeepsLast(s, c, part);
      }
    case Deliver =>
      if s.deliveries != [] {
        DeliverKeepsLast(md4, s);
      }
    case _ =>
  }

  lemma ReceiveKeepsLast(s: State, c: nat, part: Part)
    requires c < |s.conns|
    ensures DoReceive(s, c, part).Running? ==> KeepsLast(s, DoReceive(s, c, part).state)
  {
    hide TakePart, HasSlice;
  }

  /** The block at the head of the queue is new and goes to the file. */
  predicate Stores(s: State) {
    && s.deliveries != []
    && var b := s.deliveries[0].block;
       && b.pieceIndex in s.incoming && !Has(s.incoming[b.pieceIndex].blocks, b.blockIndex)
       && InRange(s.picker, b) && (Listed(s.picker, b.pieceIndex) ==> Look(s.picker, b).requested)
  }

  /** The state at the first save of a delivery: the block is finished and on disk. */
  function BlockStored(s: State): State
    requires Stores(s)
  {
    AfterStore(Rest(s), s.deliveries[0])
  }

  lemma StoreKeepsInv(md4: seq<byte> -> Hash, s: State)
    requires Inv(md4, s) && Stores(s)
    ensures Inv(md4, BlockStored(s)) && NewBlock(s, s.deliveries[0])
  {
    DeliverCases(md4, s);
    hide Inv, NewBlock, AfterStore, Look;
    StoreKeepsAll(md4, s, s.deliveries[0]);
  }

  lemma StoresSame(s: State, n: nat)
    ensures Stores(WithLast(s, n)) <==> Stores(s)
    ensures Stores(s) ==> BlockStored(WithLast(s, n)) == WithLast(BlockStored(s), n)
  {
    hide Insert, WriteAt, FinishBlockState, Has;
  }

  lemma NeverFull(md4: seq<byte> -> Hash, s: State)
    requires Stores(s) && s.picker.blocksInLastPiece == 0
    requires s.deliveries[0].block.pieceIndex + 1 == |s.picker.pieces|
    ensures DoDeliver(md4, s) == Running(BlockStored(s))
  {
    hide Insert, WriteAt, FinishBlockState, Has, DoComplete;
    var pb := s.deliveries[0];
    InsertedLength(s.incoming[pb.block.pieceIndex], Stored(pb.block.blockIndex, pb.data));
  }

  lemma LastIsStored(md4: seq<byte> -> Hash, s: State)
    requires Inv(md4, s) && s.deliveries != [] && LastOfPiece(s, s.deliveries[0].block)
    ensures Stores(s)
  {
    DeliverCases(md4, s);
  }

  /** The block that would complete the last piece is stored, and the piece stays listed. */
  lemma SeenLast(md4: seq<byte> -> Hash, s: State)
    requires Seen(md4, s) && s.deliveries != [] && !LastStaysOpen(s, LastCount(s))
    ensures DoDeliver(md4, s).Running? && Seen(md4, DoDeliver(md4, s).state)
  {
    hide Inv, Stores, BlockStored, DoDeliver, Has;
    var n := LastCount(s);
    assert LastOfPiece(WithLast(s, n), s.deliveries[0].block);
    LastIsStored(md4, WithLast(s, n));
    StoresSame(s, n);
    NeverFull(md4, s);
    StoreKeepsInv(md4, WithLast(s, n));
    DeliverApplies(md4, s);
    StepKeepsLast(md4, s, Deliver);
  }

  lemma StepKeepsSeen(md4: seq<byte> -> Hash, s: State, step: Step)
    requires Seen(md4, s)
    ensures var o := Apply(md4, s, step);
            if o.Running? then Seen(md4, o.state) else o.reason in {SliceBounds, NoHashSet, NoPieceHash, PieceBitClear}
  {
    hide Inv, Apply, LastStaysOpen, LastTaken, DoDeliver;
    if step.Deliver? && s.deliveries != [] && !LastStaysOpen(s, LastCount(s)) {
      DeliverApplies(md4, s);
      SeenLast(md4, s);
    } else {
      StepSame(md4, s, step, LastCount(s));
      StepKeeps(md4, WithLast(s, LastCount(s)), step);
      StepKeepsLast(md4, s, step);
    }
  }

  lemma DeliverApplies(md4: seq<byte> -> Hash, s: State)
    requires s.deliveries != []
    ensures Apply(md4, s, Deliver) == DoDeliver(md4, s)
  {
  }

  lemma StepKeepsAlive(md4: seq<byte> -> Hash, s: State, step: Step)
    requires Alive(md4, s)
    ensures var o := Apply(md4, s, step);
            if o.Running? then Alive(md4, o.state) else o.reason in {SliceBounds, NoHashSet, NoPieceHash, PieceBitClear}
  {
    hide Inv, Apply, Seen;
    if Inv(md4, s) {
      StepKeeps(md4, s, step);
    } else {
      StepKeepsSeen(md4, s, step);
    }
  }

  lemma {:induction false} RunKeepsAlive(md4: seq<byte> -> Hash, s: State, steps: seq<Step>)
    requires Alive(md4, s)
    ensures var o := Run(md4, s, steps);
            if o.Running? then Alive(md4, o.state) else o.reason in {SliceBounds, NoHashSet, NoPieceHash, PieceBitClear}
  {
    hide Apply, Alive;
    if steps != [] {
      RunKeepsAlive(md4, s, steps[..|steps| - 1]);
      var before := Run(md4, s, steps[..|steps| - 1]);
      if before.Running? {
        StepKeepsAlive(md4, before.state, steps[|steps| - 1]);
      }
    }
  }

  lemma AliveIsVerified(md4: seq<byte> -> Hash, s: State, p: nat)
    requires Alive(md4, s) && Have(s.picker, p)
    ensures p in s.verified && PieceVerified(md4, s.size, s.file, p, s.verified[p])
  {
    hide Look, PieceOk, Counted, RequestsOk, Sized, Pickers.WellFormed, PieceVerified, Shape;
    assert Have(WithLast(s, LastCount(s)).picker, p);
  }

  // ----- saves

  /** The hash of the complete piece p is known to be another one. */
  predicate Mismatch(md4: seq<byte> -> Hash, s: State, p: nat) {
    && p in s.incoming && |s.incoming[p].blocks| == BlocksIn(s.picker, p)
    && s.hashSet.Some? && p < |s.hashSet.value| && md4(s.incoming[p].hashed) != s.hashSet.value[p]
  }

  /** The state at the second save of a delivery whose hash differs: the piece is given up. */
  function GivenUp(s: State, p: nat): State
    requires p < |s.picker.pieces|
  {
    s.(picker := RemoveDownloadingPiece(s.picker, p), incoming := s.incoming - {p})
  }

  /** A process ends between two events, or dies within a delivery: while it writes the
      block or before it saves, after its first save, or after the save that follows
      giving the piece up. Picking does not save, so pieces started since the last save
      are forgotten; and a write that is cut off leaves any bytes in its place. */
  datatype Death =
    | Between(forgotten: seq<nat>)
    | InWrite(written: seq<byte>, forgotten: seq<nat>)
    | AfterFirstSave
    | AfterGivingUp

  /** The piece is started, and none of its blocks was ever saved. */
  predicate Started(pk: Picker, p: nat) {
    Listed(pk, p) && p < |pk.pieces| && true !in Finished(PieceAt(pk, p).blocks)
  }

  /** The state without those of the pieces that are only started. */
  function Forget(s: State, pieces: seq<nat>): State {
    if pieces == [] then s
    else
      var t, p := Forget(s, pieces[..|pieces| - 1]), pieces[|pieces| - 1];
      if Started(t.picker, p) then GivenUp(t, p) else t
  }

  /** The block is in the file as far as the write came; nothing is saved yet. */
  function Written(s: State, bytes: seq<byte>): State
    requires s.deliveries != []
  {
    var pb := s.deliveries[0];
    s.(file := WriteAt(s.file, pb.block.Start(), bytes[..Min(|bytes|, |pb.data|)]))
  }

  /** What a process that ends in state s leaves behind. A panic in the next event is such
      a death: the saves it made before are what is left. */
  function Saved(md4: seq<byte> -> Hash, s: State, death: Death): State {
    match death
    case Between(forgotten) => Forget(s, forgotten)
    case InWrite(written, forgotten) => Forget(if Stores(s) then Written(s, written) else s, forgotten)
    case AfterFirstSave => if Stores(s) then BlockStored(s) else s
    case AfterGivingUp =>
      if !Stores(s) then s
      else
        var p, t := s.deliveries[0].block.pieceIndex, BlockStored(s);
        if Mismatch(md4, t, p) && p < |t.picker.pieces| then GivenUp(t, p) else t
  }

  /** Enough to restart from, with the count or after it was lost. */
  ghost predicate Restartable(md4: seq<byte> -> Hash, s: State) {
    || Data(md4, s)
    || (s.picker.blocksInLastPiece == 0 && LastTaken(s.picker) && Data(md4, WithLast(s, LastCount(s))))
  }

  lemma InvIsData(md4: seq<byte> -> Hash, s: State)
    requires Inv(md4, s)
    ensures Data(md4, s)
  {
  }

  /** A piece that is given up is untouched again; nothing else changes. */
  lemma GiveUpLook(pk: Picker, p: nat)
    requires Pickers.WellFormed(pk) && Listed(pk, p) && p < |pk.pieces|
    ensures var after := RemoveDownloadingPiece(pk, p);
            && Pickers.WellFormed(after) && (Sized(pk) ==> Sized(after)) && Untouched(after, p)
            && forall x: PieceBlock :: Look(after, x) == if x.pieceIndex != p then Look(pk, x)
                                                         else if x.blockIndex < BlocksIn(pk, p) then FRESH else DONE
  {
    RemovePieceLook(pk, p);
    RemovePieceList(pk, p, p);
    var mid, after := RemovePiece(pk, p), RemoveDownloadingPiece(pk, p);
    forall j | 0 <= j < |mid.downloading|
      ensures mid.downloading[j].pieceIndex != p
    {
    }
  }

  lemma GiveUpKeepsPiece(s: State, p: nat, q: nat)
    requires PickerOk(s) && Listed(s.picker, p) && p < |s.picker.pieces| && q != p && q in s.incoming
    requires PieceOk(s.size, s.picker, s.file, q, s.incoming[q])
    ensures PieceOk(s.size, RemoveDownloadingPiece(s.picker, p), s.file, q, s.incoming[q])
  {
    GiveUpLook(s.picker, p);
    var after := RemoveDownloadingPiece(s.picker, p);
    hide Look, HashedToGap, OnDisk, Contents, Pickers.WellFormed, Sized;
    assert BlocksIn(after, q) == BlocksIn(s.picker, q);
    hide RemoveDownloadingPiece;
    forall k: nat
      ensures Look(after, PieceBlock(q, k)) == Look(s.picker, PieceBlock(q, k))
    {
    }
  }

  lemma GiveUpLists(pk: Picker, p: nat, q: nat)
    requires Pickers.WellFormed(pk) && Listed(pk, p) && p < |pk.pieces|
    ensures var after := RemoveDownloadingPiece(pk, p);
            && (Listed(after, q) <==> Listed(pk, q) && q != p)
            && (Have(after, q) <==> Have(pk, q))
            && BlocksIn(after, q) == BlocksIn(pk, q)
  {
    RemovePieceList(pk, p, q);
  }

  lemma GiveUpKeepsIncoming(s: State, p: nat)
    requires PickerOk(s) && IncomingOk(s.size, s.picker, s.incoming, s.file)
    requires Listed(s.picker, p) && p < |s.picker.pieces|
    ensures IncomingOk(s.size, RemoveDownloadingPiece(s.picker, p), s.incoming - {p}, s.file)
  {
    hide PieceOk, Sized, Pickers.WellFormed, RemoveDownloadingPiece, Listed, Have, BlocksIn, Shape;
    forall q: nat
      ensures q in s.incoming && q != p ==>
                PieceOk(s.size, RemoveDownloadingPiece(s.picker, p), s.file, q, s.incoming[q])
    {
      GiveUpLists(s.picker, p, q);
      if q in s.incoming && q != p {
        GiveUpKeepsPiece(s, p, q);
      }
    }
    forall q: nat
      ensures var after := RemoveDownloadingPiece(s.picker, p);
              (Listed(after, q) <==> Listed(s.picker, q) && q != p) && BlocksIn(after, q) == BlocksIn(s.picker, q)
    {
      GiveUpLists(s.picker, p, q);
    }
  }

  lemma GiveUpKeepsCounts(pk: Picker, p: nat)
    requires Pickers.WellFormed(pk) && Listed(pk, p) && p < |pk.pieces| && AllCountsOk(pk)
    ensures AllCountsOk(RemoveDownloadingPiece(pk, p))
  {
    GiveUpLook(pk, p);
    hide Look, RemoveDownloadingPiece, Pickers.WellFormed, Listed;
    forall x: PieceBlock
      ensures CountsOk(Look(RemoveDownloadingPiece(pk, p), x))
    {
      assert CountsOk(Look(pk, x));
    }
  }

  lemma GiveUpKeepsData(md4: seq<byte> -> Hash, s: State, p: nat)
    requires Data(md4, s) && Listed(s.picker, p) && p < |s.picker.pieces|
    ensures Data(md4, GivenUp(s, p))
  {
    assert Shape(GivenUp(s, p));
    hide Look, PieceOk, PieceVerified, IncomingOk, AllCountsOk, Sized, Pickers.WellFormed, RemoveDownloadingPiece,
         Shape;
    GiveUpLook(s.picker, p);
    GiveUpKeepsIncoming(s, p);
    GiveUpKeepsCounts(s.picker, p);
    forall q: nat
      ensures Have(RemoveDownloadingPiece(s.picker, p), q) <==> Have(s.picker, q)
    {
      GiveUpLists(s.picker, p, q);
    }
  }

  lemma GivenUpIsData(md4: seq<byte> -> Hash, s: State)
    requires Stores(s) && Data(md4, BlockStored(s)) && s.deliveries[0].block.pieceIndex < |BlockStored(s).picker.pieces|
    ensures Data(md4, GivenUp(BlockStored(s), s.deliveries[0].block.pieceIndex))
  {
    hide Look, PieceOk, VerifiedOk, Sized, Pickers.WellFormed, Insert, WriteAt, FinishBlockState;
    assert Listed(BlockStored(s).picker, s.deliveries[0].block.pieceIndex);
    hide BlockStored;
    GiveUpKeepsData(md4, BlockStored(s), s.deliveries[0].block.pieceIndex);
  }

  lemma {:induction false} ForgetKeepsData(md4: seq<byte> -> Hash, s: State, pieces: seq<nat>)
    requires Data(md4, s)
    ensures Data(md4, Forget(s, pieces))
  {
    hide Data, GivenUp;
    if pieces != [] {
      ForgetKeepsData(md4, s, pieces[..|pieces| - 1]);
      var t, p := Forget(s, pieces[..|pieces| - 1]), pieces[|pieces| - 1];
      if Started(t.picker, p) {
        GiveUpKeepsData(md4, t, p);
      }
    }
  }

  lemma {:induction false} ForgetSame(s: State, pieces: seq<nat>, n: nat)
    ensures Forget(WithLast(s, n), pieces) == WithLast(Forget(s, pieces), n)
    ensures var t := Forget(s, pieces);
            && t.size == s.size && t.picker.blocksInLastPiece == s.picker.blocksInLastPiece
            && t.verified == s.verified && t.hashSet == s.hashSet
  {
    if pieces != [] {
      ForgetSame(s, pieces[..|pieces| - 1], n);
      hide Finished, RemoveAt;
    }
  }

  /** A stored block stays on disk, whatever is written over the new one. */
  lemma WrittenKeepsBlock(s: State, bytes: seq<byte>, p: nat, k: nat)
    requires s.deliveries != [] && NewBlock(s, s.deliveries[0])
    requires p in s.incoming && PieceOk(s.size, s.picker, s.file, p, s.incoming[p])
    requires k in Contents(s.incoming[p].blocks)
    ensures OnDisk(s.size, Written(s, bytes).file, PieceBlock(p, k), Contents(s.incoming[p].blocks)[k])
  {
    hide WriteAt, Look, HashedToGap, Contents, OnDisk, Sized, Pickers.WellFormed, Listed;
    var pb, stored := s.deliveries[0], Contents(s.incoming[p].blocks);
    assert k in stored && OnDisk(s.size, s.file, PieceBlock(p, k), stored[k]);
    ListedBlockOfFile(s, p, k);
    hide PickerOk, IncomingOk, PieceOk, IsBlockOf, InRange;
    assert PieceBlock(p, k) != pb.block;
    WriteKeepsBlock(s.size, s.file, pb.block, bytes[..Min(|bytes|, |pb.data|)], PieceBlock(p, k), stored[k]);
  }

  lemma WrittenKeepsPiece(s: State, bytes: seq<byte>, p: nat)
    requires s.deliveries != [] && NewBlock(s, s.deliveries[0]) && p in s.incoming
    requires PieceOk(s.size, s.picker, s.file, p, s.incoming[p])
    ensures PieceOk(s.size, s.picker, Written(s, bytes).file, p, s.incoming[p])
  {
    hide NewBlock, Written, Look, HashedToGap, Contents, OnDisk;
    forall k: nat | k in Contents(s.incoming[p].blocks)
      ensures OnDisk(s.size, Written(s, bytes).file, PieceBlock(p, k), Contents(s.incoming[p].blocks)[k])
    {
      WrittenKeepsBlock(s, bytes, p, k);
    }
  }

  lemma WrittenKeepsVerified(md4: seq<byte> -> Hash, s: State, bytes: seq<byte>)
    requires s.deliveries != [] && NewBlock(s, s.deliveries[0])
    requires VerifiedOk(md4, s.size, s.picker, s.file, s.verified)
    ensures VerifiedOk(md4, s.size, s.picker, Written(s, bytes).file, s.verified)
  {
    var pb := s.deliveries[0];
    hide WriteAt, Look, IncomingOk, PieceVerified, Sized, Pickers.WellFormed;
    forall p: nat | p in s.verified
      ensures PieceVerified(md4, s.size, Written(s, bytes).file, p, s.verified[p])
    {
      WriteKeepsPiece(md4, s.size, s.file, pb.block, bytes[..Min(|bytes|, |pb.data|)], p, s.verified[p]);
    }
  }

  /** A write that was cut off, or done and not saved, is in nobody's way. */
  lemma WrittenIsData(md4: seq<byte> -> Hash, s: State, bytes: seq<byte>)
    requires Data(md4, s) && s.deliveries != [] && NewBlock(s, s.deliveries[0])
    ensures Data(md4, Written(s, bytes))
  {
    hide PieceOk, VerifiedOk, NewBlock, AllCountsOk, Sized, Pickers.WellFormed, WriteAt, Listed, BlocksIn;
    WrittenKeepsVerified(md4, s, bytes);
    forall p: nat | p in s.incoming
      ensures PieceOk(s.size, s.picker, Written(s, bytes).file, p, s.incoming[p])
    {
      WrittenKeepsPiece(s, bytes, p);
    }
  }

  lemma SavedInv(md4: seq<byte> -> Hash, s: State, death: Death)
    requires Inv(md4, s)
    ensures Data(md4, Saved(md4, s, death))
  {
    hide Inv, Data, Stores, BlockStored, Mismatch, NewBlock, Forget, Written;
    InvIsData(md4, s);
    if death.Between? {
      ForgetKeepsData(md4, s, death.forgotten);
    } else if death.InWrite? {
      if Stores(s) {
        BlockStoredShape(s);
        StoreKeepsInv(md4, s);
        WrittenIsData(md4, s, death.written);
        ForgetKeepsData(md4, Written(s, death.written), death.forgotten);
      } else {
        ForgetKeepsData(md4, s, death.forgotten);
      }
    } else if Stores(s) {
      BlockStoredShape(s);
      StoreKeepsInv(md4, s);
      InvIsData(md4, BlockStored(s));
      if s.deliveries[0].block.pieceIndex < |BlockStored(s).picker.pieces| {
        GivenUpIsData(md4, s);
      }
    }
  }

  lemma MismatchSame(md4: seq<byte> -> Hash, s: State, p: nat, n: nat)
    requires p + 1 != |s.picker.pieces|
    ensures Mismatch(md4, WithLast(s, n), p) <==> Mismatch(md4, s, p)
    ensures p < |s.picker.pieces| ==> GivenUp(WithLast(s, n), p) == WithLast(GivenUp(s, p), n)
  {
    hide RemoveAt;
  }

  /** A last piece without block count is never complete, so it is never given up. */
  lemma LastHasNoMismatch(md4: seq<byte> -> Hash, s: State)
    requires Stores(s) && s.picker.blocksInLastPiece == 0
    requires s.deliveries[0].block.pieceIndex + 1 == |s.picker.pieces|
    ensures !Mismatch(md4, BlockStored(s), s.deliveries[0].block.pieceIndex)
  {
    hide Insert, WriteAt, FinishBlockState, Has;
    var pb := s.deliveries[0];
    InsertedLength(s.incoming[pb.block.pieceIndex], Stored(pb.block.blockIndex, pb.data));
  }

  lemma BlockStoredShape(s: State)
    requires Stores(s)
    ensures var t := BlockStored(s);
            t.size == s.size && t.picker.blocksInLastPiece == s.picker.blocksInLastPiece
            && t.picker.pieces == s.picker.pieces && s.deliveries != []
  {
    hide Insert, WriteAt, FinishBlockState, Has;
  }

  lemma WrittenSame(s: State, bytes: seq<byte>, n: nat)
    requires s.deliveries != []
    ensures Written(WithLast(s, n), bytes) == WithLast(Written(s, bytes), n)
    ensures var t := Written(s, bytes); t.size == s.size && t.picker == s.picker
  {
  }

  /** With the count the process could have left the same behind. */
  lemma SavedSeen(md4: seq<byte> -> Hash, s: State, death: Death) returns (seen: Death)
    requires Seen(md4, s)
    ensures var saved, n := Saved(md4, s, death), LastCount(s);
            && saved.size == s.size && saved.picker.blocksInLastPiece == 0
            && Saved(md4, WithLast(s, n), seen) == WithLast(saved, n)
  {
    hide Inv, Stores, BlockStored, Mismatch, RemoveDownloadingPiece, Forget, Written;
    var n := LastCount(s);
    seen := death;
    StoresSame(s, n);
    if death.Between? {
      ForgetSame(s, death.forgotten, n);
    } else if death.InWrite? {
      if Stores(s) {
        BlockStoredShape(s);
        WrittenSame(s, death.written, n);
        ForgetSame(Written(s, death.written), death.forgotten, n);
      } else {
        ForgetSame(s, death.forgotten, n);
      }
    } else if Stores(s) {
      BlockStoredShape(s);
      BlockStoredShape(WithLast(s, n));
      var p, t := s.deliveries[0].block.pieceIndex, BlockStored(s);
      if p + 1 == |s.picker.pieces| {
        LastHasNoMismatch(md4, s);
        seen := AfterFirstSave;
      } else {
        MismatchSame(md4, t, p, n);
        if p < |t.picker.pieces| {
          GivenUpShape(t, p);
        }
      }
    }
  }

  lemma GivenUpShape(t: State, p: nat)
    requires p + 1 < |t.picker.pieces|
    ensures var u := GivenUp(t, p);
            u.size == t.size && u.picker.blocksInLastPiece == t.picker.blocksInLastPiece
            && (LastTaken(t.picker) ==> LastTaken(u.picker))
  {
    hide RemoveAt;
  }

  // ----- a last piece that is not listed needs no count

  predicate LastUnlisted(pk: Picker) {
    pk.pieces != [] ==> !Listed(pk, |pk.pieces| - 1)
  }

  lemma UntakenIsUnlisted(pk: Picker)
    requires Pickers.WellFormed(pk) && !LastTaken(pk)
    ensures LastUnlisted(pk)
  {
  }

  lemma ForgetCountLook(pk: Picker, n: nat, b: PieceBlock)
    requires pk.blocksInLastPiece == 0 && LastUnlisted(pk)
    ensures Look(pk, b) == if b.pieceIndex + 1 == |pk.pieces| && Untouched(pk, b.pieceIndex) then DONE
                           else Look(Recount(pk, n), b)
  {
  }

  lemma ForgetCountKeepsPiece(s: State, n: nat, p: nat)
    requires s.picker.blocksInLastPiece == 0 && p + 1 != |s.picker.pieces| && p in s.incoming
    requires PieceOk(s.size, Recount(s.picker, n), s.file, p, s.incoming[p])
    ensures PieceOk(s.size, s.picker, s.file, p, s.incoming[p])
  {
    hide HashedToGap, OnDisk, Contents;
    forall k: nat
      ensures Look(s.picker, PieceBlock(p, k)) == Look(Recount(s.picker, n), PieceBlock(p, k))
    {
    }
  }

  lemma ForgetCountKeepsIncoming(s: State, n: nat)
    requires s.picker.blocksInLastPiece == 0 && LastUnlisted(s.picker) && Pickers.WellFormed(s.picker)
    requires IncomingOk(s.size, Recount(s.picker, n), s.incoming, s.file)
    ensures IncomingOk(s.size, s.picker, s.incoming, s.file)
  {
    hide PieceOk, Look;
    forall p: nat | Listed(s.picker, p)
      ensures p + 1 != |s.picker.pieces| && (p in s.incoming ==> PieceOk(s.size, s.picker, s.file, p, s.incoming[p]))
    {
      assert PieceAt(s.picker, p) in s.picker.downloading;
      if p in s.incoming {
        ForgetCountKeepsPiece(s, n, p);
      }
    }
  }

  /** Only a listed last piece needs its count: an untouched one without it has no blocks at all. */
  lemma ForgetCount(md4: seq<byte> -> Hash, r: State, n: nat)
    requires Inv(md4, WithLast(r, n)) && r.picker.blocksInLastPiece == 0 && LastUnlisted(r.picker)
    requires r.conns == [] && r.deliveries == []
    ensures Inv(md4, r)
  {
    NothingOutstanding(r);
    ForgetCountKeepsIncoming(r, n);
    hide IncomingOk, PieceVerified, Outstanding;
    forall b: PieceBlock
      ensures CountsOk(Look(r.picker, b)) && (!Look(r.picker, b).finished ==> Look(r.picker, b).downloadersCount == 0)
    {
      ForgetCountLook(r.picker, n, b);
      assert CountsOk(Look(Recount(r.picker, n), b));
    }
    hide Look;
    forall p: nat
      ensures Have(r.picker, p) <==> Have(Recount(r.picker, n), p)
    {
    }
  }

  lemma DataIsWellFormed(md4: seq<byte> -> Hash, s: State)
    requires Data(md4, s)
    ensures Pickers.WellFormed(s.picker)
  {
  }

  lemma ForgetCountData(md4: seq<byte> -> Hash, s: State, n: nat)
    requires Data(md4, WithLast(s, n)) && s.picker.blocksInLastPiece == 0 && LastUnlisted(s.picker)
    ensures Data(md4, s)
  {
    ForgetCountKeepsIncoming(s, n);
    hide IncomingOk, PieceVerified;
    forall b: PieceBlock
      ensures CountsOk(Look(s.picker, b))
    {
      ForgetCountLook(s.picker, n, b);
      assert CountsOk(Look(Recount(s.picker, n), b));
    }
    hide Look;
    forall p: nat
      ensures Have(s.picker, p) <==> Have(Recount(s.picker, n), p)
    {
    }
  }

  /** Whatever a process leaves behind can be restarted. */
  lemma SavedIsRestartable(md4: seq<byte> -> Hash, s: State, death: Death)
    requires Alive(md4, s)
    ensures Restartable(md4, Saved(md4, s, death))
  {
    hide Inv, Data, Saved, LastTaken, LastUnlisted;
    if Inv(md4, s) {
      SavedInv(md4, s, death);
    } else {
      var seen := SavedSeen(md4, s, death);
      var saved, n := Saved(md4, s, death), LastCount(s);
      SavedInv(md4, WithLast(s, n), seen);
      if !LastTaken(saved.picker) {
        DataIsWellFormed(md4, WithLast(saved, n));
        UntakenIsUnlisted(saved.picker);
        ForgetCountData(md4, saved, n);
      }
    }
  }

  // ----- restarts

  lemma RestartedUnlisted(md4: seq<byte> -> Hash, s: State, order: seq<nat>)
    requires Data(md4, s) && IterationOrder(order, DownloadedBlocks(s.picker.downloading).Keys)
    requires !LastTaken(Restarted(s, order).picker)
    ensures LastUnlisted(Restarted(s, order).picker)
  {
    hide DownloadedBlocks, RestoreIncoming, Look;
    RestoreKeepsPieces(s.picker, order);
    UntakenIsUnlisted(Restarted(s, order).picker);
  }

  lemma RestartKeepsAlive(md4: seq<byte> -> Hash, s: State, order: seq<nat>)
    requires Restartable(md4, s) && IterationOrder(order, DownloadedBlocks(s.picker.downloading).Keys)
    ensures Alive(md4, Restarted(s, order))
  {
    hide Data, Inv, DownloadedBlocks, RestoreIncoming;
    var r, n := Restarted(s, order), LastCount(s);
    if Data(md4, s) {
      RestartInv(md4, s, order);
      CountIsKnown(md4, s);
      if !LastTaken(r.picker) {
        RestartedUnlisted(md4, s, order);
        ForgetCount(md4, r, s.picker.blocksInLastPiece);
      }
    } else {
      RestartInv(md4, WithLast(s, n), order);
      assert Restarted(WithLast(s, n), order) == r;
    }
  }

  lemma CountIsKnown(md4: seq<byte> -> Hash, s: State)
    requires Data(md4, s)
    ensures s.picker.blocksInLastPiece == LastCount(s) || WithLast(s, 0) == s
  {
  }

  /** One run of the process: the events it handled, how it ended, and the order in
      which the next process finds the saved pieces in their map. */
  datatype Life = Life(steps: seq<Step>, death: Death, order: seq<nat>)

  /** The next process starts from the saves; an order that is none of the map changes nothing. */
  ghost function Revived(md4: seq<byte> -> Hash, s: State, life: Life): State {
    var saved := Saved(md4, s, life.death);
    if IterationOrder(life.order, DownloadedBlocks(saved.picker.downloading).Keys) then Restarted(saved, life.order)
    else s
  }

  /** Where the process after these lives starts. */
  ghost function AfterLives(md4: seq<byte> -> Hash, s: State, lives: seq<Life>): Outcome {
    if lives == [] then Running(s)
    else
      var life, before := lives[|lives| - 1], AfterLives(md4, s, lives[..|lives| - 1]);
      if before.Panic? then before
      else
        var o := Run(md4, before.state, life.steps);
        if o.Panic? then o else Running(Revived(md4, o.state, life))
  }

  function AllSteps(lives: seq<Life>): seq<Step> {
    if lives == [] then [] else AllSteps(lives[..|lives| - 1]) + lives[|lives| - 1].steps
  }

  lemma RevivedIsAlive(md4: seq<byte> -> Hash, s: State, life: Life)
    requires Alive(md4, s)
    ensures Alive(md4, Revived(md4, s, life))
  {
    hide Alive, Restartable, Restarted, Saved, IterationOrder, DownloadedBlocks;
    SavedIsRestartable(md4, s, life.death);
    var saved := Saved(md4, s, life.death);
    if IterationOrder(life.order, DownloadedBlocks(saved.picker.downloading).Keys) {
      RestartKeepsAlive(md4, saved, life.order);
    }
  }

  lemma {:induction false} LivesKeepAlive(md4: seq<byte> -> Hash, s: State, lives: seq<Life>)
    requires Alive(md4, s)
    ensures var o := AfterLives(md4, s, lives);
            if o.Running? then Alive(md4, o.state) else o.reason in {SliceBounds, NoHashSet, NoPieceHash, PieceBitClear}
  {
    hide Alive, Revived, Run;
    if lives != [] {
      var n := |lives| - 1;
      LivesKeepAlive(md4, s, lives[..n]);
      var before := AfterLives(md4, s, lives[..n]);
      if before.Running? {
        RunKeepsAlive(md4, before.state, lives[n].steps);
        if Run(md4, before.state, lives[n].steps).Running? {
          RevivedIsAlive(md4, Run(md4, before.state, lives[n].steps).state, lives[n]);
        }
      }
    }
  }

  lemma StoresQueue(s: State)
    ensures Stores(s) ==> s.deliveries != []
  {
  }

  lemma RevivedFromReceived(md4: seq<byte> -> Hash, s: State, life: Life, steps: seq<Step>)
    requires FromReceived(s, steps)
    ensures FromReceived(Revived(md4, s, life), steps) && Revived(md4, s, life).size == s.size
  {
    hide Stores, Mismatch, DownloadedBlocks, RestoreIncoming, RemoveDownloadingPiece, WriteAt, Insert, Finish,
         IterationOrder, FromResume, Forget;
    if life.death.Between? {
      ForgetSame(s, life.death.forgotten, 0);
    } else if life.death.InWrite? {
      StoresQueue(s);
      ForgetSame(if Stores(s) then Written(s, life.death.written) else s, life.death.forgotten, 0);
    }
    assert Saved(md4, s, life.death).verified == s.verified;
  }

  lemma {:induction false} LivesFromReceived(md4: seq<byte> -> Hash, s: State, lives: seq<Life>)
    requires FromReceived(s, [])
    ensures var o := AfterLives(md4, s, lives);
            o.Running? ==> FromReceived(o.state, AllSteps(lives)) && o.state.size == s.size
  {
    hide FromReceived, Revived, Run;
    if lives != [] {
      var n := |lives| - 1;
      LivesFromReceived(md4, s, lives[..n]);
      var before := AfterLives(md4, s, lives[..n]);
      if before.Running? && Run(md4, before.state, lives[n].steps).Running? {
        RunFromReceived(md4, before.state, AllSteps(lives[..n]), lives[n].steps);
        RunKeepsSize(md4, before.state, lives[n].steps);
        RevivedFromReceived(md4, Run(md4, before.state, lives[n].steps).state, lives[n], AllSteps(lives));
      }
    }
  }

  /** Safety over any number of restarts, whatever the last piece was doing: a piece we
      have is in the file, its bytes hash to what some hash set received in this or an
      earlier life says about it, and a life ends in no other panic than the known ones. */
  lemma SafeAcrossRestarts(md4: seq<byte> -> Hash, size: nat, file: seq<byte>, lives: seq<Life>, r: State,
          steps: seq<Step>, p: nat)
    requires Representable(size) && AfterLives(md4, Init(size, file), lives) == Running(r)
    ensures var o := Run(md4, r, steps);
            && (o.Panic? ==> o.reason in {SliceBounds, NoHashSet, NoPieceHash, PieceBitClear})
            && (o.Running? && Have(o.state.picker, p) ==>
                  && p in o.state.verified && PieceVerified(md4, size, o.state.file, p, o.state.verified[p])
                  && exists h :: ReceiveHashSet(h) in AllSteps(lives) + steps && p < |h| && h[p] == o.state.verified[p])
  {
    hide Inv, Seen, Have, PieceVerified, AfterLives, Apply;
    InitHolds(md4, size, file);
    LivesKeepAlive(md4, Init(size, file), lives);
    LivesFromReceived(md4, Init(size, file), lives);
    RunKeepsAlive(md4, r, steps);
    RunFromReceived(md4, r, AllSteps(lives), steps);
    RunKeepsSize(md4, r, steps);
    var o := Run(md4, r, steps);
    if o.Running? && Have(o.state.picker, p) {
      AliveIsVerified(md4, o.state, p);
    }
  }

  /** A restart from any state that satisfies the invariant, whatever its last piece was doing,
      is safe in every run after it. */
  lemma RestartedIsSafe(md4: seq<byte> -> Hash, s: State, order: seq<nat>, steps: seq<Step>, p: nat)
    requires Inv(md4, s) && IterationOrder(order, DownloadedBlocks(s.picker.downloading).Keys)
    ensures var o := Run(md4, Restarted(s, order), steps);
            && (o.Panic? ==> o.reason in {SliceBounds, NoHashSet, NoPieceHash, PieceBitClear})
            && (o.Running? && Have(o.state.picker, p) ==>
                  p in o.state.verified && PieceVerified(md4, o.state.size, o.state.file, p, o.state.verified[p]))
  {
    hide Inv, Seen, Have, PieceVerified, Apply, Data, Restarted, DownloadedBlocks;
    InvIsData(md4, s);
    RestartKeepsAlive(md4, s, order);
    RunKeepsAlive(md4, Restarted(s, order), steps);
    var o := Run(md4, Restarted(s, order), steps);
    if o.Running? && Have(o.state.picker, p) {
      AliveIsVerified(md4, o.state, p);
    }
  }
}
