/** Saving a transfer, restarting it, and running on: what survives, and what the
    forgotten block count of the last piece breaks (transfer.go:106-155 and
    piece_picker.go:135-148). */
module Restarts {
  import opened Bytes
  import opened Geometry
  import opened Peers
  import opened PendingBlocks
  import opened DownloadingPieces
  import opened Pickers
  import opened PiecePickers
  import opened ReceivingPieces
  import opened Transfers
  import opened TransferSafety
  import opened TransferResults

  /** The incoming pieces read back from the file. */
  function RestoreIncoming(size: nat, file: seq<byte>, db: map<nat, seq<bool>>): map<nat, Receiving> {
    map p | p in db && RestorePiece(size, file, p, db[p], |db[p]|).Some?
      :: RestorePiece(size, file, p, db[p], |db[p]|).value
  }

  /** The transfer started again from what s saved: no peers, no queues, no hash set. */
  function Restarted(s: State, order: seq<nat>): State
    requires forall p :: p in order ==> p in DownloadedBlocks(s.picker.downloading)
  {
    var db := DownloadedBlocks(s.picker.downloading);
    State(s.size, FromResume(s.picker.pieces, db, order), RestoreIncoming(s.size, s.file, db), s.file, None, [], [],
        false, s.verified)
  }

  /** The same state with another block count for the last piece. */
  function WithLast(s: State, n: nat): State {
    s.(picker := s.picker.(blocksInLastPiece := n))
  }

  predicate HasLast(pk: Picker) {
    pk.pieces != [] ==> Have(pk, |pk.pieces| - 1)
  }

  /** The last piece is listed or had. */
  predicate LastTaken(pk: Picker) {
    pk.pieces != [] ==> pk.pieces[|pk.pieces| - 1]
  }

  // ----- with the right count, everything survives

  /** What a restart builds on: the picker, the file and the stored blocks, without the queues. */
  ghost predicate Data(md4: seq<byte> -> Hash, s: State) {
    && PickerOk(s) && AllCountsOk(s.picker)
    && IncomingOk(s.size, s.picker, s.incoming, s.file)
    && VerifiedOk(md4, s.size, s.picker, s.file, s.verified)
  }

  /** Every incoming piece is back; a listed piece that had none gets one without blocks. */
  lemma SameIncoming(s: State, order: seq<nat>, p: nat)
    requires PickerOk(s) && IncomingOk(s.size, s.picker, s.incoming, s.file)
    requires forall p :: p in order ==> p in DownloadedBlocks(s.picker.downloading)
    ensures var r := Restarted(s, order);
            && (p in r.incoming <==> Listed(s.picker, p))
            && (p in s.incoming ==> p in r.incoming && r.incoming[p] == s.incoming[p])
            && (p in r.incoming && p !in s.incoming ==> r.incoming[p] == EMPTY)
  {
    hide DownloadedBlocks, RestorePiece, FromResume, PieceOk;
    RestartRebuildsIncoming(s, p);
  }

  lemma IncomingIsBack(s: State, order: seq<nat>)
    requires PickerOk(s) && IncomingOk(s.size, s.picker, s.incoming, s.file)
    requires forall p :: p in order ==> p in DownloadedBlocks(s.picker.downloading)
    ensures IncomingOk(s.size, s.picker, Restarted(s, order).incoming, s.file)
  {
    hide Restarted, PieceOk, DownloadedBlocks;
    forall p: nat
      ensures var r := Restarted(s, order);
              && (p in r.incoming <==> Listed(s.picker, p))
              && (p in r.incoming ==> PieceOk(s.size, s.picker, s.file, p, r.incoming[p]))
    {
      SameIncoming(s, order, p);
      if Listed(s.picker, p) {
        ListedIsOk(s, p);
      }
    }
  }

  /** What the invariant looks at in a picker, before and after the restart. */
  ghost predicate Survives(pk: Picker, r: Picker) {
    && r.pieces == pk.pieces && r.blocksInLastPiece == pk.blocksInLastPiece
    && WellFormed(r) && Sized(r)
    && (forall p: nat :: (Listed(r, p) <==> Listed(pk, p)) && (Have(r, p) <==> Have(pk, p)))
    && (forall b :: Look(r, b).finished == Look(pk, b).finished)
    && (forall b :: if Look(r, b).finished then Look(r, b).requested else Look(r, b) == FRESH)
  }

  function Fixed(pk: Picker, order: seq<nat>): Picker
    requires forall p :: p in order ==> p in DownloadedBlocks(pk.downloading)
  {
    FromResume(pk.pieces, DownloadedBlocks(pk.downloading), order).(blocksInLastPiece := pk.blocksInLastPiece)
  }

  lemma FixedLook(pk: Picker, order: seq<nat>, b: PieceBlock)
    requires WellFormed(pk) && IterationOrder(order, DownloadedBlocks(pk.downloading).Keys)
    ensures var x := Look(Fixed(pk, order), b);
            x.finished == Look(pk, b).finished && if x.finished then x.requested else x == FRESH
  {
    hide DownloadedBlocks, Pickers.WellFormed;
    RestoreKeepsPieces(pk, order);
    var r := FromResume(pk.pieces, DownloadedBlocks(pk.downloading), order);
    if Listed(pk, b.pieceIndex) {
      assert Look(Fixed(pk, order), b) == Look(r, b);
    }
  }

  lemma FixedSized(pk: Picker, order: seq<nat>)
    requires WellFormed(pk) && Sized(pk) && IterationOrder(order, DownloadedBlocks(pk.downloading).Keys)
    ensures Sized(Fixed(pk, order))
  {
    hide DownloadedBlocks, Look;
    RestoreKeepsPieces(pk, order);
    var fixed := Fixed(pk, order);
    forall j | 0 <= j < |fixed.downloading|
      ensures |fixed.downloading[j].blocks| == BlocksIn(fixed, fixed.downloading[j].pieceIndex)
    {
      var p := fixed.downloading[j].pieceIndex;
      IndexIs(fixed.downloading, j);
      assert Listed(fixed, p) && PieceAt(fixed, p) == fixed.downloading[j];
      assert Listed(pk, p) && pk.downloading[IndexOf(pk.downloading, p)] == PieceAt(pk, p);
    }
  }

  lemma RestoredSurvives(pk: Picker, order: seq<nat>)
    requires WellFormed(pk) && Sized(pk) && IterationOrder(order, DownloadedBlocks(pk.downloading).Keys)
    ensures Survives(pk, Fixed(pk, order))
  {
    RestoreKeepsPieces(pk, order);
    FixedSized(pk, order);
    hide DownloadedBlocks, Look, Sized;
    var fixed := Fixed(pk, order);
    forall b
      ensures Look(fixed, b).finished == Look(pk, b).finished
      ensures if Look(fixed, b).finished then Look(fixed, b).requested else Look(fixed, b) == FRESH
    {
      FixedLook(pk, order, b);
    }
  }

  lemma NothingOutstanding(s: State)
    requires s.conns == [] && s.deliveries == []
    ensures Outstanding(s) == multiset{}
  {
    assert BlockSeq([]) == [];
  }

  lemma SurvivesPieceOk(s: State, r: Picker, p: nat, rp: Receiving)
    requires Survives(s.picker, r) && PieceOk(s.size, s.picker, s.file, p, rp)
    ensures PieceOk(s.size, r, s.file, p, rp)
  {
    hide Look, HashedToGap, Contents, OnDisk, Pickers.WellFormed, Sized, Have, Listed;
    assert BlocksIn(r, p) == BlocksIn(s.picker, p);
    forall k: nat
      ensures k in Contents(rp.blocks) <==> k < BlocksIn(r, p) && Look(r, PieceBlock(p, k)).finished
    {
    }
  }

  lemma SurvivesIncoming(s: State, r: Picker)
    requires Survives(s.picker, r) && IncomingOk(s.size, s.picker, s.incoming, s.file)
    ensures IncomingOk(s.size, r, s.incoming, s.file)
  {
    hide Look, PieceOk, Pickers.WellFormed, Sized, Have, Listed;
    forall p: nat
      ensures BlocksIn(r, p) == BlocksIn(s.picker, p)
      ensures p in s.incoming ==> PieceOk(s.size, r, s.file, p, s.incoming[p])
    {
      if p in s.incoming {
        SurvivesPieceOk(s, r, p, s.incoming[p]);
      }
    }
  }

  lemma SurvivesVerified(md4: seq<byte> -> Hash, s: State, r: Picker)
    requires Survives(s.picker, r) && VerifiedOk(md4, s.size, s.picker, s.file, s.verified)
    ensures VerifiedOk(md4, s.size, r, s.file, s.verified)
  {
    hide Look, PieceVerified, Pickers.WellFormed, Sized, Have, Listed;
  }

  /** Given the count, a restart keeps the invariant. */
  lemma RestartInv(md4: seq<byte> -> Hash, s: State, order: seq<nat>)
    requires Data(md4, s) && IterationOrder(order, DownloadedBlocks(s.picker.downloading).Keys)
    ensures Inv(md4, WithLast(Restarted(s, order), s.picker.blocksInLastPiece))
  {
    var t := WithLast(Restarted(s, order), s.picker.blocksInLastPiece);
    assert t.picker == Fixed(s.picker, order);
    IncomingIsBack(s, order);
    RestoredSurvives(s.picker, order);
    hide Fixed, DownloadedBlocks, FromResume, RestoreIncoming;
    SurvivesIncoming(s.(incoming := t.incoming), t.picker);
    SurvivesVerified(md4, s, t.picker);
    NothingOutstanding(t);
    FreshCounts(s.picker, t.picker);
    hide IncomingOk, VerifiedOk, Counted, Sized, Pickers.WellFormed, Outstanding;
    assert PickerOk(t);
  }

  lemma FreshCounts(pk: Picker, r: Picker)
    requires Survives(pk, r) && AllCountsOk(pk)
    ensures Counted(r, multiset{})
  {
  }

  // ----- a started last piece: picking does not ask for the count

  function OutWithLast(o: Outcome, n: nat): Outcome {
    if o.Panic? then o else Running(WithLast(o.state, n))
  }

  function Recount(pk: Picker, n: nat): Picker {
    pk.(blocksInLastPiece := n)
  }

  /** Picking only asks for the block counts of pieces whose bit is unset. */
  lemma {:induction false} PickSame(pk: Picker, n: int, peer: Peer, slower: set<Peer>, slow: bool, last: nat)
    requires LastTaken(pk)
    ensures var (after, res) := PickPieces(pk, n, peer, slower, slow);
            PickPieces(Recount(pk, last), n, peer, slower, slow) == (Recount(after, last), res)
    decreases Unset(pk.pieces)
  {
    hide AddFrom;
    var (pk1, res) := TwoPasses(pk, n, peer, slower, slow);
    assert TwoPasses(Recount(pk, last), n, peer, slower, slow) == (Recount(pk1, last), res);
    if |res| < n && FirstUnset(pk1.pieces) < |pk1.pieces| {
      ChooseUnsets(pk1);
      assert Choose(Recount(pk1, last)) == Recount(Choose(pk1), last);
      PickSame(Choose(pk1), n - |res|, peer, slower, slow, last);
    }
  }

  lemma AskSame(s: State, c: nat, slower: set<Peer>, slow: bool, n: nat)
    requires c < |s.conns| && LastTaken(s.picker)
    ensures DoAsk(WithLast(s, n), c, slower, slow) == WithLast(DoAsk(s, c, slower, slow), n)
    ensures AskedBlocks(WithLast(s, n), c, slower, slow) == AskedBlocks(s, c, slower, slow)
  {
    hide PickPieces, StartReceiving;
    PickSame(s.picker, REQUEST_QUEUE_SIZE, s.conns[c].peer, slower, slow, n);
  }

  lemma ReceiveSame(s: State, c: nat, part: Part, n: nat)
    requires c < |s.conns|
    ensures DoReceive(WithLast(s, n), c, part) == OutWithLast(DoReceive(s, c, part), n)
  {
    hide TakePart, HasSlice, CutShort;
  }

  lemma AbortSame(s: State, c: nat, n: nat)
    requires c < |s.conns| && s.conns[c].requested != []
    ensures DoAbort(WithLast(s, n), c) == OutWithLast(DoAbort(s, c), n)
  {
    hide AbortBlockState;
  }

  lemma SetHaveSame(pk: Picker, p: nat, n: nat)
    ensures CanSetHave(Recount(pk, n), p) == CanSetHave(pk, p)
    ensures CanSetHave(pk, p) ==> SetHave(Recount(pk, n), p) == Recount(SetHave(pk, p), n)
    ensures p < |pk.pieces| ==> RemoveDownloadingPiece(Recount(pk, n), p) == Recount(RemoveDownloadingPiece(pk, p), n)
    ensures IsFinished(Recount(pk, n)) == IsFinished(pk)
  {
    hide AllFinished, RemoveAt;
  }

  lemma CompleteSame(md4: seq<byte> -> Hash, s: State, p: nat, hashed: seq<byte>, n: nat)
    ensures DoComplete(md4, WithLast(s, n), p, hashed) == OutWithLast(DoComplete(md4, s, p, hashed), n)
  {
    hide CanSetHave, SetHave, RemoveDownloadingPiece, IsFinished;
    SetHaveSame(s.picker, p, n);
    if CanSetHave(s.picker, p) {
      SetHaveSame(SetHave(s.picker, p), p, n);
      if CanSetHave(SetHave(s.picker, p), p) {
        SetHaveSame(SetHave(SetHave(s.picker, p), p), p, n);
      }
    }
    if p < |s.picker.pieces| {
      var less := RemoveDownloadingPiece(s.picker, p);
      SetHaveSame(less, p, n);
      if CanSetHave(less, p) {
        SetHaveSame(SetHave(less, p), p, n);
      }
    }
  }

  /** Whatever the count is, the delivered block does not complete the last piece. */
  predicate LastStaysOpen(s: State, n: nat)
    requires s.deliveries != []
  {
    var b := s.deliveries[0].block;
    b.pieceIndex + 1 == |s.picker.pieces| ==> !LastOfPiece(s, b) && !LastOfPiece(WithLast(s, n), b)
  }

  lemma {:induction false} HashFromBlocks(r: Receiving, i: nat)
    ensures HashFrom(r, i).blocks == r.blocks
    decreases |r.blocks| - i
  {
    if i < |r.blocks| {
      if r.blocks[i].index < r.hashIndex {
        HashFromBlocks(r, i + 1);
      } else if r.blocks[i].index == r.hashIndex {
        HashFromBlocks(r.(hashed := r.hashed + r.blocks[i].data, hashIndex := r.hashIndex + 1), i + 1);
      }
    }
  }

  lemma InsertedLength(r: Receiving, b: Stored)
    requires !Has(r.blocks, b.index)
    ensures |Insert(r, b).blocks| == |r.blocks| + 1
  {
    HashFromBlocks(r.(blocks := Place(r.blocks, b)), 0);
  }

  lemma DeliverSame(md4: seq<byte> -> Hash, s: State, n: nat)
    requires s.deliveries != [] && LastStaysOpen(s, n)
    ensures DoDeliver(md4, WithLast(s, n)) == OutWithLast(DoDeliver(md4, s), n)
  {
    hide DoComplete, Insert, Has, WriteAt, FinishBlockState;
    var pb := s.deliveries[0];
    var b := pb.block;
    var p := b.pieceIndex;
    if p in s.incoming && !Has(s.incoming[p].blocks, b.blockIndex) && InRange(s.picker, b)
       && (Listed(s.picker, p) ==> Look(s.picker, b).requested) {
      assert Finish(Recount(s.picker, n), b) == Recount(Finish(s.picker, b), n);
      InsertedLength(s.incoming[p], Stored(b.blockIndex, pb.data));
      var rp := Insert(s.incoming[p], Stored(b.blockIndex, pb.data));
      var t := s.(deliveries := s.deliveries[1..], incoming := s.incoming[p := rp],
                  file := WriteAt(s.file, b.Start(), pb.data), picker := Finish(s.picker, b));
      CompleteSame(md4, t, p, rp.hashed, n);
    }
  }

  lemma StepSame(md4: seq<byte> -> Hash, s: State, step: Step, n: nat)
    requires LastTaken(s.picker) && (step.Deliver? && s.deliveries != [] ==> LastStaysOpen(s, n))
    ensures Apply(md4, WithLast(s, n), step) == OutWithLast(Apply(md4, s, step), n)
  {
    hide DoAsk, AskedBlocks, DoReceive, DoAbort, DoDeliver, LastTaken, LastStaysOpen;
    match step
    case Ask(c, slower, slow) =>
      if c < |s.conns| {
        AskSame(s, c, slower, slow, n);
      }
    case ReceivePart(c, part) =>
      if c < |s.conns| {
        ReceiveSame(s, c, part, n);
      }
    case AbortNext(c) =>
      if c < |s.conns| && s.conns[c].requested != [] {
        AbortSame(s, c, n);
      }
    case Deliver =>
      if s.deliveries != [] {
        DeliverSame(md4, s, n);
      }
    case _ =>
  }

  // ----- a finished last piece: the count does not matter

  /** What the invariant gives: a finished last piece is not incoming, and stays finished. */
  lemma LastStays(md4: seq<byte> -> Hash, s: State, step: Step)
    requires Inv(md4, s) && HasLast(s.picker)
    ensures |s.picker.pieces| - 1 !in s.incoming
    ensures Apply(md4, s, step).Running? ==> HasLast(Apply(md4, s, step).state.picker)
  {
    hide Apply, Look, PieceOk, PieceVerified, Counted, RequestsOk, Sized, Pickers.WellFormed, NumPiecesAndBlocks;
    StepKeeps(md4, s, step);
    if Apply(md4, s, step).Running? {
      StepKeepsSize(md4, s, step);
      var p := StepVerifiesOne(md4, s, step);
    }
  }

  lemma {:induction false} RunSame(md4: seq<byte> -> Hash, s: State, steps: seq<Step>, n: nat)
    requires Inv(md4, WithLast(s, n)) && HasLast(s.picker)
    ensures Run(md4, WithLast(s, n), steps) == OutWithLast(Run(md4, s, steps), n)
    ensures var o := Run(md4, WithLast(s, n), steps);
            o.Running? ==> Inv(md4, o.state) && HasLast(o.state.picker)
  {
    hide Inv, Apply, HasLast, LastTaken;
    SameLast(s, n);
    if steps != [] {
      var front, step := steps[..|steps| - 1], steps[|steps| - 1];
      RunSame(md4, s, front, n);
      var before := Run(md4, s, front);
      if before.Running? {
        SameLast(before.state, n);
        LastStays(md4, WithLast(before.state, n), step);
        HasIsTaken(before.state);
        StepSame(md4, before.state, step, n);
        StepKeeps(md4, WithLast(before.state, n), step);
      }
    }
  }

  lemma HasIsTaken(s: State)
    requires HasLast(s.picker)
    ensures LastTaken(s.picker)
  {
  }

  lemma SameLast(s: State, n: nat)
    ensures HasLast(WithLast(s, n).picker) <==> HasLast(s.picker)
  {
  }

  // ----- an unfinished last piece: the restarted transfer never finishes

  /** A last piece without blocks that we do not have. */
  ghost predicate Stuck(pk: Picker) {
    && WellFormed(pk) && pk.blocksInLastPiece == 0 && pk.pieces != [] && !Have(pk, |pk.pieces| - 1)
  }

  lemma PassStuck(pk: Picker, n: int, peer: Peer, slower: set<Peer>, slow: bool)
    requires Stuck(pk)
    ensures Stuck(TwoPasses(pk, n, peer, slower, slow).0)
  {
    var (after, res) := TwoPasses(pk, n, peer, slower, slow);
    TwoPassesPick(pk, n, peer, slower, slow);
    hide TwoPasses, Have, Picked, Available, Pickers.WellFormed, Sized;
    PassLists(pk, after, res, n, peer, slower, !slow, |pk.pieces| - 1);
  }

  lemma ChooseStuck(pk: Picker)
    requires Stuck(pk) && FirstUnset(pk.pieces) < |pk.pieces|
    ensures Stuck(Choose(pk))
  {
    hide Have, Listed, Look;
    ChooseKeepsBlocks(pk);
    ChooseLists(pk, |pk.pieces| - 1);
  }

  lemma {:induction false} PickStuck(pk: Picker, n: int, peer: Peer, slower: set<Peer>, slow: bool)
    requires Stuck(pk)
    ensures Stuck(PickPieces(pk, n, peer, slower, slow).0)
    decreases Unset(pk.pieces)
  {
    hide TwoPasses, Stuck, Choose;
    var (pk1, res) := TwoPasses(pk, n, peer, slower, slow);
    PassStuck(pk, n, peer, slower, slow);
    if |res| < n && FirstUnset(pk1.pieces) < |pk1.pieces| {
      ChooseUnsets(pk1);
      ChooseStuck(pk1);
      AddBlocksKeepsPieces(pk, n, peer, slower, slow);
      PickStuck(Choose(pk1), n - |res|, peer, slower, slow);
    }
  }

  lemma UpdateStuck(pk: Picker, b: PieceBlock, x: BlockState)
    requires Stuck(pk) && Listed(pk, b.pieceIndex) && b.blockIndex < |PieceAt(pk, b.pieceIndex).blocks|
    ensures Stuck(Update(pk, b, x))
  {
    UpdateLook(pk, b, x);
    IndexSame(pk.downloading, Update(pk, b, x).downloading, |pk.pieces| - 1);
  }

  lemma RemoveStuck(pk: Picker, p: nat)
    requires Stuck(pk) && Listed(pk, p) && p != |pk.pieces| - 1
    ensures Stuck(RemovePiece(pk, p))
  {
    RemovePieceLook(pk, p);
    RemovePieceList(pk, p, |pk.pieces| - 1);
  }

  lemma CompleteStuck(md4: seq<byte> -> Hash, s: State, p: nat, hashed: seq<byte>)
    requires Stuck(s.picker) && p != |s.picker.pieces| - 1
    ensures var o := DoComplete(md4, s, p, hashed); o.Running? ==> Stuck(o.state.picker)
  {
    hide AllFinished, Pickers.WellFormed, RemoveAt;
    var o := DoComplete(md4, s, p, hashed);
    if o.Running? && Listed(s.picker, p) {
      RemoveStuck(s.picker, p);
      var mid := RemovePiece(s.picker, p);
      if Listed(mid, p) {
        RemoveStuck(mid, p);
      }
      RemovedBit(s.picker, p);
    }
  }

  /** A piece given up is untouched, so marking it as have panics. */
  lemma RemovedBit(pk: Picker, p: nat)
    requires Listed(pk, p) && p < |pk.pieces|
    ensures !CanSetHave(RemoveDownloadingPiece(pk, p), p)
  {
  }

  lemma DeliverStuck(md4: seq<byte> -> Hash, s: State)
    requires Stuck(s.picker) && s.deliveries != []
    ensures var o := DoDeliver(md4, s); o.Running? ==> Stuck(o.state.picker)
  {
    hide DoComplete, Insert, Has, WriteAt, Stuck, FinishBlockState, Update;
    var pb := s.deliveries[0];
    var b := pb.block;
    var p := b.pieceIndex;
    if DoDeliver(md4, s).Running? && p in s.incoming && !Has(s.incoming[p].blocks, b.blockIndex) {
      var rp := Insert(s.incoming[p], Stored(b.blockIndex, pb.data));
      InsertedLength(s.incoming[p], Stored(b.blockIndex, pb.data));
      FinishStuck(s.picker, b);
      var t := s.(deliveries := s.deliveries[1..], incoming := s.incoming[p := rp],
                  file := WriteAt(s.file, b.Start(), pb.data), picker := Finish(s.picker, b));
      LastHasNoBlocks(t.picker);
      if p != |t.picker.pieces| - 1 {
        CompleteStuck(md4, t, p, rp.hashed);
      }
    }
  }

  lemma LastHasNoBlocks(pk: Picker)
    requires Stuck(pk)
    ensures pk.pieces != [] && BlocksIn(pk, |pk.pieces| - 1) == 0
  {
  }

  lemma FinishStuck(pk: Picker, b: PieceBlock)
    requires Stuck(pk) && InRange(pk, b)
    ensures Stuck(Finish(pk, b))
  {
    if Listed(pk, b.pieceIndex) {
      UpdateStuck(pk, b, FinishBlockState(Look(pk, b)));
    }
  }

  lemma StepStuck(md4: seq<byte> -> Hash, s: State, step: Step)
    requires Stuck(s.picker)
    ensures Apply(md4, s, step).Running? ==> Stuck(Apply(md4, s, step).state.picker)
  {
    hide Stuck, PickPieces, StartReceiving, Update, TakePart, HasSlice, DoDeliver, AbortBlockState;
    match step
    case Ask(c, slower, slow) =>
      if c < |s.conns| {
        PickStuck(s.picker, REQUEST_QUEUE_SIZE, s.conns[c].peer, slower, slow);
      }
    case AbortNext(c) =>
      if c < |s.conns| && s.conns[c].requested != [] {
        var b := s.conns[c].requested[0].block;
        if InRange(s.picker, b) && Listed(s.picker, b.pieceIndex) {
          UpdateStuck(s.picker, b, AbortBlockState(Look(s.picker, b), s.conns[c].peer));
        }
      }
    case Deliver =>
      if s.deliveries != [] {
        DeliverStuck(md4, s);
      }
    case _ =>
  }

  lemma {:induction false} RunStuck(md4: seq<byte> -> Hash, s: State, steps: seq<Step>)
    requires Stuck(s.picker)
    ensures Run(md4, s, steps).Running? ==> Stuck(Run(md4, s, steps).state.picker)
  {
    hide Stuck, Apply;
    if steps != [] {
      RunStuck(md4, s, steps[..|steps| - 1]);
      var before := Run(md4, s, steps[..|steps| - 1]);
      if before.Running? {
        StepStuck(md4, before.state, steps[|steps| - 1]);
      }
    }
  }

  lemma StuckIsUnfinished(pk: Picker)
    requires Stuck(pk)
    ensures !IsFinished(pk)
  {
    FinishedIffAllHave(pk);
  }

  // ----- restarting

  /** A transfer restarted without its last piece never finishes, in any run. */
  lemma RestartedNeverFinishes(md4: seq<byte> -> Hash, s: State, order: seq<nat>, steps: seq<Step>)
    requires WellFormed(s.picker) && IterationOrder(order, DownloadedBlocks(s.picker.downloading).Keys)
    requires !HasLast(s.picker)
    ensures var o := Run(md4, Restarted(s, order), steps);
            o.Running? ==> !IsFinished(o.state.picker)
  {
    var r := Restarted(s, order);
    RestoreKeepsPieces(s.picker, order);
    assert Stuck(r.picker);
    hide Restarted, Stuck, FromResume, DownloadedBlocks, Run, IsFinished;
    RunStuck(md4, r, steps);
    var o := Run(md4, r, steps);
    if o.Running? {
      StuckIsUnfinished(o.state.picker);
    }
  }
}

/** From the picker over the resume file to the picker again. */
module SavedFiles {
  import opened Geometry
  import opened BitFields
  import opened Pickers
  import opened PiecePickers
  import opened StateBuffers
  import opened Tags
  import opened ResumeData

  /** The bits of a bit field with enough bytes. */
  function BitsOf(bf: Bits): seq<bool>
    requires bf.bits <= 8 * |bf.bytes|
  {
    Unpack(bf.bytes)[..bf.bits]
  }

  function BlockBits(m: map<nat, Bits>): map<nat, seq<bool>>
    requires forall p :: p in m ==> m[p].bits <= 8 * |m[p].bytes|
  {
    map p | p in m :: BitsOf(m[p])
  }

  /** The parameters hold what GetPieces and GetDownloadedBlocks give. */
  ghost predicate Saves(atp: AddTransferParameters, pk: Picker)
    requires WellFormedParameters(atp)
  {
    BitsOf(atp.Pieces) == pk.pieces && BlockBits(atp.DownloadedBlocks) == DownloadedBlocks(pk.downloading)
  }

  /** Written in any order, read back, and restored in any other order: every piece
      keeps its state and every finished block is still finished. */
  lemma SavedFileRestores(b: Buffer, atp: AddTransferParameters, pk: Picker, written: seq<nat>, visited: seq<nat>)
    requires Pickers.WellFormed(pk) && WellFormedParameters(atp) && Saves(atp, pk)
    requires IsOrder(written, atp.DownloadedBlocks.Keys) && forall k :: k in written ==> k in atp.DownloadedBlocks
    requires IterationOrder(visited, atp.DownloadedBlocks.Keys)
    requires b.Room(|EncodeParameters(atp, written)|)
    ensures RoundTrips(GetParameters, PutParameters(b, atp, written), b.pos, atp)
    ensures WantMoreData(BitsOf(atp.Pieces), BlockBits(atp.DownloadedBlocks)) <==> !IsFinished(pk)
    ensures var r := FromResume(BitsOf(atp.Pieces), BlockBits(atp.DownloadedBlocks), visited);
            && Pickers.WellFormed(r)
            && (forall p: nat :: && (Listed(r, p) <==> Listed(pk, p)) && (Have(r, p) <==> Have(pk, p))
                                 && (Untouched(r, p) <==> Untouched(pk, p)))
            && (forall x: PieceBlock :: Listed(pk, x.pieceIndex) ==> Look(r, x).finished == Look(pk, x).finished)
  {
    hide GetParameters, PutParameters, EncodeParameters, Look, DownloadedBlocks, FromResume;
    ParametersRoundTripIff(b, atp, written);
    WantsMoreUntilFinished(pk);
    RestoreKeepsPieces(pk, visited);
  }
}
