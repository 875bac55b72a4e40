/** Which transfers can still finish: every one that was not restarted, and of the
    restarted ones exactly those with their last piece (transfer.go:87-283). */
module TransferEnds {
  import opened Bytes
  import opened Geometry
  import opened Peers
  import opened PendingBlocks
  import opened DownloadingPieces
  import opened Pickers
  import opened PiecePickers
  import opened ReceivingPieces
  import opened Transfers
  import opened TransferSafety
  import opened TransferResults
  import opened Restarts
  import opened RestartSafety
  import opened TransferProgress

  // ----- the data that is already there

  /** The file with the blocks of a queue in it, the first one of each unfinished block. */
  function Laid(pk: Picker, base: seq<byte>, queue: seq<Pending>): seq<byte> {
    if queue == [] then base
    else
      var later, pb := Laid(pk, base, queue[1..]), queue[0];
      if Look(pk, pb.block).finished then later else WriteAt(later, pb.block.Start(), pb.data)
  }

  lemma WriteWithin(file: seq<byte>, at: nat, data: seq<byte>)
    requires at + |data| <= |file|
    ensures |WriteAt(file, at, data)| == |file|
  {
  }

  lemma {:induction false} LaidKeeps(size: nat, pk: Picker, base: seq<byte>, queue: seq<Pending>, x: PieceBlock,
          data: seq<byte>)
    requires Representable(size) && AllGood(size, queue) && |base| == size
    requires IsBlockOf(size, x) && OnDisk(size, base, x, data)
    requires forall pb :: pb in queue && pb.block == x ==> Look(pk, x).finished
    ensures |Laid(pk, base, queue)| == size && OnDisk(size, Laid(pk, base, queue), x, data)
  {
    hide Look, IsBlockOf, WriteAt, OnDisk;
    if queue != [] {
      var pb := queue[0];
      assert pb in queue && forall q :: q in queue[1..] ==> q in queue;
      LaidKeeps(size, pk, base, queue[1..], x, data);
      if !Look(pk, pb.block).finished {
        BlockBounds(size, pb.block);
        WriteWithin(Laid(pk, base, queue[1..]), pb.block.Start(), pb.data);
        WriteKeepsBlock(size, Laid(pk, base, queue[1..]), pb.block, pb.data, x, data);
      }
    }
  }

  lemma {:induction false} LaidLength(size: nat, pk: Picker, base: seq<byte>, queue: seq<Pending>)
    requires Representable(size) && AllGood(size, queue) && |base| == size
    ensures |Laid(pk, base, queue)| == size
  {
    hide Look, IsBlockOf, WriteAt;
    if queue != [] {
      var pb := queue[0];
      assert pb in queue && forall q :: q in queue[1..] ==> q in queue;
      LaidLength(size, pk, base, queue[1..]);
      BlockBounds(size, pb.block);
      WriteWithin(Laid(pk, base, queue[1..]), pb.block.Start(), pb.data);
    }
  }

  lemma {:induction false} LaidFirst(size: nat, pk: Picker, base: seq<byte>, queue: seq<Pending>, i: nat)
    requires Representable(size) && AllGood(size, queue) && |base| == size && i < |queue|
    requires !Look(pk, queue[i].block).finished && forall j :: 0 <= j < i ==> queue[j].block != queue[i].block
    ensures OnDisk(size, Laid(pk, base, queue), queue[i].block, queue[i].data)
  {
    hide Look, IsBlockOf, WriteAt, OnDisk;
    var pb, rest := queue[0], queue[1..];
    assert pb in queue && forall q :: q in rest ==> q in queue;
    assert queue[i] in queue;
    LaidLength(size, pk, base, rest);
    if i == 0 {
      WriteStoresBlock(size, Laid(pk, base, rest), pb.block, pb.data);
    } else {
      assert rest[i - 1] == queue[i];
      LaidFirst(size, pk, base, rest, i - 1);
      if !Look(pk, pb.block).finished {
        WriteKeepsBlock(size, Laid(pk, base, rest), pb.block, pb.data, queue[i].block, queue[i].data);
      }
    }
  }

  /** The file cut or filled up to its size. */
  function Fitted(s: State): seq<byte> {
    if |s.file| >= s.size then s.file[..s.size] else s.file + Zeros(s.size - |s.file|)
  }

  /** What the transfer will hold if nothing contradicts what it has and what is on the way. */
  function Expected(s: State): seq<byte> {
    Laid(s.picker, Fitted(s), s.deliveries)
  }

  lemma FittedOnDisk(s: State, b: PieceBlock, data: seq<byte>)
    requires Representable(s.size) && IsBlockOf(s.size, b) && OnDisk(s.size, s.file, b, data)
    ensures OnDisk(s.size, Fitted(s), b, data)
  {
    BlockBounds(s.size, b);
  }

  lemma StoredIsExpected(s: State, p: nat, k: nat)
    requires PickerOk(s) && RequestsOk(s) && IncomingOk(s.size, s.picker, s.incoming, s.file)
    requires p in s.incoming && k in Contents(s.incoming[p].blocks)
    ensures OnDisk(s.size, Expected(s), PieceBlock(p, k), Contents(s.incoming[p].blocks)[k])
  {
    var b, data := PieceBlock(p, k), Contents(s.incoming[p].blocks)[k];
    assert PieceOk(s.size, s.picker, s.file, p, s.incoming[p]);
    hide Contents, HashedToGap, Look, OnDisk, Laid, Fitted;
    ListedBlockOfFile(s, p, k);
    FittedOnDisk(s, b, data);
    FittedLength(s);
    hide PickerOk, IncomingOk, IsBlockOf, PieceOk;
    assert Look(s.picker, b).finished;
    LaidKeeps(s.size, s.picker, Fitted(s), s.deliveries, b, data);
  }

  lemma ExpectedAgrees(md4: seq<byte> -> Hash, s: State)
    requires Inv(md4, s)
    ensures Agrees(s, Expected(s))
  {
    hide Contents, HashedToGap, Look, Pickers.WellFormed, Sized, Laid, OnDisk, VerifiedOk, Counted, Fitted;
    FittedLength(s);
    LaidLength(s.size, s.picker, Fitted(s), s.deliveries);
    forall p: nat | p in s.incoming
      ensures PieceOk(s.size, s.picker, Expected(s), p, s.incoming[p])
    {
      assert PieceOk(s.size, s.picker, s.file, p, s.incoming[p]);
      forall k: nat | k in Contents(s.incoming[p].blocks)
        ensures OnDisk(s.size, Expected(s), PieceBlock(p, k), Contents(s.incoming[p].blocks)[k])
      {
        StoredIsExpected(s, p, k);
      }
    }
    forall i: nat | i < |s.deliveries| && First(s, i)
      ensures OnDisk(s.size, Expected(s), s.deliveries[i].block, s.deliveries[i].data)
    {
      LaidFirst(s.size, s.picker, Fitted(s), s.deliveries, i);
    }
  }

  lemma FittedLength(s: State)
    ensures |Fitted(s)| == s.size
  {
  }

  /** The hash set of the target, and then its blocks. */
  lemma CanFinishWith(md4: seq<byte> -> Hash, s: State, target: seq<byte>, peer: Peer) returns (steps: seq<Step>)
    requires Inv(md4, s) && LastIsCounted(s.picker) && NoFull(s) && Agrees(s, target)
    ensures forall x :: x in steps ==>
              HonestStep(target, x) && (x.ReceiveHashSet? ==> HashesOf(md4, target, x.hashes))
    ensures Run(md4, s, steps).Running? && IsFinished(Run(md4, s, steps).state.picker)
  {
    var hashes := MakeHashes(md4, target);
    var t := s.(hashSet := Some(hashes));
    HashSetKeeps(md4, s, hashes);
    assert Apply(md4, s, ReceiveHashSet(hashes)) == Running(t);
    QueueSame(s, t, target);
    hide Inv, IncomingOk, QueueAgrees, LastIsCounted, Apply, IsFinished, Run, HashesOf, MakeHashes, HonestPart;
    var rest := CanComplete(md4, t, target, peer);
    RunCons(md4, s, ReceiveHashSet(hashes), rest);
    steps := [ReceiveHashSet(hashes)] + rest;
  }

  /** A hash set for the data expected, and the transfer can be completed. */
  lemma CanFinish(md4: seq<byte> -> Hash, s: State, peer: Peer) returns (steps: seq<Step>)
    requires Inv(md4, s) && LastIsCounted(s.picker) && NoFull(s)
    ensures Run(md4, s, steps).Running? && IsFinished(Run(md4, s, steps).state.picker)
  {
    ExpectedAgrees(md4, s);
    hide Inv, Agrees, LastIsCounted, NoFull, IsFinished, Run, Expected;
    InvIsPickerOk(md4, s);
    steps := CanFinishWith(md4, s, Expected(s), peer);
  }

  // ----- what never finishes

  ghost predicate SamePiece(s: State, t: State, p: nat) {
    && p in s.incoming && p in t.incoming && t.incoming[p] == s.incoming[p]
    && BlocksIn(t.picker, p) == BlocksIn(s.picker, p)
  }

  /** Every block of a full piece is finished, so another one for it is dropped. */
  lemma NoNewForFull(s: State, p: nat)
    requires Full(s, p) && s.deliveries != [] && NewBlock(s, s.deliveries[0])
    ensures s.deliveries[0].block.pieceIndex != p
  {
    var b := s.deliveries[0].block;
    FullPieceIsHashed(s, p);
    NewIsFirst(s);
    NewInRange(s, s.deliveries[0]);
    assert b == PieceBlock(b.pieceIndex, b.blockIndex);
  }

  lemma StoreKeepsPieceSame(s: State, p: nat)
    requires s.deliveries != [] && NewBlock(s, s.deliveries[0]) && p in s.incoming
    requires s.deliveries[0].block.pieceIndex != p
    ensures SamePiece(s, AfterStore(Rest(s), s.deliveries[0]), p)
  {
    hide Insert, WriteAt, Finish, PickerOk, Listed, Have, Look, IncomingOk, InRange;
    AfterStoreRest(s);
    FinishShape(s, s.deliveries[0], p);
  }

  lemma CompleteKeepsPieceSame(s: State, u: State, p: nat, q: nat, hash: Hash)
    requires SamePiece(s, u, p) && Listed(u.picker, q) && q != p
    ensures SamePiece(s, Completed(u, q, hash), p)
  {
    RemoveShape(u.picker, q);
    hide RemovePiece;
  }

  lemma DeliverKeepsFull(md4: seq<byte> -> Hash, s: State, p: nat)
    requires Inv(md4, s) && Full(s, p) && s.deliveries != [] && DoDeliver(md4, s).Running?
    ensures SamePiece(s, DoDeliver(md4, s).state, p)
  {
    DeliverCases(md4, s);
    var b := s.deliveries[0].block;
    assert p in s.incoming;
    if b.pieceIndex in s.incoming && !Has(s.incoming[b.pieceIndex].blocks, b.blockIndex) {
      hide Inv, DoDeliver, Has, Look, DoComplete, NewBlock, AfterStore, Full, SamePiece, LastOfPiece, Completed;
      NoNewForFull(s, p);
      StoreKeepsPieceSame(s, p);
      if LastOfPiece(s, b) {
        var u := AfterStore(Rest(s), s.deliveries[0]);
        LastOutcome(md4, s);
        CompleteKeepsPieceSame(s, u, p, b.pieceIndex, md4(u.incoming[b.pieceIndex].hashed));
      }
    }
  }

  lemma AskKeepsPieceSame(s: State, c: nat, slower: set<Peer>, slow: bool, p: nat)
    requires c < |s.conns| && p in s.incoming
    ensures SamePiece(s, DoAsk(s, c, slower, slow), p)
  {
    PickKeepsBits(s.picker, REQUEST_QUEUE_SIZE, s.conns[c].peer, slower, slow);
    var res := PickPieces(s.picker, REQUEST_QUEUE_SIZE, s.conns[c].peer, slower, slow).1;
    StartReceivingAdds(s.incoming, res, p);
    hide PickPieces, StartReceiving;
  }

  lemma AbortKeepsPieceSame(s: State, c: nat, p: nat)
    requires c < |s.conns| && s.conns[c].requested != [] && p in s.incoming && DoAbort(s, c).Running?
    ensures SamePiece(s, DoAbort(s, c).state, p)
  {
    hide AbortBlockState;
  }

  lemma ReceiveKeepsPieceSame(s: State, c: nat, part: Part, p: nat)
    requires c < |s.conns| && p in s.incoming && DoReceive(s, c, part).Running?
    ensures SamePiece(s, DoReceive(s, c, part).state, p)
  {
    hide TakePart, HasSlice;
  }

  lemma StepKeepsPieceSame(md4: seq<byte> -> Hash, s: State, step: Step, p: nat)
    requires Inv(md4, s) && Full(s, p) && p in s.incoming && Apply(md4, s, step).Running?
    ensures SamePiece(s, Apply(md4, s, step).state, p)
  {
    hide DoAsk, DoAbort, DoReceive, DoDeliver, Inv, Full;
    match step
    case Ask(c, slower, slow) =>
      if c < |s.conns| {
        AskKeepsPieceSame(s, c, slower, slow, p);
      }
    case AbortNext(c) =>
      if c < |s.conns| && !s.conns[c].alive && s.conns[c].requested != [] {
        AbortKeepsPieceSame(s, c, p);
      }
    case ReceivePart(c, part) =>
      if c < |s.conns| && s.conns[c].alive {
        ReceiveKeepsPieceSame(s, c, part, p);
      }
    case Deliver =>
      if s.deliveries != [] {
        DeliverKeepsFull(md4, s, p);
      }
    case _ =>
  }

  lemma StepKeepsFull(md4: seq<byte> -> Hash, s: State, step: Step, p: nat)
    requires Inv(md4, s) && Full(s, p)
    ensures Apply(md4, s, step).Running? ==> Full(Apply(md4, s, step).state, p)
  {
    StepKeeps(md4, s, step);
    hide Apply, IncomingOk, PickerOk, RequestsOk, Counted, VerifiedOk, BlocksIn;
    if Apply(md4, s, step).Running? {
      StepKeepsPieceSame(md4, s, step, p);
    }
  }

  lemma {:induction false} RunKeepsFull(md4: seq<byte> -> Hash, s: State, steps: seq<Step>, p: nat)
    requires Inv(md4, s) && Full(s, p)
    ensures var o := Run(md4, s, steps); o.Running? ==> Inv(md4, o.state) && Full(o.state, p)
  {
    hide Apply, Inv, Full;
    if steps != [] {
      RunKeepsFull(md4, s, steps[..|steps| - 1], p);
      var before := Run(md4, s, steps[..|steps| - 1]);
      if before.Running? {
        StepKeeps(md4, before.state, steps[|steps| - 1]);
        StepKeepsFull(md4, before.state, steps[|steps| - 1], p);
      }
    }
  }

  lemma RunStaysUnfinished(md4: seq<byte> -> Hash, s: State, steps: seq<Step>, p: nat)
    requires Inv(md4, s) && Full(s, p)
    ensures Run(md4, s, steps).Running? ==> !IsFinished(Run(md4, s, steps).state.picker)
  {
    RunKeepsFull(md4, s, steps, p);
    hide Run;
    var o := Run(md4, s, steps);
    if o.Running? {
      ListedInFile(o.state, p);
      hide Full, Inv;
    }
  }

  /** There are no more stored blocks than the piece has. */
  lemma StoredAtMost(s: State, p: nat)
    requires PickerOk(s) && IncomingOk(s.size, s.picker, s.incoming, s.file) && p in s.incoming
    ensures |s.incoming[p].blocks| <= BlocksIn(s.picker, p)
  {
    hide PieceOk, PickerOk, BlocksIn;
    assert PieceOk(s.size, s.picker, s.file, p, s.incoming[p]);
    hide IncomingOk;
    StoredInPiece(s.size, s.picker, s.file, p, s.incoming[p]);
  }

  lemma StoredInPiece(size: nat, pk: Picker, file: seq<byte>, p: nat, rp: Receiving)
    requires PieceOk(size, pk, file, p, rp)
    ensures |rp.blocks| <= BlocksIn(pk, p)
  {
    hide OnDisk, Look, Contents, BlocksIn;
    if rp.blocks != [] {
      ContentsAt(rp.blocks, |rp.blocks| - 1);
      IndexAtLeast(rp.blocks, |rp.blocks| - 1);
    }
  }

  /** Only a last piece whose count was lost has no blocks. */
  lemma EmptyIsLast(s: State, p: nat)
    requires PickerOk(s) && IncomingOk(s.size, s.picker, s.incoming, s.file) && p in s.incoming
    requires BlocksIn(s.picker, p) == 0
    ensures !LastIsCounted(s.picker)
  {
    hide PieceOk, Look;
    assert Listed(s.picker, p);
  }

  /** A piece with as many stored blocks as it can have, or one without any. */
  lemma FullOrEmpty(md4: seq<byte> -> Hash, s: State, p: nat)
    requires Inv(md4, s) && p in s.incoming && |s.incoming[p].blocks| >= BlocksIn(s.picker, p)
    ensures Full(s, p) || !LastIsCounted(s.picker)
  {
    hide Counted, RequestsOk, VerifiedOk, IncomingOk, PickerOk, BlocksIn, LastIsCounted;
    StoredAtMost(s, p);
    if BlocksIn(s.picker, p) == 0 {
      EmptyIsLast(s, p);
    }
  }

  /** Without the count of a last piece it lacks, or with a full piece left over, it never finishes. */
  lemma NeverFinishes(md4: seq<byte> -> Hash, s: State, steps: seq<Step>)
    requires Inv(md4, s) && !(LastIsCounted(s.picker) && NoFull(s))
    ensures Run(md4, s, steps).Running? ==> !IsFinished(Run(md4, s, steps).state.picker)
  {
    hide Run, Inv, IsFinished, Full;
    if !LastIsCounted(s.picker) {
      NotCountedIsStuck(md4, s);
      RunStuck(md4, s, steps);
      if Run(md4, s, steps).Running? {
        StuckIsUnfinished(Run(md4, s, steps).state.picker);
      }
    } else {
      var p: nat :| p in s.incoming && |s.incoming[p].blocks| >= BlocksIn(s.picker, p);
      FullOrEmpty(md4, s, p);
      RunStaysUnfinished(md4, s, steps, p);
    }
  }

  lemma NotCountedIsStuck(md4: seq<byte> -> Hash, s: State)
    requires Inv(md4, s) && !LastIsCounted(s.picker)
    ensures Stuck(s.picker)
  {
  }

  /** A transfer can still finish exactly when it knows how many blocks its last piece has, or has
      the piece, and no incoming piece is full already. */
  lemma CanFinishIff(md4: seq<byte> -> Hash, s: State, peer: Peer)
    requires Inv(md4, s)
    ensures (exists steps :: Run(md4, s, steps).Running? && IsFinished(Run(md4, s, steps).state.picker))
            <==> LastIsCounted(s.picker) && NoFull(s)
  {
    hide Run, Inv, IsFinished, LastIsCounted, NoFull;
    if LastIsCounted(s.picker) && NoFull(s) {
      var steps := CanFinish(md4, s, peer);
    } else {
      forall steps
        ensures Run(md4, s, steps).Running? ==> !IsFinished(Run(md4, s, steps).state.picker)
      {
        NeverFinishes(md4, s, steps);
      }
    }
  }

  // ----- every run

  lemma StepKeepsNoFull(md4: seq<byte> -> Hash, s: State, step: Step)
    requires Inv(md4, s) && NoFull(s) && Apply(md4, s, step).Running?
    ensures NoFull(Apply(md4, s, step).state)
  {
    hide DoAsk, DoAbort, DoReceive, DoDeliver, Inv;
    match step
    case Ask(c, slower, slow) =>
      if c < |s.conns| {
        InvIsPickerOk(md4, s);
        AskKeepsNoFull(s, c, slower, slow);
      }
    case AbortNext(c) =>
      if c < |s.conns| && !s.conns[c].alive && s.conns[c].requested != [] {
        forall p: nat | p in s.incoming
          ensures SamePiece(s, DoAbort(s, c).state, p)
        {
          AbortKeepsPieceSame(s, c, p);
        }
        AbortKeepsIncoming(s, c);
      }
    case ReceivePart(c, part) =>
      if c < |s.conns| && s.conns[c].alive {
        ReceiveKeepsIncoming(s, c, part);
      }
    case Deliver =>
      if s.deliveries != [] {
        DeliverOutcome(md4, s);
      }
    case _ =>
  }

  lemma InvIsPickerOk(md4: seq<byte> -> Hash, s: State)
    requires Inv(md4, s)
    ensures PickerOk(s)
  {
  }

  lemma AbortKeepsIncoming(s: State, c: nat)
    requires c < |s.conns| && s.conns[c].requested != [] && DoAbort(s, c).Running?
    ensures DoAbort(s, c).state.incoming == s.incoming
  {
  }

  lemma ReceiveKeepsIncoming(s: State, c: nat, part: Part)
    requires c < |s.conns| && DoReceive(s, c, part).Running?
    ensures DoReceive(s, c, part).state.incoming == s.incoming && DoReceive(s, c, part).state.picker == s.picker
  {
    hide TakePart, HasSlice;
  }

  lemma StepKeepsCounted(md4: seq<byte> -> Hash, s: State, step: Step)
    requires Inv(md4, s) && LastIsCounted(s.picker) && Apply(md4, s, step).Running?
    ensures LastIsCounted(Apply(md4, s, step).state.picker)
  {
    hide Apply, Inv, HasLast;
    StepKeepsLast(md4, s, step);
    if HasLast(s.picker) {
      LastStays(md4, s, step);
    }
  }

  lemma {:induction false} RunStaysOpen(md4: seq<byte> -> Hash, s: State, steps: seq<Step>)
    requires Inv(md4, s) && LastIsCounted(s.picker) && NoFull(s)
    ensures var o := Run(md4, s, steps);
            o.Running? ==> Inv(md4, o.state) && LastIsCounted(o.state.picker) && NoFull(o.state)
  {
    hide Apply, Inv, LastIsCounted, NoFull;
    if steps != [] {
      var step := steps[|steps| - 1];
      RunStaysOpen(md4, s, steps[..|steps| - 1]);
      var before := Run(md4, s, steps[..|steps| - 1]);
      if before.Running? && Apply(md4, before.state, step).Running? {
        StepKeeps(md4, before.state, step);
        StepKeepsCounted(md4, before.state, step);
        StepKeepsNoFull(md4, before.state, step);
      }
    }
  }

  lemma InitIsOpen(size: nat, file: seq<byte>)
    requires Representable(size)
    ensures LastIsCounted(Init(size, file).picker) && NoFull(Init(size, file))
  {
    if 0 < size {
      ShapeOf(size);
    }
  }

  /** No run of a new transfer ends where it cannot be finished any more: whatever the peers sent,
      as long as nothing panicked, some further events complete every piece. */
  lemma EveryRunCanFinish(md4: seq<byte> -> Hash, size: nat, file: seq<byte>, steps: seq<Step>, s: State, peer: Peer)
    returns (more: seq<Step>)
    requires Reaches(md4, size, file, steps, s)
    ensures Run(md4, s, more).Running? && IsFinished(Run(md4, s, more).state.picker)
  {
    InitHolds(md4, size, file);
    InitIsOpen(size, file);
    hide Run, Inv, IsFinished, LastIsCounted, NoFull;
    RunStaysOpen(md4, Init(size, file), steps);
    more := CanFinish(md4, s, peer);
  }

  // ----- restarts

  lemma RestartedPieces(s: State, order: seq<nat>)
    requires Pickers.WellFormed(s.picker) && IterationOrder(order, DownloadedBlocks(s.picker.downloading).Keys)
    ensures var r := Restarted(s, order);
            && Pickers.WellFormed(r.picker) && r.picker.pieces == s.picker.pieces && r.picker.blocksInLastPiece == 0
            && (forall p: nat :: && (Listed(r.picker, p) <==> Listed(s.picker, p))
                                 && (Have(r.picker, p) <==> Have(s.picker, p)))
  {
    hide DownloadedBlocks, RestoreIncoming, Look;
    RestoreKeepsPieces(s.picker, order);
  }

  /** With its last piece a restarted transfer keeps the invariant as it is. */
  lemma RestartedWithLast(md4: seq<byte> -> Hash, s: State, order: seq<nat>)
    requires Data(md4, s) && IterationOrder(order, DownloadedBlocks(s.picker.downloading).Keys) && HasLast(s.picker)
    ensures Inv(md4, Restarted(s, order)) && HasLast(Restarted(s, order).picker)
  {
    RestartInv(md4, s, order);
    RestartedPieces(s, order);
    RestartedIsQuiet(s, order);
    hide Inv, Data, DownloadedBlocks, Restarted, Have, Listed, Pickers.WellFormed;
    var r := Restarted(s, order);
    HasLastIsUnlisted(r.picker);
    ForgetCount(md4, r, s.picker.blocksInLastPiece);
  }

  lemma HasLastIsUnlisted(pk: Picker)
    requires HasLast(pk)
    ensures LastUnlisted(pk)
  {
  }

  lemma RestartedIsQuiet(s: State, order: seq<nat>)
    requires forall p :: p in order ==> p in DownloadedBlocks(s.picker.downloading)
    ensures Restarted(s, order).conns == [] && Restarted(s, order).deliveries == []
  {
  }

  lemma RestartedBlocksIn(s: State, order: seq<nat>, p: nat)
    requires Pickers.WellFormed(s.picker) && IterationOrder(order, DownloadedBlocks(s.picker.downloading).Keys)
    requires HasLast(s.picker) && Listed(s.picker, p)
    ensures BlocksIn(Restarted(s, order).picker, p) == BlocksIn(s.picker, p) > 0
  {
    RestartedPieces(s, order);
    HasLastIsUnlisted(s.picker);
    hide Restarted, DownloadedBlocks, Pickers.WellFormed, Have, Listed, HasLast;
  }

  lemma RestartedPieceSame(md4: seq<byte> -> Hash, s: State, order: seq<nat>, p: nat)
    requires Data(md4, s) && IterationOrder(order, DownloadedBlocks(s.picker.downloading).Keys) && HasLast(s.picker)
    ensures var r := Restarted(s, order);
            && (p in r.incoming <==> p in s.incoming)
            && (p in s.incoming ==> r.incoming[p] == s.incoming[p] && BlocksIn(r.picker, p) == BlocksIn(s.picker, p))
  {
    hide Restarted, DownloadedBlocks, PieceOk, VerifiedOk, AllCountsOk, Sized, Pickers.WellFormed, Shape, Listed,
         HasLast, BlocksIn;
    SameIncoming(s, order, p);
    if Listed(s.picker, p) {
      RestartedBlocksIn(s, order, p);
    }
  }

  lemma RestartKeepsFull(md4: seq<byte> -> Hash, s: State, order: seq<nat>)
    requires Data(md4, s) && IterationOrder(order, DownloadedBlocks(s.picker.downloading).Keys) && HasLast(s.picker)
    ensures NoFull(Restarted(s, order)) <==> NoFull(s)
  {
    var r := Restarted(s, order);
    hide Restarted, DownloadedBlocks, Data, BlocksIn, HasLast, IterationOrder;
    forall p: nat
      ensures p in r.incoming <==> p in s.incoming
      ensures p in s.incoming ==> r.incoming[p] == s.incoming[p] && BlocksIn(r.picker, p) == BlocksIn(s.picker, p)
    {
      RestartedPieceSame(md4, s, order, p);
    }
  }

  /** A restarted transfer can finish exactly when it had its last piece, and no piece was
      full already: one saved between its last block and its hash never completes. */
  lemma RestartedCanFinishIff(md4: seq<byte> -> Hash, s: State, order: seq<nat>, peer: Peer)
    requires Data(md4, s) && IterationOrder(order, DownloadedBlocks(s.picker.downloading).Keys)
    ensures (exists steps :: Run(md4, Restarted(s, order), steps).Running?
                             && IsFinished(Run(md4, Restarted(s, order), steps).state.picker))
            <==> HasLast(s.picker) && NoFull(s)
  {
    hide Run, Inv, IsFinished, NoFull, Restarted, DownloadedBlocks, HasLast;
    if HasLast(s.picker) {
      RestartedWithLast(md4, s, order);
      RestartKeepsFull(md4, s, order);
      CanFinishIff(md4, Restarted(s, order), peer);
    } else {
      forall steps
        ensures Run(md4, Restarted(s, order), steps).Running?
                ==> !IsFinished(Run(md4, Restarted(s, order), steps).state.picker)
      {
        RestartedNeverFinishes(md4, s, order, steps);
      }
    }
  }
}
