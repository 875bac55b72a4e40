/** What the invariant of the transfer protocol means for its runs: finished
    pieces are the right bytes, counts are requests, and a restart loses nothing. */
module TransferResults {
  import opened Bytes
  import opened Geometry
  import opened DownloadingPieces
  import opened Pickers
  import opened PiecePickers
  import opened ReceivingPieces
  import opened Transfers
  import opened TransferSafety

  /** The state after a run from the start of a new transfer, when it did not panic. */
  ghost predicate Reaches(md4: seq<byte> -> Hash, size: nat, file: seq<byte>, steps: seq<Step>, s: State) {
    Representable(size) && Run(md4, Init(size, file), steps) == Running(s)
  }

  lemma ReachableKeeps(md4: seq<byte> -> Hash, size: nat, file: seq<byte>, steps: seq<Step>)
    requires Representable(size)
    ensures Kept(md4, Init(size, file), Run(md4, Init(size, file), steps))
  {
    InitHolds(md4, size, file);
    RunKeeps(md4, Init(size, file), steps);
  }

  // ----- finished pieces

  /** Every hash a piece was checked against is an entry of some hash set that arrived. */
  ghost predicate FromReceived(s: State, steps: seq<Step>) {
    && (s.hashSet.Some? ==> ReceiveHashSet(s.hashSet.value) in steps)
    && forall p: nat :: p in s.verified ==>
         exists h :: ReceiveHashSet(h) in steps && p < |h| && h[p] == s.verified[p]
  }

  /** A step verifies at most one piece, against the hash set of that moment. */
  lemma StepVerifiesOne(md4: seq<byte> -> Hash, s: State, step: Step) returns (p: nat)
    requires Apply(md4, s, step).Running?
    ensures var t := Apply(md4, s, step).state;
            t.verified == s.verified
            || (s.hashSet.Some? && p < |s.hashSet.value| && t.verified == s.verified[p := s.hashSet.value[p]])
  {
    hide PickPieces, StartReceiving, Abort, Finish, SetHave, CanSetHave, WriteAt, Insert, IsFinished,
         RemoveDownloadingPiece, Has, Look, Listed;
    p := if step.Deliver? && s.deliveries != [] then s.deliveries[0].block.pieceIndex else 0;
  }

  lemma StepHashSet(md4: seq<byte> -> Hash, s: State, step: Step)
    requires Apply(md4, s, step).Running?
    ensures Apply(md4, s, step).state.hashSet == if step.ReceiveHashSet? then Some(step.hashes) else s.hashSet
  {
    hide PickPieces, StartReceiving, Abort, Finish, SetHave, CanSetHave, WriteAt, Insert, IsFinished,
         RemoveDownloadingPiece, Has, Look, Listed;
  }

  lemma StepFromReceived(md4: seq<byte> -> Hash, s: State, step: Step, steps: seq<Step>)
    requires FromReceived(s, steps) && Apply(md4, s, step).Running?
    ensures FromReceived(Apply(md4, s, step).state, steps + [step])
  {
    hide Apply;
    var t, all := Apply(md4, s, step).state, steps + [step];
    StepHashSet(md4, s, step);
    var q := StepVerifiesOne(md4, s, step);
    assert step in all && forall x :: x in steps ==> x in all;
    forall p: nat | p in t.verified
      ensures exists h :: ReceiveHashSet(h) in all && p < |h| && h[p] == t.verified[p]
    {
      if p in s.verified && s.verified[p] == t.verified[p] {
        var h :| ReceiveHashSet(h) in steps && p < |h| && h[p] == s.verified[p];
        assert ReceiveHashSet(h) in all;
      } else {
        assert ReceiveHashSet(s.hashSet.value) in all;
      }
    }
  }

  lemma {:induction false} RunFromReceived(md4: seq<byte> -> Hash, s: State, earlier: seq<Step>, steps: seq<Step>)
    requires FromReceived(s, earlier)
    ensures var o := Run(md4, s, steps);
            o.Running? ==> FromReceived(o.state, earlier + steps)
  {
    hide FromReceived, Apply;
    if steps == [] {
      assert earlier + steps == earlier;
    } else {
      var n := |steps| - 1;
      RunFromReceived(md4, s, earlier, steps[..n]);
      var before := Run(md4, s, steps[..n]);
      if before.Running? && Apply(md4, before.state, steps[n]).Running? {
        StepFromReceived(md4, before.state, steps[n], earlier + steps[..n]);
        assert earlier + steps == (earlier + steps[..n]) + [steps[n]];
      }
    }
  }

  /** Safety: whatever the peers send, a piece we have is in the file, and its
      bytes hash to the entry for it of a hash set that was received. */
  lemma FinishedPiecesMatchReceivedHash(md4: seq<byte> -> Hash, size: nat, file: seq<byte>, steps: seq<Step>,
          s: State, p: nat)
    requires Reaches(md4, size, file, steps, s) && Have(s.picker, p)
    ensures p in s.verified && PieceVerified(md4, size, s.file, p, s.verified[p])
    ensures exists h :: ReceiveHashSet(h) in steps && p < |h| && h[p] == s.verified[p]
  {
    ReachableKeeps(md4, size, file, steps);
    RunFromReceived(md4, Init(size, file), [], steps);
    assert [] + steps == steps;
    RunKeepsSize(md4, Init(size, file), steps);
  }

  lemma StepKeepsSize(md4: seq<byte> -> Hash, s: State, step: Step)
    ensures Apply(md4, s, step).Running? ==> Apply(md4, s, step).state.size == s.size
  {
    hide PickPieces, StartReceiving, Abort, Finish, SetHave, CanSetHave, WriteAt, Insert, IsFinished,
         RemoveDownloadingPiece, Has, Look, Listed;
  }

  lemma {:induction false} RunKeepsSize(md4: seq<byte> -> Hash, s: State, steps: seq<Step>)
    ensures Run(md4, s, steps).Running? ==> Run(md4, s, steps).state.size == s.size
  {
    hide Apply;
    if steps != [] {
      var before := Run(md4, s, steps[..|steps| - 1]);
      RunKeepsSize(md4, s, steps[..|steps| - 1]);
      if before.Running? {
        StepKeepsSize(md4, before.state, steps[|steps| - 1]);
      }
    }
  }

  /** When all peers send the same hash set, the bytes of a piece we have hash to its entry. */
  lemma FinishedPiecesMatchTheHashSet(md4: seq<byte> -> Hash, size: nat, file: seq<byte>, steps: seq<Step>, s: State,
          p: nat, h: seq<Hash>)
    requires Reaches(md4, size, file, steps, s) && Have(s.picker, p)
    requires forall x :: x in steps && x.ReceiveHashSet? ==> x.hashes == h
    ensures p < |h| && PieceVerified(md4, size, s.file, p, h[p])
  {
    FinishedPiecesMatchReceivedHash(md4, size, file, steps, s, p);
    var g :| ReceiveHashSet(g) in steps && p < |g| && g[p] == s.verified[p];
    assert ReceiveHashSet(g).hashes == h;
  }

  /** A hash set that arrives later replaces the one the piece was checked against:
      the piece still matches exactly when the two agree about it. */
  lemma LaterHashSetDecides(md4: seq<byte> -> Hash, size: nat, file: seq<byte>, steps: seq<Step>, s: State, p: nat,
          hashes: seq<Hash>)
    requires Reaches(md4, size, file, steps, s) && Have(s.picker, p) && p < |hashes|
    ensures p in s.verified
    ensures var t := s.(hashSet := Some(hashes));
            && Reaches(md4, size, file, steps + [ReceiveHashSet(hashes)], t) && Have(t.picker, p)
            && (PieceVerified(md4, size, t.file, p, hashes[p]) <==> hashes[p] == s.verified[p])
  {
    FinishedPiecesMatchReceivedHash(md4, size, file, steps, s, p);
    var next := steps + [ReceiveHashSet(hashes)];
    assert next[..|next| - 1] == steps && next[|next| - 1] == ReceiveHashSet(hashes);
  }

  /** A finished transfer: every piece of the file is verified. */
  lemma FinishedMeansAllVerified(md4: seq<byte> -> Hash, size: nat, file: seq<byte>, steps: seq<Step>, s: State, p: nat)
    requires Reaches(md4, size, file, steps, s) && IsFinished(s.picker) && p < NumPiecesAndBlocks(size).pieces
    ensures p in s.verified && PieceVerified(md4, size, s.file, p, s.verified[p])
  {
    ReachableKeeps(md4, size, file, steps);
    RunKeepsSize(md4, Init(size, file), steps);
    FinishedIffAllHave(s.picker);
    FinishedPiecesMatchReceivedHash(md4, size, file, steps, s, p);
  }

  /** wasFinished is read after the piece has left the list, so the transfer
      never reports that it is finished. */
  lemma FinishedIsNeverReported(md4: seq<byte> -> Hash, size: nat, file: seq<byte>, steps: seq<Step>, s: State)
    requires Reaches(md4, size, file, steps, s)
    ensures !s.finishedSent
  {
    ReachableKeeps(md4, size, file, steps);
  }

  /** A run can only end in a panic over a part that does not fit its block, or
      over a missing, short or contradicting hash set. */
  lemma OnlyTheseReasonsPanic(md4: seq<byte> -> Hash, size: nat, file: seq<byte>, steps: seq<Step>)
    requires Representable(size)
    ensures var o := Run(md4, Init(size, file), steps);
            o.Panic? ==> o.reason in {SliceBounds, NoHashSet, NoPieceHash, PieceBitClear}
  {
    ReachableKeeps(md4, size, file, steps);
  }

  // ----- the queue

  /** Complete blocks are delivered in the order in which they became complete, one at a time. */
  lemma QueueIsFirstInFirstOut(md4: seq<byte> -> Hash, s: State, step: Step)
    requires Apply(md4, s, step).Running?
    ensures var before, after := s.deliveries, Apply(md4, s, step).state.deliveries;
            if step.Deliver? then before != [] ==> after == before[1..]
            else after == before || (step.ReceivePart? && |after| == |before| + 1 && after[..|before|] == before
                                     && after[|before|].segs == [])
  {
    hide PickPieces, StartReceiving, RemoveAt, Insert, WriteAt, Finish, Has, Look, CanSetHave, SetHave,
         RemoveDownloadingPiece, IsFinished, Abort;
  }

  // ----- requests

  /** A block that is not finished is requested exactly while some peer holds it
      or its data is on the way, and its count is the number of those; never more than two. */
  lemma RequestedIffOutstanding(md4: seq<byte> -> Hash, s: State, b: PieceBlock)
    requires Inv(md4, s) && !Look(s.picker, b).finished
    ensures Look(s.picker, b).downloadersCount == Outstanding(s)[b] <= 2
    ensures Look(s.picker, b).requested <==> b in Outstanding(s)
  {
    assert CountsOk(Look(s.picker, b));
  }

  /** An abort frees its block exactly when nobody else holds it, and touches no other block. */
  lemma AbortFreesLastHolder(md4: seq<byte> -> Hash, s: State, c: nat)
    requires Inv(md4, s) && c < |s.conns| && s.conns[c].requested != []
    ensures var b := s.conns[c].requested[0].block;
            var o := DoAbort(s, c);
            && o.Running?
            && (!Look(s.picker, b).finished ==> (Look(o.state.picker, b).requested <==> Outstanding(s)[b] > 1))
            && (Look(s.picker, b).finished ==> Look(o.state.picker, b) == Look(s.picker, b))
            && forall x :: x != b ==> Look(o.state.picker, x) == Look(s.picker, x)
  {
    AbortKeeps(md4, s, c);
    AbortKeepsRequests(s, c);
    var b, t := s.conns[c].requested[0].block, DoAbort(s, c).state;
    assert s.conns[c].requested[0] in s.conns[c].requested;
    ConnHolds(s.conns, c, 0);
    RequestInRange(s, b);
    AbortKeepsFinished(s.picker, b, s.conns[c].peer, 0);
    if !Look(s.picker, b).finished {
      RequestedIffOutstanding(md4, t, b);
    }
    if Listed(s.picker, b.pieceIndex) {
      UpdateLook(s.picker, b, AbortBlockState(Look(s.picker, b), s.conns[c].peer));
    }
  }

  // ----- restart

  /** Reading a saved block back from the file, as far as it is there. */
  function ReadBlock(size: nat, file: seq<byte>, b: PieceBlock): Option<seq<byte>> {
    var length := Min(size - b.Start(), BLOCK_SIZE);
    if 0 <= length && b.Start() + length <= |file| then Some(file[b.Start()..b.Start() + length]) else None
  }

  /** The saved blocks 0..n-1 of a piece inserted in order; a failed read ends it. */
  function RestorePiece(size: nat, file: seq<byte>, p: nat, have: seq<bool>, n: nat): Option<Receiving>
    requires n <= |have|
  {
    if n == 0 then Some(EMPTY)
    else
      var before := RestorePiece(size, file, p, have, n - 1);
      if before.None? || !have[n - 1] then before
      else
        var data := ReadBlock(size, file, PieceBlock(p, n - 1));
        if data.None? then None else Some(Insert(before.value, Stored(n - 1, data.value)))
  }

  /** What was read back: the saved blocks below n, with the data given. */
  ghost predicate Restored(r: Option<Receiving>, have: seq<bool>, n: nat, stored: map<nat, seq<byte>>) {
    && r.Some? && HashedToGap(r.value) && n <= |have|
    && (forall k: nat :: k in Contents(r.value.blocks) <==> k < n && have[k])
    && (forall k: nat :: k in Contents(r.value.blocks) ==> k in stored && Contents(r.value.blocks)[k] == stored[k])
  }

  lemma RestoredNone(have: seq<bool>, stored: map<nat, seq<byte>>)
    ensures Restored(Some(EMPTY), have, 0, stored)
  {
    assert EMPTY.blocks[..0] == [];
  }

  lemma RestoredNext(r: Receiving, have: seq<bool>, n: nat, stored: map<nat, seq<byte>>)
    requires n < |have| && Restored(Some(r), have, n, stored) && n in stored
    ensures Restored(if have[n] then Some(Insert(r, Stored(n, stored[n]))) else Some(r), have, n + 1, stored)
  {
    hide Insert, HashedToGap, Contents;
    InsertKeepsFirst(r, Stored(n, stored[n]));
  }

  lemma ReadBack(size: nat, file: seq<byte>, b: PieceBlock, data: seq<byte>)
    requires Representable(size) && IsBlockOf(size, b) && OnDisk(size, file, b, data)
    ensures ReadBlock(size, file, b) == Some(data)
  {
    BlockBounds(size, b);
  }

  lemma {:induction false} RestoredContents(size: nat, file: seq<byte>, p: nat, have: seq<bool>, n: nat,
          stored: map<nat, seq<byte>>)
    requires n <= |have| && Representable(size)
    requires forall k: nat :: k < |have| && have[k] ==>
               k in stored && IsBlockOf(size, PieceBlock(p, k)) && OnDisk(size, file, PieceBlock(p, k), stored[k])
    ensures Restored(RestorePiece(size, file, p, have, n), have, n, stored)
  {
    hide Restored, Insert, OnDisk, IsBlockOf, ReadBlock;
    if n == 0 {
      RestoredNone(have, stored);
    } else {
      RestoredContents(size, file, p, have, n - 1, stored);
      var before := RestorePiece(size, file, p, have, n - 1);
      RestoredIsSome(before, have, n - 1, stored);
      if have[n - 1] {
        ReadBack(size, file, PieceBlock(p, n - 1), stored[n - 1]);
        RestoredNext(before.value, have, n - 1, stored);
      } else {
        RestoredSkip(before, have, n - 1, stored);
      }
    }
  }

  lemma RestoredIsSome(r: Option<Receiving>, have: seq<bool>, n: nat, stored: map<nat, seq<byte>>)
    requires Restored(r, have, n, stored)
    ensures r.Some?
  {
  }

  lemma RestoredSkip(r: Option<Receiving>, have: seq<bool>, n: nat, stored: map<nat, seq<byte>>)
    requires n < |have| && !have[n] && Restored(r, have, n, stored)
    ensures Restored(r, have, n + 1, stored)
  {
  }

  /** The stored blocks of a listed piece; one without blocks need not be incoming. */
  function IncomingOr(s: State, p: nat): Receiving {
    if p in s.incoming then s.incoming[p] else EMPTY
  }

  lemma ListedIsOk(s: State, p: nat)
    requires PickerOk(s) && IncomingOk(s.size, s.picker, s.incoming, s.file) && Listed(s.picker, p)
    ensures PieceOk(s.size, s.picker, s.file, p, IncomingOr(s, p))
  {
    if p !in s.incoming {
      assert EMPTY.blocks == [];
    }
  }

  lemma SavedIsStored(s: State, p: nat)
    requires PickerOk(s) && IncomingOk(s.size, s.picker, s.incoming, s.file)
    ensures var db := DownloadedBlocks(s.picker.downloading);
            && (p in db <==> Listed(s.picker, p))
            && (p in db ==> PieceOk(s.size, s.picker, s.file, p, IncomingOr(s, p))
                            && (forall k: nat :: k < |db[p]| && db[p][k] <==> k in Contents(IncomingOr(s, p).blocks))
                            && (forall k: nat :: k < |db[p]| ==> IsBlockOf(s.size, PieceBlock(p, k))))
  {
    SavedBits(s.picker.downloading, p);
    hide HashedToGap, Contents, OnDisk, DownloadedBlocks;
    if Listed(s.picker, p) {
      ListedIsOk(s, p);
      var blocks := PieceAt(s.picker, p).blocks;
      assert PieceAt(s.picker, p) in s.picker.downloading;
      forall k: nat
        ensures k < |blocks| ==> Look(s.picker, PieceBlock(p, k)) == blocks[k] && IsBlockOf(s.size, PieceBlock(p, k))
      {
      }
    }
  }

  /** A restart loses nothing: reading the saved finished blocks back from the
      file rebuilds every listed piece exactly as it was, hash included. */
  lemma RestartRebuildsIncoming(s: State, p: nat)
    requires PickerOk(s) && IncomingOk(s.size, s.picker, s.incoming, s.file)
    ensures var db := DownloadedBlocks(s.picker.downloading);
            && (p in db <==> Listed(s.picker, p))
            && (p in s.incoming ==> p in db)
            && (p in db && 0 < |db[p]| ==> p in s.incoming)
            && (p in db ==> RestorePiece(s.size, s.file, p, db[p], |db[p]|) == Some(IncomingOr(s, p)))
  {
    hide HashedToGap, Contents, OnDisk, DownloadedBlocks, IsBlockOf, RestorePiece, Look, Pickers.WellFormed, Sized;
    var db := DownloadedBlocks(s.picker.downloading);
    SavedIsStored(s, p);
    if p in db {
      var have, rp := db[p], IncomingOr(s, p);
      SavedLength(s.picker, p);
      RestoredContents(s.size, s.file, p, have, |have|, Contents(rp.blocks));
      var r := RestorePiece(s.size, s.file, p, have, |have|).value;
      assert Contents(r.blocks) == Contents(rp.blocks);
      StateIsDeterminedByContents(r, rp);
    }
  }

  lemma SavedLength(pk: Picker, p: nat)
    requires Pickers.WellFormed(pk) && Sized(pk) && p in DownloadedBlocks(pk.downloading)
    ensures |DownloadedBlocks(pk.downloading)[p]| == BlocksIn(pk, p)
  {
    SavedBits(pk.downloading, p);
  }
}
