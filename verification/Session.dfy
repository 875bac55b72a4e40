/** Handing out connections: the loop over all transfers in the session's tick
    (session.go:370-421). */
module Sessions {
  import opened Bytes
  import opened Peers
  import opened Policies
  import opened Selections

  /** What the loop looks at in a transfer. */
  class Transfer {
    var Failed: bool
    var Paused: bool
    var Finished: bool
    var ReadingResumeData: bool
    var Stopped: bool
    const policy: Policy

    constructor (p: Policy)
      ensures policy == p && !Failed && !Paused && !Finished && !ReadingResumeData && !Stopped
    {
      policy := p;
      Failed, Paused, Finished, ReadingResumeData, Stopped := false, false, false, false, false;
    }

    predicate Wants()
      reads this
    {
      !Failed && !Paused && !Finished && !ReadingResumeData && !Stopped
    }

    /** In normal operation, and with a peer that has no connection and at most 5 failures. */
    method WantMorePeers() returns (wants: bool)
      ensures wants <==>
              && !Failed && !Paused && !Finished && !ReadingResumeData && !Stopped
              && exists e :: e in policy.peers && policy.peers[e].peerConnection == null
                             && policy.peers[e].FailCount <= 5
      ensures wants <==> Wants() && exists e :: e in policy.peers && IsConnectCandidate(policy.peers[e])
    {
      if !Wants() {
        return false;
      }
      var n := policy.NumConnectCandidates();
      ghost var candidates := set e | e in policy.peers && IsConnectCandidate(policy.peers[e]);
      if n > 0 {
        assert candidates != {};
        ghost var e :| e in candidates;
        return true;
      }
      assert candidates == {};
      assert forall e :: e in policy.peers && IsConnectCandidate(policy.peers[e]) ==> e in candidates;
      return false;
    }
  }

  ghost function EligibleOf(all: set<Peer>, t: int): set<Peer>
    reads all
  {
    set p | p in all && Eligible(p, t)
  }

  lemma EligibleFewer(all: set<Peer>, t: int, eligible: set<Peer>, p: Peer)
    requires EligibleOf(all, t) == eligible - {p}
    ensures |EligibleOf(all, t)| == |eligible| - if p in eligible then 1 else 0
  {
  }

  // ----- how many connections the passes hand out

  /** One ready peer of h got a connection, if there is one. */
  function Fewer(counts: map<Hash, nat>, h: Hash): map<Hash, nat> {
    if h in counts && counts[h] > 0 then counts[h := counts[h] - 1] else counts
  }

  /** Within a pass: the transfers not in keys have been visited. */
  ghost predicate Visited(counts: map<Hash, nat>, current: map<Hash, nat>, keys: set<Hash>, made: int) {
    && current.Keys == counts.Keys && made == |Ready(counts, 0) - keys|
    && forall h :: h in counts ==> current[h] == if h in keys then counts[h] else Left(counts, 1)[h]
  }

  lemma NoneVisited(counts: map<Hash, nat>)
    ensures Visited(counts, counts, counts.Keys, 0)
  {
    assert Ready(counts, 0) - counts.Keys == {};
  }

  lemma OneVisited(counts: map<Hash, nat>, current: map<Hash, nat>, keys: set<Hash>, made: int, h: Hash)
    requires Visited(counts, current, keys, made) && h in keys && h in counts
    ensures current.Keys == counts.Keys && current[h] == counts[h]
    ensures Visited(counts, Fewer(current, h), keys - {h}, made + if counts[h] > 0 then 1 else 0)
  {
    var ready, more := Ready(counts, 0) - keys, Ready(counts, 0) - (keys - {h});
    if counts[h] > 0 {
      assert more == ready + {h} && h !in ready;
    } else {
      assert more == ready;
    }
  }

  lemma AllVisited(counts: map<Hash, nat>, current: map<Hash, nat>, made: int)
    requires Visited(counts, current, {}, made)
    ensures current == Left(counts, 1) && made == |Ready(counts, 0)|
  {
    assert Ready(counts, 0) - {} == Ready(counts, 0);
  }

  /** Ready peers have no connection. */
  ghost predicate Unconnected(ready: map<Hash, set<Peer>>, connected: set<Endpoint>) {
    forall h, p :: h in ready && p in ready[h] ==> p.endpoint !in connected
  }

  ghost predicate Disjoint<T>(ready: map<Hash, set<T>>) {
    forall g, h :: g in ready && h in ready && g != h ==> ready[g] !! ready[h]
  }

  /** No two ready peers have the same endpoint. */
  ghost predicate Distinct(ready: map<Hash, set<Peer>>) {
    forall g, h, p, q :: g in ready && h in ready && p in ready[g] && q in ready[h] && p != q
                         ==> p.endpoint != q.endpoint
  }

  ghost function Minus<T>(ready: map<Hash, set<T>>, e: T): map<Hash, set<T>> {
    map h | h in ready :: ready[h] - {e}
  }

  ghost function Sizes<T>(ready: map<Hash, set<T>>): map<Hash, nat> {
    map h | h in ready :: |ready[h]|
  }

  lemma UnconnectedNext(ready: map<Hash, set<Peer>>, connected: set<Endpoint>, h: Hash, p: Peer)
    requires Unconnected(ready, connected) && Disjoint(ready) && Distinct(ready) && h in ready && p in ready[h]
    ensures Unconnected(Minus(ready, p), connected + {p.endpoint})
  {
  }

  lemma MinusSize<T>(s: set<T>, e: T)
    ensures |s - {e}| == |s| - if e in s then 1 else 0
  {
    if e in s {
      assert s == (s - {e}) + {e};
    } else {
      assert s - {e} == s;
    }
  }

  lemma InOne<T>(ready: map<Hash, set<T>>, h: Hash, e: T, g: Hash)
    requires Disjoint(ready) && h in ready && e in ready[h] && g in ready
    ensures e in ready[g] <==> g == h
  {
  }

  lemma MinusSizeAt<T>(ready: map<Hash, set<T>>, h: Hash, e: T, g: Hash)
    requires Disjoint(ready) && h in ready && e in ready[h] && g in ready
    ensures |ready[g] - {e}| == |ready[g]| - if g == h then 1 else 0
  {
    InOne(ready, h, e, g);
    MinusSize(ready[g], e);
  }

  lemma SizesAt<T>(ready: map<Hash, set<T>>, e: T, g: Hash)
    ensures Sizes(ready).Keys == Sizes(Minus(ready, e)).Keys == ready.Keys
    ensures g in ready ==> Sizes(ready)[g] == |ready[g]| && Sizes(Minus(ready, e))[g] == |ready[g] - {e}|
  {
  }

  lemma MinusSizes<T>(ready: map<Hash, set<T>>, h: Hash, e: T)
    requires Disjoint(ready) && h in ready && e in ready[h]
    ensures Sizes(Minus(ready, e)) == Sizes(ready)[h := Sizes(ready)[h] - 1]
  {
    hide Disjoint, Sizes, Minus;
    SizesAt(ready, e, h);
    MinusSizeAt(ready, h, e, h);
    forall g | g in ready
      ensures Sizes(Minus(ready, e))[g] == Sizes(ready)[g] - if g == h then 1 else 0
    {
      SizesAt(ready, e, g);
      MinusSizeAt(ready, h, e, g);
    }
  }

  /** Transfer h chose a peer, who is ready nowhere any more, or had none ready. */
  ghost predicate Chose(before: map<Hash, set<Peer>>, after: map<Hash, set<Peer>>, h: Hash, known: bool,
          chosen: Peer?)
  {
    && h in before
    && (if chosen == null then before[h] == {} && after == before else after == Minus<Peer>(before, chosen))
    && (known && chosen != null ==> chosen in before[h])
  }

  lemma NoneChosen(ready: map<Hash, set<Peer>>, h: Hash, known: bool)
    requires h in ready
    ensures ready[h] == {} ==> Chose(ready, ready, h, known, null)
  {
  }

  lemma PeerChosen(ready: map<Hash, set<Peer>>, h: Hash, known: bool, p: Peer)
    requires h in ready && (known ==> p in ready[h])
    ensures Chose(ready, Minus<Peer>(ready, p), h, known, p)
  {
  }

  /** The transfers that are done have one ready peer fewer, if they had one. */
  ghost predicate Served<T>(before: map<Hash, set<T>>, after: map<Hash, set<T>>, done: set<Hash>) {
    && after.Keys == before.Keys
    && forall h :: h in before ==> after[h] <= before[h] && (h in done ==> before[h] == {} || after[h] < before[h])
  }

  lemma ServedNone<T>(ready: map<Hash, set<T>>)
    ensures Served(ready, ready, {})
  {
  }

  lemma ServedOne(before: map<Hash, set<Peer>>, mid: map<Hash, set<Peer>>, after: map<Hash, set<Peer>>, done: set<Hash>,
          h: Hash, known: bool, chosen: Peer?)
    requires Served(before, mid, done) && Chose(mid, after, h, known, chosen)
    ensures Served(before, after, if known then done + {h} else done)
  {
  }

  lemma DoneNext(known: set<Hash>, keys: set<Hash>, h: Hash)
    requires h in keys
    ensures known - (keys - {h}) == if h in known then (known - keys) + {h} else known - keys
  {
  }

  /** After n passes a transfer has no ready peer left, or n fewer than before. */
  ghost predicate ServedBy<T>(before: map<Hash, set<T>>, after: map<Hash, set<T>>, known: set<Hash>, n: nat) {
    && after.Keys == before.Keys
    && forall h :: h in before ==>
         after[h] <= before[h] && (h in known ==> after[h] == {} || |after[h]| + n <= |before[h]|)
  }

  lemma ServedByNext<T>(before: map<Hash, set<T>>, mid: map<Hash, set<T>>, after: map<Hash, set<T>>, known: set<Hash>,
          n: nat)
    requires ServedBy(before, mid, known, n) && Served(mid, after, known)
    ensures ServedBy(before, after, known, n + 1)
  {
    forall h | h in before && h in known && after[h] != {}
      ensures |after[h]| + n + 1 <= |before[h]|
    {
      assert mid[h] == after[h] + (mid[h] - after[h]);
    }
  }

  lemma ServedByNone<T>(ready: map<Hash, set<T>>, known: set<Hash>)
    ensures ServedBy(ready, ready, known, 0)
  {
  }

  /** Transfer h connected to the peer found, or had none ready. */
  ghost predicate Took(before: map<Hash, set<Peer>>, was: set<Endpoint>, after: map<Hash, set<Peer>>,
          now: set<Endpoint>, h: Hash, found: Peer?)
  {
    if h !in before then false
    else if found == null then before[h] == {} && after == before && now == was
    else found in before[h] && after == Minus<Peer>(before, found) && now == was + {found.endpoint}
  }

  lemma TookPeer(before: map<Hash, set<Peer>>, was: set<Endpoint>, h: Hash, found: Peer)
    requires h in before && found in before[h]
    ensures Took(before, was, Minus<Peer>(before, found), was + {found.endpoint}, h, found)
  {
  }

  lemma TookOne(before: map<Hash, set<Peer>>, was: set<Endpoint>, after: map<Hash, set<Peer>>, now: set<Endpoint>,
          h: Hash, found: Peer?)
    requires h in before && Took(before, was, after, now, h, found)
    requires Unconnected(before, was) && Disjoint(before) && Distinct(before)
    ensures Unconnected(after, now)
    ensures found != null <==> Sizes(before)[h] > 0
    ensures Sizes(after) == Fewer(Sizes(before), h)
  {
    hide Disjoint, Distinct, Unconnected, Minus;
    if found != null {
      UnconnectedNext(before, was, h, found);
      MinusSizes<Peer>(before, h, found);
    }
  }

  /** The transfers with more than k ready peers. */
  ghost function Ready(counts: map<Hash, nat>, k: nat): set<Hash> {
    set h | h in counts && counts[h] > k
  }

  /** What k passes hand out: one connection a pass for every transfer that still has a ready peer. */
  ghost function HandedOut(counts: map<Hash, nat>, k: nat): nat {
    if k == 0 then 0 else HandedOut(counts, k - 1) + |Ready(counts, k - 1)|
  }

  function Left(counts: map<Hash, nat>, k: nat): map<Hash, nat> {
    map h | h in counts :: if counts[h] > k then counts[h] - k else 0
  }

  lemma ReadyShrinks(counts: map<Hash, nat>, k: nat, j: nat)
    requires k <= j
    ensures Ready(counts, j) <= Ready(counts, k) && |Ready(counts, j)| <= |Ready(counts, k)|
    ensures Ready(Left(counts, k), 0) == Ready(counts, k)
  {
    assert Ready(counts, k) == Ready(counts, j) + (Ready(counts, k) - Ready(counts, j));
  }

  lemma LeftNext(counts: map<Hash, nat>, k: nat)
    ensures Left(Left(counts, k), 1) == Left(counts, k + 1) && Left(counts, 0) == counts
  {
  }

  /** Once a pass hands out nothing, no later one does. */
  lemma {:induction false} NothingAfter(counts: map<Hash, nat>, k: nat, j: nat)
    requires Ready(counts, k) == {} && k <= j
    ensures HandedOut(counts, j) == HandedOut(counts, k)
  {
    if k < j {
      NothingAfter(counts, k, j - 1);
      ReadyShrinks(counts, k, j - 1);
    }
  }

  lemma {:induction false} HandedOutGrows(counts: map<Hash, nat>, k: nat, j: nat)
    requires k <= j
    ensures HandedOut(counts, k) <= HandedOut(counts, j)
  {
    if k < j {
      HandedOutGrows(counts, k, j - 1);
    }
  }

  /** Some pass ends with exactly the limit handed out. */
  ghost predicate Hits(counts: map<Hash, nat>, limit: int) {
    exists k: nat :: k >= 1 && HandedOut(counts, k) == limit
  }

  /** What the loop hands out in all: the limit if some pass ends on it, else a connection to every ready peer. */
  ghost predicate Result(counts: map<Hash, nat>, limit: int, made: int) {
    if Hits(counts, limit) then made == limit
    else (forall k: nat :: HandedOut(counts, k) <= made) && exists k: nat :: HandedOut(counts, k) == made
  }

  /** The limit is passed exactly when no pass ends on it and the passes can hand out more. */
  lemma LimitPassedIff(counts: map<Hash, nat>, limit: int, made: int)
    requires Result(counts, limit, made)
    ensures made > limit <==> !Hits(counts, limit) && exists k: nat :: HandedOut(counts, k) > limit
    ensures made > limit ==> exists k: nat :: HandedOut(counts, k) == made && Ready(counts, k) == {}
  {
    hide Hits;
    if made > limit {
      var k: nat :| HandedOut(counts, k) == made;
      assert HandedOut(counts, k) > limit;
      assert HandedOut(counts, k + 1) == made + |Ready(counts, k)|;
    } else if k: nat :| HandedOut(counts, k) > limit {
      assert HandedOut(counts, k) <= made || Hits(counts, limit);
    }
  }

  /** A single transfer hands out one connection a pass and keeps a positive limit. */
  lemma {:induction false} SingleHandsOut(counts: map<Hash, nat>, h: Hash, k: nat)
    requires counts.Keys == {h}
    ensures HandedOut(counts, k) == if k <= counts[h] then k else counts[h]
  {
    if k != 0 {
      SingleHandsOut(counts, h, k - 1);
      assert Ready(counts, k - 1) == if counts[h] > k - 1 then {h} else {};
    }
  }

  lemma SingleKeepsLimit(counts: map<Hash, nat>, h: Hash, limit: int, made: int)
    requires counts.Keys == {h} && limit > 0 && Result(counts, limit, made)
    ensures made == if counts[h] < limit then counts[h] else limit
  {
    SingleHandsOut(counts, h, counts[h]);
    if counts[h] >= limit {
      SingleHandsOut(counts, h, limit);
      assert Hits(counts, limit);
    } else {
      forall k: nat
        ensures HandedOut(counts, k) <= counts[h]
      {
        SingleHandsOut(counts, h, k);
      }
    }
  }

  /** Two transfers with as many ready peers hand out two connections a pass: every odd limit they could
      reach is passed, and all their peers are connected. */
  lemma {:induction false} PairHandsOut(counts: map<Hash, nat>, g: Hash, h: Hash, n: nat, k: nat)
    requires counts == map[g := n, h := n] && g != h
    ensures HandedOut(counts, k) == 2 * if k <= n then k else n
  {
    if k != 0 {
      PairHandsOut(counts, g, h, n, k - 1);
      assert Ready(counts, k - 1) == if n > k - 1 then {g, h} else {};
    }
  }

  lemma PairPassesOddLimit(counts: map<Hash, nat>, g: Hash, h: Hash, n: nat, limit: nat, made: int)
    requires counts == map[g := n, h := n] && g != h && Result(counts, limit, made)
    requires limit % 2 == 1 && limit < 2 * n
    ensures made == 2 * n > limit
  {
    forall k: nat
      ensures HandedOut(counts, k) == 2 * if k <= n then k else n
    {
      PairHandsOut(counts, g, h, n, k);
    }
    assert HandedOut(counts, n) == 2 * n;
  }

  // ----- pass by pass, whatever the transfers share

  ghost function Total(passes: seq<nat>): nat {
    if passes == [] then 0 else Total(passes[..|passes| - 1]) + passes[|passes| - 1]
  }

  /** The last n passes made no connection after the one that begins them, which did, if it
      is not the first pass of all. */
  ghost predicate Streak(passes: seq<nat>, n: nat) {
    && n <= |passes| && (n == 0 ==> passes == [])
    && (forall i :: |passes| - n < i < |passes| ==> passes[i] == 0)
    && (n == |passes| || passes[|passes| - n] > 0)
  }

  /** The loop ends with this pass: the limit is met, or each transfer had two passes in vain. */
  ghost predicate Ends(passes: seq<nat>, limit: int, transfers: nat) {
    passes != [] && (Total(passes) == limit || Streak(passes, 2 * transfers + 1))
  }

  /** The passes of a loop that goes on. */
  ghost predicate GoesOn(passes: seq<nat>, limit: int, transfers: nat) {
    && (forall i :: 0 <= i < |passes| ==> passes[i] <= transfers)
    && forall j: nat :: 1 <= j <= |passes| ==> !Ends(passes[..j], limit, transfers)
  }

  /** How the loop ends: with the first pass that ends it. */
  ghost predicate Ended(passes: seq<nat>, limit: int, transfers: nat) {
    Ends(passes, limit, transfers) && passes[|passes| - 1] <= transfers
    && GoesOn(passes[..|passes| - 1], limit, transfers)
  }

  /** The pass that starts with some, but fewer than the number of transfers, left to hand out,
      and hands out more than that. */
  ghost predicate Overshoots(passes: seq<nat>, j: nat, limit: int, transfers: nat)
    requires j < |passes|
  {
    && Total(passes[..j]) <= limit < Total(passes[..j + 1])
    && limit - Total(passes[..j]) < transfers && (0 < j ==> Total(passes[..j]) < limit)
  }

  lemma {:induction false} TotalGrows(passes: seq<nat>, j: nat)
    requires j <= |passes|
    ensures Total(passes[..j]) <= Total(passes)
  {
    if j == |passes| {
      assert passes[..j] == passes;
    } else {
      TotalGrows(passes[..|passes| - 1], j);
      assert passes[..|passes| - 1][..j] == passes[..j];
    }
  }

  lemma {:induction false} FirstOver(passes: seq<nat>, limit: int) returns (j: nat)
    requires 0 <= limit < Total(passes)
    ensures j < |passes| && Total(passes[..j]) <= limit < Total(passes[..j + 1])
  {
    var front := passes[..|passes| - 1];
    if Total(front) > limit {
      j := FirstOver(front, limit);
      assert front[..j] == passes[..j] && front[..j + 1] == passes[..j + 1];
    } else {
      j := |passes| - 1;
      assert passes[..j + 1] == passes;
    }
  }

  /** Whatever the transfers share, the limit is passed exactly when one pass overshoots it. */
  lemma OneOvershoots(passes: seq<nat>, limit: nat, transfers: nat)
    requires Ended(passes, limit, transfers)
    ensures Total(passes) > limit <==> exists j: nat :: j < |passes| && Overshoots(passes, j, limit, transfers)
  {
    if Total(passes) > limit {
      var j := FirstOver(passes, limit);
      FirstOvershoots(passes, j, limit, transfers);
    }
    hide Ended, Total;
    forall j: nat | j < |passes| && Overshoots(passes, j, limit, transfers)
      ensures Total(passes) > limit
    {
      TotalGrows(passes, j + 1);
    }
  }

  lemma FirstOvershoots(passes: seq<nat>, j: nat, limit: nat, transfers: nat)
    requires Ended(passes, limit, transfers) && j < |passes| && Total(passes[..j]) <= limit < Total(passes[..j + 1])
    ensures Overshoots(passes, j, limit, transfers)
  {
    var front := passes[..|passes| - 1];
    assert passes[..j + 1][..j] == passes[..j] && passes[..j + 1][j] == passes[j] <= transfers;
    if 0 < j {
      assert front[..j] == passes[..j];
      assert !Ends(front[..j], limit, transfers);
    }
  }

  /** A loop ends only once: two streaks of one sequence are the same. */
  lemma OneStreak(passes: seq<nat>, m: nat, n: nat)
    requires Streak(passes, m) && Streak(passes, n) && 0 < m <= n
    ensures m == n
  {
    var i := |passes| - m;
    assert passes[i] == 0 ==> m == |passes|;
  }

  lemma StreakNext(passes: seq<nat>, made: nat, steps: nat)
    requires Streak(passes, steps)
    ensures Streak(passes + [made], if made > 0 then 1 else steps + 1)
  {
  }

  /** steps counts the passes since the last connection, that pass included. */
  lemma OneMorePass(passes: seq<nat>, made: nat, steps: nat, limit: int, transfers: nat)
    requires GoesOn(passes, limit, transfers) && made <= transfers && Streak(passes, steps) && steps <= 2 * transfers
    ensures var all, next := passes + [made], if made > 0 then 1 else steps + 1;
            && Total(all) == Total(passes) + made && Streak(all, next)
            && (if Total(all) == limit || next > 2 * transfers then Ended(all, limit, transfers)
                else GoesOn(all, limit, transfers))
  {
    var all, next := passes + [made], if made > 0 then 1 else steps + 1;
    assert all[..|passes|] == passes && all[..|all|] == all;
    StreakNext(passes, made, steps);
    if Streak(all, 2 * transfers + 1) {
      OneStreak(all, next, 2 * transfers + 1);
    }
    hide Streak;
    forall j: nat | 1 <= j <= |passes|
      ensures !Ends(all[..j], limit, transfers)
    {
      assert all[..j] == passes[..j];
    }
  }

  /** When the loop ends without the limit, a transfer that does not know the empty endpoint has no
      ready peer left if it had no more than one for each pass in vain; it lost one in every pass. */
  lemma AllAreServed<T>(before: map<Hash, set<T>>, after: map<Hash, set<T>>, known: set<Hash>, passes: seq<nat>,
          limit: int, transfers: nat, h: Hash)
    requires Ended(passes, limit, transfers) && Total(passes) != limit
    requires ServedBy(before, after, known, |passes|) && h in known && h in before
    ensures |before[h]| <= 2 * transfers + 1 ==> after[h] == {}
    ensures after[h] == {} || |after[h]| + |passes| <= |before[h]|
  {
  }

  /** The connections and dates at an earlier moment. */
  datatype Snapshot = Snapshot(connections: map<Endpoint, PeerConnection>,
                               ofPeer: map<Peer, PeerConnection?>, next: map<Peer, int>, ready: set<Peer>)
  {
    ghost predicate Over(all: set<Peer>) {
      ofPeer.Keys == next.Keys == all
    }
  }

  class Session {
    const transfers: map<Hash, Transfer>
    ghost const policies: set<Policy>
    var peerConnections: map<Endpoint, PeerConnection>
    const MaxConnections: int
    const MaxConnectsPerSecond: int

    constructor (ts: map<Hash, Transfer>, maxConnections: int, maxConnectsPerSecond: int)
      ensures transfers == ts && MaxConnections == maxConnections && MaxConnectsPerSecond == maxConnectsPerSecond
      ensures peerConnections == map[] && policies == set h | h in ts :: ts[h].policy
    {
      policies := set h | h in ts :: ts[h].policy;
      transfers, MaxConnections, MaxConnectsPerSecond, peerConnections := ts, maxConnections, maxConnectsPerSecond,
          map[];
    }

    /** all are the peers of all transfers, each listed under its own endpoint. */
    ghost predicate Knows(all: set<Peer>)
      reads policies
    {
      && (forall h :: h in transfers ==> transfers[h].policy in policies)
      && (forall p :: p in policies ==> p.Valid() && p.peers.Values <= all)
    }

    /** The peers this transfer could connect to now. */
    ghost function ReadyIn(h: Hash, all: set<Peer>, now: int): set<Peer>
      requires Knows(all) && h in transfers
      reads this, policies, transfers[h], all
    {
      if !transfers[h].Wants() then {}
      else set p | p in transfers[h].policy.peers.Values && Eligible(p, now)
    }

    ghost function ReadySets(all: set<Peer>, now: int): map<Hash, set<Peer>>
      requires Knows(all)
      reads this, policies, transfers.Values, all
    {
      map h | h in transfers :: ReadyIn(h, all, now)
    }

    /** No endpoint is known to two transfers, and none has the empty endpoint. */
    ghost predicate Separate()
      requires forall h :: h in transfers ==> transfers[h].policy in policies
      reads policies
    {
      && (forall g, h :: g in transfers && h in transfers && g != h
                         ==> transfers[g].policy.peers.Keys !! transfers[h].policy.peers.Keys)
      && forall h :: h in transfers ==> EMPTY_ENDPOINT !in transfers[h].policy.peers
    }

    /** And no peer that is ready has a connection. */
    ghost predicate Apart(all: set<Peer>, now: int)
      requires Knows(all)
      reads this, policies, transfers.Values, all
    {
      Separate() && Unconnected(ReadySets(all, now), peerConnections.Keys)
    }

    /** The transfers that do not know the empty endpoint. */
    ghost function Known(): set<Hash>
      reads policies
    {
      set h | h in transfers && transfers[h].policy in policies && EMPTY_ENDPOINT !in transfers[h].policy.peers
    }

    ghost function Counts(all: set<Peer>, now: int): map<Hash, nat>
      requires Knows(all)
      reads this, policies, transfers.Values, all
    {
      Sizes(ReadySets(all, now))
    }

    lemma ReadyDisjoint(all: set<Peer>, now: int)
      requires Knows(all) && Apart(all, now)
      ensures Separate() && ReadySets(all, now).Keys == transfers.Keys
      ensures Disjoint(ReadySets(all, now)) && Distinct(ReadySets(all, now))
      ensures Unconnected(ReadySets(all, now), peerConnections.Keys)
    {
      hide Eligible;
    }

    lemma CountsKeys(all: set<Peer>, now: int)
      requires Knows(all)
      ensures Counts(all, now).Keys == transfers.Keys
    {
    }

    lemma SizesOfNone(all: set<Peer>, now: int)
      requires Knows(all)
      ensures Counts(all, now).Keys == transfers.Keys
      ensures forall h :: h in transfers ==> (Counts(all, now)[h] == 0 <==> ReadySets(all, now)[h] == {})
    {
      hide Eligible, ReadyIn;
    }

    /** Eligible peers, and the one endpoint that is found even when it is not eligible. */
    ghost function Measure(all: set<Peer>, now: int): nat
      reads this, all
    {
      |EligibleOf(all, now)| + if EMPTY_ENDPOINT in peerConnections then 0 else 1
    }

    ghost predicate IsSnapshot(all: set<Peer>, now: int, was: Snapshot)
      reads this, all
    {
      && was.connections == peerConnections && was.Over(all) && was.ready == EligibleOf(all, now)
      && forall p :: p in all ==> was.ofPeer[p] == p.peerConnection && was.next[p] == p.NextConnection
    }

    /** What the loop did since: old connections stay, a new connection belongs to one
        peer and is the only one for its endpoint, and other peers were at most put off.
        A peer that was eligible still is, or has a connection, or was put off. */
    ghost predicate Connected(all: set<Peer>, now: int, was: Snapshot)
      requires was.Over(all)
      reads this, all
    {
      && (forall e :: e in was.connections ==> e in peerConnections && peerConnections[e] == was.connections[e])
      && (forall e :: e in peerConnections && e !in was.connections ==> IsNew(all, now, e))
      && (forall p :: p in all ==> OnlyConnected(p, now, was.connections, was.ofPeer[p], was.next[p]))
      && (forall p :: p in all && p in was.ready ==> Settled(p, now))
    }

    ghost predicate Settled(p: Peer, now: int)
      reads p
    {
      Eligible(p, now) || p.peerConnection != null || p.NextConnection == now + 15_000_000_000
    }

    ghost predicate IsNew(all: set<Peer>, now: int, e: Endpoint)
      requires e in peerConnections
      reads this, all
    {
      var c := peerConnections[e];
      c.peer in all && c.peer.endpoint == e == c.endpoint && c.peer.peerConnection == c && c.peer.LastConnected == now
    }

    ghost predicate OnlyConnected(p: Peer, now: int, connections: map<Endpoint, PeerConnection>, c: PeerConnection?,
            next: int)
      reads this, p
    {
      && (p.peerConnection != c ==>
            p.endpoint !in connections && p.endpoint in peerConnections
            && peerConnections[p.endpoint] == p.peerConnection && peerConnections[p.endpoint].peer == p)
      && (p.NextConnection != next ==> p.endpoint in peerConnections && p.NextConnection == now + 15 * SECOND)
    }

    /** No two peers got a connection for the same endpoint. */
    lemma SoleConnection(all: set<Peer>, now: int, was: Snapshot, p: Peer, q: Peer)
      requires was.Over(all) && Connected(all, now, was) && p in all && q in all
      requires p.peerConnection != was.ofPeer[p] && q.peerConnection != was.ofPeer[q] && p.endpoint == q.endpoint
      ensures p == q
    {
      assert OnlyConnected(p, now, was.connections, was.ofPeer[p], was.next[p]);
      assert OnlyConnected(q, now, was.connections, was.ofPeer[q], was.next[q]);
    }

    /** A connection ended, with an error or not: the session forgets it, and its peer waits 10 seconds
        for each failure so far; after the sixth it is not tried again. */
    method Unregister(connection: PeerConnection, failed: bool, now: int)
      requires now > 0
      modifies this`peerConnections, connection.peer`LastConnected, connection.peer`peerConnection,
               connection.peer`FailCount
      ensures peerConnections == old(peerConnections) - {connection.endpoint}
      ensures var p := connection.peer;
              && p.FailCount == old(p.FailCount) + (if failed then 1 else 0)
              && p.peerConnection == null && p.LastConnected == now
              && forall t :: Eligible(p, t) <==> p.FailCount <= 5 && t >= now + 10_000_000_000 * p.FailCount
                                                 && (p.NextConnection == 0 || t >= p.NextConnection)
    {
      peerConnections := peerConnections - {connection.endpoint};
      connection.peer.peerConnection := null;
      connection.peer.LastConnected := now;
      if failed {
        connection.peer.FailCount := connection.peer.FailCount + 1;
      }
    }

    /** One transfer of one pass. */
    method Visit(h: Hash, now: int, ghost all: set<Peer>, ghost was: Snapshot)
      returns (connected: bool, ghost found: Peer?, ghost chosen: Peer?)
      requires was.Over(all) && Knows(all) && h in transfers && now > 0 && Connected(all, now, was)
      modifies this`peerConnections, all
      ensures Known() == old(Known())
      ensures Chose(old(ReadySets(all, now)), ReadySets(all, now), h, h in Known(), chosen)
      ensures connected ==> chosen != null && chosen == found && chosen.peerConnection != null
                            && chosen.endpoint !in old(peerConnections)
      ensures chosen != null && !connected ==> chosen.NextConnection == now + 15_000_000_000
                                               && chosen.endpoint in old(peerConnections)
      ensures h in Known() && h in old(ReadySets(all, now)) && old(ReadySets(all, now))[h] != {}
              ==> Measure(all, now) < old(Measure(all, now))
      ensures Knows(all) && Connected(all, now, was) && (connected <==> found != null)
      ensures Measure(all, now) <= old(Measure(all, now)) - (if connected then 1 else 0)
      ensures |peerConnections| == |old(peerConnections)| + if connected then 1 else 0
      ensures old(Apart(all, now)) ==>
                Took(old(ReadySets(all, now)), old(peerConnections.Keys), ReadySets(all, now), peerConnections.Keys, h,
                     found)
    {
      ghost var ready, keys, apart, known := ReadySets(all, now), peerConnections.Keys, Apart(all, now), Known();
      HasReady(h, all, now);
      hide Connected, Measure, Eligible, Knows, ReadySets, Apart, Minus, Took, Known, Chose;
      var candidate := Candidate(h, now, all);
      connected, found, chosen := false, null, candidate;
      if candidate == null {
        NoneChosen(ready, h, h in known);
      } else {
        PeerChosen(ready, h, h in known, candidate);
        if candidate.endpoint !in peerConnections {
          ConnectReady(candidate, now, all, was);
          connected, found := true, candidate;
          if apart {
            TookPeer(ready, keys, h, candidate);
          }
        } else {
          PutOffReady(candidate, now, all, was);
        }
      }
    }

    lemma HasReady(h: Hash, all: set<Peer>, now: int)
      requires Knows(all) && h in transfers
      ensures h in ReadySets(all, now)
    {
    }

    /** And what that does to the numbers of ready peers. */
    method VisitCounted(h: Hash, now: int, ghost all: set<Peer>, ghost was: Snapshot)
      returns (connected: bool, ghost chosen: Peer?)
      requires was.Over(all) && Knows(all) && h in transfers && now > 0 && Connected(all, now, was)
      modifies this`peerConnections, all
      ensures Knows(all) && Connected(all, now, was)
      ensures Known() == old(Known()) && Chose(old(ReadySets(all, now)), ReadySets(all, now), h, h in Known(), chosen)
      ensures Measure(all, now) <= old(Measure(all, now)) - (if connected then 1 else 0)
      ensures |peerConnections| == |old(peerConnections)| + if connected then 1 else 0
      ensures old(Apart(all, now)) ==>
                && Apart(all, now) && (connected <==> old(Counts(all, now))[h] > 0)
                && Counts(all, now) == Fewer(old(Counts(all, now)), h)
    {
      hide Connected, Measure, Knows, ReadyIn, Separate, Sizes, Disjoint, Distinct, Unconnected, Took, Fewer, Known,
           Chose;
      ghost var apart, ready, keys := Apart(all, now), ReadySets(all, now), peerConnections.Keys;
      if apart {
        ReadyDisjoint(all, now);
      }
      SizesOfNone(all, now);
      var visited, found, c := Visit(h, now, all, was);
      connected, chosen := visited, c;
      if apart {
        TookOne(ready, keys, ReadySets(all, now), peerConnections.Keys, h, found);
      }
    }

    /** Nobody, when the transfer does not want peers. */
    method Candidate(h: Hash, now: int, ghost all: set<Peer>) returns (candidate: Peer?)
      requires Knows(all) && h in transfers
      ensures Known() == old(Known()) && ReadySets(all, now) == old(ReadySets(all, now))
      ensures Apart(all, now) == old(Apart(all, now))
      ensures candidate != null ==>
                candidate in all && (candidate.endpoint == EMPTY_ENDPOINT || Eligible(candidate, now))
      ensures candidate == null ==> ReadySets(all, now)[h] == {}
      ensures candidate != null && h in Known() ==> candidate in ReadySets(all, now)[h] && Eligible(candidate, now)
      ensures Apart(all, now) ==>
                && (candidate != null <==> ReadySets(all, now)[h] != {})
                && (candidate != null ==> candidate in ReadySets(all, now)[h]
                                          && candidate.endpoint !in peerConnections)
    {
      hide Eligible, Policy.ConnectField, Field.Pick, Policy.CanOverlookEmpty, LeftBetterRightToConnect;
      var transfer := transfers[h];
      CandidatesAreKnown(transfer, all);
      EligibleIsCandidate(transfer, now);
      candidate := null;
      var wants := transfer.WantMorePeers();
      if wants {
        var found, _ := transfer.policy.FindConnectCandidate(now);
        candidate := found;
      }
      if candidate == null {
        assert forall p :: p !in ReadyIn(h, all, now);
        assert ReadyIn(h, all, now) == {};
      } else if EMPTY_ENDPOINT !in transfer.policy.peers {
        assert candidate in ReadyIn(h, all, now);
      }
    }

    lemma EligibleIsCandidate(transfer: Transfer, now: int)
      ensures forall e :: e in transfer.policy.peers && Eligible(transfer.policy.peers[e], now)
                          ==> IsConnectCandidate(transfer.policy.peers[e])
    {
    }

    lemma CandidatesAreKnown(transfer: Transfer, all: set<Peer>)
      requires Knows(all) && transfer in transfers.Values
      ensures transfer.policy.Valid() && transfer.policy.peers.Values <= all
    {
    }

    method Connect(candidate: Peer, now: int, ghost all: set<Peer>, ghost was: Snapshot)
      requires Knows(all)
      requires was.Over(all) && candidate in all && now > 0 && Connected(all, now, was)
      requires candidate.endpoint !in peerConnections
      requires candidate.endpoint == EMPTY_ENDPOINT || Eligible(candidate, now)
      modifies this`peerConnections, candidate`LastConnected, candidate`peerConnection
      ensures Knows(all)
      ensures Connected(all, now, was) && |peerConnections| == |old(peerConnections)| + 1
      ensures Measure(all, now) < old(Measure(all, now))
      ensures candidate.peerConnection != null
      ensures peerConnections == old(peerConnections)[candidate.endpoint := candidate.peerConnection]
      ensures EligibleOf(all, now) == old(EligibleOf(all, now)) - {candidate}
    {
      hide Measure, EligibleOf, Knows, Eligible;
      Attach(candidate, now, all);
      forall e | e in peerConnections && e !in was.connections
        ensures IsNew(all, now, e)
      {
        assert e != candidate.endpoint ==> old(IsNew(all, now, e));
      }
      forall p | p in all
        ensures OnlyConnected(p, now, was.connections, was.ofPeer[p], was.next[p])
      {
        assert old(OnlyConnected(p, now, was.connections, was.ofPeer[p], was.next[p]));
      }
      forall p | p in all && p in was.ready
        ensures Settled(p, now)
      {
        assert old(Settled(p, now));
      }
      hide OnlyConnected, IsNew, Settled;
    }

    /** And the peer is no longer ready. */
    method ConnectReady(candidate: Peer, now: int, ghost all: set<Peer>, ghost was: Snapshot)
      requires Knows(all)
      requires was.Over(all) && candidate in all && now > 0 && Connected(all, now, was)
      requires candidate.endpoint !in peerConnections
      requires candidate.endpoint == EMPTY_ENDPOINT || Eligible(candidate, now)
      modifies this`peerConnections, candidate`LastConnected, candidate`peerConnection
      ensures Knows(all)
      ensures Connected(all, now, was) && |peerConnections| == |old(peerConnections)| + 1
      ensures Measure(all, now) < old(Measure(all, now))
      ensures candidate.peerConnection != null && Known() == old(Known())
      ensures peerConnections.Keys == old(peerConnections).Keys + {candidate.endpoint}
      ensures ReadySets(all, now) == Minus(old(ReadySets(all, now)), candidate)
    {
      hide Measure, Eligible, Connected, Known;
      Connect(candidate, now, all, was);
      forall p | p in all
        ensures Eligible(p, now) <==> old(Eligible(p, now)) && p != candidate
      {
        assert p in EligibleOf(all, now) <==> p in old(EligibleOf(all, now)) && p != candidate;
      }
      forall h | h in transfers
        ensures ReadyIn(h, all, now) == old(ReadyIn(h, all, now)) - {candidate}
      {
      }
    }

    method Attach(candidate: Peer, now: int, ghost all: set<Peer>)
      requires Knows(all)
      requires candidate in all && now > 0 && candidate.endpoint !in peerConnections
      requires candidate.endpoint == EMPTY_ENDPOINT || Eligible(candidate, now)
      modifies this`peerConnections, candidate`LastConnected, candidate`peerConnection
      ensures Knows(all)
      ensures candidate.LastConnected == now
      ensures candidate.peerConnection != null && fresh(candidate.peerConnection)
      ensures candidate.peerConnection.endpoint == candidate.endpoint && candidate.peerConnection.peer == candidate
      ensures peerConnections == old(peerConnections)[candidate.endpoint := candidate.peerConnection]
      ensures Measure(all, now) < old(Measure(all, now))
      ensures EligibleOf(all, now) == old(EligibleOf(all, now)) - {candidate}
    {
      ghost var eligible := EligibleOf(all, now);
      candidate.LastConnected := now;
      var peerConnection := new PeerConnection(candidate.endpoint, candidate);
      peerConnections := peerConnections[candidate.endpoint := peerConnection];
      candidate.peerConnection := peerConnection;
      assert EligibleOf(all, now) == eligible - {candidate};
      EligibleFewer(all, now, eligible, candidate);
    }

    /** Moves the next connection to the future, so that the peer is not found again. */
    method PutOff(candidate: Peer, now: int, ghost all: set<Peer>, ghost was: Snapshot)
      requires Knows(all)
      requires was.Over(all) && candidate in all && now > 0 && Connected(all, now, was)
               && candidate.endpoint in peerConnections
      modifies candidate`NextConnection
      ensures Knows(all)
      ensures Connected(all, now, was) && Measure(all, now) <= old(Measure(all, now))
      ensures old(Eligible(candidate, now)) ==> Measure(all, now) < old(Measure(all, now))
      ensures candidate.NextConnection == now + 15_000_000_000
      ensures EligibleOf(all, now) == old(EligibleOf(all, now)) - {candidate}
    {
      hide Measure, EligibleOf, Eligible, Knows;
      Delay(candidate, now, all);
      forall e | e in peerConnections && e !in was.connections
        ensures IsNew(all, now, e)
      {
        assert old(IsNew(all, now, e));
      }
      forall p | p in all
        ensures OnlyConnected(p, now, was.connections, was.ofPeer[p], was.next[p])
      {
        assert old(OnlyConnected(p, now, was.connections, was.ofPeer[p], was.next[p]));
      }
      forall p | p in all && p in was.ready
        ensures Settled(p, now)
      {
        assert old(Settled(p, now));
      }
      hide OnlyConnected, IsNew, Settled;
    }

    /** And the peer is no longer ready. */
    method PutOffReady(candidate: Peer, now: int, ghost all: set<Peer>, ghost was: Snapshot)
      requires Knows(all)
      requires was.Over(all) && candidate in all && now > 0 && Connected(all, now, was)
               && candidate.endpoint in peerConnections
      modifies candidate`NextConnection
      ensures Knows(all)
      ensures Connected(all, now, was) && Measure(all, now) <= old(Measure(all, now))
      ensures old(Eligible(candidate, now)) ==> Measure(all, now) < old(Measure(all, now))
      ensures candidate.NextConnection == now + 15_000_000_000 && Known() == old(Known())
      ensures ReadySets(all, now) == Minus(old(ReadySets(all, now)), candidate)
    {
      hide Measure, Eligible, Connected, Known;
      PutOff(candidate, now, all, was);
      forall p | p in all
        ensures Eligible(p, now) <==> old(Eligible(p, now)) && p != candidate
      {
        assert p in EligibleOf(all, now) <==> p in old(EligibleOf(all, now)) && p != candidate;
      }
      forall h | h in transfers
        ensures ReadyIn(h, all, now) == old(ReadyIn(h, all, now)) - {candidate}
      {
      }
    }

    method Delay(candidate: Peer, now: int, ghost all: set<Peer>)
      requires Knows(all)
      requires candidate in all && now > 0
      modifies candidate`NextConnection
      ensures Knows(all)
      ensures candidate.NextConnection == now + 15 * SECOND && Measure(all, now) <= old(Measure(all, now))
      ensures EligibleOf(all, now) == old(EligibleOf(all, now)) - {candidate}
      ensures old(Eligible(candidate, now)) ==> Measure(all, now) < old(Measure(all, now))
    {
      ghost var eligible := EligibleOf(all, now);
      candidate.NextConnection := now + 15 * SECOND;
      assert EligibleOf(all, now) == eligible - {candidate};
      EligibleFewer(all, now, eligible, candidate);
    }

    lemma NothingYet(now: int, all: set<Peer>, was: Snapshot)
      requires IsSnapshot(all, now, was)
      ensures was.Over(all) && Connected(all, now, was) && was.connections == peerConnections
    {
    }

    /** The passes so far, when the transfers are apart: none ended on the limit, and the
        steps count the last ones that handed out nothing. */
    ghost predicate Passed(counts: map<Hash, nat>, k: nat, steps: int, made: int) {
      && made == HandedOut(counts, k)
      && (forall j :: 1 <= j <= k ==> HandedOut(counts, j) != MaxConnectsPerSecond)
      && steps <= k && (steps >= 2 ==> Ready(counts, k - 1) == {})
    }

    ghost predicate Tallied(all: set<Peer>, now: int, counts: map<Hash, nat>, k: nat, steps: int, made: int)
      requires Knows(all)
      reads this, policies, transfers.Values, all
    {
      Apart(all, now) && Counts(all, now) == Left(counts, k) && Passed(counts, k, steps, made)
    }

    lemma StoppedIdle(counts: map<Hash, nat>, k: nat, steps: int, made: int)
      requires Passed(counts, k, steps, made) && steps >= 2
      ensures Result(counts, MaxConnectsPerSecond, made)
    {
      forall j: nat
        ensures HandedOut(counts, j) <= made && (j >= 1 ==> HandedOut(counts, j) != MaxConnectsPerSecond)
      {
        if j <= k {
          HandedOutGrows(counts, j, k);
        } else {
          NothingAfter(counts, k - 1, j);
          NothingAfter(counts, k - 1, k);
        }
      }
    }

    /** The loop of the tick. It ends, because every pass either lowers the measure
        or counts towards the two whole loops without a new connection. It makes no more
        connections than peers are eligible, or one more for the empty endpoint; the passes
        tell how many, and when the transfers are apart, their numbers of ready peers do. */
    method EnumerateCandidates(now: int, ghost all: set<Peer>, ghost was: Snapshot) returns (ghost passes: seq<nat>)
      requires Knows(all) && now > 0 && IsSnapshot(all, now, was)
      modifies this`peerConnections, all
      ensures was.Over(all) && Knows(all) && Connected(all, now, was)
      ensures |transfers| == 0 || |was.connections| >= MaxConnections ==> peerConnections == was.connections
      ensures |peerConnections| <= |was.connections| + old(Measure(all, now))
      ensures |peerConnections| == |was.connections| + Total(passes)
      ensures if |transfers| > 0 && |was.connections| < MaxConnections
              then Ended(passes, MaxConnectsPerSecond, |transfers|) else passes == []
      ensures Known() == old(Known())
              && ServedBy(old(ReadySets(all, now)), ReadySets(all, now), Known(), |passes|)
      ensures |transfers| == 1 && MaxConnectsPerSecond > 0
              ==> |peerConnections| <= |was.connections| + MaxConnectsPerSecond
      ensures old(Apart(all, now)) && |transfers| > 0 && |was.connections| < MaxConnections
              ==> Result(old(Counts(all, now)), MaxConnectsPerSecond, |peerConnections| - |was.connections|)
    {
      hide Measure, Knows, Connected, EligibleOf, IsSnapshot, Apart, Counts, Result, Tallied, Ended, Known, ReadySets,
           ServedBy;
      ServedByNone(ReadySets(all, now), Known());
      NothingYet(now, all, was);
      StartTally(all, now);
      passes := [];
      if |transfers| > 0 && |peerConnections| < MaxConnections {
        passes := HandOut(now, all, was, Counts(all, now), Apart(all, now));
      }
    }

    /** tallied says that the transfers are apart, with these numbers of ready peers. */
    method HandOut(now: int, ghost all: set<Peer>, ghost was: Snapshot, ghost counts: map<Hash, nat>,
            ghost tallied: bool) returns (ghost passes: seq<nat>)
      requires was.Over(all) && Knows(all) && now > 0 && Connected(all, now, was) && |transfers| > 0
      requires tallied ==> Tallied(all, now, counts, 0, 0, 0)
      modifies this`peerConnections, all
      ensures Knows(all) && Connected(all, now, was)
      ensures |peerConnections| <= |old(peerConnections)| + old(Measure(all, now))
      ensures |peerConnections| == |old(peerConnections)| + Total(passes)
      ensures Ended(passes, MaxConnectsPerSecond, |transfers|)
      ensures Known() == old(Known())
              && ServedBy(old(ReadySets(all, now)), ReadySets(all, now), Known(), |passes|)
      ensures |transfers| == 1 && MaxConnectsPerSecond > 0
              ==> |peerConnections| <= |old(peerConnections)| + MaxConnectsPerSecond
      ensures tallied ==> Result(counts, MaxConnectsPerSecond, Total(passes))
    {
      hide Measure, Knows, Connected, Result, Tallied, Ended, GoesOn, Streak, Known, ReadySets, ServedBy, Standing;
      ghost var ready, known := ReadySets(all, now), Known();
      NobodyServed(all, now);
      passes := [];
      ghost var count: nat := |transfers|;
      NoPasses(MaxConnectsPerSecond, count);
      ghost var k, made := 0, 0;
      var stepsSinceLastConnect := 0;
      var connectionsReserve := MaxConnectsPerSecond;
      var enumerateCandidates := true;
      while enumerateCandidates
        invariant Knows(all) && Connected(all, now, was) && stepsSinceLastConnect >= 0
        invariant |peerConnections| == |old(peerConnections)| + Total(passes)
        invariant Standing(all, now, ready, known, |passes|)
        invariant if enumerateCandidates
                  then GoesOn(passes, MaxConnectsPerSecond, count)
                       && Streak(passes, stepsSinceLastConnect) && stepsSinceLastConnect <= 2 * count
                  else Ended(passes, MaxConnectsPerSecond, count)
        invariant made == Total(passes) == MaxConnectsPerSecond - connectionsReserve
        invariant made + Measure(all, now) <= old(Measure(all, now))
        invariant enumerateCandidates && |transfers| == 1 && MaxConnectsPerSecond > 0 ==> connectionsReserve > 0
        invariant |transfers| == 1 && MaxConnectsPerSecond > 0 ==> connectionsReserve >= 0
        invariant tallied ==>
                    if enumerateCandidates
                    then Tallied(all, now, counts, k, stepsSinceLastConnect, made)
                    else Result(counts, MaxConnectsPerSecond, made)
        decreases enumerateCandidates, Measure(all, now), 2 * |transfers| + 1 - stepsSinceLastConnect
      {
        var connected := TalliedPass(now, all, was, counts, k, stepsSinceLastConnect, made, ready, known, |passes|);
        k, made := k + 1, made + connected;
        OneMorePass(passes, connected, stepsSinceLastConnect, MaxConnectsPerSecond, count);
        passes := passes + [connected];
        connectionsReserve := connectionsReserve - connected;
        if connected > 0 {
          stepsSinceLastConnect := 0;
        }
        stepsSinceLastConnect := stepsSinceLastConnect + 1;
        // two whole loops without handing out a single connection
        if stepsSinceLastConnect > |transfers| * 2 {
          enumerateCandidates := false;
          break;
        }
        if connectionsReserve == 0 {
          enumerateCandidates := false;
          break;
        }
      }
      StandingIs(all, now, ready, known, |passes|);
    }

    /** What n passes did to the transfers. */
    ghost predicate Standing(all: set<Peer>, now: int, ready: map<Hash, set<Peer>>, known: set<Hash>, n: nat)
      requires Knows(all)
      reads this, policies, transfers.Values, all
    {
      Known() == known && ServedBy(ready, ReadySets(all, now), known, n)
    }

    lemma NobodyServed(all: set<Peer>, now: int)
      requires Knows(all)
      ensures Standing(all, now, ReadySets(all, now), Known(), 0)
    {
      ServedByNone(ReadySets(all, now), Known());
    }

    lemma StandingIs(all: set<Peer>, now: int, ready: map<Hash, set<Peer>>, known: set<Hash>, n: nat)
      requires Knows(all) && Standing(all, now, ready, known, n)
      ensures Known() == known && ServedBy(ready, ReadySets(all, now), known, n)
    {
    }

    lemma NoPasses(limit: int, transfers: nat)
      ensures GoesOn([], limit, transfers) && Streak([], 0)
    {
    }

    /** A pass, and what it adds up to. */
    method TalliedPass(now: int, ghost all: set<Peer>, ghost was: Snapshot, ghost counts: map<Hash, nat>, ghost k: nat,
            ghost steps: int, ghost made: int, ghost ready: map<Hash, set<Peer>>, ghost known: set<Hash>, ghost n: nat)
      returns (connected: nat)
      requires Knows(all) && Standing(all, now, ready, known, n)
      requires was.Over(all) && Knows(all) && now > 0 && Connected(all, now, was) && steps >= 0
      modifies this`peerConnections, all
      ensures Knows(all) && Connected(all, now, was)
      ensures Measure(all, now) + connected <= old(Measure(all, now))
      ensures |peerConnections| == |old(peerConnections)| + connected && connected <= |transfers|
      ensures Standing(all, now, ready, known, n + 1)
      ensures old(Tallied(all, now, counts, k, steps, made)) ==>
                var next := if connected > 0 then 1 else steps + 1;
                && (made + connected == MaxConnectsPerSecond || next > 2
                    ==> Result(counts, MaxConnectsPerSecond, made + connected))
                && (made + connected != MaxConnectsPerSecond
                    ==> Tallied(all, now, counts, k + 1, next, made + connected))
    {
      hide Measure, Knows, Connected, Apart, Counts, Left, Ready, Result, Passed, Known, ReadySets, Served;
      ghost var tallied, mid := Tallied(all, now, counts, k, steps, made), ReadySets(all, now);
      connected := Pass(now, all, was);
      ServedByNext(ready, mid, ReadySets(all, now), known, n);
      if tallied {
        LeftNext(counts, k);
        NextPass(counts, k, steps, made, connected);
      }
    }

    lemma StartTally(all: set<Peer>, now: int)
      requires Knows(all)
      ensures Apart(all, now) ==> Tallied(all, now, Counts(all, now), 0, 0, 0)
    {
      hide Apart, Counts;
      LeftNext(Counts(all, now), 0);
      NoPass(Counts(all, now));
    }

    lemma NoPass(counts: map<Hash, nat>)
      ensures Passed(counts, 0, 0, 0)
    {
    }

    /** One more pass: it goes on, or the loop ends with the result. */
    lemma NextPass(counts: map<Hash, nat>, k: nat, steps: int, made: int, connected: nat)
      requires Passed(counts, k, steps, made) && steps >= 0 && connected == |Ready(Left(counts, k), 0)|
      ensures var next := if connected > 0 then 1 else steps + 1;
              && (made + connected == MaxConnectsPerSecond ==> Result(counts, MaxConnectsPerSecond, made + connected))
              && (next > 2 ==> Result(counts, MaxConnectsPerSecond, made + connected))
              && (made + connected != MaxConnectsPerSecond ==> Passed(counts, k + 1, next, made + connected))
    {
      ReadyShrinks(counts, k, k);
      assert HandedOut(counts, k + 1) == made + connected;
      if made + connected == MaxConnectsPerSecond {
        assert Hits(counts, MaxConnectsPerSecond);
      } else if connected == 0 && steps >= 2 {
        StoppedIdle(counts, k + 1, steps + 1, made);
      }
    }

    /** Where a pass that began with these counts and ready peers stands when keys are left to visit. */
    ghost predicate Underway(all: set<Peer>, now: int, apart: bool, counts: map<Hash, nat>,
            start: map<Hash, set<Peer>>, keys: set<Hash>, made: nat)
      requires Knows(all)
      reads this, policies, transfers.Values, all
    {
      && (apart ==> Apart(all, now) && Visited(counts, Counts(all, now), keys, made))
      && Served(start, ReadySets(all, now), Known() - keys)
    }

    lemma StartPass(all: set<Peer>, now: int)
      requires Knows(all)
      ensures Underway(all, now, Apart(all, now), Counts(all, now), ReadySets(all, now), transfers.Keys, 0)
    {
      hide Apart, Counts, ReadySets, Visited;
      CountsKeys(all, now);
      NoneVisited(Counts(all, now));
      ServedNone(ReadySets(all, now));
      assert Known() - transfers.Keys == {};
    }

    lemma EndPass(all: set<Peer>, now: int, apart: bool, counts: map<Hash, nat>, start: map<Hash, set<Peer>>, made: nat)
      requires Knows(all) && Underway(all, now, apart, counts, start, {}, made)
      ensures Served(start, ReadySets(all, now), Known())
      ensures apart ==> Apart(all, now) && Counts(all, now) == Left(counts, 1) && made == |Ready(counts, 0)|
    {
      hide Apart, Counts, ReadySets, Visited, Served, Known, Ready, Left;
      assert Known() - {} == Known();
      if apart {
        AllVisited(counts, Counts(all, now), made);
      }
    }

    /** One transfer of a pass that is under way. */
    method VisitNext(h: Hash, now: int, ghost all: set<Peer>, ghost was: Snapshot, ghost apart: bool,
            ghost counts: map<Hash, nat>, ghost start: map<Hash, set<Peer>>, ghost keys: set<Hash>, ghost made: nat)
      returns (connected: bool)
      requires was.Over(all) && Knows(all) && h in transfers && now > 0 && Connected(all, now, was)
      requires h in keys && counts.Keys == transfers.Keys && Underway(all, now, apart, counts, start, keys, made)
      modifies this`peerConnections, all
      ensures Knows(all) && Connected(all, now, was) && Known() == old(Known())
      ensures Measure(all, now) <= old(Measure(all, now)) - (if connected then 1 else 0)
      ensures |peerConnections| == |old(peerConnections)| + if connected then 1 else 0
      ensures Underway(all, now, apart, counts, start, keys - {h}, made + if connected then 1 else 0)
    {
      hide Measure, Knows, Connected, Apart, Counts, Visited, Fewer, ReadySets, Served, Chose, Known;
      ghost var ready, known := ReadySets(all, now), Known();
      if apart {
        OneVisited(counts, Counts(all, now), keys, made, h);
      }
      var visited, chosen := VisitCounted(h, now, all, was);
      connected := visited;
      ServedOne(start, ready, ReadySets(all, now), known - keys, h, h in known, chosen);
      DoneNext(known, keys, h);
    }

    /** One pass over the transfers, in no particular order. */
    method Pass(now: int, ghost all: set<Peer>, ghost was: Snapshot) returns (made: nat)
      requires was.Over(all) && Knows(all) && now > 0 && Connected(all, now, was)
      modifies this`peerConnections, all
      ensures Knows(all) && Connected(all, now, was)
      ensures Measure(all, now) + made <= old(Measure(all, now))
      ensures |peerConnections| == |old(peerConnections)| + made && made <= |transfers|
      ensures Known() == old(Known()) && Served(old(ReadySets(all, now)), ReadySets(all, now), Known())
      ensures old(Apart(all, now)) ==>
                && Apart(all, now) && Counts(all, now) == Left(old(Counts(all, now)), 1)
                && made == |Ready(old(Counts(all, now)), 0)|
    {
      hide Measure, Knows, Connected, EligibleOf, Apart, Counts, Ready, Left, ReadySets, Served, Known, Underway;
      ghost var apart, counts, start := Apart(all, now), Counts(all, now), ReadySets(all, now);
      CountsKeys(all, now);
      StartPass(all, now);
      made := 0;
      var keys := transfers.Keys;
      while keys != {}
        invariant keys <= transfers.Keys && made + |keys| <= |transfers|
        invariant Knows(all) && Connected(all, now, was) && Known() == old(Known())
        invariant Measure(all, now) + made <= old(Measure(all, now))
        invariant |peerConnections| == |old(peerConnections)| + made
        invariant Underway(all, now, apart, counts, start, keys, made)
        decreases keys
      {
        var h :| h in keys;
        var connected := VisitNext(h, now, all, was, apart, counts, start, keys, made);
        keys := keys - {h};
        if connected {
          made := made + 1;
        }
      }
      EndPass(all, now, apart, counts, start, made);
    }
  }
}
