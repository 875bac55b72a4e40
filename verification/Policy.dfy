/** Which peer to connect to next, and which to forget (policy.go). */
module Policies {
  import opened Peers
  import opened Selections

  const MIN_RECONNECT_TIMEOUT_SEC: int := 10
  const SECOND: int := 1_000_000_000

  const PEER_SRC_INCOMING: bv8 := 0x1
  const PEER_SRC_SERVER: bv8 := 0x2
  const PEER_SRC_DHT: bv8 := 0x4
  const PEER_SRC_RESUME_DATA: bv8 := 0x8

  predicate IsConnectCandidate(p: Peer)
    reads p
  {
    !(p.peerConnection != null || p.FailCount > 5)
  }

  predicate IsEraseCandidate(p: Peer)
    reads p
  {
    if p.peerConnection != null || IsConnectCandidate(p) then false else p.FailCount > 0
  }

  /** The test for a DHT source masks with the server's bit, so it never holds. */
  function SourceRank(flag: bv8): int {
    (if flag & PEER_SRC_SERVER == PEER_SRC_SERVER then 32 else 0)
    + (if flag & PEER_SRC_SERVER == PEER_SRC_DHT then 16 else 0)
    + (if flag & PEER_SRC_INCOMING == PEER_SRC_INCOMING then 8 else 0)
    + (if flag & PEER_SRC_RESUME_DATA == PEER_SRC_RESUME_DATA then 4 else 0)
  }

  /** A source ranks by the server first, then by an incoming connection, then by the resume data. */
  lemma SourceRankIff(l: bv8, r: bv8)
    ensures SourceRank(l) > SourceRank(r) <==>
            || (HasSource(l, PEER_SRC_SERVER) && !HasSource(r, PEER_SRC_SERVER))
            || (HasSource(l, PEER_SRC_SERVER) == HasSource(r, PEER_SRC_SERVER)
                && (|| (HasSource(l, PEER_SRC_INCOMING) && !HasSource(r, PEER_SRC_INCOMING))
                    || (HasSource(l, PEER_SRC_INCOMING) == HasSource(r, PEER_SRC_INCOMING)
                        && HasSource(l, PEER_SRC_RESUME_DATA) && !HasSource(r, PEER_SRC_RESUME_DATA))))
  {
    NoSuchSource(l);
    NoSuchSource(r);
  }

  predicate HasSource(flag: bv8, source: bv8) {
    flag & source != 0
  }

  lemma NoSuchSource(flag: bv8)
    ensures flag & PEER_SRC_SERVER != PEER_SRC_DHT
    ensures HasSource(flag, PEER_SRC_SERVER) <==> flag & PEER_SRC_SERVER == PEER_SRC_SERVER
    ensures HasSource(flag, PEER_SRC_INCOMING) <==> flag & PEER_SRC_INCOMING == PEER_SRC_INCOMING
    ensures HasSource(flag, PEER_SRC_RESUME_DATA) <==> flag & PEER_SRC_RESUME_DATA == PEER_SRC_RESUME_DATA
  {
  }

  /** A peer whose only source is the DHT ranks like one without a source. */
  lemma DhtHasNoRank(flag: bv8)
    ensures SourceRank(flag | PEER_SRC_DHT) == SourceRank(flag)
  {
    assert (flag | PEER_SRC_DHT) & PEER_SRC_SERVER == flag & PEER_SRC_SERVER;
    assert (flag | PEER_SRC_DHT) & PEER_SRC_INCOMING == flag & PEER_SRC_INCOMING;
    assert (flag | PEER_SRC_DHT) & PEER_SRC_RESUME_DATA == flag & PEER_SRC_RESUME_DATA;
    assert flag & PEER_SRC_SERVER != PEER_SRC_DHT;
  }

  predicate LeftBetterRightToConnect(l: Peer, r: Peer)
    reads l, r
  {
    if l.FailCount != r.FailCount then l.FailCount < r.FailCount
    else if l.endpoint.IsLocalAddress() != r.endpoint.IsLocalAddress() then l.endpoint.IsLocalAddress()
    else if l.LastConnected != r.LastConnected then l.LastConnected < r.LastConnected
    else if l.NextConnection != r.NextConnection then l.NextConnection < r.NextConnection
    else if SourceRank(l.SourceFlag) != SourceRank(r.SourceFlag) then
      SourceRank(l.SourceFlag) > SourceRank(r.SourceFlag)
    else false
  }

  predicate LeftBetterRightToRemove(l: Peer, r: Peer)
    reads l, r
  {
    var lResume := l.SourceFlag & PEER_SRC_RESUME_DATA == PEER_SRC_RESUME_DATA;
    var rResume := r.SourceFlag & PEER_SRC_RESUME_DATA == PEER_SRC_RESUME_DATA;
    if l.FailCount != r.FailCount then l.FailCount > r.FailCount
    else if lResume != rResume then lResume
    else false
  }

  // ----- the orders

  /** What a peer is judged by, most important first; smaller is better. */
  function ConnectKey(p: Peer): (key: seq<int>)
    reads p
  {
    [p.FailCount, if p.endpoint.IsLocalAddress() then 0 else 1, p.LastConnected, p.NextConnection,
        -SourceRank(p.SourceFlag)]
  }

  function RemoveKey(p: Peer): (key: seq<int>)
    reads p
  {
    [-p.FailCount, if p.SourceFlag & PEER_SRC_RESUME_DATA == PEER_SRC_RESUME_DATA then 0 else 1]
  }

  lemma ConnectIsKeyOrder(l: Peer, r: Peer)
    ensures LeftBetterRightToConnect(l, r) == Below(ConnectKey(l), ConnectKey(r))
  {
    var a, b := ConnectKey(l), ConnectKey(r);
    assert a[1..][1..] == a[2..] && a[2..][1..] == a[3..] && a[3..][1..] == a[4..] && a[4..][1..] == [];
    assert b[1..][1..] == b[2..] && b[2..][1..] == b[3..] && b[3..][1..] == b[4..] && b[4..][1..] == [];
    assert Below(a[4..], b[4..]) == (a[4] < b[4]);
    assert Below(a[3..], b[3..]) == (a[3] < b[3] || (a[3] == b[3] && Below(a[4..], b[4..])));
    assert Below(a[2..], b[2..]) == (a[2] < b[2] || (a[2] == b[2] && Below(a[3..], b[3..])));
    assert Below(a[1..], b[1..]) == (a[1] < b[1] || (a[1] == b[1] && Below(a[2..], b[2..])));
  }

  lemma RemoveIsKeyOrder(l: Peer, r: Peer)
    ensures LeftBetterRightToRemove(l, r) == Below(RemoveKey(l), RemoveKey(r))
  {
    var a, b := RemoveKey(l), RemoveKey(r);
    assert a[1..][1..] == [] && b[1..][1..] == [];
    assert Below(a[1..], b[1..]) == (a[1] < b[1]);
  }

  /** LeftBetterRightToConnect is a strict weak order. */
  lemma ConnectIsStrictWeakOrder(l: Peer, m: Peer, r: Peer)
    ensures !LeftBetterRightToConnect(l, l)
    ensures LeftBetterRightToConnect(l, m) ==> !LeftBetterRightToConnect(m, l)
    ensures LeftBetterRightToConnect(l, m) && LeftBetterRightToConnect(m, r) ==> LeftBetterRightToConnect(l, r)
    ensures !LeftBetterRightToConnect(l, m) && !LeftBetterRightToConnect(m, r) ==> !LeftBetterRightToConnect(l, r)
    ensures !LeftBetterRightToConnect(l, m) && !LeftBetterRightToConnect(m, l) <==> ConnectKey(l) == ConnectKey(m)
  {
    hide LeftBetterRightToConnect, ConnectKey, Below;
    var a, b, c := ConnectKey(l), ConnectKey(m), ConnectKey(r);
    KeyLengths(l, m, r);
    ConnectIsKeyOrder(l, l);
    ConnectIsKeyOrder(l, m);
    ConnectIsKeyOrder(m, l);
    ConnectIsKeyOrder(m, r);
    ConnectIsKeyOrder(r, m);
    ConnectIsKeyOrder(l, r);
    BelowIsStrictTotal(a, a, a);
    BelowIsStrictTotal(a, b, c);
    BelowIsStrictTotal(b, c, b);
    BelowIsStrictTotal(a, c, b);
    BelowIsStrictTotal(c, b, a);
  }

  /** What decides, one after the other, when the ones before are equal. */
  lemma ConnectPrefers(l: Peer, r: Peer)
    ensures l.FailCount < r.FailCount ==> LeftBetterRightToConnect(l, r)
    ensures l.FailCount == r.FailCount && l.endpoint.IsLocalAddress() && !r.endpoint.IsLocalAddress()
            ==> LeftBetterRightToConnect(l, r)
    ensures l.FailCount == r.FailCount && l.endpoint.IsLocalAddress() == r.endpoint.IsLocalAddress() ==>
              && (l.LastConnected < r.LastConnected ==> LeftBetterRightToConnect(l, r))
              && (l.LastConnected == r.LastConnected ==>
                    && (l.NextConnection < r.NextConnection ==> LeftBetterRightToConnect(l, r))
                    && (l.NextConnection == r.NextConnection ==>
                          (LeftBetterRightToConnect(l, r) <==> SourceRank(l.SourceFlag) > SourceRank(r.SourceFlag))))
    ensures LeftBetterRightToConnect(l, r) ==> !LeftBetterRightToConnect(r, l)
  {
  }

  /** The one with more failures goes first, then the one whose source is the resume data. */
  lemma RemovePrefers(l: Peer, r: Peer)
    ensures l.FailCount > r.FailCount ==> LeftBetterRightToRemove(l, r)
    ensures l.FailCount == r.FailCount ==>
              (LeftBetterRightToRemove(l, r) <==>
               HasSource(l.SourceFlag, PEER_SRC_RESUME_DATA) && !HasSource(r.SourceFlag, PEER_SRC_RESUME_DATA))
    ensures LeftBetterRightToRemove(l, r) ==> !LeftBetterRightToRemove(r, l)
  {
    NoSuchSource(l.SourceFlag);
    NoSuchSource(r.SourceFlag);
  }

  lemma KeyLengths(l: Peer, m: Peer, r: Peer)
    ensures |ConnectKey(l)| == |ConnectKey(m)| == |ConnectKey(r)|
    ensures |RemoveKey(l)| == |RemoveKey(m)| == |RemoveKey(r)|
  {
  }

  // ----- the policy

  /** Waited long enough after the last attempt and past the date set for the next one. */
  predicate IsDue(p: Peer, t: int)
    reads p
  {
    && (p.LastConnected == 0 || t >= p.LastConnected + SECOND * (p.FailCount * MIN_RECONNECT_TIMEOUT_SEC))
    && (p.NextConnection == 0 || t >= p.NextConnection)
  }

  predicate Eligible(p: Peer, t: int)
    reads p
  {
    IsConnectCandidate(p) && IsDue(p, t)
  }

  /** A peer may be tried when it has no connection and at most 5 failures, was never tried or waited 10
      seconds for each failure, and the date set for it has come. */
  lemma EligibleIff(p: Peer, t: int)
    ensures Eligible(p, t) <==>
            && p.peerConnection == null && p.FailCount <= 5
            && (p.LastConnected == 0 || t >= p.LastConnected + 10_000_000_000 * p.FailCount)
            && (p.NextConnection == 0 || t >= p.NextConnection)
  {
  }

  /** A peer may be erased when it has no connection and more than 5 failures. */
  lemma EraseCandidateIff(p: Peer)
    ensures IsEraseCandidate(p) <==> p.peerConnection == null && p.FailCount > 5
  {
  }

  lemma Without(m: map<Endpoint, Peer>, k: Endpoint)
    requires k in m
    ensures m - {k} != m && |m - {k}| == |m| - 1
  {
    var less := m - {k};
    assert k !in less;
    forall e
      ensures e in less.Keys <==> e in m.Keys - {k}
    {
      assert e in less <==> e in m && e !in {k};
    }
    assert less.Keys == m.Keys - {k};
    assert |less| == |less.Keys| && |m| == |m.Keys|;
  }

  class Policy {
    var peers: map<Endpoint, Peer>
    var maxPeers: nat

    constructor (mp: nat)
      ensures peers == map[] && maxPeers == mp
    {
      peers, maxPeers := map[], mp;
    }

    predicate Valid()
      reads this
    {
      forall e :: e in peers ==> peers[e].endpoint == e
    }

    /** A connection ended, with an error or not: the peer waits longer after each failure in a row,
        and is not tried again after the sixth. */
    method PeerConnectionClosed(peerConnection: PeerConnection, failed: bool, now: int)
      requires now > 0
      modifies set e | e in peers :: peers[e]`LastConnected, set e | e in peers :: peers[e]`peerConnection,
               set e | e in peers :: peers[e]`FailCount
      ensures peerConnection.endpoint in peers ==>
                var p := peers[peerConnection.endpoint];
                && p.FailCount == old(p.FailCount) + (if failed then 1 else 0)
                && p.LastConnected == now && p.peerConnection == null
                && forall t :: Eligible(p, t) <==> p.FailCount <= 5 && t >= now + 10_000_000_000 * p.FailCount
                                                   && (p.NextConnection == 0 || t >= p.NextConnection)
      ensures forall x :: x in peers.Values
                          && (peerConnection.endpoint in peers ==> x != peers[peerConnection.endpoint])
                          ==> unchanged(x)
    {
      if peerConnection.endpoint in peers {
        var p := peers[peerConnection.endpoint];
        p.LastConnected := now;
        p.peerConnection := null;
        if failed {
          p.FailCount := p.FailCount + 1;
        }
      }
    }

    method NumConnectCandidates() returns (res: nat)
      ensures res == |set e | e in peers && IsConnectCandidate(peers[e])|
    {
      res := 0;
      var keys := peers.Keys;
      ghost var counted: set<Endpoint> := {};
      while keys != {}
        invariant keys + counted == peers.Keys && keys !! counted
        invariant res == |set e | e in counted && IsConnectCandidate(peers[e])|
        decreases keys
      {
        var x :| x in keys;
        ghost var before := set e | e in counted && IsConnectCandidate(peers[e]);
        ghost var after := set e | e in counted + {x} && IsConnectCandidate(peers[e]);
        assert after == if IsConnectCandidate(peers[x]) then before + {x} else before;
        if IsConnectCandidate(peers[x]) {
          res := res + 1;
        }
        counted := counted + {x};
        keys := keys - {x};
      }
      assert (set e | e in counted && IsConnectCandidate(peers[e])) == set e | e in peers
          && IsConnectCandidate(peers[e]);
    }

    /** The eligible peers, compared for connecting. */
    ghost function ConnectField(t: int): (f: Field)
      reads this, set e | e in peers :: peers[e]
      ensures f.Valid()
      ensures forall e :: e in f.ok <==> e in peers && Eligible(peers[e], t)
      ensures forall a, b :: a in f.ok && b in f.ok ==> f.Beats(a, b) == LeftBetterRightToConnect(peers[a], peers[b])
    {
      hide LeftBetterRightToConnect, Eligible, Below;
      var f := Field(set e | e in peers && Eligible(peers[e], t), map e | e in peers :: ConnectKey(peers[e]));
      assert f.Valid() && forall a, b :: a in f.ok && b in f.ok ==>
          f.Beats(a, b) == LeftBetterRightToConnect(peers[a], peers[b]) by {
        ConnectKeysValid(f, t);
      }
      f
    }

    lemma ConnectKeysValid(f: Field, t: int)
      requires f == Field(set e | e in peers && Eligible(peers[e], t), map e | e in peers :: ConnectKey(peers[e]))
      ensures f.Valid()
      ensures forall a, b :: a in f.ok && b in f.ok ==> f.Beats(a, b) == LeftBetterRightToConnect(peers[a], peers[b])
    {
      hide LeftBetterRightToConnect, Eligible, Below, ConnectKey;
      forall a, b | a in f.ok && b in f.ok
        ensures |f.key[a]| == |f.key[b]|
      {
        KeyLengths(peers[a], peers[b], peers[b]);
      }
      forall a, b | a in f.ok && b in f.ok
        ensures f.Beats(a, b) == LeftBetterRightToConnect(peers[a], peers[b])
      {
        ConnectIsKeyOrder(peers[a], peers[b]);
      }
    }

    /** For every order of the map: nothing is found exactly when no peer is eligible and
        none has the empty endpoint; what is found is eligible if any peer is; and an
        eligible peer beats it only if the peer with the empty endpoint was overlooked. */
    method FindConnectCandidate(t: int) returns (found: Peer?, ghost order: seq<Endpoint>)
      ensures ConnectField(t).Visits(order, peers.Keys)
      ensures var c := ConnectField(t).Pick(order); found == if c in peers then peers[c] else null
      ensures found == null <==> EMPTY_ENDPOINT !in peers && forall e :: e in peers ==> !Eligible(peers[e], t)
      ensures found != null && !Eligible(found, t)
              ==> EMPTY_ENDPOINT in peers && found == peers[EMPTY_ENDPOINT]
                  && forall e :: e in peers ==> !Eligible(peers[e], t)
      ensures found != null && !CanOverlookEmpty(t)
              ==> forall e :: e in peers && Eligible(peers[e], t) ==> !LeftBetterRightToConnect(peers[e], found)
      ensures found != null && EMPTY_ENDPOINT !in peers ==>
                && found.peerConnection == null && found.FailCount <= 5
                && (found.LastConnected == 0 || t >= found.LastConnected + 10_000_000_000 * found.FailCount)
                && (found.NextConnection == 0 || t >= found.NextConnection)
      ensures found == null ==>
                forall e :: e in peers ==>
                  || peers[e].peerConnection != null || peers[e].FailCount > 5
                  || (peers[e].LastConnected != 0 && t < peers[e].LastConnected + 10_000_000_000 * peers[e].FailCount)
                  || (peers[e].NextConnection != 0 && t < peers[e].NextConnection)
    {
      hide LeftBetterRightToConnect, IsConnectCandidate, IsDue, ConnectField, Field.Pick, Field.Beats;
      var candidate := EMPTY_ENDPOINT;
      var keys := peers.Keys;
      order := [];
      PickOfNone(t);
      while keys != {}
        invariant keys <= peers.Keys && multiset(order) + multiset(keys) == multiset(peers.Keys)
        invariant candidate == ConnectField(t).Pick(order)
        decreases keys
      {
        var endpoint :| endpoint in keys;
        var peer := peers[endpoint];
        assert multiset(keys) == multiset(keys - {endpoint}) + multiset{endpoint};
        keys := keys - {endpoint};
        ConnectField(t).PickNext(order, endpoint);
        order := order + [endpoint];
        if !IsConnectCandidate(peer) {
          continue;
        }
        if !candidate.IsEmpty() && LeftBetterRightToConnect(peers[candidate], peer) {
          continue;
        }
        if !IsDue(peer, t) {
          continue;
        }
        candidate := endpoint;
      }
      found := if candidate in peers then peers[candidate] else null;
      FoundIsBest(order, t);
      if found != null {
        EligibleIff(found, t);
      } else {
        NoneMayBeTried(t);
      }
    }

    lemma NoneMayBeTried(t: int)
      requires forall e :: e in peers ==> !Eligible(peers[e], t)
      ensures forall e :: e in peers ==>
                || peers[e].peerConnection != null || peers[e].FailCount > 5
                || (peers[e].LastConnected != 0 && t < peers[e].LastConnected + 10_000_000_000 * peers[e].FailCount)
                || (peers[e].NextConnection != 0 && t < peers[e].NextConnection)
    {
    }

    lemma PickOfNone(t: int)
      ensures ConnectField(t).Pick([]) == EMPTY_ENDPOINT
    {
    }

    /** The peer with the empty endpoint is a best one to connect to and beats another one. */
    ghost predicate CanOverlookEmpty(t: int)
      reads this, set e | e in peers :: peers[e]
    {
      && EMPTY_ENDPOINT in peers && Eligible(peers[EMPTY_ENDPOINT], t)
      && (forall e :: e in peers && Eligible(peers[e], t)
                      ==> !LeftBetterRightToConnect(peers[e], peers[EMPTY_ENDPOINT]))
      && exists e :: e in peers && Eligible(peers[e], t) && LeftBetterRightToConnect(peers[EMPTY_ENDPOINT], peers[e])
    }

    lemma FoundIsBest(order: seq<Endpoint>, t: int)
      requires ConnectField(t).Visits(order, peers.Keys)
      ensures var f := ConnectField(t);
              var c := f.Pick(order);
              && (c in peers <==> EMPTY_ENDPOINT in peers || f.ok != {})
              && (c in peers && c !in f.ok ==> c == EMPTY_ENDPOINT && f.ok == {})
              && (c in peers && !CanOverlookEmpty(t) ==>
                    forall e :: e in f.ok ==> !LeftBetterRightToConnect(peers[e], peers[c]))
    {
      hide LeftBetterRightToConnect, Eligible, ConnectField, Field.Pick, Field.Beats, CanOverlookEmpty;
      var f := ConnectField(t);
      var c := f.Pick(order);
      BeatenIff(f, peers.Keys);
      OverlookedIff(t);
      if f.ok != {} && c == EMPTY_ENDPOINT {
        EmptyOnlyIf(f, peers.Keys, order);
      }
    }

    lemma OverlookedIff(t: int)
      ensures var f := ConnectField(t);
              CanOverlookEmpty(t) <==> f.EmptyIsBest() && exists y :: y in f.ok && f.Beats(EMPTY_ENDPOINT, y)
    {
      hide LeftBetterRightToConnect, Eligible, ConnectField, Field.Beats;
    }

    /** Some order of the map makes the search return a peer that an eligible one beats,
        exactly when the peer with the empty endpoint can be overlooked. */
    lemma EmptyEndpointHidesBest(t: int)
      ensures (exists order :: ConnectField(t).Visits(order, peers.Keys) && Outdone(order, t)) <==> CanOverlookEmpty(t)
    {
      hide LeftBetterRightToConnect, Eligible, ConnectField, Field.Pick, Field.Beats, CanOverlookEmpty;
      var f := ConnectField(t);
      BeatenIff(f, peers.Keys);
      OverlookedIff(t);
      forall order | f.Visits(order, peers.Keys)
        ensures Outdone(order, t) <==> f.Beaten(f.Pick(order))
      {
        if f.ok != {} && f.Pick(order) == EMPTY_ENDPOINT {
          EmptyOnlyIf(f, peers.Keys, order);
        }
      }
    }

    /** What the search returns in this order is beaten by an eligible peer. */
    ghost predicate Outdone(order: seq<Endpoint>, t: int)
      reads this, set e | e in peers :: peers[e]
    {
      var c := ConnectField(t).Pick(order);
      c in peers && exists e :: e in peers && Eligible(peers[e], t) && LeftBetterRightToConnect(peers[e], peers[c])
    }

    // ----- adding and erasing

    function LowWatermark(): int
      reads this
    {
      var w := maxPeers * 95 / 100;
      if w == maxPeers then w - 1 else w
    }

    /** The peers that may be erased, compared for removing. */
    ghost function RemoveField(): (f: Field)
      reads this, set e | e in peers :: peers[e]
      ensures f.Valid()
      ensures forall e :: e in f.ok <==> e in peers && IsEraseCandidate(peers[e])
      ensures forall a, b :: a in f.ok && b in f.ok ==> f.Beats(a, b) == LeftBetterRightToRemove(peers[a], peers[b])
    {
      hide LeftBetterRightToRemove, IsEraseCandidate, Below;
      var f := Field(set e | e in peers && IsEraseCandidate(peers[e]), map e | e in peers :: RemoveKey(peers[e]));
      assert f.Valid() && forall a, b :: a in f.ok && b in f.ok ==>
          f.Beats(a, b) == LeftBetterRightToRemove(peers[a], peers[b]) by {
        RemoveKeysValid(f);
      }
      f
    }

    lemma RemoveKeysValid(f: Field)
      requires f == Field(set e | e in peers && IsEraseCandidate(peers[e]), map e | e in peers :: RemoveKey(peers[e]))
      ensures f.Valid()
      ensures forall a, b :: a in f.ok && b in f.ok ==> f.Beats(a, b) == LeftBetterRightToRemove(peers[a], peers[b])
    {
      hide LeftBetterRightToRemove, IsEraseCandidate, Below, RemoveKey;
      forall a, b | a in f.ok && b in f.ok
        ensures |f.key[a]| == |f.key[b]|
      {
        KeyLengths(peers[a], peers[b], peers[b]);
      }
      forall a, b | a in f.ok && b in f.ok
        ensures f.Beats(a, b) == LeftBetterRightToRemove(peers[a], peers[b])
      {
        RemoveIsKeyOrder(peers[a], peers[b]);
      }
    }

    /** The peer with the empty endpoint may be erased, and none is a better one to remove. */
    ghost predicate EmptyIsSpared()
      reads this, set e | e in peers :: peers[e]
    {
      && EMPTY_ENDPOINT in peers && IsEraseCandidate(peers[EMPTY_ENDPOINT])
      && forall e :: e in peers && IsEraseCandidate(peers[e])
                     ==> !LeftBetterRightToRemove(peers[e], peers[EMPTY_ENDPOINT])
    }

    /** Erases at most one peer, one that may be erased. A full list loses one whenever it can,
        and none is a better one to remove, unless the peer with the empty endpoint is. */
    method ErasePeers() returns (erased: bool, ghost order: seq<Endpoint>, ghost gone: set<Endpoint>)
      modifies this`peers
      ensures peers == old(peers) - gone && gone <= old(peers).Keys && |peers| == |old(peers)| - |gone|
      ensures |gone| <= 1 && (erased <==> gone != {})
      ensures forall e :: e in gone ==> IsEraseCandidate(old(peers)[e])
      ensures |old(peers)| < LowWatermark() ==> gone == {}
      ensures |old(peers)| >= LowWatermark() ==>
                && old(RemoveField()).Visits(order, old(peers.Keys))
                && var c := old(RemoveField()).Pick(order);
                   gone == if c == EMPTY_ENDPOINT then {} else {c}
      ensures |old(peers)| >= LowWatermark() && !old(EmptyIsSpared())
              ==> (gone != {} <==> exists e :: e in old(peers) && IsEraseCandidate(old(peers)[e]))
      ensures !old(EmptyIsSpared())
              ==> forall e, x :: e in gone && x in old(peers) && IsEraseCandidate(old(peers)[x])
                                 ==> !LeftBetterRightToRemove(old(peers)[x], old(peers)[e])
    {
      hide LeftBetterRightToRemove, IsEraseCandidate, RemoveField, Field.Pick, Field.Beats, EmptyIsSpared;
      var count := |peers|;
      order, gone := [], {};
      PickOfNothing();
      if count == 0 {
        return false, [], {};
      }
      var eraseCandidate, visited := FindEraseCandidate();
      order := visited;
      if |peers| >= LowWatermark() && !EmptyIsSpared() {
        ErasedIsBest(order);
      }
      if eraseCandidate != EMPTY_ENDPOINT {
        Without(peers, eraseCandidate);
        gone := {eraseCandidate};
        peers := peers - {eraseCandidate};
      }
      return count != |peers|, order, gone;
    }

    lemma PickOfNothing()
      ensures RemoveField().Pick([]) == EMPTY_ENDPOINT
    {
    }

    /** For every order of the map. */
    method FindEraseCandidate() returns (eraseCandidate: Endpoint, ghost order: seq<Endpoint>)
      ensures eraseCandidate == EMPTY_ENDPOINT || (eraseCandidate in peers && IsEraseCandidate(peers[eraseCandidate]))
      ensures if |peers| < LowWatermark() then eraseCandidate == EMPTY_ENDPOINT
              else RemoveField().Visits(order, peers.Keys) && eraseCandidate == RemoveField().Pick(order)
    {
      hide LeftBetterRightToRemove, IsEraseCandidate, RemoveField, Field.Pick, Field.Beats;
      var lowWatermark := maxPeers * 95 / 100;
      if lowWatermark == maxPeers {
        lowWatermark := lowWatermark - 1;
      }
      eraseCandidate := EMPTY_ENDPOINT;
      var keys := peers.Keys;
      order := [];
      PickOfNothing();
      while keys != {}
        invariant keys <= peers.Keys && multiset(order) + multiset(keys) == multiset(peers.Keys)
        invariant eraseCandidate == RemoveField().Pick(order)
        invariant |peers| < lowWatermark ==> eraseCandidate == EMPTY_ENDPOINT
        decreases keys
      {
        if |peers| < lowWatermark {
          return;
        }
        var endpoint :| endpoint in keys;
        var peer := peers[endpoint];
        assert multiset(keys) == multiset(keys - {endpoint}) + multiset{endpoint};
        keys := keys - {endpoint};
        RemoveField().PickNext(order, endpoint);
        order := order + [endpoint];
        if IsEraseCandidate(peer) && (eraseCandidate.IsEmpty()
            || !LeftBetterRightToRemove(peers[eraseCandidate], peer)) {
          eraseCandidate := endpoint;
        }
      }
    }

    lemma SparedIff()
      ensures EmptyIsSpared() <==> RemoveField().EmptyIsBest()
    {
      hide LeftBetterRightToRemove, IsEraseCandidate, RemoveField, Field.Beats;
    }

    lemma ErasedIsBest(order: seq<Endpoint>)
      requires RemoveField().Visits(order, peers.Keys) && !EmptyIsSpared()
      ensures var f := RemoveField();
              var c := f.Pick(order);
              && (c == EMPTY_ENDPOINT <==> f.ok == {})
              && (c in f.ok ==> forall e :: e in f.ok ==> !LeftBetterRightToRemove(peers[e], peers[c]))
    {
      hide LeftBetterRightToRemove, IsEraseCandidate, RemoveField, Field.Pick, Field.Beats, EmptyIsSpared;
      SparedIff();
      MissesIff(RemoveField(), peers.Keys);
    }

    /** Some order of the map makes a full list keep everything although it could lose a peer, or
        lose one although another is a better one to remove, exactly when the empty one is spared. */
    lemma EmptyEndpointIsSpared()
      ensures (exists order :: RemoveField().Visits(order, peers.Keys) && ErasesBadly(order)) <==> EmptyIsSpared()
    {
      hide LeftBetterRightToRemove, IsEraseCandidate, RemoveField, Field.Pick, Field.Beats, EmptyIsSpared;
      var f := RemoveField();
      SparedIff();
      MissesIff(f, peers.Keys);
      forall order
        ensures ErasesBadly(order) <==> Misses(f, f.Pick(order))
      {
      }
    }

    ghost predicate ErasesBadly(order: seq<Endpoint>)
      reads this, set e | e in peers :: peers[e]
    {
      var c := RemoveField().Pick(order);
      exists e :: e in peers && IsEraseCandidate(peers[e])
          && (c == EMPTY_ENDPOINT || LeftBetterRightToRemove(peers[e], peers[c]))
    }

    /** A full list loses a peer first, if it can, and takes no other without. A peer that is still
        listed only gains its sources; gone is who was erased for it. */
    method AddPeer(p: Peer) returns (added: bool, ghost gone: set<Endpoint>)
      requires Valid()
      modifies this`peers, set e | e in peers :: peers[e]`SourceFlag
      ensures Valid() && maxPeers == old(maxPeers)
      ensures |gone| <= 1 && gone <= old(peers).Keys && (|old(peers)| < maxPeers ==> gone == {})
      ensures forall e :: e in gone ==> old(peers)[e].peerConnection == null && old(peers)[e].FailCount > 5
      ensures |old(peers)| >= maxPeers && !old(EmptyIsSpared())
              ==> (gone == {} <==> forall e :: e in old(peers) ==>
                                     old(peers)[e].peerConnection != null || old(peers)[e].FailCount <= 5)
      ensures |old(peers)| >= maxPeers && gone == {} ==> !added && peers == old(peers)
      ensures |old(peers)| < maxPeers || gone != {} ==>
                var left := old(peers) - gone;
                && (added <==> p.endpoint !in left)
                && peers == (if added then left[p.endpoint := p] else left)
                && (!added ==> peers[p.endpoint].SourceFlag == old(peers[p.endpoint].SourceFlag) | old(p.SourceFlag))
      ensures forall x :: x in old(peers).Values
                          && (added || x.endpoint != p.endpoint || (|old(peers)| >= maxPeers && gone == {}))
                          ==> x.SourceFlag == old(x.SourceFlag)
      ensures |old(peers)| <= maxPeers ==> |peers| <= maxPeers
    {
      hide EmptyIsSpared;
      gone := {};
      if |peers| >= maxPeers {
        var erased, lost := EraseOne();
        gone := lost;
        if !erased {
          return false, gone;
        }
      }
      if p.endpoint in peers {
        var oldPeer := peers[p.endpoint];
        oldPeer.SourceFlag := oldPeer.SourceFlag | p.SourceFlag;
        return false, gone;
      }
      peers := peers[p.endpoint := p];
      return true, gone;
    }

    /** Erasing from a full list, by who is gone. */
    method EraseOne() returns (erased: bool, ghost gone: set<Endpoint>)
      requires |peers| >= maxPeers
      modifies this`peers
      ensures maxPeers == old(maxPeers) && peers == old(peers) - gone && gone <= old(peers).Keys
      ensures |gone| <= 1 && |peers| == |old(peers)| - |gone| && (erased <==> gone != {})
      ensures forall e :: e in gone ==> old(peers)[e].peerConnection == null && old(peers)[e].FailCount > 5
      ensures !old(EmptyIsSpared()) ==> (gone == {} <==> forall e :: e in old(peers) ==>
                                           old(peers)[e].peerConnection != null || old(peers)[e].FailCount <= 5)
    {
      hide LeftBetterRightToRemove, IsEraseCandidate, RemoveField, Field.Pick, EmptyIsSpared;
      FullIsWatched();
      AllErasable();
      var success, _, lost := ErasePeers();
      erased, gone := success, lost;
      forall e | e in gone
        ensures old(peers)[e].peerConnection == null && old(peers)[e].FailCount > 5
      {
        EraseCandidateIff(old(peers)[e]);
      }
    }

    lemma FullIsWatched()
      ensures LowWatermark() <= maxPeers
    {
    }

    lemma AllErasable()
      ensures (exists e :: e in peers && IsEraseCandidate(peers[e]))
              <==> exists e :: e in peers && peers[e].peerConnection == null && peers[e].FailCount > 5
    {
    }
  }
}
