/** The search loop of the policy: it keeps the last best peer it has seen, and takes
    the empty endpoint for having seen none (policy.go:118-147 and 209-234). */
module Selections {
  import opened Peers

  /** The dictionary order. */
  predicate Below(a: seq<int>, b: seq<int>)
    requires |a| == |b|
  {
    a != [] && (a[0] < b[0] || (a[0] == b[0] && Below(a[1..], b[1..])))
  }

  /** A strict order in which only equal keys are incomparable. */
  lemma {:induction false} BelowIsStrictTotal(a: seq<int>, b: seq<int>, c: seq<int>)
    requires |a| == |b| == |c|
    ensures !(Below(a, b) && Below(b, a))
    ensures !Below(a, b) && !Below(b, a) <==> a == b
    ensures Below(a, b) && Below(b, c) ==> Below(a, c)
  {
    if a != [] {
      BelowIsStrictTotal(a[1..], b[1..], c[1..]);
      assert a == [a[0]] + a[1..] && b == [b[0]] + b[1..];
    }
  }

  /** The endpoints a search may return, and the keys it compares, all of the same length. */
  datatype Field = Field(ok: set<Endpoint>, key: map<Endpoint, seq<int>>)
  {
    ghost predicate Valid() {
      ok <= key.Keys && forall a, b :: a in ok && b in ok ==> |key[a]| == |key[b]|
    }

    predicate Beats(a: Endpoint, b: Endpoint)
      requires Valid() && a in ok && b in ok
    {
      Below(key[a], key[b])
    }

    /** What the loop has kept after it saw the endpoints in this order. */
    function Pick(order: seq<Endpoint>): (c: Endpoint)
      requires Valid()
      ensures c == EMPTY_ENDPOINT || (c in ok && c in order)
    {
      if order == [] then EMPTY_ENDPOINT
      else
        var c, e := Pick(order[..|order| - 1]), order[|order| - 1];
        if e in ok && (c == EMPTY_ENDPOINT || !Beats(c, e)) then e else c
    }

    /** Nothing among the given endpoints beats c. */
    ghost predicate Best(c: Endpoint, order: seq<Endpoint>)
      requires Valid() && c in ok
    {
      forall x :: x in order && x in ok ==> !Beats(x, c)
    }

    ghost predicate NoneOf(order: seq<Endpoint>) {
      forall x :: x in order ==> x !in ok
    }

    lemma BeatsIsWeakOrder(a: Endpoint, b: Endpoint, c: Endpoint)
      requires Valid() && a in ok && b in ok && c in ok
      ensures !Beats(a, a) && !(Beats(a, b) && Beats(b, a))
      ensures Beats(a, b) && !Beats(c, b) ==> Beats(a, c)
      ensures !Beats(b, a) && Beats(b, c) ==> Beats(a, c)
    {
      BelowIsStrictTotal(key[a], key[a], key[a]);
      BelowIsStrictTotal(key[a], key[b], key[c]);
      BelowIsStrictTotal(key[b], key[c], key[a]);
      BelowIsStrictTotal(key[c], key[b], key[a]);
    }

    lemma PickNext(order: seq<Endpoint>, e: Endpoint)
      requires Valid()
      ensures var c := Pick(order);
              Pick(order + [e]) == if e in ok && (c == EMPTY_ENDPOINT || !Beats(c, e)) then e else c
    {
      assert (order + [e])[..|order|] == order;
    }

    /** One more endpoint after the best of the others. */
    lemma BestNext(c: Endpoint, order: seq<Endpoint>, e: Endpoint)
      requires Valid() && c in ok && Best(c, order)
      ensures e in ok && !Beats(c, e) ==> Best(e, order + [e])
      ensures e !in ok || Beats(c, e) ==> Best(c, order + [e])
    {
      hide Beats;
      if e in ok {
        BeatsIsWeakOrder(e, e, e);
        BeatsIsWeakOrder(c, e, e);
        forall x | x in order && x in ok
          ensures !Beats(c, e) ==> !Beats(x, e)
        {
          BeatsIsWeakOrder(x, e, c);
        }
      }
    }

    /** Without the empty endpoint the loop finds a best one, if there is any. */
    lemma {:induction false} PickIsBest(order: seq<Endpoint>)
      requires Valid() && (EMPTY_ENDPOINT in order ==> EMPTY_ENDPOINT !in ok)
      ensures if NoneOf(order) then Pick(order) == EMPTY_ENDPOINT
              else Pick(order) in ok && Pick(order) in order && Best(Pick(order), order)
    {
      hide Beats;
      if order != [] {
        var front, e := order[..|order| - 1], order[|order| - 1];
        assert order == front + [e];
        PickIsBest(front);
        if NoneOf(front) {
          if e in ok {
            BeatsIsWeakOrder(e, e, e);
          }
        } else {
          BestNext(Pick(front), front, e);
        }
      }
    }

    /** The best one before the empty endpoint beats it. */
    predicate Skips(before: seq<Endpoint>)
      requires Valid() && EMPTY_ENDPOINT in ok
    {
      Pick(before) != EMPTY_ENDPOINT && Beats(Pick(before), EMPTY_ENDPOINT)
    }

    /** Around the empty endpoint: unless it is skipped, what came before it is forgotten. */
    lemma {:induction false} PickAround(before: seq<Endpoint>, after: seq<Endpoint>)
      requires Valid() && EMPTY_ENDPOINT in ok && EMPTY_ENDPOINT !in before && EMPTY_ENDPOINT !in after
      ensures var all := before + [EMPTY_ENDPOINT] + after;
              var c := Pick(all);
              if Skips(before) then c in ok && Best(c, all)
              else if NoneOf(after) then c == EMPTY_ENDPOINT
              else c in ok && c in after && Best(c, after)
    {
      hide Beats;
      PickIsBest(before);
      var head := before + [EMPTY_ENDPOINT];
      if after == [] {
        assert head + [] == head;
        PickNext(before, EMPTY_ENDPOINT);
        if Skips(before) {
          BestNext(Pick(before), before, EMPTY_ENDPOINT);
        }
      } else {
        var front, e := after[..|after| - 1], after[|after| - 1];
        assert after == front + [e] && head + after == (head + front) + [e];
        PickAround(before, front);
        PickNext(head + front, e);
        var c := Pick(head + front);
        if Skips(before) {
          BestNext(c, head + front, e);
        } else if !NoneOf(front) {
          BestNext(c, front, e);
        } else if e in ok {
          BeatsIsWeakOrder(e, e, e);
        }
      }
    }

    /** A search over these keys can come in this order. */
    ghost predicate Visits(order: seq<Endpoint>, keys: set<Endpoint>) {
      multiset(order) == multiset(keys)
    }

    /** The empty endpoint may be returned and is a best one. */
    ghost predicate EmptyIsBest()
      requires Valid()
    {
      EMPTY_ENDPOINT in ok && forall x :: x in ok ==> !Beats(x, EMPTY_ENDPOINT)
    }

    ghost predicate Beaten(c: Endpoint)
      requires Valid()
    {
      c in ok && exists x :: x in ok && Beats(x, c)
    }
  }

  /** An order of the elements of a set. */
  lemma OrderOf(keys: set<Endpoint>) returns (order: seq<Endpoint>)
    ensures multiset(order) == multiset(keys)
    ensures forall e :: e in order <==> e in keys
    decreases keys
  {
    if keys == {} {
      order := [];
    } else {
      var e :| e in keys;
      var rest := OrderOf(keys - {e});
      order := rest + [e];
      assert multiset(keys) == multiset(keys - {e}) + multiset{e};
    }
    forall e
      ensures e in order <==> e in keys
    {
      assert e in order <==> e in multiset(order);
      assert e in keys <==> e in multiset(keys);
    }
  }

  lemma VisitsOnce(order: seq<Endpoint>, keys: set<Endpoint>, i: nat)
    requires multiset(order) == multiset(keys) && i < |order|
    ensures order[i] !in order[..i] && order[i] !in order[i + 1..] && order[i] in keys
  {
    var before, e, after := order[..i], order[i], order[i + 1..];
    assert order == before + [e] + after;
    assert multiset(order) == multiset(before) + multiset{e} + multiset(after);
    assert e in multiset(order) && multiset(keys)[e] <= 1;
    assert e in before <==> e in multiset(before);
    assert e in after <==> e in multiset(after);
  }

  lemma VisitsAll(order: seq<Endpoint>, keys: set<Endpoint>, e: Endpoint)
    requires multiset(order) == multiset(keys)
    ensures e in order <==> e in keys
  {
    assert e in order <==> e in multiset(order);
    assert e in keys <==> e in multiset(keys);
  }

  /** c is best among the later ones, and no earlier one beats the empty endpoint. */
  lemma BeatenByEmpty(f: Field, before: seq<Endpoint>, after: seq<Endpoint>, c: Endpoint)
    requires f.Valid() && EMPTY_ENDPOINT in f.ok && c in f.ok && f.Best(c, after) && f.Beaten(c)
    requires forall x :: x in f.ok ==> x in before || x == EMPTY_ENDPOINT || x in after
    requires forall x :: x in before && x in f.ok ==> !f.Beats(x, EMPTY_ENDPOINT)
    ensures f.EmptyIsBest() && f.Beats(EMPTY_ENDPOINT, c)
  {
    hide Field.Beats;
    var x :| x in f.ok && f.Beats(x, c);
    f.BeatsIsWeakOrder(EMPTY_ENDPOINT, x, c);
    forall y | y in f.ok
      ensures !f.Beats(y, EMPTY_ENDPOINT)
    {
      f.BeatsIsWeakOrder(y, EMPTY_ENDPOINT, c);
      f.BeatsIsWeakOrder(EMPTY_ENDPOINT, c, y);
      f.BeatsIsWeakOrder(EMPTY_ENDPOINT, y, y);
    }
  }

  /** A search that returns a beaten endpoint: the empty one was a best one, and beats what was found. */
  lemma BeatenOnlyIf(f: Field, keys: set<Endpoint>, order: seq<Endpoint>)
    requires f.Valid() && f.ok <= keys && f.Visits(order, keys) && f.Beaten(f.Pick(order))
    ensures f.EmptyIsBest() && f.Beats(EMPTY_ENDPOINT, f.Pick(order))
  {
    hide Field.Beats, Field.Pick;
    forall e
      ensures e in order <==> e in keys
    {
      VisitsAll(order, keys, e);
    }
    if EMPTY_ENDPOINT !in f.ok {
      f.PickIsBest(order);
      assert false;
    }
    var i :| 0 <= i < |order| && order[i] == EMPTY_ENDPOINT;
    VisitsOnce(order, keys, i);
    var before, after := order[..i], order[i + 1..];
    assert order == before + [EMPTY_ENDPOINT] + after;
    f.PickAround(before, after);
    if f.Skips(before) {
      assert false;
    }
    BestOfBefore(f, before);
    BeatenByEmpty(f, before, after, f.Pick(order));
  }

  lemma BestOfBefore(f: Field, before: seq<Endpoint>)
    requires f.Valid() && EMPTY_ENDPOINT in f.ok && EMPTY_ENDPOINT !in before && !f.Skips(before)
    ensures forall x :: x in before && x in f.ok ==> !f.Beats(x, EMPTY_ENDPOINT)
  {
    hide Field.Beats;
    f.PickIsBest(before);
    forall x | x in before && x in f.ok
      ensures !f.Beats(x, EMPTY_ENDPOINT)
    {
      f.BeatsIsWeakOrder(x, EMPTY_ENDPOINT, f.Pick(before));
    }
  }

  /** An order that visits the empty endpoint after all others but those given. */
  lemma OrderAround(keys: set<Endpoint>, after: seq<Endpoint>) returns (before: seq<Endpoint>)
    requires EMPTY_ENDPOINT in keys && EMPTY_ENDPOINT !in after && |after| <= 1 && forall y :: y in after ==> y in keys
    ensures multiset(before + [EMPTY_ENDPOINT] + after) == multiset(keys)
    ensures EMPTY_ENDPOINT !in before && forall x :: x in before ==> x in keys
  {
    var others := keys - {EMPTY_ENDPOINT};
    assert multiset(keys) == multiset(others) + multiset{EMPTY_ENDPOINT};
    if after == [] {
      before := OrderOf(others);
      assert before + [EMPTY_ENDPOINT] + after == before + [EMPTY_ENDPOINT];
    } else {
      before := OrderOf(others - {after[0]});
      assert after == [after[0]];
      assert multiset(others) == multiset(others - {after[0]}) + multiset{after[0]};
    }
  }

  /** A best one that is empty is forgotten for y when y comes right after it and both come last. */
  lemma ForgottenFor(f: Field, keys: set<Endpoint>, y: Endpoint) returns (order: seq<Endpoint>)
    requires f.Valid() && f.ok <= keys && f.EmptyIsBest() && y in f.ok && y != EMPTY_ENDPOINT
    ensures f.Visits(order, keys) && f.Pick(order) == y
  {
    hide Field.Beats;
    var before := OrderAround(keys, [y]);
    order := before + [EMPTY_ENDPOINT] + [y];
    f.PickIsBest(before);
    f.PickAround(before, [y]);
    assert y in [y];
  }

  /** Some order makes the search return a beaten endpoint exactly when the empty
      endpoint is a best one and beats another one. */
  lemma BeatenIff(f: Field, keys: set<Endpoint>)
    requires f.Valid() && f.ok <= keys
    ensures (exists order :: f.Visits(order, keys) && f.Beaten(f.Pick(order)))
            <==> f.EmptyIsBest() && exists y :: y in f.ok && f.Beats(EMPTY_ENDPOINT, y)
  {
    hide Field.Beats, Field.Pick;
    if order :| f.Visits(order, keys) && f.Beaten(f.Pick(order)) {
      BeatenOnlyIf(f, keys, order);
    }
    if f.EmptyIsBest() {
      if y :| y in f.ok && f.Beats(EMPTY_ENDPOINT, y) {
        f.BeatsIsWeakOrder(y, y, y);
        var order := ForgottenFor(f, keys, y);
        assert f.Beaten(f.Pick(order));
      }
    }
  }

  /** A search that misses: it returns the empty endpoint although something may be
      returned, or returns a beaten one. */
  ghost predicate Misses(f: Field, c: Endpoint)
    requires f.Valid()
  {
    f.ok != {} && (c == EMPTY_ENDPOINT || f.Beaten(c))
  }

  lemma EmptyOnlyIf(f: Field, keys: set<Endpoint>, order: seq<Endpoint>)
    requires f.Valid() && f.ok <= keys && f.ok != {} && f.Visits(order, keys) && f.Pick(order) == EMPTY_ENDPOINT
    ensures f.EmptyIsBest()
  {
    hide Field.Beats;
    forall e
      ensures e in order <==> e in keys
    {
      VisitsAll(order, keys, e);
    }
    if EMPTY_ENDPOINT !in f.ok {
      f.PickIsBest(order);
      assert false;
    }
    var i :| 0 <= i < |order| && order[i] == EMPTY_ENDPOINT;
    VisitsOnce(order, keys, i);
    var before, after := order[..i], order[i + 1..];
    assert order == before + [EMPTY_ENDPOINT] + after;
    f.PickAround(before, after);
    if f.Skips(before) {
      SkippedIsKept(f, before, after);
      assert false;
    }
    BestOfBefore(f, before);
    f.BeatsIsWeakOrder(EMPTY_ENDPOINT, EMPTY_ENDPOINT, EMPTY_ENDPOINT);
  }

  /** What beats the empty endpoint is not replaced by it. */
  lemma {:induction false} SkippedIsKept(f: Field, before: seq<Endpoint>, after: seq<Endpoint>)
    requires f.Valid() && EMPTY_ENDPOINT in f.ok && f.Skips(before) && EMPTY_ENDPOINT !in after
    ensures f.Pick(before + [EMPTY_ENDPOINT] + after) != EMPTY_ENDPOINT
  {
    var head := before + [EMPTY_ENDPOINT];
    if after == [] {
      assert head + [] == head;
      f.PickNext(before, EMPTY_ENDPOINT);
    } else {
      var front, e := after[..|after| - 1], after[|after| - 1];
      assert head + after == (head + front) + [e];
      SkippedIsKept(f, before, front);
      f.PickNext(head + front, e);
    }
  }

  /** Some order makes a search for something to use miss exactly when the empty endpoint is a best one. */
  lemma MissesIff(f: Field, keys: set<Endpoint>)
    requires f.Valid() && f.ok <= keys
    ensures (exists order :: f.Visits(order, keys) && Misses(f, f.Pick(order))) <==> f.EmptyIsBest()
  {
    hide Field.Beats, Field.Pick;
    if order :| f.Visits(order, keys) && Misses(f, f.Pick(order)) {
      if f.Pick(order) == EMPTY_ENDPOINT {
        EmptyOnlyIf(f, keys, order);
      } else {
        BeatenOnlyIf(f, keys, order);
      }
    }
    if f.EmptyIsBest() {
      var before := OrderAround(keys, []);
      f.PickIsBest(before);
      f.PickAround(before, []);
      assert Misses(f, f.Pick(before + [EMPTY_ENDPOINT] + []));
    }
  }
}
