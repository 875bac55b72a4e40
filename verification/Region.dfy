/** Sets of byte offsets kept as lists of half-open ranges (data/region.go). */
module Regions {

  datatype Range = Range(begin: nat, end: nat)

  predicate Holds(r: Range, x: int) {
    r.begin <= x < r.end
  }

  /** What is left of one range when another is taken away. */
  function SubRange(seg1: Range, seg2: Range): seq<Range> {
    if seg1.begin < seg2.begin && seg1.end > seg2.end then
      [Range(seg1.begin, seg2.begin), Range(seg2.end, seg1.end)]
    else if seg1.end <= seg2.begin || seg2.end <= seg1.begin then
      [seg1]
    else if seg2.begin > seg1.begin && seg2.begin < seg1.end then
      [Range(seg1.begin, seg2.begin)]
    else if seg2.end > seg1.begin && seg2.end < seg1.end then
      [Range(seg2.end, seg1.end)]
    else
      []
  }

  function SubAll(segs: seq<Range>, r: Range): seq<Range> {
    if segs == [] then []
    else SubAll(segs[..|segs| - 1], r) + SubRange(segs[|segs| - 1], r)
  }

  ghost predicate Covers(segs: seq<Range>, x: int) {
    exists i :: 0 <= i < |segs| && Holds(segs[i], x)
  }

  /** Nonempty ranges in increasing order that do not overlap. */
  ghost predicate Sorted(segs: seq<Range>) {
    && (forall i :: 0 <= i < |segs| ==> segs[i].begin < segs[i].end)
    && (forall i, j :: 0 <= i < j < |segs| ==> segs[i].end <= segs[j].begin)
  }

  predicate Splits(seg: Range, r: Range) {
    seg.begin < r.begin && seg.end > r.end
  }

  lemma SubRangeRemoves(seg: Range, r: Range, x: int)
    requires seg.begin < seg.end && r.begin <= r.end
    ensures Sorted(SubRange(seg, r))
    ensures Covers(SubRange(seg, r), x) <==> Holds(seg, x) && !Holds(r, x)
    ensures forall t :: t in SubRange(seg, r) ==> seg.begin <= t.begin && t.end <= seg.end
    ensures |SubRange(seg, r)| <= if Splits(seg, r) then 2 else 1
  {
    var s := SubRange(seg, r);
    if |s| == 2 {
      assert Covers(s, x) <==> Holds(s[0], x) || Holds(s[1], x);
    } else if |s| == 1 {
      assert Covers(s, x) <==> Holds(s[0], x);
    }
  }

  lemma CoversConcat(a: seq<Range>, b: seq<Range>, x: int)
    ensures Covers(a + b, x) <==> Covers(a, x) || Covers(b, x)
  {
    if Covers(a, x) {
      var i :| 0 <= i < |a| && Holds(a[i], x);
      assert Holds((a + b)[i], x);
    }
    if Covers(b, x) {
      var i :| 0 <= i < |b| && Holds(b[i], x);
      assert Holds((a + b)[|a| + i], x);
    }
  }

  lemma SortedConcat(a: seq<Range>, b: seq<Range>)
    requires Sorted(a) && Sorted(b)
    requires forall t, u :: t in a && u in b ==> t.end <= u.begin
    ensures Sorted(a + b)
  {
    var s := a + b;
    forall i, j | 0 <= i < j < |s|
      ensures s[i].end <= s[j].begin
    {
      if i < |a| <= j {
        assert a[i] in a && b[j - |a|] in b;
      }
    }
  }

  /** Subtraction removes exactly the offsets of r and keeps the list sorted. */
  lemma {:induction false} SubAllRemoves(segs: seq<Range>, r: Range)
    requires Sorted(segs) && r.begin <= r.end
    ensures Sorted(SubAll(segs, r))
    ensures forall x :: Covers(SubAll(segs, r), x) <==> Covers(segs, x) && !Holds(r, x)
    ensures forall t :: t in SubAll(segs, r) ==> segs != [] && t.end <= segs[|segs| - 1].end
  {
    if segs != [] {
      var n := |segs| - 1;
      var init, last := segs[..n], segs[n];
      SubAllRemoves(init, r);
      var a, b := SubAll(init, r), SubRange(last, r);
      SubRangeRemoves(last, r, 0);
      SortedConcat(a, b);
      forall x
        ensures Covers(a + b, x) <==> Covers(segs, x) && !Holds(r, x)
      {
        CoversConcat(a, b, x);
        SubRangeRemoves(last, r, x);
        CoversConcat(init, [last], x);
        assert segs == init + [last];
        assert Covers([last], x) <==> Holds([last][0], x);
      }
    }
  }

  /** Subtraction splits at most one range. */
  lemma {:induction false} SubAllGrowsByOne(segs: seq<Range>, r: Range)
    requires Sorted(segs) && r.begin <= r.end
    ensures |SubAll(segs, r)| <= |segs| + 1
    ensures segs != [] && segs[|segs| - 1].end <= r.end ==> |SubAll(segs, r)| <= |segs|
  {
    if segs != [] {
      var n := |segs| - 1;
      SubAllGrowsByOne(segs[..n], r);
      SubRangeRemoves(segs[n], r, 0);
    }
  }

  lemma UnsortedPart(a: seq<Range>, b: seq<Range>)
    requires Sorted(a + b)
    ensures Sorted(a) && Sorted(b)
  {
    var s := a + b;
    assert forall i :: 0 <= i < |a| ==> a[i] == s[i];
    assert forall i :: 0 <= i < |b| ==> b[i] == s[|a| + i];
  }

  /** A range given backwards takes nothing from a segment unless it splits it into two that overlap. */
  lemma SubRangeBackward(seg: Range, r: Range)
    requires seg.begin < seg.end && r.end < r.begin
    ensures !Splits(seg, r) ==> SubRange(seg, r) == [seg]
    ensures Splits(seg, r) ==> !Sorted(SubRange(seg, r))
  {
    if Splits(seg, r) {
      assert SubRange(seg, r)[0].end > SubRange(seg, r)[1].begin;
    }
  }

  lemma {:induction false} SubAllBackward(segs: seq<Range>, r: Range)
    requires Sorted(segs) && r.end < r.begin
    ensures (forall s :: s in segs ==> !Splits(s, r)) ==> SubAll(segs, r) == segs
    ensures (exists s :: s in segs && Splits(s, r)) ==> !Sorted(SubAll(segs, r))
  {
    if segs != [] {
      var init, last := segs[..|segs| - 1], segs[|segs| - 1];
      assert segs == init + [last];
      SubAllBackward(init, r);
      SubRangeBackward(last, r);
      if Sorted(SubAll(segs, r)) {
        UnsortedPart(SubAll(init, r), SubRange(last, r));
      }
    }
  }

  /** The order survives exactly when the range is not given backwards, or splits no segment. */
  lemma SubAllSortedIff(segs: seq<Range>, r: Range)
    requires Sorted(segs)
    ensures Sorted(SubAll(segs, r)) <==> r.begin <= r.end || forall s :: s in segs ==> !Splits(s, r)
  {
    if r.begin <= r.end {
      SubAllRemoves(segs, r);
    } else {
      SubAllBackward(segs, r);
    }
  }

  class Region {
    var Segments: seq<Range>

    constructor MakeRegion(r: Range)
      ensures Segments == [r]
    {
      Segments := [r];
    }

    method Sub(seg: Range)
      modifies this
      ensures Segments == SubAll(old(Segments), seg)
    {
      var res: seq<Range> := [];
      for i := 0 to |Segments|
        invariant Segments == old(Segments)
        invariant res == SubAll(Segments[..i], seg)
      {
        assert Segments[..i + 1][..i] == Segments[..i];
        res := res + SubRange(Segments[i], seg);
      }
      assert Segments[..|Segments|] == Segments;
      Segments := res;
    }

    predicate IsEmpty()
      reads this
    {
      |Segments| == 0
    }
  }
}
