/**
 Half-open millisecond ranges, possibly open below, and the multirange arithmetic of the coverage
 queries: the missing windows (a request minus the proven ranges) and the history high-water mark.
 */
module Ranges {
  import opened Common

  datatype Range = Range(since: Option<int>, until: int) {
    predicate Contains(m: int) {
      (since.None? || since.value <= m) && m < until
    }

    predicate Nonempty() {
      since.None? || since.value < until
    }
  }

  ghost predicate In(fs: seq<Range>, m: int) {
    exists i :: 0 <= i < |fs| && fs[i].Contains(m)
  }

  /** x is newer than y, with at least one millisecond between them. */
  predicate Newer(x: Range, y: Range) {
    x.since.Some? && y.until < x.since.value
  }

  /** The canonical form of a multirange: nonempty fragments, newest first, none touching. */
  ghost predicate Normal(fs: seq<Range>) {
    && (forall i :: 0 <= i < |fs| ==> fs[i].Nonempty())
    && (forall i, j :: 0 <= i < j < |fs| ==> Newer(fs[i], fs[j]))
  }

  function Piece(r: Range): seq<Range> {
    if r.Nonempty() then [r] else []
  }

  /** One fragment minus one range: what lies above it, then what lies below it. */
  function Subtract(f: Range, r: Range): seq<Range> {
    if !r.Nonempty() then Piece(f)
    else
      Piece(Range(Some(if f.since.Some? then Max(f.since.value, r.until) else r.until), f.until)) +
      (if r.since.Some? then Piece(Range(f.since, Min(f.until, r.since.value))) else [])
  }

  function Cut(fs: seq<Range>, r: Range): seq<Range> {
    if fs == [] then [] else Subtract(fs[0], r) + Cut(fs[1..], r)
  }

  /** The requested window minus every proven range. */
  function Missing(proven: seq<Range>, window: Range): seq<Range> {
    if proven == [] then Piece(window)
    else Cut(Missing(proven[..|proven| - 1], window), proven[|proven| - 1])
  }

  lemma InConcat(a: seq<Range>, b: seq<Range>, m: int)
    ensures In(a + b, m) <==> In(a, m) || In(b, m)
  {
    if In(a, m) {
      var i :| 0 <= i < |a| && a[i].Contains(m);
      assert (a + b)[i].Contains(m);
    }
    if In(b, m) {
      var i :| 0 <= i < |b| && b[i].Contains(m);
      assert (a + b)[|a| + i].Contains(m);
    }
  }

  lemma InPiece(r: Range, m: int)
    ensures In(Piece(r), m) <==> r.Contains(m)
  {
    if r.Contains(m) {
      assert Piece(r)[0].Contains(m);
    }
  }

  lemma SubtractMeaning(f: Range, r: Range, m: int)
    ensures In(Subtract(f, r), m) <==> f.Contains(m) && !r.Contains(m)
  {
    InPiece(f, m);
    var above := Range(Some(if f.since.Some? then Max(f.since.value, r.until) else r.until), f.until);
    InPiece(above, m);
    if r.since.Some? {
      var below := Range(f.since, Min(f.until, r.since.value));
      InPiece(below, m);
      InConcat(Piece(above), Piece(below), m);
    } else {
      InConcat(Piece(above), [], m);
    }
  }

  lemma {:induction false} CutMeaning(fs: seq<Range>, r: Range, m: int)
    ensures In(Cut(fs, r), m) <==> In(fs, m) && !r.Contains(m)
  {
    if fs != [] {
      CutMeaning(fs[1..], r, m);
      SubtractMeaning(fs[0], r, m);
      InConcat(Subtract(fs[0], r), Cut(fs[1..], r), m);
      InConcat([fs[0]], fs[1..], m);
      assert [fs[0]] + fs[1..] == fs;
      assert In([fs[0]], m) <==> fs[0].Contains(m) by {
        if fs[0].Contains(m) {
          assert [fs[0]][0].Contains(m);
        }
      }
    }
  }

  lemma SubtractNormal(f: Range, r: Range)
    ensures Normal(Subtract(f, r))
    ensures forall i :: 0 <= i < |Subtract(f, r)| ==>
              && Subtract(f, r)[i].until <= f.until
              && (f.since.Some? ==> Subtract(f, r)[i].since.Some? && f.since.value <= Subtract(f, r)[i].since.value)
  {}

  lemma NormalTail(fs: seq<Range>)
    requires Normal(fs) && fs != []
    ensures Normal(fs[1..])
    ensures forall j :: 0 <= j < |fs[1..]| ==> Newer(fs[0], fs[1..][j])
  {
    forall j | 0 <= j < |fs[1..]|
      ensures Newer(fs[0], fs[1..][j])
    {
      assert Newer(fs[0], fs[j + 1]);
    }
    forall i, j | 0 <= i < j < |fs[1..]|
      ensures Newer(fs[1..][i], fs[1..][j])
    {
      assert Newer(fs[i + 1], fs[j + 1]);
    }
  }

  lemma NormalConcat(a: seq<Range>, b: seq<Range>)
    requires Normal(a) && Normal(b)
    requires forall i, j :: 0 <= i < |a| && 0 <= j < |b| ==> Newer(a[i], b[j])
    ensures Normal(a + b)
  {
    forall i, j | 0 <= i < j < |a + b|
      ensures Newer((a + b)[i], (a + b)[j])
    {
      if i < |a| <= j {
        assert Newer(a[i], b[j - |a|]);
      } else if j < |a| {
        assert Newer(a[i], a[j]);
      } else {
        assert Newer(b[i - |a|], b[j - |a|]);
      }
    }
  }

  lemma {:induction false} CutNormal(fs: seq<Range>, r: Range)
    requires Normal(fs)
    ensures Normal(Cut(fs, r))
    ensures fs != [] ==> forall i :: 0 <= i < |Cut(fs, r)| ==> Cut(fs, r)[i].until <= fs[0].until
  {
    if fs != [] {
      NormalTail(fs);
      CutNormal(fs[1..], r);
      SubtractNormal(fs[0], r);
      var head, tail := Subtract(fs[0], r), Cut(fs[1..], r);
      forall i, j | 0 <= i < |head| && 0 <= j < |tail|
        ensures Newer(head[i], tail[j])
      {
        assert Newer(fs[0], fs[1..][0]);
      }
      NormalConcat(head, tail);
      assert fs[0].Nonempty();
      assert tail != [] ==> Newer(fs[0], fs[1..][0]);
    }
  }

  /** The query returns the canonical form of exactly the uncovered part of the window. */
  lemma {:induction false} MissingMeaning(proven: seq<Range>, window: Range)
    ensures Normal(Missing(proven, window))
    ensures forall m :: In(Missing(proven, window), m) <==> window.Contains(m) && !In(proven, m)
  {
    if proven == [] {
      forall m
        ensures In(Missing(proven, window), m) <==> window.Contains(m)
      {
        InPiece(window, m);
      }
    } else {
      var n := |proven| - 1;
      MissingMeaning(proven[..n], window);
      CutNormal(Missing(proven[..n], window), proven[n]);
      forall m
        ensures In(Missing(proven, window), m) <==> window.Contains(m) && !In(proven, m)
      {
        CutMeaning(Missing(proven[..n], window), proven[n], m);
        assert proven == proven[..n] + [proven[n]];
        InConcat(proven[..n], [proven[n]], m);
        InSingle(proven[n], m);
      }
    }
  }

  lemma InSingle(r: Range, m: int)
    ensures In([r], m) <==> r.Contains(m)
  {
    if r.Contains(m) {
      assert [r][0].Contains(m);
    }
  }

  /** A canonical list's first fragment is its newest maximal run of members. */
  lemma FirstFragment(fs: seq<Range>)
    requires Normal(fs) && fs != []
    ensures In(fs, fs[0].until - 1) && forall m :: In(fs, m) ==> m < fs[0].until
    ensures forall m :: fs[0].Contains(m) ==> In(fs, m)
    ensures fs[0].since.Some? ==> !In(fs, fs[0].since.value - 1)
    ensures forall m :: In(fs[1..], m) <==> In(fs, m) && !fs[0].Contains(m)
  {
    assert fs[0].Contains(fs[0].until - 1);
    forall m
      ensures In(fs[1..], m) <==> In(fs, m) && !fs[0].Contains(m)
      ensures In(fs, m) ==> m < fs[0].until
    {
      InConcat([fs[0]], fs[1..], m);
      InSingle(fs[0], m);
      assert [fs[0]] + fs[1..] == fs;
      if In(fs[1..], m) {
        var i :| 0 <= i < |fs[1..]| && fs[1..][i].Contains(m);
        assert Newer(fs[0], fs[i + 1]);
      }
    }
  }

  /** Two canonical lists with the same members are the same list. */
  lemma {:induction false} CanonicalUnique(a: seq<Range>, b: seq<Range>)
    requires Normal(a) && Normal(b) && forall m :: In(a, m) <==> In(b, m)
    ensures a == b
  {
    if a != [] {
      FirstFragment(a);
      assert In(b, a[0].until - 1);
      assert b != [];
    }
    if b != [] {
      FirstFragment(b);
      assert In(a, b[0].until - 1);
      assert a != [];
      SameFirst(a, b);
      NormalTail(a);
      NormalTail(b);
      CanonicalUnique(a[1..], b[1..]);
      assert a == [a[0]] + a[1..] && b == [b[0]] + b[1..];
    }
  }

  lemma SameFirst(a: seq<Range>, b: seq<Range>)
    requires Normal(a) && Normal(b) && a != [] && b != [] && forall m :: In(a, m) <==> In(b, m)
    ensures a[0] == b[0]
  {
    FirstFragment(a);
    FirstFragment(b);
    assert In(b, a[0].until - 1) && In(a, b[0].until - 1);
    assert a[0].until == b[0].until;
    if a[0].since.Some? {
      assert !In(b, a[0].since.value - 1);
      assert !b[0].Contains(a[0].since.value - 1);
    }
    if b[0].since.Some? {
      assert !In(a, b[0].since.value - 1);
      assert !a[0].Contains(b[0].since.value - 1);
    }
  }

  /** Proving more of the window cuts the missing list, whatever the order of the proven rows. */
  lemma MissingAfter(proven: seq<Range>, more: seq<Range>, window: Range, r: Range)
    requires forall m :: In(more, m) <==> In(proven, m) || r.Contains(m)
    ensures Missing(more, window) == Cut(Missing(proven, window), r)
  {
    MissingMeaning(proven, window);
    MissingMeaning(more, window);
    var fs := Missing(proven, window);
    CutNormal(fs, r);
    forall m
      ensures In(Missing(more, window), m) <==> In(Cut(fs, r), m)
    {
      CutMeaning(fs, r, m);
    }
    CanonicalUnique(Missing(more, window), Cut(fs, r));
  }

  /** A cut inside the first fragment down to `low` leaves its lower part and the other fragments. */
  lemma CutFirst(fs: seq<Range>, low: Option<int>)
    requires Normal(fs) && fs != []
    requires low.Some? ==> low.value <= fs[0].until && (fs[0].since.None? || fs[0].since.value <= low.value)
    requires low.None? ==> fs[0].since.None?
    ensures Cut(fs, Range(low, fs[0].until)) ==
            (if low.None? then [] else Piece(Range(fs[0].since, low.value))) + fs[1..]
  {
    var r := Range(low, fs[0].until);
    NormalTail(fs);
    assert fs[1..] != [] ==> Newer(fs[0], fs[1..][0]);
    CutAbove(fs[1..], r);
    SubtractDown(fs[0], low);
    hide Subtract, Piece, Normal;
  }

  /** Cutting a fragment from its top down to `low` leaves what is older. */
  lemma SubtractDown(f: Range, low: Option<int>)
    requires f.Nonempty()
    requires low.Some? ==> low.value <= f.until && (f.since.None? || f.since.value <= low.value)
    requires low.None? ==> f.since.None?
    ensures Subtract(f, Range(low, f.until)) == if low.None? then [] else Piece(Range(f.since, low.value))
  {
    if low.Some? && low.value == f.until { assert Piece(f) == [f]; }
  }

  lemma {:induction false} CutAbove(fs: seq<Range>, r: Range)
    requires forall i :: 0 <= i < |fs| ==> fs[i].Nonempty()
    requires r.since.None? ==> fs == []
    requires r.since.Some? ==> forall i :: 0 <= i < |fs| ==> fs[i].until <= r.since.value
    ensures Cut(fs, r) == fs
  {
    if fs != [] {
      CutAbove(fs[1..], r);
      assert Subtract(fs[0], r) == [fs[0]];
      assert [fs[0]] + fs[1..] == fs;
    }
  }

  /*
   * The high-water mark: everything older is proven, and this millisecond is not.
   */

  ghost predicate IsHighWater(proven: seq<Range>, h: int) {
    (forall m :: m < h ==> In(proven, m)) && !In(proven, h)
  }

  ghost predicate OpenBelow(proven: seq<Range>) {
    exists i :: 0 <= i < |proven| && proven[i].since.None?
  }

  lemma HighWaterUnique(proven: seq<Range>, h: int, k: int)
    requires IsHighWater(proven, h) && IsHighWater(proven, k)
    ensures h == k
  {
    assert h < k ==> In(proven, h);
    assert k < h ==> In(proven, k);
  }

  /** The mark, when there is one. */
  ghost function HighWater(proven: seq<Range>): Option<int> {
    if h :| IsHighWater(proven, h) then Some(h) else None
  }

  function Floor(proven: seq<Range>): int {
    if proven == [] then 0
    else
      var rest := Floor(proven[1..]);
      if proven[0].since.Some? then Min(rest, proven[0].since.value) else rest
  }

  lemma {:induction false} NothingBelowFloor(proven: seq<Range>, m: int)
    requires !OpenBelow(proven) && m < Floor(proven)
    ensures !In(proven, m)
  {
    if proven != [] {
      assert proven[0].since.Some?;
      assert !OpenBelow(proven[1..]) by {
        forall i | 0 <= i < |proven[1..]|
          ensures proven[1..][i].since.Some?
        {
          assert proven[i + 1].since.Some?;
        }
      }
      NothingBelowFloor(proven[1..], m);
      assert [proven[0]] + proven[1..] == proven;
      InConcat([proven[0]], proven[1..], m);
      InSingle(proven[0], m);
    }
  }

  function Above(proven: seq<Range>, h: int): set<nat> {
    set i: nat | i < |proven| && proven[i].until > h
  }

  /** Start at the newest open range and climb through every range that contains the current mark. */
  method HistoryHighWater(proven: seq<Range>) returns (r: Option<int>)
    ensures r.Some? <==> OpenBelow(proven)
    ensures r == HighWater(proven)
  {
    r := None;
    for i := 0 to |proven|
      invariant r.None? ==> forall k :: 0 <= k < i ==> proven[k].since.Some?
      invariant r.Some? ==> OpenBelow(proven) && forall m :: m < r.value ==> In(proven, m)
    {
      if proven[i].since.None? && (r.None? || proven[i].until > r.value) {
        r := Some(proven[i].until);
        assert forall m :: m < r.value ==> proven[i].Contains(m);
      }
    }
    if r.None? {
      forall h
        ensures !IsHighWater(proven, h)
      {
        NothingBelowFloor(proven, Min(h, Floor(proven)) - 1);
      }
      return;
    }
    var h := r.value;
    while exists i: nat :: i < |proven| && proven[i].Contains(h)
      invariant forall m :: m < h ==> In(proven, m)
      decreases |Above(proven, h)|
    {
      var i: nat :| i < |proven| && proven[i].Contains(h);
      var next := proven[i].until;
      assert forall m :: h <= m < next ==> proven[i].Contains(m);
      assert i in Above(proven, h) && i !in Above(proven, next);
      FewerAbove(proven, h, next);
      h := next;
    }
    assert IsHighWater(proven, h);
    ghost var mark := HighWater(proven);
    HighWaterUnique(proven, h, mark.value);
    r := Some(h);
  }

  lemma FewerAbove(proven: seq<Range>, h: int, next: int)
    requires h < next && exists i: nat :: i in Above(proven, h) && i !in Above(proven, next)
    ensures |Above(proven, next)| < |Above(proven, h)|
  {
    var i: nat :| i in Above(proven, h) && i !in Above(proven, next);
    assert Above(proven, next) <= Above(proven, h) - {i};
    SubsetSize(Above(proven, next), Above(proven, h) - {i});
  }
}
