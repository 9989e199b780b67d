/**
 Which bytes a list of regions covers, and the one list of sorted, non-touching regions that
 covers the bytes of the selected tags of a structure block.
 */
module FdtRuns {
  import opened FdtTags

  function Stop(r: Region): int {
    r.offset + r.size
  }

  /** Sorted, non-empty and never touching. */
  ghost predicate Separated(rs: seq<Region>) {
    && (forall i :: 0 <= i < |rs| ==> rs[i].size > 0)
    && (forall i, j :: 0 <= i < j < |rs| ==> Stop(rs[i]) < rs[j].offset)
  }

  /** Byte `x` lies in one of the regions. */
  ghost predicate Holds(rs: seq<Region>, x: int) {
    exists i :: 0 <= i < |rs| && rs[i].offset <= x < Stop(rs[i])
  }

  /** A tag is covered when it is included, or when it is the END_NODE that ends an open run. */
  predicate Covered(tags: seq<Tag>, inc: seq<bool>, i: nat)
    requires i < |inc| <= |tags|
  {
    inc[i] || (tags[i].EndNode? && i > 0 && inc[i - 1])
  }

  function Extend(rs: seq<Region>, to: int): seq<Region>
    requires rs != []
  {
    var k := |rs| - 1;
    rs[k := Region(rs[k].offset, to - rs[k].offset)]
  }

  /** Adding the bytes [from, to) after the last region, as a new region or by extending it. */
  function Add(rs: seq<Region>, from: int, to: int): seq<Region> {
    if rs != [] && Stop(rs[|rs| - 1]) == from then Extend(rs, to)
    else rs + [Region(from, to - from)]
  }

  /** The maximal runs of covered tags among the first `n` tags. */
  function Runs(base: nat, tags: seq<Tag>, inc: seq<bool>, n: nat): seq<Region>
    requires n <= |inc| <= |tags|
  {
    if n == 0 then [] else
    var rs := Runs(base, tags, inc, n - 1);
    var from, to := base + Offset(tags, n - 1), base + Offset(tags, n);
    if Covered(tags, inc, n - 1) then Add(rs, from, to) else rs
  }

  lemma ExtendHolds(rs: seq<Region>, to: int, x: int)
    requires rs != [] && Stop(rs[|rs| - 1]) < to && rs[|rs| - 1].size > 0
    ensures Holds(Extend(rs, to), x) <==> Holds(rs, x) || Stop(rs[|rs| - 1]) <= x < to
  {
    var n, more := |rs| - 1, Extend(rs, to);
    assert forall k :: 0 <= k < n ==> more[k] == rs[k];
    assert more[n].offset == rs[n].offset && Stop(more[n]) == to;
  }

  lemma AppendHolds(rs: seq<Region>, r: Region, x: int)
    ensures Holds(rs + [r], x) <==> Holds(rs, x) || r.offset <= x < Stop(r)
  {
    var more := rs + [r];
    assert forall k :: 0 <= k < |rs| ==> more[k] == rs[k];
    assert more[|rs|] == r;
  }

  lemma AddExact(rs: seq<Region>, from: int, to: int)
    requires Separated(rs) && from < to
    requires forall k :: 0 <= k < |rs| ==> Stop(rs[k]) <= from
    ensures Separated(Add(rs, from, to))
    ensures forall x :: Holds(Add(rs, from, to), x) <==> Holds(rs, x) || from <= x < to
  {
    forall x ensures Holds(Add(rs, from, to), x) <==> Holds(rs, x) || from <= x < to {
      if rs != [] && Stop(rs[|rs| - 1]) == from {
        ExtendHolds(rs, to, x);
      } else {
        AppendHolds(rs, Region(from, to - from), x);
      }
    }
  }

  /** Byte `x` belongs to a covered tag among the first `n`. */
  ghost predicate Selected(base: nat, tags: seq<Tag>, inc: seq<bool>, n: nat, x: int)
    requires n <= |inc| <= |tags|
  {
    exists i :: 0 <= i < n && base + Offset(tags, i) <= x < base + Offset(tags, i + 1) && Covered(tags, inc, i)
  }

  /** `Runs` is separated and holds exactly the bytes of the covered tags. */
  lemma {:induction false} RunsExact(base: nat, tags: seq<Tag>, inc: seq<bool>, n: nat)
    requires n <= |inc| <= |tags|
    ensures var rs := Runs(base, tags, inc, n);
      && Separated(rs)
      && (forall k :: 0 <= k < |rs| ==> Stop(rs[k]) <= base + Offset(tags, n))
      && (forall x :: Holds(rs, x) <==> Selected(base, tags, inc, n, x))
  {
    if n > 0 {
      RunsExact(base, tags, inc, n - 1);
      var from, to := base + Offset(tags, n - 1), base + Offset(tags, n);
      AddExact(Runs(base, tags, inc, n - 1), from, to);
      forall x
        ensures Selected(base, tags, inc, n, x) <==>
          Selected(base, tags, inc, n - 1, x) || (Covered(tags, inc, n - 1) && from <= x < to)
      {
        SelectedStep(base, tags, inc, n, x);
      }
    }
  }

  lemma SelectedStep(base: nat, tags: seq<Tag>, inc: seq<bool>, n: nat, x: int)
    requires 0 < n <= |inc| <= |tags|
    ensures Selected(base, tags, inc, n, x) <==>
      || Selected(base, tags, inc, n - 1, x)
      || (Covered(tags, inc, n - 1) && base + Offset(tags, n - 1) <= x < base + Offset(tags, n))
  {
    assert Offset(tags, n - 1 + 1) == Offset(tags, n);
  }

  /** Two separated lists that hold the same bytes are the same list. */
  lemma {:induction false} SeparatedUnique(a: seq<Region>, b: seq<Region>)
    requires Separated(a) && Separated(b)
    requires forall x :: Holds(a, x) <==> Holds(b, x)
    ensures a == b
  {
    if a == [] || b == [] {
      if a != [] { assert Holds(a, a[0].offset) by { assert a[0].offset < Stop(a[0]); } }
      if b != [] { assert Holds(b, b[0].offset) by { assert b[0].offset < Stop(b[0]); } }
    } else {
      FirstUnique(a, b);
      forall x
        ensures Holds(a[1..], x) <==> Holds(b[1..], x)
      {
        HoldsTail(a, x);
        HoldsTail(b, x);
      }
      assert Separated(a[1..]) && Separated(b[1..]);
      SeparatedUnique(a[1..], b[1..]);
      assert a == [a[0]] + a[1..] && b == [b[0]] + b[1..];
    }
  }

  lemma HoldsTail(a: seq<Region>, x: int)
    requires Separated(a) && a != []
    ensures Holds(a[1..], x) <==> Holds(a, x) && x > Stop(a[0])
  {
    if Holds(a[1..], x) {
      var k :| 0 <= k < |a[1..]| && a[1..][k].offset <= x < Stop(a[1..][k]);
      assert a[k + 1].offset <= x < Stop(a[k + 1]);
    }
    if Holds(a, x) && x > Stop(a[0]) {
      var k :| 0 <= k < |a| && a[k].offset <= x < Stop(a[k]);
      assert a[1..][k - 1].offset <= x < Stop(a[1..][k - 1]);
    }
  }

  lemma FirstUnique(a: seq<Region>, b: seq<Region>)
    requires Separated(a) && Separated(b) && a != [] && b != []
    requires forall x :: Holds(a, x) <==> Holds(b, x)
    ensures a[0] == b[0]
  {
    FirstNotBefore(a, b);
    FirstNotBefore(b, a);
    assert !Holds(a, Stop(a[0])) && !Holds(b, Stop(b[0]));
  }

  lemma FirstNotBefore(a: seq<Region>, b: seq<Region>)
    requires Separated(a) && Separated(b) && a != [] && b != []
    requires forall x :: Holds(a, x) <==> Holds(b, x)
    ensures b[0].offset <= a[0].offset
  {
    assert a[0].offset < Stop(a[0]);
    assert Holds(a, a[0].offset);
  }
}
