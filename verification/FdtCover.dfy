/**
 What the regions of a single pass of fdt_next_region() hold, tag by tag: one step of the walk adds the
 bytes of whole tags, and which tags these are follows from what is decided about the tag.
 */
module FdtCover {
  import opened FdtTags
  import opened FdtRuns
  import opened FdtIter
  import opened FdtResume

  ghost predicate InTag(job: Job, i: nat, x: int) {
    i < |job.blob.tags| && job.blob.base + Offset(job.blob.tags, i) <= x < job.blob.base + Offset(job.blob.tags, i + 1)
  }

  /** Byte `x` belongs to one of the tags. */
  ghost predicate InTags(job: Job, cov: set<nat>, x: int) {
    exists i :: i in cov && InTag(job, i, x)
  }

  lemma InTagsAdd(job: Job, cov: set<nat>, i: nat, x: int)
    ensures InTags(job, cov + {i}, x) <==> InTags(job, cov, x) || InTag(job, i, x)
  {
    if InTags(job, cov, x) {
      var k :| k in cov && InTag(job, k, x);
      assert k in cov + {i};
    }
  }

  // ----- regions behind the reserve map -----

  ghost predicate Below(rest: seq<Region>, edge: int) {
    forall k :: 0 <= k < |rest| ==> Stop(rest[k]) <= edge
  }

  ghost predicate Above(rest: seq<Region>, base: int) {
    forall k :: 0 <= k < |rest| ==> base <= rest[k].offset
  }

  /** have_node is set although no node is in a region: an empty reserve map ends where the structure block begins. */
  predicate FalseRoot(job: Job) {
    job.flags.addRsvmap && job.blob.rsvmap == job.blob.base
  }

  /**
   The list is `head`, which is the reserve map or nothing, and then `rest`. The next region may be merged,
   but not with the reserve map; have_node tells whether a region starts with the structure block.
   */
  ghost predicate Good(job: Job, head: seq<Region>, rest: seq<Region>, canMerge: bool, haveNode: bool) {
    && |head| <= 1 && Separated(rest) && Above(rest, job.blob.base)
    && canMerge == (rest != [] || head == [])
    && haveNode == (FalseRoot(job) || (rest != [] && rest[0].offset == job.blob.base))
  }

  lemma ExtendLast(head: seq<Region>, rest: seq<Region>, to: int)
    requires rest != []
    ensures Extend(head + rest, to) == head + Extend(rest, to) && (head + rest)[|head + rest| - 1] == rest[|rest| - 1]
  {
  }

  lemma PutAdds(head: seq<Region>, rest: seq<Region>, canMerge: bool, from: int, to: int)
    requires canMerge == (rest != [] || head == []) && Below(rest, from)
    ensures Put(head + rest, false, canMerge, from, to - from) == Slots(head + Add(rest, from, to))
  {
    if rest == [] {
      assert head + rest == head && Add(rest, from, to) == [Region(from, to - from)];
    } else {
      ExtendLast(head, rest, to);
      assert head + rest + [Region(from, to - from)] == head + (rest + [Region(from, to - from)]);
    }
  }

  lemma AddAt(rest: seq<Region>, base: int, from: int, to: int)
    requires Separated(rest) && Above(rest, base) && Below(rest, from) && base <= from < to
    ensures var rest' := Add(rest, from, to);
      && rest' != [] && Below(rest', to) && Above(rest', base)
      && rest'[0].offset == (if rest == [] then from else rest[0].offset) && (rest != [] ==> base < from)
  {
    if rest != [] {
      assert rest[0].size > 0;
      var k := |rest| - 1;
      if Stop(rest[k]) == from {
        assert forall i :: 0 <= i < k ==> Extend(rest, to)[i] == rest[i];
      }
    }
  }

  /** A region behind all others is added to `rest`. */
  lemma PutBehind(job: Job, head: seq<Region>, rest: seq<Region>, canMerge: bool, haveNode: bool, from: int, to: int)
    returns (rest': seq<Region>, haveNode': bool)
    requires Good(job, head, rest, canMerge, haveNode) && Below(rest, from) && job.blob.base <= from < to
    ensures Put(head + rest, false, canMerge, from, to - from) == Slots(head + rest')
    ensures haveNode' == (haveNode || PutsRoot(job, head + rest, canMerge, from)) && Good(job, head, rest', true, haveNode')
    ensures rest' != [] && Below(rest', to) && forall x :: Holds(rest', x) <==> Holds(rest, x) || from <= x < to
  {
    rest' := Add(rest, from, to);
    haveNode' := haveNode || PutsRoot(job, head + rest, canMerge, from);
    PutAdds(head, rest, canMerge, from, to);
    AddExact(rest, from, to);
    AddAt(rest, job.blob.base, from, to);
    RootPut(job, head, rest, canMerge, from);
  }

  lemma RootPut(job: Job, head: seq<Region>, rest: seq<Region>, canMerge: bool, from: int)
    requires canMerge == (rest != [] || head == []) && (rest != [] ==> job.blob.base < from)
    ensures PutsRoot(job, head + rest, canMerge, from) == (rest == [] && from == job.blob.base)
  {
    if rest == [] { assert head + rest == head; }
  }

  // ----- supernodes -----

  /** The levels from `i` on are in a region. */
  function RaiseFrom(levels: seq<Level>, i: nat): (r: seq<Level>)
    ensures |r| == |levels|
  {
    seq(|levels|, k requires 0 <= k < |levels| => if k < i then levels[k] else Raised(levels[k]))
  }

  /** The BEGIN_NODEs of the levels from `i` on that are not in a region yet. */
  function Missing(levels: seq<Level>, i: nat): set<nat>
    requires i <= |levels|
    decreases |levels| - i
  {
    if i == |levels| then {} else Missing(levels, i + 1) + if levels[i].included then {} else {levels[i].pos}
  }

  lemma {:induction false} MissingSame(levels: seq<Level>, levels': seq<Level>, i: nat)
    requires i <= |levels| == |levels'| && forall k :: i <= k < |levels| ==> levels[k] == levels'[k]
    ensures Missing(levels, i) == Missing(levels', i)
    decreases |levels| - i
  {
    if i < |levels| { MissingSame(levels, levels', i + 1); }
  }

  ghost predicate Rising(job: Job, levels: seq<Level>) {
    && (forall k :: 0 <= k < |levels| ==> levels[k].pos < |job.blob.tags|)
    && (forall j, k :: 0 <= j < k < |levels| ==> levels[j].pos < levels[k].pos)
  }

  /** Nothing at or after the BEGIN_NODE of a level that is not in a region is in one either. */
  ghost predicate Apart(job: Job, levels: seq<Level>, rest: seq<Region>, i: nat) {
    forall k :: i <= k < |levels| && !levels[k].included && levels[k].pos < |job.blob.tags| ==>
      Below(rest, job.blob.base + Offset(job.blob.tags, levels[k].pos))
  }

  /** What is left when the levels from `i` on have been put. */
  ghost predicate Chained(job: Job, levels: seq<Level>, i: nat, head: seq<Region>, rest: seq<Region>, c: Chain,
                          rest': seq<Region>, edge: int)
    requires i <= |levels|
  {
    && c.at == |levels| && c.levels == RaiseFrom(levels, i) && c.out == head + rest'
    && Good(job, head, rest', c.canMerge, c.haveNode) && Below(rest', edge)
    && forall x :: Holds(rest', x) <==> Holds(rest, x) || InTags(job, Missing(levels, i), x)
  }

  lemma RaiseNext(levels: seq<Level>, i: nat)
    requires i < |levels|
    ensures RaiseFrom(levels[i := Raised(levels[i])], i + 1) == RaiseFrom(levels, i)
  {
  }

  lemma RaiseDone(levels: seq<Level>)
    ensures RaiseFrom(levels, |levels|) == levels
  {
  }

  lemma OffsetRises(job: Job, i: nat, j: nat)
    requires i < j <= |job.blob.tags|
    ensures Offset(job.blob.tags, i) < Offset(job.blob.tags, i + 1) <= Offset(job.blob.tags, j)
  {
    OffsetMonotone(job.blob.tags, i + 1, j);
  }

  lemma ChainedPass(job: Job, levels: seq<Level>, i: nat, head: seq<Region>, rest: seq<Region>, c: Chain,
                    rest': seq<Region>, edge: int)
    requires i < |levels| && levels[i].included
    requires Chained(job, levels[i := Raised(levels[i])], i + 1, head, rest, c, rest', edge)
    ensures Chained(job, levels, i, head, rest, c, rest', edge)
  {
    RaiseNext(levels, i);
    MissingSame(levels, levels[i := Raised(levels[i])], i + 1);
  }

  lemma ChainedPut(job: Job, levels: seq<Level>, i: nat, head: seq<Region>, rest: seq<Region>, rest1: seq<Region>, c: Chain,
                   rest': seq<Region>, edge: int)
    requires i < |levels| && !levels[i].included && levels[i].pos < |job.blob.tags|
    requires Chained(job, levels[i := Raised(levels[i])], i + 1, head, rest1, c, rest', edge)
    requires forall x :: Holds(rest1, x) <==> Holds(rest, x) || InTag(job, levels[i].pos, x)
    ensures Chained(job, levels, i, head, rest, c, rest', edge)
  {
    RaiseNext(levels, i);
    MissingSame(levels, levels[i := Raised(levels[i])], i + 1);
    forall x ensures Holds(rest', x) <==> Holds(rest, x) || InTags(job, Missing(levels, i), x) {
      InTagsAdd(job, Missing(levels, i + 1), levels[i].pos, x);
    }
  }

  /** The BEGIN_NODEs of the levels from `i` on that are not in a region end before `edge`. */
  ghost predicate EndBefore(job: Job, levels: seq<Level>, i: nat, edge: int)
    requires Rising(job, levels)
  {
    forall k :: i <= k < |levels| && !levels[k].included ==> job.blob.base + Offset(job.blob.tags, levels[k].pos + 1) <= edge
  }

  /** One level is passed over. */
  lemma PassLevel(job: Job, levels: seq<Level>, levels': seq<Level>, out: seq<Region>, rest: seq<Region>, canMerge: bool,
                  haveNode: bool, i: nat, edge: int)
    requires i < |levels| && Rising(job, levels) && levels[i].included && levels' == levels[i := Raised(levels[i])]
    requires Apart(job, levels, rest, i) && EndBefore(job, levels, i, edge)
    ensures Rising(job, levels') && Apart(job, levels', rest, i + 1) && EndBefore(job, levels', i + 1, edge)
    ensures Supernodes(job, levels, out, false, canMerge, haveNode, i) ==
            Supernodes(job, levels', out, false, canMerge, haveNode, i + 1)
  {
    SupernodesPass(job, levels, out, false, canMerge, haveNode, i);
  }

  lemma ChainedNone(job: Job, levels: seq<Level>, head: seq<Region>, rest: seq<Region>, canMerge: bool, haveNode: bool,
                    edge: int, c: Chain)
    requires Rising(job, levels) && Good(job, head, rest, canMerge, haveNode) && Below(rest, edge)
    requires c == Supernodes(job, levels, head + rest, false, canMerge, haveNode, |levels|)
    ensures Chained(job, levels, |levels|, head, rest, c, rest, edge)
  {
    RaiseDone(levels);
  }

  /** One level is put. */
  lemma PutLevel(job: Job, levels: seq<Level>, levels': seq<Level>, head: seq<Region>, rest: seq<Region>, canMerge: bool,
                 haveNode: bool, i: nat, edge: int) returns (rest1: seq<Region>, haveNode1: bool)
    requires i < |levels| && Rising(job, levels) && Good(job, head, rest, canMerge, haveNode)
    requires !levels[i].included && levels' == levels[i := Raised(levels[i])]
    requires Apart(job, levels, rest, i) && EndBefore(job, levels, i, edge)
    ensures Rising(job, levels') && Good(job, head, rest1, true, haveNode1)
    ensures Apart(job, levels', rest1, i + 1) && Below(rest1, edge) && EndBefore(job, levels', i + 1, edge)
    ensures forall x :: Holds(rest1, x) <==> Holds(rest, x) || InTag(job, levels[i].pos, x)
    ensures Supernodes(job, levels, head + rest, false, canMerge, haveNode, i) ==
            Supernodes(job, levels', head + rest1, false, true, haveNode1, i + 1)
  {
    var l := levels[i];
    var from, to := job.blob.base + Offset(job.blob.tags, l.pos), job.blob.base + Offset(job.blob.tags, l.pos + 1);
    rest1, haveNode1 := PutBehind(job, head, rest, canMerge, haveNode, from, to);
    ApartNext(job, levels, levels', rest1, i);
    SupernodesPut(job, levels, head + rest, false, canMerge, haveNode, i, head + rest1, haveNode1);
  }

  lemma {:induction false} ChainCovers(job: Job, levels: seq<Level>, head: seq<Region>, rest: seq<Region>, canMerge: bool,
                                       haveNode: bool, i: nat, edge: int, c: Chain) returns (rest': seq<Region>)
    requires i <= |levels| && Rising(job, levels) && Good(job, head, rest, canMerge, haveNode)
    requires Apart(job, levels, rest, i) && Below(rest, edge)
    requires EndBefore(job, levels, i, edge)
    requires c == Supernodes(job, levels, head + rest, false, canMerge, haveNode, i)
    ensures Chained(job, levels, i, head, rest, c, rest', edge)
    decreases |levels| - i
  {
    if i == |levels| {
      ChainedNone(job, levels, head, rest, canMerge, haveNode, edge, c);
      rest' := rest;
    } else {
      var levels' := levels[i := Raised(levels[i])];
      if levels[i].included {
        PassLevel(job, levels, levels', head + rest, rest, canMerge, haveNode, i, edge);
        rest' := ChainCovers(job, levels', head, rest, canMerge, haveNode, i + 1, edge, c);
        ChainedPass(job, levels, i, head, rest, c, rest', edge);
      } else {
        var rest1, haveNode1 := PutLevel(job, levels, levels', head, rest, canMerge, haveNode, i, edge);
        rest' := ChainCovers(job, levels', head, rest1, true, haveNode1, i + 1, edge, c);
        ChainedPut(job, levels, i, head, rest, rest1, c, rest', edge);
      }
    }
  }

  lemma ApartNext(job: Job, levels: seq<Level>, levels': seq<Level>, rest1: seq<Region>, i: nat)
    requires i < |levels| && Rising(job, levels) && levels' == levels[i := Raised(levels[i])]
    requires Below(rest1, job.blob.base + Offset(job.blob.tags, levels[i].pos + 1))
    ensures Rising(job, levels') && Apart(job, levels', rest1, i + 1)
  {
    forall k | i + 1 <= k < |levels'|
      ensures Below(rest1, job.blob.base + Offset(job.blob.tags, levels'[k].pos))
    {
      OffsetRises(job, levels[i].pos, levels[k].pos);
    }
  }

  // ----- one tag -----

  /** Byte `x` is in a region or in the open run. */
  ghost predicate Reached(job: Job, s: State, rest: seq<Region>, x: int) {
    Holds(rest, x) || (s.start != -1 && job.blob.base + s.start <= x < job.blob.base + Here(job, s.pos))
  }

  /** Where the regions end at the latest. */
  ghost function Edge(job: Job, s: State): int {
    job.blob.base + if s.start != -1 then s.start else Here(job, s.pos)
  }

  /** The open run starts at an earlier tag. */
  ghost predicate Began(job: Job, s: State) {
    s.start != -1 ==> exists k: nat :: k < s.pos <= |job.blob.tags| && s.start == Offset(job.blob.tags, k)
  }

  /** Regions and open run hold exactly the bytes of the tags in `cov`. */
  ghost predicate Linked(job: Job, s: State, head: seq<Region>, rest: seq<Region>, cov: set<nat>) {
    && s.pos <= |job.blob.tags| && Good(job, head, rest, s.canMerge, s.haveNode)
    && Below(rest, Edge(job, s)) && Began(job, s)
    && (forall i :: i in cov ==> i < s.pos)
    && forall x :: Reached(job, s, rest, x) <==> InTags(job, cov, x)
  }

  lemma BeganBefore(job: Job, s: State)
    requires Began(job, s) && s.start != -1
    ensures 0 <= s.start < Here(job, s.pos)
  {
    var k: nat :| k < s.pos <= |job.blob.tags| && s.start == Offset(job.blob.tags, k);
    OffsetRises(job, k, s.pos);
  }

  /** The state after a tag that is not kept while no run is open, or kept in an open run. */
  lemma LinkedStay(job: Job, s: State, head: seq<Region>, rest: seq<Region>, cov: set<nat>, to: State)
    requires Linked(job, s, head, rest, cov) && s.pos < |job.blob.tags|
    requires to.pos == s.pos + 1 && to.start == s.start && to.canMerge == s.canMerge && to.haveNode == s.haveNode
    ensures Linked(job, to, head, rest, if s.start != -1 then cov + {s.pos} else cov)
  {
    OffsetRises(job, s.pos, s.pos + 1);
    if s.start != -1 {
      BeganBefore(job, s);
      var k: nat :| k < s.pos <= |job.blob.tags| && s.start == Offset(job.blob.tags, k);
      assert k < to.pos;
      forall x ensures Reached(job, to, rest, x) <==> InTags(job, cov + {s.pos}, x) {
        InTagsAdd(job, cov, s.pos, x);
        assert Reached(job, to, rest, x) <==> Reached(job, s, rest, x) || InTag(job, s.pos, x);
      }
    } else {
      forall x ensures Reached(job, to, rest, x) <==> InTags(job, cov, x) {
        assert Reached(job, to, rest, x) <==> Reached(job, s, rest, x);
      }
    }
  }

  /** The state after a tag that starts a run; `rest` holds the tags in `cov`, none at or behind this one. */
  lemma LinkedOpen(job: Job, to: State, pos: nat, head: seq<Region>, rest: seq<Region>, cov: set<nat>)
    requires pos < |job.blob.tags| && to.pos == pos + 1 && to.start == Offset(job.blob.tags, pos)
    requires Good(job, head, rest, to.canMerge, to.haveNode) && Below(rest, job.blob.base + Offset(job.blob.tags, pos))
    requires (forall i :: i in cov ==> i < pos) && forall x :: Holds(rest, x) <==> InTags(job, cov, x)
    ensures Linked(job, to, head, rest, cov + {pos})
  {
    assert pos < to.pos;
    forall x ensures Reached(job, to, rest, x) <==> InTags(job, cov + {pos}, x) {
      InTagsAdd(job, cov, pos, x);
    }
  }

  /** The run is in a region when it starts with the structure block. */
  lemma StartsAtRoot(job: Job, head: seq<Region>, rest: seq<Region>, s: State)
    requires Good(job, head, rest, s.canMerge, s.haveNode) && Below(rest, job.blob.base + s.start)
    ensures s.start == 0 ==> PutsRoot(job, head + rest, s.canMerge, job.blob.base + s.start)
  {
    if s.start == 0 {
      assert forall k :: 0 <= k < |rest| ==> job.blob.base < Stop(rest[k]);
      assert head + rest == head;
    }
  }

  lemma CloseRunPuts(job: Job, s: State, to: State, stop: int, out: seq<Region>, out': seq<Region>, haveNode: bool)
    requires Within(job, s) && Within(job, to)
    requires Put(out, false, s.canMerge, job.blob.base + s.start, stop - s.start) == Slots(out')
    requires haveNode == (s.haveNode || PutsRoot(job, out, s.canMerge, job.blob.base + s.start))
    requires s.start == 0 ==> haveNode
    ensures CloseRun(job, s, to, stop, out, false) == Moved(to.(start := -1, canMerge := true, haveNode := haveNode), out')
  {
  }

  /** The run that is closed before or after the current tag becomes a region. */
  lemma LinkedClosed(job: Job, s: State, head: seq<Region>, rest: seq<Region>, rest': seq<Region>, cov: set<nat>,
                     s': State, after: bool)
    requires Linked(job, s, head, rest, cov) && s.start != -1 && s.pos < |job.blob.tags|
    requires s'.pos == s.pos + 1 && s'.start == -1 && Good(job, head, rest', s'.canMerge, s'.haveNode)
    requires var stop := job.blob.base + Here(job, if after then s.pos + 1 else s.pos);
      Below(rest', stop) && forall x :: Holds(rest', x) <==> Holds(rest, x) || job.blob.base + s.start <= x < stop
    ensures Linked(job, s', head, rest', if after then cov + {s.pos} else cov)
  {
    BeganBefore(job, s);
    OffsetRises(job, s.pos, s.pos + 1);
    forall x ensures Reached(job, s', rest', x) <==> InTags(job, if after then cov + {s.pos} else cov, x) {
      InTagsAdd(job, cov, s.pos, x);
      assert Reached(job, s', rest', x) <==> Reached(job, s, rest, x) || (after && InTag(job, s.pos, x));
    }
  }

  lemma LinkedClose(job: Job, s: State, head: seq<Region>, rest: seq<Region>, cov: set<nat>, to: State, after: bool)
    returns (s': State, rest': seq<Region>)
    requires Linked(job, s, head, rest, cov) && s.start != -1 && s.pos < |job.blob.tags| && to.pos == s.pos + 1
    requires Within(job, s) && Within(job, to)
    ensures CloseRun(job, s, to, Here(job, if after then s.pos + 1 else s.pos), head + rest, false) == Moved(s', head + rest')
    ensures s' == to.(start := -1, canMerge := true, haveNode := s'.haveNode)
    ensures Linked(job, s', head, rest', if after then cov + {s.pos} else cov)
    ensures Below(rest', job.blob.base + Here(job, if after then s.pos + 1 else s.pos))
  {
    var stop := Here(job, if after then s.pos + 1 else s.pos);
    BeganBefore(job, s);
    OffsetRises(job, s.pos, s.pos + 1);
    var haveNode;
    rest', haveNode := PutBehind(job, head, rest, s.canMerge, s.haveNode, job.blob.base + s.start, job.blob.base + stop);
    s' := to.(start := -1, canMerge := true, haveNode := haveNode);
    StartsAtRoot(job, head, rest, s);
    CloseRunPuts(job, s, to, stop, head + rest, head + rest', haveNode);
    LinkedClosed(job, s, head, rest, rest', cov, s', after);
  }

  lemma InTagsUnion(job: Job, a: set<nat>, b: set<nat>, x: int)
    ensures InTags(job, a + b, x) <==> InTags(job, a, x) || InTags(job, b, x)
  {
    if InTags(job, a, x) {
      var k :| k in a && InTag(job, k, x);
      assert k in a + b;
    }
    if InTags(job, b, x) {
      var k :| k in b && InTag(job, k, x);
      assert k in a + b;
    }
  }

  // ----- the open nodes -----

  /** The open nodes that are not in a region begin before tag `pos`. */
  ghost predicate Earlier(levels: seq<Level>, pos: nat) {
    forall k :: 0 <= k < |levels| && !levels[k].included ==> levels[k].pos < pos
  }

  ghost predicate AllRaised(levels: seq<Level>) {
    forall k :: 0 <= k < |levels| ==> levels[k].included && levels[k].want != WANT_NOTHING
  }

  lemma {:induction false} MissingBefore(levels: seq<Level>, i: nat, pos: nat)
    requires i <= |levels| && Earlier(levels, pos)
    ensures forall p :: p in Missing(levels, i) ==> p < pos
    decreases |levels| - i
  {
    if i < |levels| { MissingBefore(levels, i + 1, pos); }
  }

  lemma {:induction false} MissingNone(levels: seq<Level>, i: nat)
    requires i <= |levels| && AllRaised(levels)
    ensures Missing(levels, i) == {}
    decreases |levels| - i
  {
    if i < |levels| { MissingNone(levels, i + 1); }
  }

  lemma RaisedAll(levels: seq<Level>)
    ensures AllRaised(RaiseFrom(levels, 0))
    ensures AllRaised(levels) ==> RaiseFrom(levels, 0) == levels && Missing(levels, 0) == {}
  {
    if AllRaised(levels) { MissingNone(levels, 0); }
  }

  lemma EndsEarlier(job: Job, levels: seq<Level>, pos: nat)
    requires Rising(job, levels) && Earlier(levels, pos) && pos <= |job.blob.tags|
    ensures EndBefore(job, levels, 0, job.blob.base + Offset(job.blob.tags, pos))
  {
    forall k | 0 <= k < |levels| && !levels[k].included
      ensures Offset(job.blob.tags, levels[k].pos + 1) <= Offset(job.blob.tags, pos)
    {
      OffsetRises(job, levels[k].pos, pos);
    }
  }

  /** A run starts, and the nodes around its first tag are put before it. */
  lemma LinkedSuper(job: Job, s: State, head: seq<Region>, rest: seq<Region>, cov: set<nat>, to: State)
    returns (s': State, rest': seq<Region>)
    requires Linked(job, s, head, rest, cov) && s.start == -1 && s.pos < |job.blob.tags| && to.pos == s.pos + 1
    requires Within(job, s) && Within(job, to) && job.flags.supernodes
    requires Rising(job, to.levels) && Apart(job, to.levels, rest, 0) && Earlier(to.levels, s.pos)
    ensures OpenRun(job, s, to, head + rest, false) == Moved(s', head + rest')
    ensures s' == to.(start := s'.start, levels := RaiseFrom(to.levels, 0), canMerge := s'.canMerge, haveNode := s'.haveNode)
    ensures s'.start != -1 && Linked(job, s', head, rest', cov + {s.pos} + Missing(to.levels, 0))
  {
    var offset := Here(job, s.pos);
    var c := Supernodes(job, to.levels, head + rest, false, s.canMerge, s.haveNode, 0);
    EndsEarlier(job, to.levels, s.pos);
    rest' := ChainCovers(job, to.levels, head, rest, s.canMerge, s.haveNode, 0, job.blob.base + offset, c);
    s' := to.(start := offset, levels := RaiseFrom(to.levels, 0), canMerge := c.canMerge, haveNode := c.haveNode);
    MissingBefore(to.levels, 0, s.pos);
    var more := cov + Missing(to.levels, 0);
    SuperHolds(job, s, rest, rest', cov, Missing(to.levels, 0));
    LinkedOpen(job, s', s.pos, head, rest', more);
    assert more + {s.pos} == cov + {s.pos} + Missing(to.levels, 0);
  }

  lemma SuperHolds(job: Job, s: State, rest: seq<Region>, rest': seq<Region>, cov: set<nat>, more: set<nat>)
    requires s.start == -1 && forall x :: Reached(job, s, rest, x) <==> InTags(job, cov, x)
    requires forall x :: Holds(rest', x) <==> Holds(rest, x) || InTags(job, more, x)
    ensures forall x :: Holds(rest', x) <==> InTags(job, cov + more, x)
  {
    forall x ensures Holds(rest', x) <==> InTags(job, cov + more, x) {
      assert Reached(job, s, rest, x) <==> Holds(rest, x);
      InTagsUnion(job, cov, more, x);
    }
  }

  /** What is in a region or in the open run after a tag: the tag itself and, with supernodes, the nodes around it. */
  function CovAfter(job: Job, s: State, to: State, cov: set<nat>, kept: bool, stopAfter: bool): set<nat> {
    cov + (if kept || (stopAfter && s.start != -1) then {s.pos} else {})
        + (if job.flags.supernodes && kept then Missing(to.levels, 0) else {})
  }

  function LevelsAfter(job: Job, to: State, kept: bool): seq<Level> {
    if job.flags.supernodes && kept then RaiseFrom(to.levels, 0) else to.levels
  }

  /** With supernodes: while a run is open all nodes around it are in a region; before, what is missing comes earlier. */
  ghost predicate Ready(job: Job, s: State, to: State, rest: seq<Region>) {
    && Rising(job, to.levels)
    && (s.start == -1 ==> Apart(job, to.levels, rest, 0) && Earlier(to.levels, s.pos))
    && (s.start != -1 ==> AllRaised(to.levels))
  }

  /** A step to `to` has added exactly the tag and the nodes around it. */
  ghost predicate Stepped(job: Job, s: State, head: seq<Region>, rest: seq<Region>, cov: set<nat>, to: State, kept: bool,
                          stopAfter: bool, s': State, rest': seq<Region>) {
    && s' == to.(start := s'.start, levels := LevelsAfter(job, to, kept), canMerge := s'.canMerge, haveNode := s'.haveNode)
    && (s'.start != -1 <==> kept) && Linked(job, s', head, rest', CovAfter(job, s, to, cov, kept, stopAfter))
    && (!kept && !(stopAfter && s.start != -1) ==> Below(rest', job.blob.base + Here(job, s.pos)))
    && (!kept && s.start == -1 ==> rest' == rest)
  }

  lemma TagOpens(job: Job, s: State, head: seq<Region>, rest: seq<Region>, cov: set<nat>, to: State, stopAfter: bool)
    returns (s': State, rest': seq<Region>)
    requires Within(job, s) && s.pos < |job.blob.tags| && Linked(job, s, head, rest, cov) && s.start == -1
    requires Within(job, to) && to.pos == s.pos + 1 && to.canMerge == s.canMerge && to.haveNode == s.haveNode
    requires job.flags.supernodes ==> Ready(job, s, to, rest)
    ensures OpenRun(job, s, to, head + rest, false) == Moved(s', head + rest')
    ensures Stepped(job, s, head, rest, cov, to, true, stopAfter, s', rest')
  {
    if job.flags.supernodes {
      s', rest' := LinkedSuper(job, s, head, rest, cov, to);
    } else {
      s', rest' := to.(start := Here(job, s.pos)), rest;
      OpenHolds(job, s, rest, cov);
      LinkedOpen(job, s', s.pos, head, rest, cov);
    }
  }

  lemma TagCloses(job: Job, s: State, head: seq<Region>, rest: seq<Region>, cov: set<nat>, to: State, stopAfter: bool)
    returns (s': State, rest': seq<Region>)
    requires Within(job, s) && s.pos < |job.blob.tags| && Linked(job, s, head, rest, cov) && s.start != -1
    requires Within(job, to) && to.pos == s.pos + 1
    ensures CloseRun(job, s, to, Here(job, if stopAfter then s.pos + 1 else s.pos), head + rest, false) == Moved(s', head + rest')
    ensures Stepped(job, s, head, rest, cov, to, false, stopAfter, s', rest')
  {
    s', rest' := LinkedClose(job, s, head, rest, cov, to, stopAfter);
  }

  lemma TagStays(job: Job, s: State, head: seq<Region>, rest: seq<Region>, cov: set<nat>, to: State, stopAfter: bool)
    requires Within(job, s) && s.pos < |job.blob.tags| && Linked(job, s, head, rest, cov)
    requires to.pos == s.pos + 1 && to.start == s.start && to.canMerge == s.canMerge && to.haveNode == s.haveNode
    requires job.flags.supernodes && s.start != -1 ==> Ready(job, s, to, rest)
    ensures Stepped(job, s, head, rest, cov, to, s.start != -1, stopAfter, to, rest)
  {
    if s.start != -1 { RaisedAll(to.levels); }
    LinkedStay(job, s, head, rest, cov, to);
  }

  /** One step of the walk adds exactly the tag and the nodes around it. */
  lemma TagCovers(job: Job, s: State, head: seq<Region>, rest: seq<Region>, cov: set<nat>, to: State, kept: bool, stopAfter: bool)
    returns (s': State, rest': seq<Region>)
    requires Within(job, s) && s.done < DONE_STRUCT && s.pos < |job.blob.tags| && Linked(job, s, head, rest, cov)
    requires Within(job, to) && Decide(job, s) == Go(to.(pos := s.pos), kept, stopAfter) && to.pos == s.pos + 1
    requires job.flags.supernodes && kept ==> Ready(job, s, to, rest)
    ensures TagStep(job, s, head + rest, false) == Moved(s', head + rest')
    ensures Stepped(job, s, head, rest, cov, to, kept, stopAfter, s', rest')
  {
    DecideFrame(job, s, to, kept, stopAfter);
    if kept && s.start == -1 {
      s', rest' := TagOpens(job, s, head, rest, cov, to, stopAfter);
    } else if !kept && s.start != -1 {
      s', rest' := TagCloses(job, s, head, rest, cov, to, stopAfter);
    } else {
      s', rest' := to, rest;
      TagStays(job, s, head, rest, cov, to, stopAfter);
    }
  }

  lemma DecideFrame(job: Job, s: State, to: State, kept: bool, stopAfter: bool)
    requires Within(job, s) && s.done < DONE_STRUCT
    requires Decide(job, s) == Go(to.(pos := s.pos), kept, stopAfter) && to.pos == s.pos + 1
    ensures to.(pos := s.pos).(pos := s.pos + 1) == to && (!TagAt(job, s.pos).End? ==> to.done == s.done)
    ensures to.start == s.start && to.canMerge == s.canMerge && to.haveNode == s.haveNode
  {
  }

  lemma OpenHolds(job: Job, s: State, rest: seq<Region>, cov: set<nat>)
    requires s.start == -1 && forall x :: Reached(job, s, rest, x) <==> InTags(job, cov, x)
    ensures forall x :: Holds(rest, x) <==> InTags(job, cov, x)
  {
    forall x ensures Holds(rest, x) <==> InTags(job, cov, x) {
      assert Reached(job, s, rest, x) <==> Holds(rest, x);
    }
  }

  // ----- between tags -----

  /** The value of `want` inside the `k` outermost open nodes. */
  function WantIn(s: State, k: nat): nat
    requires k <= |s.levels|
  {
    if k < |s.levels| then s.levels[k].want else s.want
  }

  /** A node inside which something is kept is in a region, and so are the nodes around it. */
  ghost predicate Nested(s: State) {
    forall k :: 0 <= k <= |s.levels| && WantIn(s, k) != WANT_NOTHING ==> AllRaised(s.levels[..k])
  }

  /** What holds between two tags when supernodes are asked for. */
  ghost predicate Firm(job: Job, s: State, rest: seq<Region>) {
    && Rising(job, s.levels) && (forall k :: 0 <= k < |s.levels| ==> s.levels[k].pos < s.pos)
    && Apart(job, s.levels, rest, 0) && Nested(s)
    && (s.start != -1 ==> AllRaised(s.levels) && s.want != WANT_NOTHING)
  }

  /** The next step looks at a tag. */
  ghost predicate Tagging(job: Job, s: State) {
    Within(job, s) && s.done < DONE_STRUCT && (s.done == DONE_NOTHING ==> !job.flags.addRsvmap)
  }

  ghost predicate Look(k: int) { true }

  /** What holds between two tags; it stays folded in a proof that does not mention `Look`. */
  ghost predicate Steady(job: Job, s: State, head: seq<Region>, rest: seq<Region>, cov: set<nat>) {
    forall k :: Look(k) ==> Linked(job, s, head, rest, cov) && (job.flags.supernodes ==> Firm(job, s, rest))
  }

  ghost predicate On(job: Job, s: State, head: seq<Region>, rest: seq<Region>, cov: set<nat>) {
    Tagging(job, s) && Steady(job, s, head, rest, cov)
  }

  /** How a tag changes the open nodes. */
  ghost predicate Inside(s: State, to: State, kept: bool) {
    && to.levels == s.levels && (to.want == s.want || kept) && (kept ==> to.want != WANT_NOTHING)
  }

  ghost predicate Enters(s: State, to: State, kept: bool) {
    && to.levels == s.levels + [Level(s.pos, s.want, kept)] && (kept <==> to.want != WANT_NOTHING)
  }

  ghost predicate Leaves(s: State, to: State, kept: bool) {
    var d := |s.levels| - 1;
    && d >= 0 && to.levels == s.levels[..d] && to.want == s.levels[d].want && (kept <==> s.want != WANT_NOTHING)
  }

  lemma DecideShape(job: Job, s: State, to: State, kept: bool, stopAfter: bool)
    requires Within(job, s) && s.done < DONE_STRUCT && s.pos < |job.blob.tags| && !job.blob.tags[s.pos].End?
    requires Decide(job, s) == Go(to.(pos := s.pos), kept, stopAfter) && to.pos == s.pos + 1 && job.flags.supernodes
    ensures Inside(s, to, kept) || (Enters(s, to, kept) && !stopAfter) || Leaves(s, to, kept)
  {
  }

  lemma FirmReady(job: Job, s: State, rest: seq<Region>, to: State, kept: bool)
    requires Firm(job, s, rest) && kept && s.pos < |job.blob.tags|
    requires Inside(s, to, kept) || Enters(s, to, kept) || Leaves(s, to, kept)
    ensures Ready(job, s, to, rest) && to.want != WANT_NOTHING
  {
    if Leaves(s, to, kept) {
      assert WantIn(s, |s.levels|) != WANT_NOTHING && s.levels[..|s.levels|] == s.levels;
    }
  }

  lemma TakenRising(job: Job, s: State, rest: seq<Region>, to: State, kept: bool)
    requires Firm(job, s, rest) && s.pos < |job.blob.tags|
    requires Inside(s, to, kept) || Enters(s, to, kept) || Leaves(s, to, kept)
    ensures Rising(job, to.levels) && forall k :: 0 <= k < |to.levels| ==> to.levels[k].pos <= s.pos
  {
  }

  /** After a kept tag all open nodes are in a region. */
  lemma FirmKept(job: Job, levels: seq<Level>, s': State, rest': seq<Region>)
    requires Rising(job, levels) && forall k :: 0 <= k < |levels| ==> levels[k].pos < s'.pos
    requires s'.want != WANT_NOTHING && s'.levels == RaiseFrom(levels, 0)
    ensures Firm(job, s', rest')
  {
    RaisedAll(levels);
  }

  lemma FirmPassed(job: Job, s: State, rest: seq<Region>, s': State, rest': seq<Region>)
    requires Firm(job, s, rest) && s'.start == -1 && s'.pos == s.pos + 1
    requires Inside(s, s', false) || Leaves(s, s', false)
    requires s.start == -1 ==> rest' == rest
    ensures Firm(job, s', rest')
  {
    if Leaves(s, s', false) {
      var d := |s.levels| - 1;
      forall k | 0 <= k <= d && WantIn(s', k) != WANT_NOTHING ensures AllRaised(s'.levels[..k]) {
        assert WantIn(s', k) == WantIn(s, k) && s'.levels[..k] == s.levels[..k];
      }
    } else {
      forall k | 0 <= k <= |s.levels| && WantIn(s', k) != WANT_NOTHING ensures AllRaised(s'.levels[..k]) {
        assert WantIn(s', k) == WantIn(s, k);
      }
    }
  }

  lemma FirmEntered(job: Job, s: State, rest: seq<Region>, s': State, rest': seq<Region>)
    requires Firm(job, s, rest) && s'.start == -1 && s'.pos == s.pos + 1 && s.pos < |job.blob.tags|
    requires Enters(s, s', false) && Below(rest', job.blob.base + Here(job, s.pos))
    requires s.start == -1 ==> rest' == rest
    ensures Firm(job, s', rest')
  {
    forall k | 0 <= k <= |s'.levels| && WantIn(s', k) != WANT_NOTHING ensures AllRaised(s'.levels[..k]) {
      assert WantIn(s', k) == WantIn(s, k) && s'.levels[..k] == s.levels[..k];
    }
  }

  lemma FirmNext(job: Job, s: State, head: seq<Region>, rest: seq<Region>, cov: set<nat>, to: State, kept: bool,
                 stopAfter: bool, s': State, rest': seq<Region>)
    requires Firm(job, s, rest) && s.pos < |job.blob.tags| && job.flags.supernodes && to.pos == s.pos + 1
    requires Inside(s, to, kept) || (Enters(s, to, kept) && !stopAfter) || Leaves(s, to, kept)
    requires kept ==> to.want != WANT_NOTHING
    requires Stepped(job, s, head, rest, cov, to, kept, stopAfter, s', rest')
    ensures Firm(job, s', rest')
  {
    if kept {
      TakenRising(job, s, rest, to, kept);
      FirmKept(job, to.levels, s', rest');
    } else if Enters(s, to, kept) && !stopAfter {
      FirmEntered(job, s, rest, s', rest');
    } else {
      FirmPassed(job, s, rest, s', rest');
    }
  }

  lemma FullTag(job: Job, s: State, out: seq<Region>, s': State, out': seq<Region>)
    requires Within(job, s) && s.done < DONE_STRUCT && (s.done == DONE_NOTHING ==> !job.flags.addRsvmap)
    requires TagStep(job, s, out, false) == Moved(s', out')
    ensures Within(job, s') && s'.done <= DONE_STRUCT && Full(job, s, out) == Full(job, s', out')
  {
  }

  /** One tag of a tree, and the single pass that goes on behind it. */
  lemma StepOn(job: Job, s: State, head: seq<Region>, rest: seq<Region>, cov: set<nat>, to: State, kept: bool, stopAfter: bool)
    returns (s': State, rest': seq<Region>)
    requires On(job, s, head, rest, cov) && s.pos < |job.blob.tags| && !job.blob.tags[s.pos].End?
    requires Decide(job, s) == Go(to.(pos := s.pos), kept, stopAfter) && to.pos == s.pos + 1
    ensures Within(job, s') && s'.done < DONE_STRUCT && Full(job, s, head + rest) == Full(job, s', head + rest')
    ensures s' == to.(start := s'.start, levels := LevelsAfter(job, to, kept), canMerge := s'.canMerge, haveNode := s'.haveNode)
    ensures (s'.start != -1 <==> kept) && On(job, s', head, rest', CovAfter(job, s, to, cov, kept, stopAfter))
  {
    assert Look(0);
    if job.flags.supernodes {
      DecideShape(job, s, to, kept, stopAfter);
      if kept { FirmReady(job, s, rest, to, kept); }
    }
    DecideFrame(job, s, to, kept, stopAfter);
    s', rest' := TagCovers(job, s, head, rest, cov, to, kept, stopAfter);
    FullTag(job, s, head + rest, s', head + rest');
    if job.flags.supernodes {
      FirmNext(job, s, head, rest, cov, to, kept, stopAfter, s', rest');
    }
  }
}
