/**
 Repeated fdt_next_region() calls deliver the regions of one pass with enough slots, provided
 FDT_REG_SUPERNODES is set; without the flag a refused END_NODE leaves a damaged path buffer.
 */
module FdtResume {
  import opened FdtTags
  import opened FdtRuns
  import opened FdtIter

  // ----- only the last region matters -----

  lemma PutLocal(a: seq<Region>, out: seq<Region>, canMerge: bool, offset: int, size: int)
    requires out != []
    ensures Put(a + out, false, canMerge, offset, size) == Slots(a + Put(out, false, canMerge, offset, size).out)
    ensures Put(out, false, canMerge, offset, size).out != []
  {
    assert (a + out)[|a + out| - 1] == out[|out| - 1];
    if canMerge && offset <= Stop(out[|out| - 1]) {
      assert Extend(a + out, offset + size) == a + Extend(out, offset + size);
    } else {
      assert a + out + [Region(offset, size)] == a + (out + [Region(offset, size)]);
    }
  }

  lemma {:induction false} SupernodesLocal(job: Job, levels: seq<Level>, a: seq<Region>, out: seq<Region>,
                                           canMerge: bool, haveNode: bool, i: nat)
    requires out != [] && i <= |levels|
    requires forall k :: 0 <= k < |levels| ==> levels[k].pos < |job.blob.tags|
    ensures var c := Supernodes(job, levels, out, false, canMerge, haveNode, i);
      Supernodes(job, levels, a + out, false, canMerge, haveNode, i) == c.(out := a + c.out) && c.out != []
    decreases |levels| - i
  {
    if i < |levels| {
      var l := levels[i];
      var levels' := levels[i := Raised(l)];
      if l.included {
        SupernodesLocal(job, levels', a, out, canMerge, haveNode, i + 1);
      } else {
        var offset := job.blob.base + Offset(job.blob.tags, l.pos);
        var size := Size(job.blob.tags[l.pos]);
        PutLocal(a, out, canMerge, offset, size);
        SupernodesLocal(job, levels', a, Put(out, false, canMerge, offset, size).out, true,
                        haveNode || PutsRoot(job, out, canMerge, offset), i + 1);
      }
    }
  }

  function Before(a: seq<Region>, r: Step): Step {
    match r
    case Failed(code) => r
    case Refused(s, out) => Refused(s, a + out)
    case Moved(s, out) => Moved(s, a + out)
  }

  lemma AdvanceLocal(job: Job, s: State, a: seq<Region>, out: seq<Region>)
    requires out != [] && Within(job, s) && s.done < DONE_STRINGS
    ensures Advance(job, s, a + out, false) == Before(a, Advance(job, s, out, false))
    ensures var r := Advance(job, s, out, false); r.Moved? ==> r.out != []
  {
    if s.done < DONE_STRUCT && !(s.done == DONE_NOTHING && job.flags.addRsvmap) {
      TagStepLocal(job, s, a, out);
    } else if s.done == DONE_NOTHING {
      PutLocal(a, out, s.canMerge, job.blob.rsvmap, job.blob.base - job.blob.rsvmap);
    } else if s.done == DONE_STRUCT {
      PutLocal(a, out, s.canMerge, job.blob.base, 8);
    } else if s.done == DONE_EMPTY {
      var start := if s.start == job.blob.structSize - 4 then s.start - 4 else s.start;
      PutLocal(a, out, s.canMerge, job.blob.base + start, job.blob.structSize - start);
    } else {
      PutLocal(a, out, false, job.blob.strings, job.blob.stringsSize);
    }
  }

  lemma TagStepLocal(job: Job, s: State, a: seq<Region>, out: seq<Region>)
    requires out != [] && Within(job, s) && s.done < DONE_STRUCT
    ensures TagStep(job, s, a + out, false) == Before(a, TagStep(job, s, out, false))
    ensures var r := TagStep(job, s, out, false); r.Moved? ==> r.out != []
  {
    var c := Decide(job, s);
    if c.Go? {
      if c.kept && s.start == -1 {
        SupernodesLocal(job, c.state.levels, a, out, s.canMerge, s.haveNode, 0);
      } else if !c.kept && s.start != -1 {
        PutLocal(a, out, s.canMerge, job.blob.base + s.start,
                 Here(job, if c.stopAfter then s.pos + 1 else s.pos) - s.start);
      }
    }
  }

  function Under(a: seq<Region>, r: Result<seq<Region>>): Result<seq<Region>> {
    if r.Ok? then Ok(a + r.value) else r
  }

  /** Regions before the last one are never touched again. */
  lemma {:induction false} FullLocal(job: Job, s: State, a: seq<Region>, out: seq<Region>)
    requires out != [] && Within(job, s) && s.done <= DONE_STRINGS
    ensures Full(job, s, a + out) == Under(a, Full(job, s, out))
    decreases DONE_STRINGS - s.done, |job.blob.tags| + 1 - s.pos
  {
    if s.done < DONE_STRINGS {
      AdvanceLocal(job, s, a, out);
      var r := Advance(job, s, out, false);
      if r.Moved? { FullLocal(job, r.state, a, r.out); }
    }
  }

  // ----- one slot against many -----

  lemma PutOne(out: seq<Region>, canMerge: bool, offset: int, size: int)
    requires |out| <= 1
    ensures var r := Put(out, true, canMerge, offset, size);
      var full := Put(out, false, canMerge, offset, size);
      if r.Slots? then r == full && |r.out| == 1
      else |out| == 1 && full == Slots(out + [Region(offset, size)]) && !(canMerge && offset <= Stop(out[0]))
  {
  }

  /** Every open node below level `n` is in a region and its END_NODE will be kept. */
  ghost predicate Settled(levels: seq<Level>, n: nat)
    requires n <= |levels|
  {
    forall k :: 0 <= k < n ==> levels[k].included && levels[k].want != WANT_NOTHING
  }

  lemma {:induction false} SupernodesSkip(job: Job, levels: seq<Level>, out: seq<Region>, one: bool, canMerge: bool,
                                          haveNode: bool, i: nat, n: nat)
    requires i <= n <= |levels| && Settled(levels, n)
    requires forall k :: 0 <= k < |levels| ==> levels[k].pos < |job.blob.tags|
    ensures Supernodes(job, levels, out, one, canMerge, haveNode, i) == Supernodes(job, levels, out, one, canMerge, haveNode, n)
    decreases n - i
  {
    if i < n {
      assert levels[i := Raised(levels[i])] == levels;
      SupernodesSkip(job, levels, out, one, canMerge, haveNode, i + 1, n);
    }
  }

  /** The chain goes on after a level whose region was put. */
  lemma SupernodesPut(job: Job, levels: seq<Level>, out: seq<Region>, one: bool, canMerge: bool, haveNode: bool, i: nat,
                      out': seq<Region>, haveNode': bool)
    requires i < |levels| && !levels[i].included
    requires forall k :: 0 <= k < |levels| ==> levels[k].pos < |job.blob.tags|
    requires var offset := job.blob.base + Offset(job.blob.tags, levels[i].pos);
      && Put(out, one, canMerge, offset, Size(job.blob.tags[levels[i].pos])) == Slots(out')
      && haveNode' == (haveNode || PutsRoot(job, out, canMerge, offset))
    ensures var levels' := levels[i := Raised(levels[i])];
      && out' != []
      && Supernodes(job, levels, out, one, canMerge, haveNode, i) == Supernodes(job, levels', out', one, true, haveNode', i + 1)
  {
  }

  /** The chain goes on after a level that is in a region. */
  lemma SupernodesPass(job: Job, levels: seq<Level>, out: seq<Region>, one: bool, canMerge: bool, haveNode: bool, i: nat)
    requires i < |levels| && levels[i].included
    requires forall k :: 0 <= k < |levels| ==> levels[k].pos < |job.blob.tags|
    ensures var levels' := levels[i := Raised(levels[i])];
      Supernodes(job, levels, out, one, canMerge, haveNode, i) == Supernodes(job, levels', out, one, canMerge, haveNode, i + 1)
  {
  }

  /** The chain stops at a level whose region is refused. */
  lemma ChainStops(job: Job, levels: seq<Level>, out: seq<Region>, canMerge: bool, haveNode: bool, i: nat)
    requires i < |levels| && !levels[i].included
    requires forall k :: 0 <= k < |levels| ==> levels[k].pos < |job.blob.tags|
    requires var offset := job.blob.base + Offset(job.blob.tags, levels[i].pos);
      Put(out, true, canMerge, offset, Size(job.blob.tags[levels[i].pos])).Refusal?
    ensures Supernodes(job, levels, out, true, canMerge, haveNode, i) == Chain(levels, out, canMerge, haveNode, i) && out != []
  {
  }

  /** The levels before `at` are settled, those from `at` on are untouched. */
  ghost predicate Framed(levels: seq<Level>, c: Chain) {
    && c.at <= |levels| == |c.levels| && Settled(c.levels, c.at)
    && (forall k :: c.at <= k < |levels| ==> c.levels[k] == levels[k])
    && (c.at < |levels| ==> !levels[c.at].included)
  }

  lemma FramedBack(levels: seq<Level>, i: nat, l: Level, c: Chain)
    requires i < |levels| && Framed(levels[i := l], c) && i < c.at
    ensures Framed(levels, c)
  {
  }

  lemma {:induction false} ChainFrame(job: Job, levels: seq<Level>, out: seq<Region>, one: bool, canMerge: bool,
                                      haveNode: bool, i: nat, c: Chain)
    requires i <= |levels| && Settled(levels, i)
    requires forall k :: 0 <= k < |levels| ==> levels[k].pos < |job.blob.tags|
    requires c == Supernodes(job, levels, out, one, canMerge, haveNode, i)
    ensures Framed(levels, c)
    decreases |levels| - i
  {
    if i < |levels| {
      var l := levels[i];
      var levels' := levels[i := Raised(l)];
      if l.included {
        SupernodesPass(job, levels, out, one, canMerge, haveNode, i);
        ChainFrame(job, levels', out, one, canMerge, haveNode, i + 1, c);
        FramedBack(levels, i, Raised(l), c);
      } else {
        var offset := job.blob.base + Offset(job.blob.tags, l.pos);
        var r := Put(out, one, canMerge, offset, Size(job.blob.tags[l.pos]));
        if r.Slots? {
          var haveNode' := haveNode || PutsRoot(job, out, canMerge, offset);
          SupernodesPut(job, levels, out, one, canMerge, haveNode, i, r.out, haveNode');
          ChainFrame(job, levels', r.out, one, true, haveNode', i + 1, c);
          FramedBack(levels, i, Raised(l), c);
        }
      }
    }
  }

  lemma SupernodesFrame(job: Job, levels: seq<Level>, out: seq<Region>, one: bool, canMerge: bool, haveNode: bool, i: nat)
    requires i <= |levels| && Settled(levels, i)
    requires forall k :: 0 <= k < |levels| ==> levels[k].pos < |job.blob.tags|
    ensures Framed(levels, Supernodes(job, levels, out, one, canMerge, haveNode, i))
  {
    ChainFrame(job, levels, out, one, canMerge, haveNode, i, Supernodes(job, levels, out, one, canMerge, haveNode, i));
  }

  /** With one slot: either the same result, or a prefix of it up to the refused level. */
  ghost predicate OneOfMany(job: Job, c: Chain, full: Chain)
    requires c.at <= |c.levels| && forall k :: 0 <= k < |c.levels| ==> c.levels[k].pos < |job.blob.tags|
  {
    if c.at == |c.levels| then c == full && |c.out| <= 1
    else
      var rest := Supernodes(job, c.levels, [], false, c.canMerge, c.haveNode, c.at);
      |c.out| == 1 && rest.out != [] && full == rest.(out := c.out + rest.out)
  }

  lemma RefusedOne(job: Job, levels: seq<Level>, out: seq<Region>, canMerge: bool, haveNode: bool, i: nat)
    requires |out| == 1 && i < |levels| && !levels[i].included
    requires forall k :: 0 <= k < |levels| ==> levels[k].pos < |job.blob.tags|
    requires var offset := job.blob.base + Offset(job.blob.tags, levels[i].pos);
      Put(out, true, canMerge, offset, Size(job.blob.tags[levels[i].pos])).Refusal?
    requires var rest := Supernodes(job, levels, [], false, canMerge, haveNode, i);
      rest.out != [] && Supernodes(job, levels, out, false, canMerge, haveNode, i) == rest.(out := out + rest.out)
    ensures OneOfMany(job, Supernodes(job, levels, out, true, canMerge, haveNode, i),
                      Supernodes(job, levels, out, false, canMerge, haveNode, i))
  {
    ChainStops(job, levels, out, canMerge, haveNode, i);
  }

  lemma {:induction false} ChainOne(job: Job, levels: seq<Level>, out: seq<Region>, canMerge: bool, haveNode: bool,
                                    i: nat, c: Chain, full: Chain)
    requires |out| <= 1 && i <= |levels|
    requires forall k :: 0 <= k < |levels| ==> levels[k].pos < |job.blob.tags|
    requires c == Supernodes(job, levels, out, true, canMerge, haveNode, i)
    requires full == Supernodes(job, levels, out, false, canMerge, haveNode, i)
    ensures OneOfMany(job, c, full)
    decreases |levels| - i
  {
    if i < |levels| {
      var l := levels[i];
      var levels' := levels[i := Raised(l)];
      if l.included {
        SupernodesPass(job, levels, out, true, canMerge, haveNode, i);
        SupernodesPass(job, levels, out, false, canMerge, haveNode, i);
        ChainOne(job, levels', out, canMerge, haveNode, i + 1, c, full);
      } else {
        var offset := job.blob.base + Offset(job.blob.tags, l.pos);
        var size := Size(job.blob.tags[l.pos]);
        PutOne(out, canMerge, offset, size);
        var r := Put(out, true, canMerge, offset, size);
        if r.Slots? {
          var haveNode' := haveNode || PutsRoot(job, out, canMerge, offset);
          SupernodesPut(job, levels, out, true, canMerge, haveNode, i, r.out, haveNode');
          SupernodesPut(job, levels, out, false, canMerge, haveNode, i, r.out, haveNode');
          ChainOne(job, levels', r.out, true, haveNode', i + 1, c, full);
        } else {
          SupernodesRefused(job, levels, out, canMerge, haveNode, i);
          RefusedOne(job, levels, out, canMerge, haveNode, i);
        }
      }
    }
  }

  lemma SupernodesOne(job: Job, levels: seq<Level>, out: seq<Region>, canMerge: bool, haveNode: bool, i: nat)
    requires |out| <= 1 && i <= |levels|
    requires forall k :: 0 <= k < |levels| ==> levels[k].pos < |job.blob.tags|
    ensures OneOfMany(job, Supernodes(job, levels, out, true, canMerge, haveNode, i),
                      Supernodes(job, levels, out, false, canMerge, haveNode, i))
  {
    var c := Supernodes(job, levels, out, true, canMerge, haveNode, i);
    ChainOne(job, levels, out, canMerge, haveNode, i, c, Supernodes(job, levels, out, false, canMerge, haveNode, i));
  }

  lemma SupernodesRefused(job: Job, levels: seq<Level>, out: seq<Region>, canMerge: bool, haveNode: bool, i: nat)
    requires |out| == 1 && i < |levels| && !levels[i].included
    requires forall k :: 0 <= k < |levels| ==> levels[k].pos < |job.blob.tags|
    requires !(canMerge && job.blob.base + Offset(job.blob.tags, levels[i].pos) <= Stop(out[0]))
    ensures var rest := Supernodes(job, levels, [], false, canMerge, haveNode, i);
      rest.out != [] && Supernodes(job, levels, out, false, canMerge, haveNode, i) == rest.(out := out + rest.out)
  {
    var offset := job.blob.base + Offset(job.blob.tags, levels[i].pos);
    var size := Size(job.blob.tags[levels[i].pos]);
    var only := [Region(offset, size)];
    assert [] + only == only;
    assert Put([], false, canMerge, offset, size) == Slots(only) && Put(out, false, canMerge, offset, size) == Slots(out + only);
    var levels' := levels[i := Raised(levels[i])];
    var haveNode' := haveNode || offset == job.blob.base;
    SupernodesPut(job, levels, [], false, canMerge, haveNode, i, only, haveNode');
    SupernodesPut(job, levels, out, false, canMerge, haveNode, i, out + only, haveNode');
    SupernodesLocal(job, levels', out, only, true, haveNode', i + 1);
  }

  // ----- what FDT_REG_SUPERNODES keeps true -----

  /** The value of `want` inside the open node at level `k`. */
  ghost function Inner(s: State, k: nat): nat {
    if k + 1 < |s.levels| then s.levels[k + 1].want else s.want
  }

  /**
   While the tags are walked: if anything is wanted inside an open node, something is wanted inside
   every node around it; such a node is in a region; and inside an open run something is wanted.
   */
  ghost predicate Sound(s: State) {
    s.done < DONE_STRUCT ==>
      && (forall j, k :: 0 <= j <= k < |s.levels| && Inner(s, k) != WANT_NOTHING ==> Inner(s, j) != WANT_NOTHING)
      && (forall k :: 0 <= k < |s.levels| && Inner(s, k) != WANT_NOTHING ==> s.levels[k].included)
      && (s.start != -1 && s.levels != [] ==> s.want != WANT_NOTHING)
  }

  /** Processing a tag other than END_NODE again, from a state with raised levels, decides the same. */
  lemma DecideAgain(job: Job, s: State, s1: State)
    requires Within(job, s) && s.done < DONE_STRUCT && !TagAt(job, s.pos).EndNode? && Decide(job, s).Go?
    requires Within(job, s1) && |s1.levels| == |s.levels|
    requires s1 == s.(levels := s1.levels, canMerge := s1.canMerge, haveNode := s1.haveNode)
    ensures var c := Decide(job, s);
      && |c.state.levels| >= |s.levels|
      && c.state.canMerge == s.canMerge && c.state.haveNode == s.haveNode
      && c.state.levels[..|s.levels|] == s.levels
      && Decide(job, s1) ==
           Go(c.state.(levels := s1.levels + c.state.levels[|s.levels|..], canMerge := s1.canMerge, haveNode := s1.haveNode),
              c.kept, c.stopAfter)
  {
    var c := Decide(job, s);
    if TagAt(job, s.pos).BeginNode? {
      assert c.state.levels[|s.levels|..] == [c.state.levels[|s.levels|]];
    } else {
      assert s1.levels + [] == s1.levels;
    }
  }

  /** `full` delivers what is in the slot and then what `again`, the retry with an empty slot, delivers. */
  ghost predicate Splits(full: Step, slot: seq<Region>, again: Step) {
    && |slot| == 1 && full.Moved? && again.Moved? && again.out != []
    && full.state == again.state && full.out == slot + again.out
  }

  lemma OpenSound(job: Job, s: State, next: State, c: Chain)
    requires Within(job, s) && s.done < DONE_STRUCT && Sound(s) && s.start == -1 && job.flags.supernodes
    requires Decide(job, s).Go? && Decide(job, s).kept && next == Decide(job, s).state
    requires |c.levels| == |next.levels| && Settled(c.levels, |c.levels|)
    ensures forall start, pos :: Sound(next.(start := start, pos := pos, levels := c.levels, canMerge := c.canMerge, haveNode := c.haveNode))
  {
    if next.levels != [] && next.done < DONE_STRUCT {
      if TagAt(job, s.pos).EndNode? {
        assert Inner(s, |s.levels| - 1) == s.want;
        assert Inner(s, |s.levels| - 2) != WANT_NOTHING;
      }
      assert next.want != WANT_NOTHING;
    }
  }

  /** The END_NODE of a node with something wanted inside needs no more supernodes. */
  lemma EndNeedsNone(job: Job, s: State, out: seq<Region>)
    requires Within(job, s) && s.done < DONE_STRUCT && Sound(s) && s.levels != [] && s.want != WANT_NOTHING
    ensures var levels := s.levels[..|s.levels| - 1];
      Supernodes(job, levels, out, true, s.canMerge, s.haveNode, 0).at == |levels|
  {
    var levels := s.levels[..|s.levels| - 1];
    SupernodesFrame(job, levels, out, true, s.canMerge, s.haveNode, 0);
    assert Inner(s, |s.levels| - 1) == s.want;
    assert forall k :: 0 <= k < |levels| ==> Inner(s, k) != WANT_NOTHING;
  }

  lemma RefusedSound(s: State, levels: seq<Level>, at: nat, canMerge: bool, haveNode: bool)
    requires Sound(s) && s.start == -1 && |levels| == |s.levels| && at <= |levels|
    requires Settled(levels, at) && forall k :: at <= k < |levels| ==> levels[k] == s.levels[k]
    ensures Sound(s.(levels := levels, canMerge := canMerge, haveNode := haveNode))
  {
    var s1 := s.(levels := levels, canMerge := canMerge, haveNode := haveNode);
    assert forall k :: 0 <= k < |levels| && at <= k + 1 ==> Inner(s1, k) == Inner(s, k);
    assert forall k :: 0 <= k < |levels| && k + 1 < at ==> Inner(s1, k) != WANT_NOTHING;
  }

  lemma OpenRunSplit(job: Job, s: State, to: State, out: seq<Region>, c: Chain, s1: State)
    requires Within(job, s) && Within(job, to) && Within(job, s1) && job.flags.supernodes && |out| <= 1
    requires c == Supernodes(job, to.levels, out, true, s.canMerge, s.haveNode, 0) && c.at < |to.levels|
    requires s1.pos == s.pos && s1.canMerge == c.canMerge && s1.haveNode == c.haveNode
    ensures var to1 := to.(levels := c.levels, canMerge := c.canMerge, haveNode := c.haveNode);
      Splits(OpenRun(job, s, to, out, false), c.out, OpenRun(job, s1, to1, [], false))
  {
    SupernodesOne(job, to.levels, out, s.canMerge, s.haveNode, 0);
    SupernodesFrame(job, to.levels, out, true, s.canMerge, s.haveNode, 0);
    SupernodesSkip(job, c.levels, [], false, c.canMerge, c.haveNode, 0, c.at);
  }

  /** What a tag other than END_NODE does to the open nodes: nothing, or one more that is in a region. */
  ghost predicate Grows(s: State, to: State) {
    var n := |s.levels|;
    && n <= |to.levels| <= n + 1 && to.levels[..n] == s.levels
    && (|to.levels| == n + 1 ==> to.levels[n].included)
  }

  /** The run cannot be opened for a supernode's sake: the state left behind. */
  lemma OpenRefused(job: Job, s: State, out: seq<Region>, to: State, c: Chain)
    requires Within(job, s) && Within(job, to) && Sound(s) && s.start == -1 && job.flags.supernodes
    requires Grows(s, to) && !TagAt(job, s.pos).EndNode?
    requires c == Supernodes(job, to.levels, out, true, s.canMerge, s.haveNode, 0) && c.at < |to.levels|
    ensures c.at < |s.levels| <= |c.levels| && c.levels[..|s.levels|] + to.levels[|s.levels|..] == c.levels
    ensures var s1 := s.(levels := c.levels[..|s.levels|], canMerge := c.canMerge, haveNode := c.haveNode);
      OpenRun(job, s, to, out, true) == Refused(s1, c.out) && Sound(s1) && Within(job, s1)
  {
    SupernodesFrame(job, to.levels, out, true, s.canMerge, s.haveNode, 0);
    var n := |s.levels|;
    assert c.levels[..n] + to.levels[n..] == c.levels;
    assert |to.levels| == n ==> c.levels + s.levels[n..] == c.levels[..n];
    RefusedSound(s, c.levels[..n], c.at, c.canMerge, c.haveNode);
  }

  lemma DecideGrows(job: Job, s: State)
    requires Within(job, s) && s.done < DONE_STRUCT && !TagAt(job, s.pos).EndNode?
    requires Decide(job, s).Go? && Decide(job, s).kept
    ensures Grows(s, Decide(job, s).state)
  {
  }

  lemma TagStepOpens(job: Job, s: State, out: seq<Region>, one: bool)
    requires Within(job, s) && s.done < DONE_STRUCT && s.start == -1 && Decide(job, s).Go? && Decide(job, s).kept
    ensures TagStep(job, s, out, one) == OpenRun(job, s, Decide(job, s).state.(pos := s.pos + 1), out, one)
  {
  }

  lemma OpenOne(job: Job, s: State, out: seq<Region>)
    requires Within(job, s) && s.done < DONE_STRUCT && Sound(s) && s.start == -1 && job.flags.supernodes && |out| <= 1
    requires Decide(job, s).Go? && Decide(job, s).kept
    ensures var r := TagStep(job, s, out, true);
      if r.Moved? then r == TagStep(job, s, out, false) && Sound(r.state) && |r.out| <= 1
      else r.Refused? && Sound(r.state) && Splits(TagStep(job, s, out, false), r.out, TagStep(job, r.state, [], false))
  {
    var to := Decide(job, s).state.(pos := s.pos + 1);
    var c := Supernodes(job, to.levels, out, true, s.canMerge, s.haveNode, 0);
    TagStepOpens(job, s, out, true);
    TagStepOpens(job, s, out, false);
    if c.at == |to.levels| {
      OpenMoved(job, s, out, c);
    } else {
      if TagAt(job, s.pos).EndNode? { EndNeedsNone(job, s, out); }
      OpenAgain(job, s, out, to, c);
    }
  }

  lemma OpenMoved(job: Job, s: State, out: seq<Region>, c: Chain)
    requires Within(job, s) && s.done < DONE_STRUCT && Sound(s) && s.start == -1 && job.flags.supernodes && |out| <= 1
    requires Decide(job, s).Go? && Decide(job, s).kept
    requires var levels := Decide(job, s).state.levels;
      c == Supernodes(job, levels, out, true, s.canMerge, s.haveNode, 0) && c.at == |levels|
    ensures var to := Decide(job, s).state.(pos := s.pos + 1);
      var r := OpenRun(job, s, to, out, true);
      r.Moved? && r == OpenRun(job, s, to, out, false) && Sound(r.state) && |r.out| <= 1
  {
    var next := Decide(job, s).state;
    SupernodesOne(job, next.levels, out, s.canMerge, s.haveNode, 0);
    SupernodesFrame(job, next.levels, out, true, s.canMerge, s.haveNode, 0);
    OpenSound(job, s, next, c);
  }

  lemma OpenAgain(job: Job, s: State, out: seq<Region>, to: State, c: Chain)
    requires Within(job, s) && s.done < DONE_STRUCT && Sound(s) && s.start == -1 && job.flags.supernodes && |out| <= 1
    requires Decide(job, s).Go? && Decide(job, s).kept && to == Decide(job, s).state.(pos := s.pos + 1)
    requires !TagAt(job, s.pos).EndNode?
    requires c == Supernodes(job, to.levels, out, true, s.canMerge, s.haveNode, 0) && c.at < |to.levels|
    ensures var r := OpenRun(job, s, to, out, true);
      && r.Refused? && Sound(r.state)
      && Splits(OpenRun(job, s, to, out, false), r.out, TagStep(job, r.state, [], false))
  {
    DecideGrows(job, s);
    OpenRefused(job, s, out, to, c);
    var s1 := s.(levels := c.levels[..|s.levels|], canMerge := c.canMerge, haveNode := c.haveNode);
    DecideAgain(job, s, s1);
    OpenRunSplit(job, s, to, out, c, s1);
    TagStepOpens(job, s1, [], false);
  }

  lemma EndSound(s: State, to: State)
    requires Sound(s) && s.done < DONE_STRUCT && s.levels != []
    requires var d := |s.levels| - 1; to.levels == s.levels[..d] && to.want == s.levels[d].want
    requires to.start == -1 || s.want != WANT_NOTHING
    ensures Sound(to)
  {
    var n := |s.levels|;
    assert Inner(s, n - 1) == s.want;
    assert forall k :: 0 <= k < n - 1 ==> Inner(to, k) == Inner(s, k);
    if n >= 2 && to.start != -1 {
      assert Inner(s, n - 2) != WANT_NOTHING;
    }
  }

  lemma BeginSound(s: State, to: State)
    requires Sound(s) && s.done < DONE_STRUCT
    requires var n := |s.levels|;
      && |to.levels| == n + 1 && to.levels[..n] == s.levels
      && to.levels[n].want == s.want && (to.want != WANT_NOTHING ==> to.levels[n].included)
    requires if to.want == WANT_NOTHING then to.start == -1 else s.levels == [] || s.want != WANT_NOTHING
    ensures Sound(to)
  {
    var n := |s.levels|;
    assert forall k :: 0 <= k < n ==> to.levels[k] == s.levels[k];
    assert forall k :: 0 <= k < n ==> Inner(to, k) == Inner(s, k);
    assert Inner(to, n) == to.want;
    if n > 0 { assert Inner(s, n - 1) == s.want; }
  }

  /** A tag that is not kept, or kept inside an open run, leaves a sound state. */
  lemma DecideSound(job: Job, s: State, to: State)
    requires Within(job, s) && s.done < DONE_STRUCT && Sound(s) && Decide(job, s).Go?
    requires var c := Decide(job, s);
      && to.done == c.state.done && to.levels == c.state.levels && to.want == c.state.want
      && (to.start == -1 || (c.kept && to.start == s.start))
      && (c.kept ==> s.start != -1)
    ensures Sound(to)
  {
    var n := |s.levels|;
    match TagAt(job, s.pos) {
      case EndNode =>
        EndSound(s, to);
      case BeginNode(_) =>
        BeginSound(s, to);
      case _ =>
        assert forall k :: 0 <= k < n ==> Inner(to, k) == Inner(s, k);
    }
  }

  lemma TagStepCloses(job: Job, s: State, out: seq<Region>, one: bool)
    requires Within(job, s) && s.done < DONE_STRUCT && s.start != -1 && Decide(job, s).Go? && !Decide(job, s).kept
    ensures var c := Decide(job, s);
      TagStep(job, s, out, one) ==
      CloseRun(job, s, c.state.(pos := s.pos + 1), Here(job, if c.stopAfter then s.pos + 1 else s.pos), out, one)
  {
  }

  lemma CloseRunOne(job: Job, s: State, to: State, stop: int, out: seq<Region>)
    requires Within(job, s) && Within(job, to) && |out| <= 1 && !TagAt(job, s.pos).EndNode?
    ensures var r := CloseRun(job, s, to, stop, out, true);
      var s1 := s.(haveNode := s.haveNode || s.start == 0);
      if r.Moved? then r == CloseRun(job, s, to, stop, out, false) && |r.out| <= 1
      else
        && r == Refused(s1, out)
        && Splits(CloseRun(job, s, to, stop, out, false), out,
                  CloseRun(job, s1, to.(haveNode := s1.haveNode), stop, [], false))
  {
    PutOne(out, s.canMerge, job.blob.base + s.start, stop - s.start);
    var only := [Region(job.blob.base + s.start, stop - s.start)];
    assert [] + only == only;
  }

  lemma CloseOne(job: Job, s: State, out: seq<Region>)
    requires Within(job, s) && s.done < DONE_STRUCT && Sound(s) && s.start != -1 && |out| <= 1
    requires Decide(job, s).Go? && !Decide(job, s).kept
    ensures var r := TagStep(job, s, out, true);
      if r.Moved? then r == TagStep(job, s, out, false) && Sound(r.state) && |r.out| <= 1
      else r.Refused? && Sound(r.state) && Splits(TagStep(job, s, out, false), r.out, TagStep(job, r.state, [], false))
  {
    var c := Decide(job, s);
    var to := c.state.(pos := s.pos + 1);
    var stop := Here(job, if c.stopAfter then s.pos + 1 else s.pos);
    assert !TagAt(job, s.pos).EndNode?;
    TagStepCloses(job, s, out, true);
    TagStepCloses(job, s, out, false);
    CloseRunOne(job, s, to, stop, out);
    var r := CloseRun(job, s, to, stop, out, true);
    if r.Moved? {
      DecideSound(job, s, r.state);
    } else {
      CloseRetry(job, s, r.state);
    }
  }

  lemma CloseRetry(job: Job, s: State, s1: State)
    requires Within(job, s) && s.done < DONE_STRUCT && Sound(s) && s.start != -1
    requires Decide(job, s).Go? && !Decide(job, s).kept && !TagAt(job, s.pos).EndNode?
    requires s1 == s.(haveNode := s.haveNode || s.start == 0)
    ensures Sound(s1) && Within(job, s1)
    ensures var c := Decide(job, s);
      TagStep(job, s1, [], false) ==
      CloseRun(job, s1, c.state.(pos := s.pos + 1, haveNode := s1.haveNode), Here(job, if c.stopAfter then s.pos + 1 else s.pos), [], false)
  {
    CloseAgain(job, s, s1);
    TagStepCloses(job, s1, [], false);
  }

  lemma CloseAgain(job: Job, s: State, s1: State)
    requires Within(job, s) && s.done < DONE_STRUCT && !TagAt(job, s.pos).EndNode? && Decide(job, s).Go?
    requires Sound(s) && s1 == s.(haveNode := s1.haveNode)
    ensures var c := Decide(job, s);
      Sound(s1) && Within(job, s1) && Decide(job, s1) == Go(c.state.(haveNode := s1.haveNode), c.kept, c.stopAfter)
  {
    DecideAgain(job, s, s1);
    var levels := Decide(job, s).state.levels;
    assert levels == levels[..|s.levels|] + levels[|s.levels|..];
    assert forall k :: 0 <= k < |s.levels| ==> Inner(s1, k) == Inner(s, k);
  }

  lemma GoOnOne(job: Job, s: State, out: seq<Region>, c: Choice)
    requires Within(job, s) && s.done < DONE_STRUCT && Sound(s) && job.flags.supernodes
    requires c == Decide(job, s) && c.Go? && c.kept == (s.start != -1)
    ensures var to := c.state.(pos := s.pos + 1);
      Sound(to) && TagStep(job, s, out, true) == TagStep(job, s, out, false) == Moved(to, out)
  {
    DecideSound(job, s, c.state.(pos := s.pos + 1));
  }

  lemma TagStepOne(job: Job, s: State, out: seq<Region>)
    requires Within(job, s) && s.done < DONE_STRUCT && Sound(s) && job.flags.supernodes && |out| <= 1
    ensures var r := TagStep(job, s, out, true);
      match r
      case Failed(_) => r == TagStep(job, s, out, false)
      case Moved(s', out') => r == TagStep(job, s, out, false) && Sound(s') && |out'| <= 1
      case Refused(s1, slot) => Sound(s1) && Splits(TagStep(job, s, out, false), slot, TagStep(job, s1, [], false))
  {
    var c := Decide(job, s);
    if c.Go? {
      if c.kept && s.start == -1 {
        OpenOne(job, s, out);
      } else if !c.kept && s.start != -1 {
        CloseOne(job, s, out);
      } else {
        GoOnOne(job, s, out, c);
      }
    }
  }

  lemma PutPartOne(job: Job, s: State, done: nat, out: seq<Region>, offset: int, size: int)
    requires |out| <= 1
    ensures var r := PutPart(job, s, done, out, true, offset, size);
      if r.Moved? then r == PutPart(job, s, done, out, false, offset, size) && |r.out| == 1 && r.state.done == done
      else
        && r == Refused(s, out)
        && Splits(PutPart(job, s, done, out, false, offset, size), out, PutPart(job, s, done, [], false, offset, size))
  {
    PutOne(out, s.canMerge, offset, size);
    assert [] + [Region(offset, size)] == [Region(offset, size)];
  }

  lemma RsvmapOne(job: Job, s: State, out: seq<Region>)
    requires |out| <= 1 && Sound(s) && s.done < DONE_STRUCT
    ensures var r := RsvmapStep(job, s, out, true);
      if r.Moved? then r == RsvmapStep(job, s, out, false) && |r.out| <= 1 && Sound(r.state)
      else r == Refused(s, out) && Splits(RsvmapStep(job, s, out, false), out, RsvmapStep(job, s, [], false))
  {
    var size := job.blob.base - job.blob.rsvmap;
    PutOne(out, s.canMerge, job.blob.rsvmap, size);
    assert [] + [Region(job.blob.rsvmap, size)] == [Region(job.blob.rsvmap, size)];
    var r := RsvmapStep(job, s, out, true);
    if r.Moved? { assert forall k :: 0 <= k < |s.levels| ==> Inner(r.state, k) == Inner(s, k); }
  }

  /** One step with one slot is the step with enough slots, or splits it in two. */
  lemma AdvanceOne(job: Job, s: State, out: seq<Region>)
    requires Within(job, s) && s.done < DONE_STRINGS && Sound(s) && job.flags.supernodes && |out| <= 1
    ensures var r := Advance(job, s, out, true);
      match r
      case Failed(_) => r == Advance(job, s, out, false)
      case Moved(s', out') => r == Advance(job, s, out, false) && Sound(s') && |out'| <= 1
      case Refused(s1, slot) => Sound(s1) && Splits(Advance(job, s, out, false), slot, Advance(job, s1, [], false))
  {
    if s.done == DONE_NOTHING && job.flags.addRsvmap {
      RsvmapOne(job, s, out);
    } else if s.done < DONE_STRUCT {
      TagStepOne(job, s, out);
    } else {
      PartOne(job, s, out);
    }
  }

  /** The parts after the tags; `Sound` asks nothing there. */
  lemma PartOne(job: Job, s: State, out: seq<Region>)
    requires Within(job, s) && DONE_STRUCT <= s.done < DONE_STRINGS && |out| <= 1
    ensures var r := Advance(job, s, out, true);
      match r
      case Failed(_) => r == Advance(job, s, out, false)
      case Moved(s', out') => r == Advance(job, s, out, false) && |out'| <= 1
      case Refused(s1, slot) => Splits(Advance(job, s, out, false), slot, Advance(job, s1, [], false))
  {
    if s.done == DONE_STRUCT {
      PutPartOne(job, s, DONE_EMPTY, out, job.blob.base, 8);
    } else if s.done == DONE_EMPTY {
      EndOne(job, s, out);
    } else {
      StringsOne(job, s, out);
    }
  }

  lemma EndOne(job: Job, s: State, out: seq<Region>)
    requires |out| <= 1
    ensures var r := EndStep(job, s, out, true);
      match r
      case Failed(_) => r == EndStep(job, s, out, false)
      case Moved(s', out') => r == EndStep(job, s, out, false) && |out'| <= 1
      case Refused(s1, slot) => s1.done == s.done && Splits(EndStep(job, s, out, false), slot, EndStep(job, s1, [], false))
  {
    var s' := if s.start == job.blob.structSize - 4 then s.(start := s.start - 4) else s;
    PutPartOne(job, s', DONE_END, out, job.blob.base + s'.start, job.blob.structSize - s'.start);
  }

  lemma StringsOne(job: Job, s: State, out: seq<Region>)
    requires |out| <= 1
    ensures var r := StringsStep(job, s, out, true);
      match r
      case Failed(_) => r == StringsStep(job, s, out, false)
      case Moved(s', out') => r == StringsStep(job, s, out, false) && |out'| <= 1
      case Refused(s1, slot) => s1.done == s.done && Splits(StringsStep(job, s, out, false), slot, StringsStep(job, s1, [], false))
  {
    PutPartOne(job, s.(canMerge := false), DONE_STRINGS, out, job.blob.strings, job.blob.stringsSize);
  }

  /** A call delivers the next region of the full list and leaves a state from which the rest follows. */
  lemma {:induction false} NextOne(job: Job, s: State, out: seq<Region>)
    requires Within(job, s) && s.done <= DONE_STRINGS && Sound(s) && job.flags.supernodes && |out| <= 1
    ensures var t := Next(job, s, out);
      var full := Full(job, s, out);
      if t.code == 0 then |t.slot| == 1 && Sound(t.state) && full == Under(t.slot, Full(job, t.state, []))
      else full == if t.code == FDT_ERR_NOTFOUND then Ok([]) else Err(t.code)
    decreases DONE_STRINGS - s.done, |job.blob.tags| + 1 - s.pos
  {
    if s.done == DONE_STRINGS {
      assert out + [] == out;
    } else {
      AdvanceOne(job, s, out);
      var r := Advance(job, s, out, true);
      match r {
        case Failed(_) =>
        case Moved(s', out') => NextOne(job, s', out');
        case Refused(s1, slot) =>
          var again := Advance(job, s1, [], false);
          FullLocal(job, again.state, slot, again.out);
      }
    }
  }

  /** Call number `n` from the start delivers `rs[n]`; the call after the last one finds nothing. */
  ghost predicate Delivers(job: Job, s: State, rs: seq<Region>, n: nat)
    requires Within(job, s) && s.done <= DONE_STRINGS
  {
    var t := Next(job, After(job, s, n), []);
    if n < |rs| then t.code == 0 && t.slot == [rs[n]] else t.code == FDT_ERR_NOTFOUND
  }

  /** If the single pass succeeds, the calls deliver its regions one by one and then report the end. */
  ghost predicate Faithful(job: Job) {
    forall rs: seq<Region>, n: nat :: Full(job, FIRST, []) == Ok(rs) && n <= |rs| ==> Delivers(job, FIRST, rs, n)
  }

  lemma {:induction false} AfterNext(job: Job, s: State, n: nat)
    requires Within(job, s) && s.done <= DONE_STRINGS
    ensures After(job, s, n + 1) == Next(job, After(job, s, n), []).state
    decreases n
  {
    if n > 0 { AfterNext(job, Next(job, s, []).state, n - 1); }
  }

  lemma {:induction false} ResumeDelivers(job: Job, s: State, rs: seq<Region>, n: nat)
    requires job.flags.supernodes && Within(job, s) && s.done <= DONE_STRINGS && Sound(s)
    requires Full(job, s, []) == Ok(rs) && n <= |rs|
    ensures Delivers(job, s, rs, n)
    decreases n
  {
    NextOne(job, s, []);
    var t := Next(job, s, []);
    if n > 0 {
      ResumeDelivers(job, t.state, rs[1..], n - 1);
    }
  }

  /** With FDT_REG_SUPERNODES the calls are faithful to the single pass. */
  lemma SupernodesFaithful(job: Job)
    requires job.flags.supernodes
    ensures Faithful(job)
  {
    forall rs: seq<Region>, n: nat | Full(job, FIRST, []) == Ok(rs) && n <= |rs|
      ensures Delivers(job, FIRST, rs, n)
    {
      ResumeDelivers(job, FIRST, rs, n);
    }
  }
}
