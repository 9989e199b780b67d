/**
 struct fdt_region_state and the functions on it. The fields up to `haveNode` and the `ptrs` fields
 live between calls; `slot` and `count` are the caller's one-entry region list.
 */
module FdtState {
  import opened FdtTags
  import opened FdtRuns
  import opened FdtIter
  import FdtFind

  /** What one turn of the supernode loop does to the level, the slot and the flags. */
  ghost predicate Lifts(job: Job, l: Level, out: seq<Region>, canMerge: bool, haveNode: bool,
                        l': Level, out': seq<Region>, canMerge': bool, haveNode': bool)
    requires l.pos < |job.blob.tags|
  {
    var offset := job.blob.base + Offset(job.blob.tags, l.pos);
    && l' == Raised(l)
    && if l.included then out' == out && canMerge' == canMerge && haveNode' == haveNode
       else
         && Put(out, true, canMerge, offset, Size(job.blob.tags[l.pos])) == Slots(out')
         && canMerge' && haveNode' == (haveNode || PutsRoot(job, out, canMerge, offset))
  }

  ghost predicate Sticks(job: Job, l: Level, out: seq<Region>, canMerge: bool)
    requires l.pos < |job.blob.tags|
  {
    !l.included &&
    Put(out, true, canMerge, job.blob.base + Offset(job.blob.tags, l.pos), Size(job.blob.tags[l.pos])).Refusal?
  }

  ghost predicate InTags(job: Job, levels: seq<Level>) {
    forall k :: 0 <= k < |levels| ==> levels[k].pos < |job.blob.tags|
  }

  lemma SupernodesGoOn(job: Job, levels: seq<Level>, out: seq<Region>, canMerge: bool, haveNode: bool, i: nat,
                       levels': seq<Level>, out': seq<Region>, canMerge': bool, haveNode': bool)
    requires i < |levels| && forall k :: 0 <= k < |levels| ==> levels[k].pos < |job.blob.tags|
    requires levels' == levels[i := Raised(levels[i])]
    requires Lifts(job, levels[i], out, canMerge, haveNode, Raised(levels[i]), out', canMerge', haveNode')
    ensures Supernodes(job, levels, out, true, canMerge, haveNode, i) ==
            Supernodes(job, levels', out', true, canMerge', haveNode', i + 1)
  {
  }

  lemma OpenRunGoesOn(job: Job, s: State, to: State, out: seq<Region>, c: Chain)
    requires Within(job, s) && Within(job, to) && job.flags.supernodes
    requires c == Supernodes(job, to.levels, out, true, s.canMerge, s.haveNode, 0) && c.at == |to.levels|
    ensures OpenRun(job, s, to, out, true) ==
      Moved(to.(start := Here(job, s.pos), levels := c.levels, canMerge := c.canMerge, haveNode := c.haveNode), c.out)
  {
  }

  lemma LeftLevels(job: Job, s: State, levels: seq<Level>, canMerge: bool, haveNode: bool)
    ensures Left(job, s.(levels := levels, canMerge := canMerge, haveNode := haveNode)) ==
      State(s.done, s.pos, levels, s.want, Left(job, s).buffer, s.start, canMerge, haveNode)
  {
  }

  lemma OpenRunStops(job: Job, s: State, to: State, out: seq<Region>, c: Chain)
    requires Within(job, s) && Within(job, to) && job.flags.supernodes
    requires c == Supernodes(job, to.levels, out, true, s.canMerge, s.haveNode, 0) && c.at < |to.levels|
    ensures var kept := if |c.levels| <= |s.levels| then c.levels + s.levels[|c.levels|..] else c.levels[..|s.levels|];
      OpenRun(job, s, to, out, true) ==
      Refused(Left(job, s.(levels := kept, canMerge := c.canMerge, haveNode := c.haveNode)), c.out)
  {
  }

  /** The open nodes after a refusal: those that were raised, or what is left of the old ones. */
  lemma KeptLevels(levels: seq<Level>, raised: seq<Level>, now: seq<Level>)
    requires |now| == |levels| && forall k :: 0 <= k < |now| ==> now[k] == if k < |raised| then raised[k] else levels[k]
    ensures now == if |raised| <= |levels| then raised + levels[|raised|..] else raised[..|levels|]
  {
  }

  lemma OpenRunRefused(job: Job, s: State, to: State, out: seq<Region>, c: Chain, now: seq<Level>, slot: Region)
    requires Within(job, s) && Within(job, to) && job.flags.supernodes
    requires c == Supernodes(job, to.levels, out, true, s.canMerge, s.haveNode, 0) && c.at < |to.levels| && c.out == [slot]
    requires |now| == |s.levels| && forall k :: 0 <= k < |now| ==>
      now[k] == if k < |c.levels| then c.levels[k] else s.levels[k]
    ensures OpenRun(job, s, to, out, true) ==
      Refused(State(s.done, s.pos, now, s.want, Left(job, s).buffer, s.start, c.canMerge, c.haveNode), [slot])
  {
    KeptLevels(s.levels, c.levels, now);
    OpenRunStops(job, s, to, out, c);
    LeftLevels(job, s, now, c.canMerge, c.haveNode);
  }

  lemma CloseRunGoesOn(job: Job, s: State, to: State, stop: int, out: seq<Region>, out': seq<Region>)
    requires Within(job, s) && Within(job, to) && Put(out, true, s.canMerge, job.blob.base + s.start, stop - s.start) == Slots(out')
    ensures var have := s.haveNode || s.start == 0 || PutsRoot(job, out, s.canMerge, job.blob.base + s.start);
      CloseRun(job, s, to, stop, out, true) == Moved(to.(start := -1, canMerge := true, haveNode := have), out')
  {
  }

  lemma CloseRunStops(job: Job, s: State, to: State, stop: int, out: seq<Region>)
    requires Within(job, s) && Within(job, to) && Put(out, true, s.canMerge, job.blob.base + s.start, stop - s.start).Refusal?
    ensures CloseRun(job, s, to, stop, out, true) == Refused(Left(job, s.(haveNode := s.haveNode || s.start == 0)), out)
  {
  }

  lemma SupernodesStop(job: Job, levels: seq<Level>, out: seq<Region>, canMerge: bool, haveNode: bool, i: nat)
    requires i < |levels| && forall k :: 0 <= k < |levels| ==> levels[k].pos < |job.blob.tags|
    requires Sticks(job, levels[i], out, canMerge)
    ensures out != [] && Supernodes(job, levels, out, true, canMerge, haveNode, i) == Chain(levels, out, canMerge, haveNode, i)
  {
  }

  /** struct fdt_region_ptrs; `pos` is the number of the tag at nextoffset. */
  datatype Ptrs = Ptrs(depth: int, done: nat, want: nat, end: nat, pos: nat)

  class RegionState {
    const stack: array<Level>
    var slot: Region
    var count: nat
    var canMerge: bool
    var start: int
    var haveNode: bool
    var ptrs: Ptrs

    constructor ()
      ensures stack.Length == FDT_MAX_DEPTH && fresh(stack) && count == 0
    {
      stack := new Level[FDT_MAX_DEPTH](i => Level(0, WANT_NOTHING, false));
      slot, count, canMerge, start, haveNode := Region(0, 0), 0, true, -1, false;
      ptrs := Ptrs(-1, DONE_NOTHING, WANT_NOTHING, 0, 0);
    }

    ghost predicate InRange(p: Ptrs, path: array<char>) {
      stack.Length == FDT_MAX_DEPTH && -1 <= p.depth < FDT_MAX_DEPTH && p.end < path.Length
    }

    /** The abstract state at `p`. */
    ghost function Of(p: Ptrs, path: array<char>): State
      requires InRange(p, path)
      reads this, stack, path
    {
      State(p.done, p.pos, stack[..p.depth + 1], p.want, path[..p.end], start, canMerge, haveNode)
    }

    ghost predicate Valid(job: Job, path: array<char>)
      reads this, stack, path
    {
      && InRange(ptrs, path) && path.Length == job.pathLen
      && ptrs.done <= DONE_STRINGS && Within(job, Of(ptrs, path))
      && (forall k :: 0 <= k < |job.blob.tags| && job.blob.tags[k].Prop? ==> job.blob.tags[k].key.Some?)
    }

    ghost function Abs(path: array<char>): State
      requires InRange(ptrs, path)
      reads this, stack, path
    {
      Of(ptrs, path)
    }

    ghost function Out(): seq<Region>
      reads this
    {
      if count == 0 then [] else [slot]
    }

    /** fdt_add_region() with max_regions == 1: true if the region was added or merged. */
    method AddRegion(job: Job, offset: int, size: int) returns (ok: bool)
      requires count <= 1
      modifies this`slot, this`count, this`haveNode
      ensures var r := Put(old(Out()), true, canMerge, offset, size);
        && ok == r.Slots?
        && (ok ==> count <= 1 && Out() == r.out && haveNode == (old(haveNode) || PutsRoot(job, old(Out()), canMerge, offset)))
        && (!ok ==> slot == old(slot) && haveNode == old(haveNode))
    {
      if canMerge && count > 0 && offset <= slot.offset + slot.size {
        slot := Region(slot.offset, offset + size - slot.offset);
        return true;
      }
      count := count + 1;
      if count - 1 < 1 {
        slot := Region(offset, size);
        if offset - job.blob.base == 0 {
          haveNode := true;
        }
        return true;
      }
      return false;
    }

    /** One turn of the loop in fdt_include_supernodes(). */
    method IncludeLevel(job: Job, i: nat) returns (ok: bool)
      requires count <= 1 && i < stack.Length && stack[i].pos < |job.blob.tags|
      modifies this`slot, this`count, this`haveNode, this`canMerge, stack
      ensures forall k :: 0 <= k < stack.Length && k != i ==> stack[k] == old(stack[k])
      ensures if ok then
          && count <= 1
          && Lifts(job, old(stack[i]), old(Out()), old(canMerge), old(haveNode), stack[i], Out(), canMerge, haveNode)
        else
          && Sticks(job, old(stack[i]), old(Out()), old(canMerge))
          && stack[i] == old(stack[i]) && slot == old(slot) && canMerge == old(canMerge) && haveNode == old(haveNode)
    {
      var l := stack[i];
      ok := true;
      if !l.included {
        ok := AddRegion(job, job.blob.base + Offset(job.blob.tags, l.pos), Size(job.blob.tags[l.pos]));
        if !ok {
          return;
        }
        l := l.(included := true);
        canMerge := true;
      }
      if l.want == WANT_NOTHING {
        l := l.(want := WANT_NODES_ONLY);
      }
      stack[i] := l;
    }

    /** The stack holds `levels`. */
    ghost predicate Holds(levels: seq<Level>)
      reads stack
    {
      |levels| <= stack.Length && forall k :: 0 <= k < |levels| ==> stack[k] == levels[k]
    }

    /** IncludeLevel(), as a step of the whole chain. */
    method IncludeNext(job: Job, i: nat, ghost levels: seq<Level>) returns (ok: bool, ghost levels': seq<Level>)
      requires count <= 1 && i < |levels| && Holds(levels) && InTags(job, levels)
      modifies this`slot, this`count, this`haveNode, this`canMerge, stack
      ensures forall k :: |levels| <= k < stack.Length ==> stack[k] == old(stack[k])
      ensures |levels'| == |levels| && Holds(levels') && InTags(job, levels')
      ensures ok ==> count <= 1
      ensures ok ==>
        old(Supernodes(job, levels, Out(), true, canMerge, haveNode, i)) == Supernodes(job, levels', Out(), true, canMerge, haveNode, i + 1)
      ensures !ok ==>
        old(Supernodes(job, levels, Out(), true, canMerge, haveNode, i)) == Chain(levels', [slot], canMerge, haveNode, i)
    {
      ghost var out, merge, have := Out(), canMerge, haveNode;
      ok := IncludeLevel(job, i);
      levels' := levels;
      if ok {
        levels' := levels[i := Raised(levels[i])];
        SupernodesGoOn(job, levels, out, merge, have, i, levels', Out(), canMerge, haveNode);
      } else {
        SupernodesStop(job, levels, out, merge, have, i);
      }
    }

    /** fdt_include_supernodes() for the nodes up to level `d`. */
    method IncludeSupernodes(job: Job, d: int) returns (ok: bool, ghost c: Chain)
      requires count <= 1 && -1 <= d < stack.Length && InTags(job, stack[..d + 1])
      modifies this`slot, this`count, this`haveNode, this`canMerge, stack
      ensures forall k :: d < k < stack.Length ==> stack[k] == old(stack[k])
      ensures ok ==> count <= 1
      ensures c == Supernodes(job, old(stack[..d + 1]), old(Out()), true, old(canMerge), old(haveNode), 0)
      ensures ok == (c.at == d + 1) && c == Chain(stack[..d + 1], if ok then Out() else [slot], canMerge, haveNode, c.at)
    {
      var i := 0;
      ok := true;
      ghost var levels := stack[..d + 1];
      c := Supernodes(job, levels, Out(), true, canMerge, haveNode, 0);
      while i <= d && ok
        invariant 0 <= i <= d + 1 == |levels| && Holds(levels) && InTags(job, levels) && (ok ==> count <= 1)
        invariant forall k :: d < k < stack.Length ==> stack[k] == old(stack[k])
        invariant ok ==> Supernodes(job, levels, Out(), true, canMerge, haveNode, i) == c
        invariant !ok ==> i <= d && c == Chain(levels, [slot], canMerge, haveNode, i)
        decreases if ok then d + 1 - i else -1
      {
        ok, levels := IncludeNext(job, i, levels);
        if ok {
          i := i + 1;
        }
      }
      assert stack[..d + 1] == levels;
    }

    /** The BEGIN_NODE case: push the name and the stack entry. */
    method BeginTag(job: Job, path: array<char>, name: string) returns (err: int, p: Ptrs, kept: bool)
      requires Valid(job, path) && ptrs.done < DONE_STRUCT && TagAt(job, ptrs.pos) == BeginNode(name)
      modifies stack, path
      ensures InRange(p, path)
      ensures forall k :: 0 <= k <= ptrs.depth ==> stack[k] == old(stack[k])
      ensures path[..ptrs.end] == old(path[..ptrs.end])
      ensures var c := DecideBegin(job, old(Abs(path)), name);
        if c.Fail? then err == c.code else err == 0 && c == Go(Of(p, path), kept, false)
    {
      err, p, kept := 0, ptrs, false;
      if p.depth + 1 == FDT_MAX_DEPTH {
        err := FDT_ERR_BADSTRUCTURE;
        return;
      }
      if p.end + 2 + |name| >= path.Length {
        err := FDT_ERR_NOSPACE;
        return;
      }
      var end := FdtFind.AppendName(path, p.end, name);
      var want := p.want;
      if want == WANT_NODES_ONLY || !(job.flags.directSubnodes || job.flags.allSubnodes) {
        want := WANT_NOTHING;
      }
      if job.nodes(path[..end]) != 0 {
        want := if job.flags.allSubnodes then WANT_ALL_NODES_AND_PROPS else WANT_NODES_AND_PROPS;
      } else if want != WANT_NOTHING {
        if want != WANT_ALL_NODES_AND_PROPS {
          want := want - 1;
        }
      }
      kept := want != WANT_NOTHING;
      stack[p.depth + 1] := Level(p.pos, p.want, kept);
      p := p.(depth := p.depth + 1, want := want, end := end);
      assert stack[..p.depth + 1] == old(stack[..ptrs.depth + 1]) + [Level(p.pos, ptrs.want, kept)];
    }

    /** The switch over the next tag, on a copy of `ptrs`. */
    method DecideTag(job: Job, path: array<char>) returns (err: int, p: Ptrs, kept: bool, stopAfter: bool)
      requires Valid(job, path) && ptrs.done < DONE_STRUCT
      modifies stack, path
      ensures InRange(p, path)
      ensures forall k :: 0 <= k <= ptrs.depth ==> stack[k] == old(stack[k])
      ensures err == 0 ==> path[..ptrs.end] == Left(job, old(Abs(path))).buffer
      ensures var c := Decide(job, old(Abs(path)));
        if c.Fail? then err == c.code else err == 0 && c == Go(Of(p, path), kept, stopAfter)
    {
      err, p, kept, stopAfter := 0, ptrs, false, false;
      match TagAt(job, p.pos) {
        case Prop(key, _) =>
          var val := job.props(key.value);
          if val == -1 {
            kept := p.want >= WANT_NODES_AND_PROPS;
          } else {
            kept := val != 0;
            if job.flags.supernodes && val != 0 && p.want == WANT_NOTHING {
              p := p.(want := WANT_NODES_ONLY);
            }
          }
        case Nop =>
          kept := p.want >= WANT_NODES_AND_PROPS;
        case BeginNode(name) =>
          err, p, kept := BeginTag(job, path, name);
        case EndNode =>
          kept := p.want != WANT_NOTHING;
          if p.depth < 0 {
            err := FDT_ERR_BADSTRUCTURE;
            return;
          }
          stopAfter := p.want != WANT_NOTHING || job.flags.directSubnodes;
          var end := FdtFind.CutName(path, p.end);
          p := p.(want := stack[p.depth].want, depth := p.depth - 1, end := end);
          assert stack[..ptrs.depth + 1][..ptrs.depth] == stack[..ptrs.depth];
        case End =>
          kept := true;
          stopAfter := true;
          p := p.(done := DONE_STRUCT);
      }
    }

    /** A tag has been looked at from state `s` and nothing is committed. */
    ghost predicate Looked(job: Job, path: array<char>, s: State)
      reads this, stack, path
    {
      && InRange(ptrs, path)
      && s == State(ptrs.done, ptrs.pos, s.levels, ptrs.want, s.buffer, start, canMerge, haveNode)
      && |s.levels| == ptrs.depth + 1 && (forall k :: 0 <= k <= ptrs.depth ==> stack[k] == s.levels[k])
      && path[..ptrs.end] == Left(job, s).buffer
    }

    /** The supernodes part of OpenTag(). */
    method OpenSupernodes(job: Job, path: array<char>, p: Ptrs, ghost s: State) returns (ok: bool)
      requires Looked(job, path, s) && InRange(p, path) && count <= 1 && job.flags.supernodes
      requires Within(job, s) && Within(job, Of(p, path).(pos := ptrs.pos + 1))
      modifies this`slot, this`count, this`haveNode, this`canMerge, stack
      ensures InRange(ptrs, path) && InRange(p, path)
      ensures var r := OpenRun(job, s, old(Of(p, path)).(pos := s.pos + 1), old(Out()), true);
        if ok then count <= 1 && r == Moved(Of(p, path).(pos := s.pos + 1, start := Here(job, s.pos)), Out())
        else r == Refused(Abs(path), [slot])
    {
      ghost var to := Of(p, path).(pos := s.pos + 1);
      ghost var out := Out();
      ghost var c;
      ok, c := IncludeSupernodes(job, p.depth);
      assert path[..p.end] == to.buffer && path[..ptrs.end] == Left(job, s).buffer;
      if ok {
        OpenRunGoesOn(job, s, to, out, c);
      } else {
        OpenRunRefused(job, s, to, out, c, stack[..ptrs.depth + 1], slot);
      }
    }

    /** The tag starts a run. */
    method OpenTag(job: Job, path: array<char>, p: Ptrs, ghost s: State) returns (ok: bool)
      requires Looked(job, path, s) && InRange(p, path) && count <= 1
      requires Within(job, s) && Within(job, Of(p, path).(pos := ptrs.pos + 1))
      modifies this, stack
      ensures InRange(ptrs, path)
      ensures var r := OpenRun(job, s, old(Of(p, path)).(pos := s.pos + 1), old(Out()), true);
        if ok then count <= 1 && r == Moved(Abs(path), Out()) else r == Refused(Abs(path), [slot])
    {
      var offset := Here(job, ptrs.pos);
      ok := true;
      if job.flags.supernodes {
        ok := OpenSupernodes(job, path, p, s);
        if !ok {
          return;
        }
      }
      start := offset;
      ptrs := p.(pos := ptrs.pos + 1);
    }

    /** Add the open run up to `stop`. */
    method AddRun(job: Job, stop: int) returns (ok: bool)
      requires count <= 1
      modifies this`slot, this`count, this`haveNode
      ensures var r := Put(old(Out()), true, canMerge, job.blob.base + start, stop - start);
        && ok == r.Slots?
        && (ok ==> count <= 1 && Out() == r.out)
        && (ok ==> haveNode == (old(haveNode) || start == 0 || PutsRoot(job, old(Out()), canMerge, job.blob.base + start)))
        && (!ok ==> slot == old(slot) && haveNode == (old(haveNode) || start == 0))
    {
      if start == 0 {
        haveNode := true;
      }
      ok := AddRegion(job, job.blob.base + start, stop - start);
    }

    /** The tag ends the open run. */
    method CloseTag(job: Job, path: array<char>, p: Ptrs, stop: int, ghost s: State) returns (ok: bool)
      requires Looked(job, path, s) && InRange(p, path) && count <= 1
      requires Within(job, s) && Within(job, Of(p, path).(pos := ptrs.pos + 1))
      modifies this
      ensures InRange(ptrs, path)
      ensures var r := CloseRun(job, s, old(Of(p, path)).(pos := s.pos + 1), stop, old(Out()), true);
        if ok then count <= 1 && r == Moved(Abs(path), Out()) else r == Refused(Abs(path), [slot])
    {
      ghost var to, out := Of(p, path).(pos := s.pos + 1), Out();
      ok := AddRun(job, stop);
      assert stack[..ptrs.depth + 1] == s.levels;
      if !ok {
        CloseRunStops(job, s, to, stop, out);
        return;
      }
      CloseRunGoesOn(job, s, to, stop, out, Out());
      start := -1;
      canMerge := true;
      ptrs := p.(pos := ptrs.pos + 1);
    }

    /** What is to be done for a tag that was looked at. */
    ghost function Due(job: Job, path: array<char>, p: Ptrs, kept: bool, stopAfter: bool, s: State): Step
      requires InRange(p, path) && Within(job, s) && Within(job, Of(p, path).(pos := ptrs.pos + 1))
      reads this, stack, path
    {
      var to := Of(p, path).(pos := ptrs.pos + 1);
      if kept && start == -1 then OpenRun(job, s, to, Out(), true)
      else if !kept && start != -1 then
        CloseRun(job, s, to, Here(job, if stopAfter then ptrs.pos + 1 else ptrs.pos), Out(), true)
      else Moved(to, Out())
    }

    /** DecideTag(), and what is left to do. */
    method LookAtTag(job: Job, path: array<char>)
      returns (err: int, p: Ptrs, kept: bool, stopAfter: bool, ghost step: Step)
      requires Valid(job, path) && ptrs.done < DONE_STRUCT
      modifies stack, path
      ensures step == TagStep(job, old(Abs(path)), Out(), true)
      ensures err <= 0 && (err < 0 ==> step == Failed(err)) && InRange(p, path)
      ensures err == 0 ==>
        && Looked(job, path, old(Abs(path))) && Within(job, Of(p, path).(pos := ptrs.pos + 1))
        && step == Due(job, path, p, kept, stopAfter, old(Abs(path)))
    {
      err, p, kept, stopAfter := DecideTag(job, path);
      step := TagStep(job, old(Abs(path)), Out(), true);
    }

    /** Do it: 0 when the tag is done, 1 when it was refused. */
    method CommitTag(job: Job, path: array<char>, p: Ptrs, kept: bool, stopAfter: bool, ghost s: State,
                     ghost step: Step) returns (res: int)
      requires Looked(job, path, s) && InRange(p, path) && count <= 1
      requires Within(job, s) && Within(job, Of(p, path).(pos := ptrs.pos + 1))
      requires step == Due(job, path, p, kept, stopAfter, s)
      modifies this, stack
      ensures InRange(ptrs, path) && !step.Failed? && res == (if step.Refused? then 1 else 0)
      ensures step.Refused? ==> step == Refused(Abs(path), [slot])
      ensures step.Moved? ==> step == Moved(Abs(path), Out()) && count <= 1
    {
      var ok := true;
      if kept && start == -1 {
        ok := OpenTag(job, path, p, s);
      } else if !kept && start != -1 {
        ok := CloseTag(job, path, p, Here(job, if stopAfter then ptrs.pos + 1 else ptrs.pos), s);
      } else {
        ptrs := p.(pos := ptrs.pos + 1);
      }
      res := if ok then 0 else 1;
    }

    /** One turn of the tag loop: 0 when the tag is done, 1 when it was refused, else an error. */
    method NextTag(job: Job, path: array<char>) returns (res: int, ghost step: Step)
      requires Valid(job, path) && ptrs.done < DONE_STRUCT && count <= 1
      modifies this, stack, path
      ensures InRange(ptrs, path)
      ensures step == TagStep(job, old(Abs(path)), old(Out()), true)
      ensures res == if step.Failed? then step.code else if step.Refused? then 1 else 0
      ensures step.Refused? ==> step == Refused(Abs(path), [slot])
      ensures step.Moved? ==> step == Moved(Abs(path), Out()) && count <= 1
    {
      ghost var s := Abs(path);
      var p, kept, stopAfter;
      res, p, kept, stopAfter, step := LookAtTag(job, path);
      if res < 0 {
        return;
      }
      res := CommitTag(job, path, p, kept, stopAfter, s, step);
    }

    /** The tag loop: 0 when all tags are done, 1 when one was refused, else an error. */
    method NextTags(job: Job, path: array<char>, ghost t: Turn) returns (res: int)
      requires Valid(job, path) && count <= 1 && ptrs.done <= DONE_STRUCT
      requires job.flags.addRsvmap ==> ptrs.done != DONE_NOTHING
      requires t == Next(job, Abs(path), Out())
      modifies this, stack, path
      ensures res == 0 ==>
        Valid(job, path) && ptrs.done == DONE_STRUCT && count <= 1 && t == Next(job, Abs(path), Out())
      ensures res == 1 ==> Valid(job, path) && t == Turn(0, [slot], Abs(path))
      ensures res != 0 && res != 1 ==> res == t.code < FDT_ERR_NOTFOUND
    {
      res := 0;
      while ptrs.done < DONE_STRUCT
        invariant res == 0 && Valid(job, path) && count <= 1 && ptrs.done <= DONE_STRUCT
        invariant job.flags.addRsvmap ==> ptrs.done != DONE_NOTHING
        invariant t == Next(job, Abs(path), Out())
        decreases DONE_STRUCT - ptrs.done, |job.blob.tags| + 1 - ptrs.pos
      {
        ghost var s, out := Abs(path), Out();
        ghost var step;
        res, step := NextTag(job, path);
        NextUnfold(job, s, out, step);
        if res != 0 {
          return;
        }
      }
    }

    /** One of the parts around the tags, put at [offset, offset + size). */
    method AddPart(job: Job, path: array<char>, done: nat, offset: int, size: int) returns (ok: bool)
      requires InRange(ptrs, path) && count <= 1
      modifies this`slot, this`count, this`haveNode, this`ptrs
      ensures InRange(ptrs, path)
      ensures var r := PutPart(job, old(Abs(path)), done, old(Out()), true, offset, size);
        if ok then count <= 1 && r == Moved(Abs(path), Out()) else r == Refused(Abs(path), [slot])
    {
      ok := AddRegion(job, offset, size);
      if ok {
        ptrs := ptrs.(done := done);
      }
    }

    method EmptyPart(job: Job, path: array<char>) returns (res: int)
      requires InRange(ptrs, path) && count <= 1
      modifies this`slot, this`count, this`haveNode, this`ptrs
      ensures InRange(ptrs, path) && Did(path, res, EmptyStep(job, old(Abs(path)), old(Out()), true))
    {
      var ok := true;
      if job.flags.supernodes && !haveNode && start != 0 {
        ok := AddPart(job, path, DONE_EMPTY, job.blob.base, 8);
      } else {
        ptrs := ptrs.(done := DONE_EMPTY);
      }
      res := if ok then 0 else 1;
    }

    method EndPart(job: Job, path: array<char>) returns (res: int)
      requires InRange(ptrs, path) && count <= 1
      modifies this`slot, this`count, this`haveNode, this`ptrs, this`start
      ensures InRange(ptrs, path) && Did(path, res, EndStep(job, old(Abs(path)), old(Out()), true))
    {
      if ptrs.pos > |job.blob.tags| || Here(job, ptrs.pos) != job.blob.structSize {
        return FDT_ERR_BADSTRUCTURE;
      }
      if start == job.blob.structSize - 4 {
        start := start - 4;
      }
      var ok := AddPart(job, path, DONE_END, job.blob.base + start, job.blob.structSize - start);
      res := if ok then 0 else 1;
    }

    method StringsPart(job: Job, path: array<char>) returns (res: int)
      requires InRange(ptrs, path) && count <= 1
      modifies this`slot, this`count, this`haveNode, this`ptrs, this`canMerge
      ensures InRange(ptrs, path) && Did(path, res, StringsStep(job, old(Abs(path)), old(Out()), true))
    {
      var ok := true;
      if job.flags.addStrings {
        canMerge := false;
        if job.blob.strings < job.blob.base + Here(job, ptrs.pos) {
          return FDT_ERR_BADLAYOUT;
        }
        ok := AddPart(job, path, DONE_STRINGS, job.blob.strings, job.blob.stringsSize);
      } else {
        ptrs := ptrs.(done := DONE_STRINGS);
      }
      res := if ok then 0 else 1;
    }

    /** `step` is what happened: 0 when it was made, 1 when it was refused, else an error. */
    ghost predicate Did(path: array<char>, res: int, step: Step)
      requires InRange(ptrs, path)
      reads this, stack, path
    {
      match step
      case Failed(code) => res == code < FDT_ERR_NOTFOUND
      case Refused(_, _) => res == 1 && step == Refused(Abs(path), [slot])
      case Moved(_, _) => res == 0 && step == Moved(Abs(path), Out()) && count <= 1
    }

    /** How far a call that is to give `t` has come: it goes on (0), it gives a region (1), or it fails. */
    ghost predicate Going(job: Job, path: array<char>, t: Turn, res: int)
      reads this, stack, path
    {
      if res == 0 then Valid(job, path) && count <= 1 && t == Next(job, Abs(path), Out())
      else if res == 1 then Valid(job, path) && t == Turn(0, [slot], Abs(path))
      else res == t.code < FDT_ERR_NOTFOUND
    }

    /** What a call that is to give `t` leaves behind: a region, or the end, with the state for the next call. */
    ghost predicate Gave(job: Job, path: array<char>, t: Turn, r: int)
      reads this, stack, path
    {
      && r == t.code && (r in {0, FDT_ERR_NOTFOUND} ==> Valid(job, path))
      && (r == 0 ==> t == Turn(0, [slot], Abs(path)))
      && (r == FDT_ERR_NOTFOUND ==> t == Turn(r, [], Abs(path)) && ptrs.done == DONE_STRINGS)
    }

    /** One of the parts after the tags. */
    method NextPart(job: Job, path: array<char>, ghost t: Turn) returns (res: int)
      requires Going(job, path, t, 0) && DONE_STRUCT <= ptrs.done < DONE_STRINGS
      modifies this
      ensures Going(job, path, t, res) && (res == 0 ==> old(ptrs.done) < ptrs.done <= DONE_STRINGS)
    {
      StepUnfold(job, Abs(path), Out());
      if ptrs.done < DONE_EMPTY {
        res := EmptyPart(job, path);
      } else if ptrs.done < DONE_END {
        res := EndPart(job, path);
      } else {
        res := StringsPart(job, path);
      }
    }

    /** The parts after the tags. */
    method NextParts(job: Job, path: array<char>, ghost t: Turn) returns (r: int)
      requires Going(job, path, t, 0) && DONE_STRUCT <= ptrs.done
      modifies this
      ensures Gave(job, path, t, r)
    {
      var res := 0;
      if ptrs.done < DONE_EMPTY {
        res := NextPart(job, path, t);
      }
      if res == 0 && ptrs.done < DONE_END {
        res := NextPart(job, path, t);
      }
      if res == 0 && ptrs.done < DONE_STRINGS {
        res := NextPart(job, path, t);
      }
      if res != 0 {
        return if res == 1 then 0 else res;
      }
      return if count > 0 then 0 else FDT_ERR_NOTFOUND;
    }

    /** The memory reserve map; the slot is still free. */
    method RsvmapPart(job: Job, path: array<char>)
      requires Valid(job, path) && count == 0 && ptrs.done < DONE_MEM_RSVMAP && job.flags.addRsvmap
      modifies this`slot, this`count, this`haveNode, this`canMerge, this`ptrs
      ensures Valid(job, path) && count <= 1 && ptrs.done == DONE_MEM_RSVMAP
      ensures Next(job, old(Abs(path)), []) == Next(job, Abs(path), Out())
    {
      ghost var s := Abs(path);
      var ok := AddRegion(job, job.blob.rsvmap, job.blob.base - job.blob.rsvmap);
      canMerge := false;
      ptrs := ptrs.(done := DONE_MEM_RSVMAP);
      RsvmapUnfold(job, s, Abs(path), Out());
    }

    /** fdt_next_region(). */
    method NextRegion(job: Job, path: array<char>) returns (r: int)
      requires Valid(job, path)
      modifies this, stack, path
      ensures var t := Next(job, old(Abs(path)), []);
        Gave(job, path, t, r)
    {
      ghost var t := Next(job, Abs(path), []);
      count := 0;
      if ptrs.done < DONE_MEM_RSVMAP && job.flags.addRsvmap {
        RsvmapPart(job, path);
      }
      if ptrs.done < DONE_STRUCT {
        var res := NextTags(job, path, t);
        if res != 0 {
          return if res == 1 then 0 else res;
        }
      }
      r := NextParts(job, path, t);
    }

    /** fdt_first_region(). */
    method FirstRegion(job: Job, path: array<char>) returns (r: int)
      requires stack.Length == FDT_MAX_DEPTH && 0 < path.Length == job.pathLen
      requires forall k :: 0 <= k < |job.blob.tags| && job.blob.tags[k].Prop? ==> job.blob.tags[k].key.Some?
      modifies this, stack, path
      ensures var t := Next(job, FIRST, []);
        Gave(job, path, t, r)
    {
      canMerge, start, haveNode := true, -1, false;
      ptrs := Ptrs(-1, DONE_NOTHING, WANT_NOTHING, 0, 0);
      path[0] := '\0';
      assert Abs(path) == FIRST;
      r := NextRegion(job, path);
    }
  }

  lemma NextUnfold(job: Job, s: State, out: seq<Region>, step: Step)
    requires Within(job, s) && s.done < DONE_STRUCT && (job.flags.addRsvmap ==> s.done != DONE_NOTHING)
    requires step == TagStep(job, s, out, true)
    ensures match step
      case Failed(code) => Next(job, s, out).code == code < FDT_ERR_NOTFOUND
      case Refused(s', out') => Within(job, s') && s'.done == s.done && Next(job, s, out) == Turn(0, out', s')
      case Moved(s', out') =>
        && Within(job, s') && s'.pos == s.pos + 1 && s'.done in {s.done, DONE_STRUCT}
        && Next(job, s, out) == Next(job, s', out')
  {
  }

  lemma RsvmapUnfold(job: Job, s: State, s': State, out': seq<Region>)
    requires Within(job, s) && s.done == DONE_NOTHING && job.flags.addRsvmap && Advance(job, s, [], true) == Moved(s', out')
    ensures Within(job, s') && Next(job, s, []) == Next(job, s', out')
  {
  }

  lemma StepUnfold(job: Job, s: State, out: seq<Region>)
    requires Within(job, s) && DONE_STRUCT <= s.done < DONE_STRINGS
    ensures match Advance(job, s, out, true)
      case Failed(code) => Next(job, s, out).code == code < FDT_ERR_NOTFOUND
      case Refused(s', out') => Within(job, s') && s'.done == s.done && Next(job, s, out) == Turn(0, out', s')
      case Moved(s', out') => Within(job, s') && s'.done <= DONE_STRINGS && Next(job, s, out) == Next(job, s', out')
  {
  }
}
