/**
 Whole runs of fdt_next_region() calls: they end, and they deliver what the single pass finds, up to
 its end or up to the error at which it fails.
 */
module FdtPass {
  import opened FdtTags
  import opened FdtIter
  import opened FdtResume

  // ----- a single pass that may fail -----

  /** What a single pass has found when it ends, and the error, or 0. */
  datatype Pass = Pass(code: int, out: seq<Region>)

  ghost function Through(job: Job, s: State, out: seq<Region>): Pass
    requires Within(job, s) && s.done <= DONE_STRINGS
    decreases DONE_STRINGS - s.done, |job.blob.tags| + 1 - s.pos
  {
    if s.done == DONE_STRINGS then Pass(0, out)
    else match Advance(job, s, out, false)
      case Failed(code) => Pass(code, out)
      case Moved(s', out') => Through(job, s', out')
  }

  lemma {:induction false} ThroughFull(job: Job, s: State, out: seq<Region>)
    requires Within(job, s) && s.done <= DONE_STRINGS
    ensures var p := Through(job, s, out);
      p.code != FDT_ERR_NOTFOUND && Full(job, s, out) == if p.code == 0 then Ok(p.out) else Err(p.code)
    decreases DONE_STRINGS - s.done, |job.blob.tags| + 1 - s.pos
  {
    if s.done < DONE_STRINGS {
      var r := Advance(job, s, out, false);
      if r.Moved? { ThroughFull(job, r.state, r.out); }
    }
  }

  lemma {:induction false} ThroughLocal(job: Job, s: State, a: seq<Region>, out: seq<Region>)
    requires out != [] && Within(job, s) && s.done <= DONE_STRINGS
    ensures var p := Through(job, s, out); p.out != [] && Through(job, s, a + out) == Pass(p.code, a + p.out)
    decreases DONE_STRINGS - s.done, |job.blob.tags| + 1 - s.pos
  {
    if s.done < DONE_STRINGS {
      AdvanceLocal(job, s, a, out);
      var r := Advance(job, s, out, false);
      if r.Moved? { ThroughLocal(job, r.state, a, r.out); }
    }
  }

  /** What one call delivers of a pass, and that a pass which is to fail later has a region left for it. */
  ghost predicate Parts(p: Pass, t: Turn, rest: Pass) {
    if t.code == 0 then |t.slot| == 1 && p == Pass(rest.code, t.slot + rest.out) && (rest.code != 0 ==> rest.out != [])
    else if t.code == FDT_ERR_NOTFOUND then p == Pass(0, [])
    else p == Pass(t.code, t.slot) && |t.slot| <= 1
  }

  lemma {:induction false} ThroughNext(job: Job, s: State, out: seq<Region>)
    requires Within(job, s) && s.done <= DONE_STRINGS && Sound(s) && job.flags.supernodes && |out| <= 1
    ensures var t := Next(job, s, out);
      (t.code == 0 ==> Sound(t.state)) && Parts(Through(job, s, out), t, Through(job, t.state, []))
    decreases DONE_STRINGS - s.done, |job.blob.tags| + 1 - s.pos
  {
    if s.done == DONE_STRINGS {
      assert out + [] == out;
    } else {
      AdvanceOne(job, s, out);
      var r := Advance(job, s, out, true);
      match r {
        case Failed(_) =>
        case Moved(s', out') => ThroughNext(job, s', out');
        case Refused(s1, slot) =>
          var again := Advance(job, s1, [], false);
          ThroughLocal(job, again.state, slot, again.out);
      }
    }
  }

  /**
   Call number `n` of a run whose single pass fails: the regions of the pass but the last come one by one,
   then the error, with the last region in the slot.
   */
  ghost predicate Fails(job: Job, s: State, p: Pass, n: nat)
    requires Within(job, s) && s.done <= DONE_STRINGS && n <= |p.out|
  {
    var t := Next(job, After(job, s, n), []);
    if n + 1 < |p.out| then t.code == 0 && t.slot == [p.out[n]] else t.code == p.code && t.slot == p.out[n..]
  }

  lemma Shifted(out: seq<Region>, slot: seq<Region>, rest: seq<Region>, n: nat)
    requires out == slot + rest && |slot| == 1 && 0 < n <= |out|
    ensures |out| == |rest| + 1 && (n < |out| ==> out[n] == rest[n - 1]) && out[n..] == rest[n - 1..]
  {
  }

  lemma FailsNext(job: Job, s: State, p: Pass, t: Turn, rest: Pass, n: nat)
    requires Within(job, s) && s.done <= DONE_STRINGS && t == Next(job, s, [])
    requires p == Pass(rest.code, t.slot + rest.out) && |t.slot| == 1 && 0 < n <= |p.out| && Fails(job, t.state, rest, n - 1)
    ensures Fails(job, s, p, n)
  {
    assert After(job, s, n) == After(job, t.state, n - 1);
    Shifted(p.out, t.slot, rest.out, n);
  }

  lemma FailsFirst(job: Job, s: State, p: Pass)
    requires job.flags.supernodes && Within(job, s) && s.done <= DONE_STRINGS && Sound(s)
    requires p == Through(job, s, []) && p.code != 0
    ensures Fails(job, s, p, 0)
  {
    ThroughNext(job, s, []);
    ThroughFull(job, s, []);
    assert p.out[0..] == p.out;
  }

  lemma {:induction false} ResumeFails(job: Job, s: State, n: nat)
    requires job.flags.supernodes && Within(job, s) && s.done <= DONE_STRINGS && Sound(s)
    requires var p := Through(job, s, []); p.code != 0 && (n == 0 || n < |p.out|)
    ensures Fails(job, s, Through(job, s, []), n)
    decreases n
  {
    var p, t := Through(job, s, []), Next(job, s, []);
    if n == 0 {
      FailsFirst(job, s, p);
    } else {
      ThroughNext(job, s, []);
      ResumeFails(job, t.state, n - 1);
      FailsNext(job, s, p, t, Through(job, t.state, []), n);
    }
  }

  /** With FDT_REG_SUPERNODES, if the single pass fails then so do the calls, with the same error and no sooner. */
  lemma SupernodesFails(job: Job, code: int)
    requires job.flags.supernodes && Full(job, FIRST, []) == Err(code)
    ensures var p := Through(job, FIRST, []);
      p.code == code && forall n: nat :: n == 0 || n < |p.out| ==> Fails(job, FIRST, p, n)
  {
    var p := Through(job, FIRST, []);
    ThroughFull(job, FIRST, []);
    forall n: nat | n == 0 || n < |p.out| ensures Fails(job, FIRST, p, n) {
      ResumeFails(job, FIRST, n);
    }
  }

  // ----- a run ends -----

  /** The open nodes that are not in a region. */
  function Apart(levels: seq<Level>): nat {
    if levels == [] then 0 else Apart(levels[..|levels| - 1]) + if levels[|levels| - 1].included then 0 else 1
  }

  lemma {:induction false} ApartSet(levels: seq<Level>, i: nat, l: Level)
    requires i < |levels| && l.included
    ensures Apart(levels[i := l]) == Apart(levels) - if levels[i].included then 0 else 1
    decreases |levels|
  {
    var n := |levels| - 1;
    if i < n {
      ApartSet(levels[..n], i, l);
      assert levels[i := l][..n] == levels[..n][i := l];
    } else {
      assert levels[i := l][..n] == levels[..n];
    }
  }

  lemma {:induction false} ApartPrefix(levels: seq<Level>, n: nat)
    requires n <= |levels|
    ensures Apart(levels[..n]) <= Apart(levels)
    decreases |levels|
  {
    if n < |levels| {
      var front := levels[..|levels| - 1];
      ApartPrefix(front, n);
      assert front[..n] == levels[..n];
    } else {
      assert levels[..n] == levels;
    }
  }

  /** Every region that is put for a supernode brings an open node into a region. */
  ghost predicate Lifted(levels: seq<Level>, out: seq<Region>, c: Chain) {
    && Apart(c.levels) <= Apart(levels) && (out == [] && c.out != [] ==> Apart(c.levels) < Apart(levels))
    && (c.at < |levels| ==> c.out != [])
  }

  lemma LiftedMore(levels: seq<Level>, out: seq<Region>, levels': seq<Level>, out': seq<Region>, c: Chain)
    requires Lifted(levels', out', c) && |levels'| == |levels|
    requires Apart(levels') < Apart(levels) || (Apart(levels') == Apart(levels) && out' == out)
    ensures Lifted(levels, out, c)
  {
  }

  lemma {:induction false} SupernodesApart(job: Job, levels: seq<Level>, out: seq<Region>, canMerge: bool,
                                           haveNode: bool, i: nat)
    requires i <= |levels| && forall k :: 0 <= k < |levels| ==> levels[k].pos < |job.blob.tags|
    ensures Lifted(levels, out, Supernodes(job, levels, out, true, canMerge, haveNode, i))
    decreases |levels| - i
  {
    if i < |levels| {
      var l := levels[i];
      var levels' := levels[i := Raised(l)];
      ApartSet(levels, i, Raised(l));
      if l.included {
        SupernodesPass(job, levels, out, true, canMerge, haveNode, i);
        SupernodesApart(job, levels', out, canMerge, haveNode, i + 1);
        LiftedMore(levels, out, levels', out, Supernodes(job, levels', out, true, canMerge, haveNode, i + 1));
      } else {
        var offset := job.blob.base + Offset(job.blob.tags, l.pos);
        var r := Put(out, true, canMerge, offset, Size(job.blob.tags[l.pos]));
        if r.Slots? {
          var haveNode' := haveNode || PutsRoot(job, out, canMerge, offset);
          SupernodesPut(job, levels, out, true, canMerge, haveNode, i, r.out, haveNode');
          SupernodesApart(job, levels', r.out, true, haveNode', i + 1);
          LiftedMore(levels, out, levels', r.out, Supernodes(job, levels', r.out, true, true, haveNode', i + 1));
        } else {
          ChainStops(job, levels, out, canMerge, haveNode, i);
        }
      }
    }
  }

  /** There is less left to do in `s'` than in `s`. */
  ghost predicate Less(s': State, s: State) {
    || s.done < s'.done
    || (s.done == s'.done && s.pos < s'.pos)
    || (s.done == s'.done && s.pos == s'.pos && Apart(s'.levels) < Apart(s.levels))
  }

  /** A refusal loses nothing, and one with an empty slot brings an open node into a region. */
  ghost predicate Keeps(s': State, s: State, out: seq<Region>) {
    && s'.done == s.done && s'.pos == s.pos && Apart(s'.levels) <= Apart(s.levels)
    && (out == [] ==> Apart(s'.levels) < Apart(s.levels))
  }

  lemma {:induction false} ApartAppend(a: seq<Level>, b: seq<Level>)
    ensures Apart(a + b) == Apart(a) + Apart(b)
    decreases |b|
  {
    if b == [] {
      assert a + b == a;
    } else {
      var front := b[..|b| - 1];
      ApartAppend(a, front);
      assert (a + b)[..|a + b| - 1] == a + front;
    }
  }

  /** What is left of the open nodes of `s` when the chain for those of `to` is refused. */
  lemma KeptApart(s: State, to: seq<Level>, c: Chain, out: seq<Region>, kept: seq<Level>)
    requires Lifted(to, out, c) && c.at < |to| == |c.levels|
    requires |to| <= |s.levels| ==> to == s.levels[..|to|]
    requires |to| > |s.levels| ==> |to| == |s.levels| + 1 && to[..|s.levels|] == s.levels && to[|s.levels|].included
    requires kept == if |c.levels| <= |s.levels| then c.levels + s.levels[|c.levels|..] else c.levels[..|s.levels|]
    ensures Apart(kept) <= Apart(s.levels) && (out == [] ==> Apart(kept) < Apart(s.levels))
  {
    if |to| <= |s.levels| {
      var rest := s.levels[|to|..];
      ApartAppend(c.levels, rest);
      ApartAppend(to, rest);
      assert s.levels == to + rest;
    } else {
      ApartPrefix(c.levels, |s.levels|);
      assert to[..|to| - 1] == s.levels;
    }
  }

  lemma OpenKeeps(job: Job, s: State, to: State, out: seq<Region>)
    requires Within(job, s) && Within(job, to) && OpenRun(job, s, to, out, true).Refused?
    requires |to.levels| <= |s.levels| ==> to.levels == s.levels[..|to.levels|]
    requires |to.levels| > |s.levels| ==>
      && |to.levels| == |s.levels| + 1 && to.levels[..|s.levels|] == s.levels && to.levels[|s.levels|].included
    ensures Keeps(OpenRun(job, s, to, out, true).state, s, out)
  {
    SupernodesApart(job, to.levels, out, s.canMerge, s.haveNode, 0);
    var c := Supernodes(job, to.levels, out, true, s.canMerge, s.haveNode, 0);
    var kept := if |c.levels| <= |s.levels| then c.levels + s.levels[|c.levels|..] else c.levels[..|s.levels|];
    KeptApart(s, to.levels, c, out, kept);
  }

  lemma DecideLevels(job: Job, s: State)
    requires Within(job, s) && s.done < DONE_STRUCT && Decide(job, s).Go? && Decide(job, s).kept
    ensures var to := Decide(job, s).state.levels;
      && (|to| <= |s.levels| ==> to == s.levels[..|to|])
      && (|to| > |s.levels| ==> |to| == |s.levels| + 1 && to[..|s.levels|] == s.levels && to[|s.levels|].included)
  {
  }

  lemma CloseKeeps(job: Job, s: State, to: State, stop: int, out: seq<Region>)
    requires Within(job, s) && Within(job, to) && CloseRun(job, s, to, stop, out, true).Refused?
    ensures Keeps(CloseRun(job, s, to, stop, out, true).state, s, out)
  {
  }

  lemma TagKeeps(job: Job, s: State, out: seq<Region>)
    requires Within(job, s) && s.done < DONE_STRUCT && TagStep(job, s, out, true).Refused?
    ensures Keeps(TagStep(job, s, out, true).state, s, out)
  {
    var c := Decide(job, s);
    var to := c.state.(pos := s.pos + 1);
    if c.kept {
      DecideLevels(job, s);
      OpenKeeps(job, s, to, out);
    } else {
      CloseKeeps(job, s, to, Here(job, if c.stopAfter then s.pos + 1 else s.pos), out);
    }
  }

  lemma AdvanceKeeps(job: Job, s: State, out: seq<Region>)
    requires Within(job, s) && s.done < DONE_STRINGS && Advance(job, s, out, true).Refused?
    ensures Keeps(Advance(job, s, out, true).state, s, out)
  {
    if s.done < DONE_STRUCT && !(s.done == DONE_NOTHING && job.flags.addRsvmap) {
      TagKeeps(job, s, out);
    }
  }

  /** Every call that delivers a region leaves less to do, whatever the flags, the tree and the callback. */
  lemma {:induction false} NextLess(job: Job, s: State, out: seq<Region>)
    requires Within(job, s) && s.done <= DONE_STRINGS
    ensures var t := Next(job, s, out);
      t.code == 0 ==> (out == [] ==> Less(t.state, s)) && (t.state == s || Less(t.state, s) || Keeps(t.state, s, out))
    decreases DONE_STRINGS - s.done, |job.blob.tags| + 1 - s.pos
  {
    if s.done < DONE_STRINGS {
      var r := Advance(job, s, out, true);
      match r {
        case Failed(_) =>
        case Moved(s', out') => NextLess(job, s', out');
        case Refused(_, _) => AdvanceKeeps(job, s, out);
      }
    }
  }

  // ----- what a run collects -----

  /** The regions that calls from the first one on deliver, and what the call after them returns. */
  ghost predicate Collected(job: Job, regions: seq<Region>, r: int) {
    AllDelivered(job, regions) && r == Next(job, After(job, FIRST, |regions|), []).code != 0
  }

  ghost predicate AllDelivered(job: Job, regions: seq<Region>) {
    forall i :: 0 <= i < |regions| ==> Delivered(job, regions, i)
  }

  ghost predicate Delivered(job: Job, regions: seq<Region>, i: nat)
    requires i < |regions|
  {
    var t := Next(job, After(job, FIRST, i), []);
    t.code == 0 && t.slot == [regions[i]]
  }

  /** A run that is faithful to a single pass collects exactly its regions. */
  lemma CollectedFaithful(job: Job, regions: seq<Region>, r: int, rs: seq<Region>)
    requires Collected(job, regions, r) && Faithful(job) && Full(job, FIRST, []) == Ok(rs)
    ensures regions == rs && r == FDT_ERR_NOTFOUND
  {
    var n := |regions|;
    assert n > |rs| ==> Delivered(job, regions, |rs|);
    assert Delivers(job, FIRST, rs, |rs|) && (n <= |rs| ==> Delivers(job, FIRST, rs, n));
    forall i | 0 <= i < n ensures regions[i] == rs[i] {
      assert Delivered(job, regions, i) && Delivers(job, FIRST, rs, i);
    }
  }

  function ButLast(out: seq<Region>): seq<Region> {
    if out == [] then [] else out[..|out| - 1]
  }

  /** With FDT_REG_SUPERNODES, if the single pass fails then a run collects its regions but the last, and its error. */
  lemma CollectedFails(job: Job, regions: seq<Region>, r: int, p: Pass)
    requires Collected(job, regions, r) && job.flags.supernodes && p == Through(job, FIRST, []) && p.code != 0
    ensures r == p.code && regions == ButLast(p.out)
  {
    ThroughFull(job, FIRST, []);
    SupernodesFails(job, p.code);
    var n, last := |regions|, if p.out == [] then 0 else |p.out| - 1;
    assert n > last ==> Delivered(job, regions, last);
    assert Fails(job, FIRST, p, last) && (n <= last ==> Fails(job, FIRST, p, n));
    forall i | 0 <= i < n ensures regions[i] == p.out[i] {
      assert Delivered(job, regions, i) && Fails(job, FIRST, p, i);
    }
  }

  lemma DeliveredNext(job: Job, regions: seq<Region>, next: Region)
    requires AllDelivered(job, regions)
    requires var t := Next(job, After(job, FIRST, |regions|), []); t.code == 0 && t.slot == [next]
    ensures AllDelivered(job, regions + [next])
  {
    forall i | 0 <= i < |regions| + 1 ensures Delivered(job, regions + [next], i) {
      assert i < |regions| ==> Delivered(job, regions, i);
    }
  }

  /** What a run of calls has collected when it ends. */
  lemma RunEnds(job: Job, regions: seq<Region>, r: int)
    requires Collected(job, regions, r)
    ensures Faithful(job) && Full(job, FIRST, []).Ok? ==> r == FDT_ERR_NOTFOUND && regions == Full(job, FIRST, []).value
    ensures job.flags.supernodes && Full(job, FIRST, []).Err? ==>
      r == Full(job, FIRST, []).code && regions == ButLast(Through(job, FIRST, []).out)
  {
    var full, p := Full(job, FIRST, []), Through(job, FIRST, []);
    ThroughFull(job, FIRST, []);
    if full.Ok? {
      if Faithful(job) { CollectedFaithful(job, regions, r, full.value); }
    } else if job.flags.supernodes {
      CollectedFails(job, regions, r, p);
    }
  }
}
