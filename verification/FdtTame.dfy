/**
 Device trees and callbacks for which fdt_next_region() needs no FDT_REG_SUPERNODES. A refused
 END_NODE makes the retry cut the path twice; that does not matter if no node is below the children
 of the root, nor if the callback does not look at the paths of nodes.
 */
module FdtTame {
  import opened FdtTags
  import opened FdtIter
  import opened FdtResume

  // ----- the path buffer -----

  lemma {:induction false} PopRest(b: string)
    requires b != ""
    ensures |Pop(b)| < |b| && '/' !in b[|Pop(b)| + 1..]
  {
    var n := |b| - 1;
    if b[n] == '/' {
    } else if n == 0 {
      assert b[..n] == "";
    } else {
      PopRest(b[..n]);
      var k := |Pop(b)|;
      assert b[k + 1..] == b[..n][k + 1..] + [b[n]];
    }
  }

  /** The retry of a refused END_NODE cuts off two components. */
  lemma PopDamage(b: string)
    ensures Pop(Damage(b)) == Pop(Pop(b))
  {
    if b != "" {
      PopRest(b);
      var p := Pop(b);
      var rest := "\0" + b[|p| + 1..];
      assert Damage(b) == p + rest;
      PopPlain(p, rest);
    }
  }

  predicate Rooted(b: string) {
    b == "" || b[0] == '/'
  }

  lemma PushRooted(b: string, name: string)
    requires Rooted(b)
    ensures Rooted(Push(b, name)) && Push(b, name) == Stem(b) + "/" + name
  {
  }

  /** What a node name is appended to, with a '/' in between. */
  function Stem(b: string): string {
    if |b| <= 1 then "" else b
  }

  function PopN(b: string, n: nat): string {
    if n == 0 then b else PopN(Pop(b), n - 1)
  }

  /** However many components are cut off, `b'` is not longer than `b`. */
  ghost predicate Shorter(b': string, b: string) {
    forall n: nat :: |PopN(b', n)| <= |PopN(b, n)|
  }

  lemma PopShorter(b': string, b: string)
    requires Shorter(b', b)
    ensures Shorter(Pop(b'), Pop(b))
  {
    forall n: nat ensures |PopN(Pop(b'), n)| <= |PopN(Pop(b), n)| {
      assert PopN(Pop(b'), n) == PopN(b', n + 1) && PopN(Pop(b), n) == PopN(b, n + 1);
    }
  }

  lemma {:induction false} PopNShrinks(b: string, n: nat)
    ensures |PopN(Pop(b), n)| <= |PopN(b, n)|
    decreases n
  {
    if n > 0 { PopNShrinks(Pop(b), n - 1); }
  }

  lemma PoppedShorter(b: string)
    ensures Shorter(Pop(b), b)
  {
    forall n: nat ensures |PopN(Pop(b), n)| <= |PopN(b, n)| {
      PopNShrinks(b, n);
    }
  }

  lemma {:induction false} PopNEmpty(n: nat)
    ensures PopN("", n) == ""
  {
    if n > 0 { PopNEmpty(n - 1); }
  }

  lemma StemShorter(b': string, b: string)
    requires Shorter(b', b)
    ensures Shorter(Stem(b'), Stem(b))
  {
    assert |PopN(b', 0)| <= |PopN(b, 0)|;
    forall n: nat ensures |PopN(Stem(b'), n)| <= |PopN(Stem(b), n)| {
      if |b'| <= 1 { PopNEmpty(n); }
    }
  }

  lemma {:induction false} PopJoined(stem: string, name: string)
    ensures Pop(stem + "/" + name) == if '/' in name then stem + "/" + Pop(name) else stem
    decreases |name|
  {
    var b := stem + "/" + name;
    if name == "" {
      assert b[..|b| - 1] == stem;
    } else {
      var shorter := name[..|name| - 1];
      assert b[|b| - 1] == name[|name| - 1];
      assert b[..|b| - 1] == stem + "/" + shorter;
      assert name == shorter + [name[|name| - 1]];
      if name[|name| - 1] != '/' { PopJoined(stem, shorter); }
    }
  }

  lemma {:induction false} JoinedShorter(stem': string, stem: string, name: string, n: nat)
    requires Shorter(stem', stem)
    ensures |PopN(stem' + "/" + name, n)| <= |PopN(stem + "/" + name, n)|
    decreases n
  {
    if n == 0 {
      assert |PopN(stem', 0)| <= |PopN(stem, 0)|;
    } else {
      PopJoined(stem', name);
      PopJoined(stem, name);
      if '/' in name {
        JoinedShorter(stem', stem, Pop(name), n - 1);
      } else {
        assert |PopN(stem', n - 1)| <= |PopN(stem, n - 1)|;
      }
    }
  }

  lemma PushShorter(b': string, b: string, name: string)
    requires Shorter(b', b) && Rooted(b') && Rooted(b)
    ensures Shorter(Push(b', name), Push(b, name))
  {
    StemShorter(b', b);
    PushRooted(b', name);
    PushRooted(b, name);
    forall n: nat ensures |PopN(Push(b', name), n)| <= |PopN(Push(b, name), n)| {
      JoinedShorter(Stem(b'), Stem(b), name, n);
    }
  }

  // ----- a callback that does not look at paths -----

  /** The callback includes all nodes or none. */
  ghost predicate Blind(job: Job) {
    forall p: string, q: string :: job.nodes(p) == 0 <==> job.nodes(q) == 0
  }

  /** The same state but for a path that is not longer. */
  ghost predicate Alike(s': State, s: State) {
    s' == s.(buffer := s'.buffer) && Shorter(s'.buffer, s.buffer) && Rooted(s'.buffer) && Rooted(s.buffer)
  }

  lemma BeginAlike(job: Job, s': State, s: State, name: string)
    requires Blind(job) && Alike(s', s) && DecideBegin(job, s, name).Go?
    ensures var c, c' := DecideBegin(job, s, name), DecideBegin(job, s', name);
      c' == Go(c.state.(buffer := Push(s'.buffer, name)), c.kept, c.stopAfter) && Alike(c'.state, c.state)
  {
    assert |PopN(s'.buffer, 0)| <= |PopN(s.buffer, 0)|;
    PushShorter(s'.buffer, s.buffer, name);
    PushRooted(s'.buffer, name);
    PushRooted(s.buffer, name);
    assert job.nodes(Push(s'.buffer, name)) == 0 <==> job.nodes(Push(s.buffer, name)) == 0;
  }

  lemma DecideAlike(job: Job, s': State, s: State)
    requires Blind(job) && Alike(s', s) && Within(job, s) && Within(job, s') && s.done < DONE_STRUCT && Decide(job, s).Go?
    ensures var c, c' := Decide(job, s), Decide(job, s');
      && c'.Go? && Alike(c'.state, c.state) && c'.kept == c.kept && c'.stopAfter == c.stopAfter
      && c.state.canMerge == s.canMerge && c.state.haveNode == s.haveNode
  {
    match TagAt(job, s.pos) {
      case BeginNode(name) =>
        BeginAlike(job, s', s, name);
      case EndNode =>
        PopShorter(s'.buffer, s.buffer);
      case _ =>
    }
  }

  lemma TagStepAlike(job: Job, s': State, s: State, out: seq<Region>)
    requires !job.flags.supernodes && Blind(job) && Alike(s', s) && Within(job, s) && Within(job, s')
    requires s.done < DONE_STRUCT && TagStep(job, s, out, false).Moved?
    ensures var r, r' := TagStep(job, s, out, false), TagStep(job, s', out, false);
      r'.Moved? && r'.out == r.out && Alike(r'.state, r.state)
  {
    DecideAlike(job, s', s);
  }

  lemma PartAlike(job: Job, s': State, s: State, out: seq<Region>)
    requires Alike(s', s) && Within(job, s) && Within(job, s')
    requires DONE_STRUCT <= s.done < DONE_STRINGS && Advance(job, s, out, false).Moved?
    ensures var r, r' := Advance(job, s, out, false), Advance(job, s', out, false);
      r'.Moved? && r'.out == r.out && Alike(r'.state, r.state)
  {
    if s.done == DONE_STRUCT {
      EmptyAlike(job, s', s, out);
    } else if s.done == DONE_EMPTY {
      EndAlike(job, s', s, out);
    } else {
      StringsAlike(job, s', s, out);
    }
  }

  lemma EmptyAlike(job: Job, s': State, s: State, out: seq<Region>)
    requires Alike(s', s) && EmptyStep(job, s, out, false).Moved?
    ensures var r, r' := EmptyStep(job, s, out, false), EmptyStep(job, s', out, false);
      r'.Moved? && r'.out == r.out && Alike(r'.state, r.state)
  {
  }

  lemma EndAlike(job: Job, s': State, s: State, out: seq<Region>)
    requires Alike(s', s) && EndStep(job, s, out, false).Moved?
    ensures var r, r' := EndStep(job, s, out, false), EndStep(job, s', out, false);
      r'.Moved? && r'.out == r.out && Alike(r'.state, r.state)
  {
  }

  lemma StringsAlike(job: Job, s': State, s: State, out: seq<Region>)
    requires Alike(s', s) && StringsStep(job, s, out, false).Moved?
    ensures var r, r' := StringsStep(job, s, out, false), StringsStep(job, s', out, false);
      r'.Moved? && r'.out == r.out && Alike(r'.state, r.state)
  {
  }

  lemma AdvanceAlike(job: Job, s': State, s: State, out: seq<Region>)
    requires !job.flags.supernodes && Blind(job) && Alike(s', s) && Within(job, s) && Within(job, s')
    requires s.done < DONE_STRINGS && Advance(job, s, out, false).Moved?
    ensures var r, r' := Advance(job, s, out, false), Advance(job, s', out, false);
      r'.Moved? && r'.out == r.out && Alike(r'.state, r.state)
  {
    if s.done == DONE_NOTHING && job.flags.addRsvmap {
    } else if s.done < DONE_STRUCT {
      TagStepAlike(job, s', s, out);
    } else {
      PartAlike(job, s', s, out);
    }
  }

  /** A shorter path does not change what the single pass finds. */
  lemma {:induction false} FullAlike(job: Job, s': State, s: State, out: seq<Region>)
    requires !job.flags.supernodes && Blind(job) && Alike(s', s) && Within(job, s) && Within(job, s')
    requires s.done <= DONE_STRINGS && Full(job, s, out).Ok?
    ensures Full(job, s', out) == Full(job, s, out)
    decreases DONE_STRINGS - s.done, |job.blob.tags| + 1 - s.pos
  {
    if s.done < DONE_STRINGS {
      AdvanceAlike(job, s', s, out);
      var r, r' := Advance(job, s, out, false), Advance(job, s', out, false);
      FullAlike(job, r'.state, r.state, r.out);
    }
  }

  // ----- trees without a node below the children of the root -----

  /** The number of nodes that are open before tag `i`. */
  function Depth(tags: seq<Tag>, i: nat): int
    requires i <= |tags|
  {
    if i == 0 then 0
    else Depth(tags, i - 1) + if tags[i - 1].BeginNode? then 1 else if tags[i - 1].EndNode? then -1 else 0
  }

  /** Only a root without a name and its children, whose names hold no '/'. */
  ghost predicate Shallow(tags: seq<Tag>) {
    forall i :: 0 <= i < |tags| && tags[i].BeginNode? ==>
      (Depth(tags, i) <= 0 && tags[i].name == "") || (Depth(tags, i) == 1 && '/' !in tags[i].name)
  }

  /** The path buffer of a shallow tree; the cut of a refused END_NODE may be in it. */
  ghost predicate Flat(job: Job, s: State) {
    s.done < DONE_STRUCT ==>
      && s.pos <= |job.blob.tags| && |s.levels| == Depth(job.blob.tags, s.pos)
      && Pop(s.buffer) == ""
      && (!TagAt(job, s.pos).EndNode? && |s.levels| == 0 ==> s.buffer == "")
      && (!TagAt(job, s.pos).EndNode? && |s.levels| == 1 ==> |s.buffer| <= 1)
  }

  // ----- both -----

  /** Wrong paths after a refused END_NODE do no harm, because of the tree or else because of the callback. */
  ghost predicate Tame(job: Job, shallow: bool) {
    if shallow then Shallow(job.blob.tags) else Blind(job)
  }

  /** A state from which the calls go on as the single pass does. */
  ghost predicate Fit(job: Job, s: State, shallow: bool) {
    && Rooted(if s.done < DONE_STRUCT && TagAt(job, s.pos).EndNode? then Pop(s.buffer) else s.buffer)
    && (shallow ==> Flat(job, s))
  }

  lemma PopRooted(b: string)
    requires Rooted(b)
    ensures Rooted(Pop(b))
  {
  }

  lemma BeginFlat(job: Job, s: State, name: string)
    requires Within(job, s) && s.done < DONE_STRUCT && Shallow(job.blob.tags) && Flat(job, s) && Rooted(s.buffer)
    requires TagAt(job, s.pos) == BeginNode(name)
    ensures Pop(Push(s.buffer, name)) == "" && |s.levels| <= 1
    ensures |s.levels| == 0 ==> Push(s.buffer, name) == "/"
  {
    var tags := job.blob.tags;
    assert tags[s.pos].BeginNode? && (Depth(tags, s.pos) <= 0 || Depth(tags, s.pos) == 1);
    PushRooted(s.buffer, name);
    PopPush(s.buffer, name);
  }

  lemma DecideFit(job: Job, s: State, shallow: bool)
    requires Within(job, s) && s.done < DONE_STRUCT && Fit(job, s, shallow) && Decide(job, s).Go? && Tame(job, shallow)
    ensures Fit(job, Decide(job, s).state.(pos := s.pos + 1), shallow)
  {
    match TagAt(job, s.pos) {
      case BeginNode(name) =>
        PushRooted(s.buffer, name);
        PopRooted(Push(s.buffer, name));
        if shallow { BeginFlat(job, s, name); }
      case EndNode =>
        PopRooted(Pop(s.buffer));
      case _ =>
        PopRooted(s.buffer);
    }
  }

  /** `full` delivers what is in the slot and then what `again` delivers, perhaps under other paths. */
  ghost predicate SplitsAlike(shallow: bool, full: Step, slot: seq<Region>, again: Step) {
    && |slot| == 1 && full.Moved? && again.Moved? && again.out != [] && full.out == slot + again.out
    && (again.state == full.state || (!shallow && Alike(again.state, full.state)))
  }

  /** Only position, open nodes and path matter. */
  lemma FitKeeps(job: Job, s: State, s': State, shallow: bool)
    requires Fit(job, s, shallow) && s'.done == s.done && s'.pos == s.pos
    requires s'.levels == s.levels && s'.buffer == s.buffer
    ensures Fit(job, s', shallow)
  {
  }

  lemma CloseTameAgain(job: Job, s: State, s1: State)
    requires Within(job, s) && s.done < DONE_STRUCT && s.start != -1 && s1 == s.(haveNode := s1.haveNode)
    requires Decide(job, s).Go? && !Decide(job, s).kept && !TagAt(job, s.pos).EndNode?
    ensures Within(job, s1)
    ensures var c := Decide(job, s);
      var to := c.state.(pos := s.pos + 1, haveNode := s1.haveNode);
      TagStep(job, s1, [], false) == CloseRun(job, s1, to, Here(job, if c.stopAfter then s.pos + 1 else s.pos), [], false)
  {
    DecideAgain(job, s, s1);
    var levels := Decide(job, s).state.levels;
    assert levels == levels[..|s.levels|] + levels[|s.levels|..];
    TagStepCloses(job, s1, [], false);
  }

  /** A tag other than END_NODE that ends a run. */
  lemma CloseTame(job: Job, s: State, out: seq<Region>, shallow: bool)
    requires Within(job, s) && s.done < DONE_STRUCT && Fit(job, s, shallow) && s.start != -1 && |out| <= 1
    requires Decide(job, s).Go? && !Decide(job, s).kept && !TagAt(job, s.pos).EndNode?
    requires Fit(job, Decide(job, s).state.(pos := s.pos + 1), shallow)
    ensures var r := TagStep(job, s, out, true);
      if r.Moved? then r == TagStep(job, s, out, false) && Fit(job, r.state, shallow) && |r.out| <= 1
      else
        && r.Refused? && Fit(job, r.state, shallow)
        && SplitsAlike(shallow, TagStep(job, s, out, false), r.out, TagStep(job, r.state, [], false))
  {
    var c := Decide(job, s);
    var to := c.state.(pos := s.pos + 1);
    TagStepCloses(job, s, out, true);
    TagStepCloses(job, s, out, false);
    CloseRunOne(job, s, to, Here(job, if c.stopAfter then s.pos + 1 else s.pos), out);
    var r := TagStep(job, s, out, true);
    if r.Moved? {
      FitKeeps(job, to, r.state, shallow);
    } else {
      FitKeeps(job, s, r.state, shallow);
      CloseTameAgain(job, s, r.state);
    }
  }

  /** What a refused END_NODE leaves. */
  function Cut(s: State): State {
    s.(haveNode := s.haveNode || s.start == 0, buffer := Damage(s.buffer))
  }

  lemma CutFit(job: Job, s: State, shallow: bool)
    requires s.done < DONE_STRUCT && Fit(job, s, shallow) && TagAt(job, s.pos).EndNode?
    ensures Fit(job, Cut(s), shallow)
  {
    PopDamage(s.buffer);
    PopRooted(Pop(s.buffer));
  }

  /** The position behind an END_NODE. */
  function Ended(s: State): State
    requires s.levels != []
  {
    var d := |s.levels| - 1;
    s.(levels := s.levels[..d], want := s.levels[d].want, buffer := Pop(s.buffer), pos := s.pos + 1)
  }

  /** Where the run ends that an END_NODE closes. */
  function EndsAt(job: Job, pos: nat): nat {
    Here(job, if job.flags.directSubnodes then pos + 1 else pos)
  }

  lemma EndRun(job: Job, s: State, out: seq<Region>, one: bool)
    requires Within(job, s) && s.done < DONE_STRUCT && TagAt(job, s.pos).EndNode?
    requires s.start != -1 && s.levels != [] && s.want == WANT_NOTHING
    ensures Within(job, Ended(s)) && Decide(job, s).state.(pos := s.pos + 1) == Ended(s)
    ensures TagStep(job, s, out, one) == CloseRun(job, s, Ended(s), EndsAt(job, s.pos), out, one)
  {
  }

  lemma EndSplits(job: Job, s: State, to: State, to1: State, stop: int, out: seq<Region>)
    requires Within(job, s) && Within(job, to) && |out| <= 1 && TagAt(job, s.pos).EndNode?
    requires to.haveNode == s.haveNode && to1 == to.(buffer := to1.buffer, haveNode := Cut(s).haveNode)
    ensures var r := CloseRun(job, s, to, stop, out, true);
      var full, again := CloseRun(job, s, to, stop, out, false), CloseRun(job, Cut(s), to1, stop, [], false);
      if r.Moved? then r == full && |r.out| <= 1
      else
        && r == Refused(Cut(s), out) && |out| == 1 && full.Moved? && again.Moved? && again.out != []
        && full.out == out + again.out && full.state.buffer == to.buffer
        && again.state == full.state.(buffer := to1.buffer)
  {
    PutOne(out, s.canMerge, job.blob.base + s.start, stop - s.start);
    var only := [Region(job.blob.base + s.start, stop - s.start)];
    assert [] + only == only;
  }

  lemma CutAlike(s': State, s: State, b: string)
    requires s' == s.(buffer := Pop(Damage(b))) && s.buffer == Pop(b) && Rooted(Pop(b))
    ensures Alike(s', s) && (Pop(b) == "" ==> s' == s)
  {
    PopDamage(b);
    PoppedShorter(Pop(b));
    PopRooted(Pop(b));
  }

  lemma EndRunTame(job: Job, s: State, to: State, to1: State, stop: int, out: seq<Region>, shallow: bool)
    requires Within(job, s) && Within(job, to) && |out| <= 1 && TagAt(job, s.pos).EndNode? && s.done < DONE_STRUCT
    requires to.haveNode == s.haveNode && to.buffer == Pop(s.buffer)
    requires to1 == to.(buffer := Pop(Damage(s.buffer)), haveNode := Cut(s).haveNode)
    requires Fit(job, s, shallow) && Fit(job, to, shallow)
    ensures var r := CloseRun(job, s, to, stop, out, true);
      var full, again := CloseRun(job, s, to, stop, out, false), CloseRun(job, Cut(s), to1, stop, [], false);
      if r.Moved? then r == full && Fit(job, r.state, shallow) && |r.out| <= 1
      else r == Refused(Cut(s), out) && Fit(job, Cut(s), shallow) && SplitsAlike(shallow, full, out, again)
  {
    EndSplits(job, s, to, to1, stop, out);
    var r := CloseRun(job, s, to, stop, out, true);
    if r.Moved? {
      FitKeeps(job, to, r.state, shallow);
    } else {
      CutFit(job, s, shallow);
      var full, again := CloseRun(job, s, to, stop, out, false), CloseRun(job, Cut(s), to1, stop, [], false);
      CutAlike(again.state, full.state, s.buffer);
    }
  }

  /** An END_NODE that ends a run. */
  lemma EndTame(job: Job, s: State, out: seq<Region>, shallow: bool)
    requires Within(job, s) && s.done < DONE_STRUCT && Fit(job, s, shallow) && s.start != -1 && |out| <= 1
    requires TagAt(job, s.pos).EndNode? && s.levels != [] && s.want == WANT_NOTHING
    requires Fit(job, Decide(job, s).state.(pos := s.pos + 1), shallow)
    ensures var r := TagStep(job, s, out, true);
      if r.Moved? then r == TagStep(job, s, out, false) && Fit(job, r.state, shallow) && |r.out| <= 1
      else
        && r.Refused? && Fit(job, r.state, shallow)
        && SplitsAlike(shallow, TagStep(job, s, out, false), r.out, TagStep(job, r.state, [], false))
  {
    EndRun(job, s, out, true);
    EndRun(job, s, out, false);
    EndRun(job, Cut(s), [], false);
    EndRunTame(job, s, Ended(s), Ended(Cut(s)), EndsAt(job, s.pos), out, shallow);
  }

  lemma GoOnTame(job: Job, s: State, out: seq<Region>, shallow: bool)
    requires !job.flags.supernodes && Within(job, s) && s.done < DONE_STRUCT
    requires Decide(job, s).Go? && (Decide(job, s).kept || s.start == -1)
    requires Fit(job, Decide(job, s).state.(pos := s.pos + 1), shallow)
    ensures var r := TagStep(job, s, out, true);
      r.Moved? && r == TagStep(job, s, out, false) && Fit(job, r.state, shallow) && r.out == out
  {
    FitKeeps(job, Decide(job, s).state.(pos := s.pos + 1), TagStep(job, s, out, true).state, shallow);
  }

  lemma TagStepTame(job: Job, s: State, out: seq<Region>, shallow: bool)
    requires !job.flags.supernodes && Tame(job, shallow)
    requires Within(job, s) && s.done < DONE_STRUCT && Fit(job, s, shallow) && |out| <= 1
    ensures var r := TagStep(job, s, out, true);
      match r
      case Failed(_) => r == TagStep(job, s, out, false)
      case Moved(s', out') => r == TagStep(job, s, out, false) && Fit(job, s', shallow) && |out'| <= 1
      case Refused(s1, slot) =>
        Fit(job, s1, shallow) && SplitsAlike(shallow, TagStep(job, s, out, false), slot, TagStep(job, s1, [], false))
  {
    var c := Decide(job, s);
    if c.Go? {
      DecideFit(job, s, shallow);
      if !c.kept && s.start != -1 {
        if TagAt(job, s.pos).EndNode? { EndTame(job, s, out, shallow); } else { CloseTame(job, s, out, shallow); }
      } else {
        GoOnTame(job, s, out, shallow);
      }
    }
  }

  lemma RsvmapTame(job: Job, s: State, out: seq<Region>, shallow: bool)
    requires |out| <= 1 && s.done == DONE_NOTHING && Fit(job, s, shallow)
    ensures var r := RsvmapStep(job, s, out, true);
      if r.Moved? then r == RsvmapStep(job, s, out, false) && |r.out| <= 1 && Fit(job, r.state, shallow)
      else r == Refused(s, out) && Splits(RsvmapStep(job, s, out, false), out, RsvmapStep(job, s, [], false))
  {
    var size := job.blob.base - job.blob.rsvmap;
    PutOne(out, s.canMerge, job.blob.rsvmap, size);
    assert [] + [Region(job.blob.rsvmap, size)] == [Region(job.blob.rsvmap, size)];
  }

  lemma PartFit(job: Job, s: State, out: seq<Region>, one: bool, shallow: bool)
    requires Within(job, s) && DONE_STRUCT <= s.done < DONE_STRINGS && Fit(job, s, shallow)
    ensures var r := Advance(job, s, out, one); !r.Failed? ==> Fit(job, r.state, shallow)
  {
  }

  lemma AdvanceTame(job: Job, s: State, out: seq<Region>, shallow: bool)
    requires !job.flags.supernodes && Tame(job, shallow)
    requires Within(job, s) && s.done < DONE_STRINGS && Fit(job, s, shallow) && |out| <= 1
    ensures var r := Advance(job, s, out, true);
      match r
      case Failed(_) => r == Advance(job, s, out, false)
      case Moved(s', out') => r == Advance(job, s, out, false) && Fit(job, s', shallow) && |out'| <= 1
      case Refused(s1, slot) =>
        Fit(job, s1, shallow) && SplitsAlike(shallow, Advance(job, s, out, false), slot, Advance(job, s1, [], false))
  {
    if s.done == DONE_NOTHING && job.flags.addRsvmap {
      RsvmapTame(job, s, out, shallow);
    } else if s.done < DONE_STRUCT {
      TagStepTame(job, s, out, shallow);
    } else {
      PartOne(job, s, out);
      PartFit(job, s, out, true, shallow);
    }
  }

  /** A call delivers the next region of the single pass and leaves a state from which the rest follows. */
  lemma {:induction false} NextTame(job: Job, s: State, out: seq<Region>, shallow: bool)
    requires !job.flags.supernodes && Tame(job, shallow)
    requires Within(job, s) && s.done <= DONE_STRINGS && Fit(job, s, shallow) && |out| <= 1
    requires Full(job, s, out).Ok?
    ensures var t := Next(job, s, out);
      if t.code == 0 then
        |t.slot| == 1 && Fit(job, t.state, shallow) && Full(job, s, out) == Under(t.slot, Full(job, t.state, []))
      else t.code == FDT_ERR_NOTFOUND && Full(job, s, out) == Ok([])
    decreases DONE_STRINGS - s.done, |job.blob.tags| + 1 - s.pos
  {
    if s.done == DONE_STRINGS {
      assert out + [] == out;
    } else {
      AdvanceTame(job, s, out, shallow);
      var r := Advance(job, s, out, true);
      match r {
        case Failed(_) =>
        case Moved(s', out') => NextTame(job, s', out', shallow);
        case Refused(s1, slot) =>
          var full, again := Advance(job, s, out, false), Advance(job, s1, [], false);
          FullLocal(job, full.state, slot, again.out);
          if again.state != full.state { FullAlike(job, again.state, full.state, again.out); }
      }
    }
  }

  lemma SplitOff(slot: seq<Region>, rest: Result<seq<Region>>, rs: seq<Region>)
    requires |slot| == 1 && Under(slot, rest) == Ok(rs)
    ensures rs != [] && slot == [rs[0]] && rest == Ok(rs[1..])
  {
    assert rs == slot + rest.value;
  }

  lemma {:induction false} TameDelivers(job: Job, s: State, rs: seq<Region>, n: nat, shallow: bool)
    requires !job.flags.supernodes && Tame(job, shallow)
    requires Within(job, s) && s.done <= DONE_STRINGS && Fit(job, s, shallow)
    requires Full(job, s, []) == Ok(rs) && n <= |rs|
    ensures Delivers(job, s, rs, n)
    decreases n
  {
    NextTame(job, s, [], shallow);
    var t := Next(job, s, []);
    if t.code == 0 { SplitOff(t.slot, Full(job, t.state, []), rs); }
    if n > 0 {
      TameDelivers(job, t.state, rs[1..], n - 1, shallow);
    }
  }

  /**
   Whatever the flags, the calls are faithful to the single pass if no node is below the children of the
   root, or if the callback treats all nodes alike.
   */
  lemma TameFaithful(job: Job)
    requires Shallow(job.blob.tags) || Blind(job)
    ensures Faithful(job)
  {
    if job.flags.supernodes {
      SupernodesFaithful(job);
    } else {
      forall rs: seq<Region>, n: nat | Full(job, FIRST, []) == Ok(rs) && n <= |rs|
        ensures Delivers(job, FIRST, rs, n)
      {
        TameDelivers(job, FIRST, rs, n, Shallow(job.blob.tags));
      }
    }
  }
}
