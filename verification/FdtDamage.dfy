/**
 Without FDT_REG_SUPERNODES, repeated fdt_next_region() calls do not always deliver the regions of
 the single pass: a device tree and a callback, for every setting of the other flags.

   / { p; a { b { p; }; NOP d { }; NOP }; };

 Every property is included, and of the nodes only "/d", which does not exist. The END_NODE of b
 ends the region of its property while the slot still holds the root's property, so it is refused
 and retried; the retry cuts the path "/a/b" to "" instead of "/a", and d is then called "/d".
 */
module FdtDamage {
  import opened Wrappers
  import opened FdtTags
  import opened FdtIter
  import opened FdtResume

  const TAGS := [BeginNode(""), Prop(Some("p"), 0), BeginNode("a"), BeginNode("b"), Prop(Some("p"), 0), EndNode,
                 Nop, BeginNode("d"), EndNode, Nop, EndNode, EndNode, End]

  function Example(flags: Flags): Job {
    Job(Blob(TAGS, 56, 84, 140, 2, 40), flags, (path: string) => if path == "/d" then 1 else 0, (key: string) => 1, 100)
  }

  lemma {:induction false} Offsets()
    ensures Offset(TAGS, 0) == 0 && Offset(TAGS, 1) == 8 && Offset(TAGS, 2) == 20 && Offset(TAGS, 3) == 28
    ensures Offset(TAGS, 4) == 36 && Offset(TAGS, 5) == 48 && Offset(TAGS, 6) == 52 && Offset(TAGS, 7) == 56
    ensures Offset(TAGS, 8) == 64 && Offset(TAGS, 9) == 68 && Offset(TAGS, 10) == 72 && Offset(TAGS, 11) == 76
    ensures Offset(TAGS, 12) == 80 && Offset(TAGS, 13) == 84
  {
  }

  /** The states of the walk; nothing is wanted and no open node is in a region. */
  function At(done: nat, pos: nat, open: seq<nat>, buffer: string, start: int, canMerge: bool): State {
    State(done, pos, seq(|open|, i requires 0 <= i < |open| => Level(open[i], 0, false)), 0, buffer, start, canMerge, false)
  }

  const RSV := Region(40, 16)
  const R1 := Region(64, 12)
  const R3 := Region(112, 12)
  const LAST := Region(132, 8)

  function R2(flags: Flags): Region {
    Region(92, if flags.directSubnodes then 16 else 12)
  }

  /** Flags and a progress value with which the next thing to look at is a tag. */
  predicate Walking(flags: Flags, done: nat) {
    !flags.supernodes && done < DONE_STRUCT && (flags.addRsvmap ==> done != DONE_NOTHING)
  }

  /** A tag that neither starts nor ends a run. */
  lemma GoesOn(job: Job, s: State, out: seq<Region>, one: bool, c: Choice, next: State)
    requires Within(job, s) && Walking(job.flags, s.done) && c == Decide(job, s)
    requires c.Go? && c.kept == (s.start != -1) && next == c.state.(pos := s.pos + 1)
    ensures Within(job, next) && Advance(job, s, out, one) == Moved(next, out)
  {
  }

  /** A tag that starts a run. */
  lemma Starts(job: Job, s: State, out: seq<Region>, one: bool, c: Choice, next: State)
    requires Within(job, s) && Walking(job.flags, s.done) && c == Decide(job, s)
    requires c.Go? && c.kept && s.start == -1 && next == c.state.(pos := s.pos + 1, start := Here(job, s.pos))
    ensures Within(job, next) && Advance(job, s, out, one) == Moved(next, out)
  {
  }

  /** Up to the root's property. */
  lemma {:induction false} Tags0(flags: Flags, done: nat, canMerge: bool, out: seq<Region>, one: bool)
    requires Walking(flags, done)
    ensures var job := Example(flags);
      && Within(job, At(done, 0, [], "", -1, canMerge))
      && Advance(job, At(done, 0, [], "", -1, canMerge), out, one) == Moved(At(done, 1, [0], "/", -1, canMerge), out)
      && Advance(job, At(done, 1, [0], "/", -1, canMerge), out, one) == Moved(At(done, 2, [0], "/", 8, canMerge), out)
  {
    Offsets();
  }

  /** The region of the root's property ends at a. */
  lemma {:induction false} Tag2(flags: Flags, done: nat, canMerge: bool, out: seq<Region>, one: bool)
    requires Walking(flags, done) && (out == [] || (out == [RSV] && !canMerge))
    ensures var job := Example(flags);
      var s := At(done, 2, [0], "/", 8, canMerge);
      Within(job, s) && Advance(job, s, out, one) ==
        if out == [RSV] && one then Refused(s, out) else Moved(At(done, 3, [0, 2], "/a", -1, true), out + [R1])
  {
    Offsets();
    assert Push("/", "a") == "/a";
  }

  /** Down to the property of b. */
  lemma {:induction false} Tags3(flags: Flags, done: nat, out: seq<Region>, one: bool)
    requires Walking(flags, done)
    ensures var job := Example(flags);
      && Within(job, At(done, 3, [0, 2], "/a", -1, true))
      && Advance(job, At(done, 3, [0, 2], "/a", -1, true), out, one) == Moved(At(done, 4, [0, 2, 3], "/a/b", -1, true), out)
      && Advance(job, At(done, 4, [0, 2, 3], "/a/b", -1, true), out, one) == Moved(At(done, 5, [0, 2, 3], "/a/b", 36, true), out)
  {
    Offsets();
    assert Push("/a", "b") == "/a/b";
  }

  /** The END_NODE of b: refused with a region in the slot, and what that does to the path. */
  lemma {:induction false} Tag5(flags: Flags, done: nat, out: seq<Region>)
    requires Walking(flags, done) && out != [] && out[|out| - 1] == R1
    ensures var job := Example(flags);
      var s, damaged := At(done, 5, [0, 2, 3], "/a/b", 36, true), At(done, 5, [0, 2, 3], "/a\0b", 36, true);
      && Within(job, s) && Within(job, damaged)
      && Advance(job, s, out, false) == Moved(At(done, 6, [0, 2], "/a", -1, true), out + [R2(flags)])
      && Advance(job, s, out, true) == Refused(damaged, out)
      && Advance(job, damaged, [], true) == Moved(At(done, 6, [0, 2], "", -1, true), [R2(flags)])
  {
    Offsets();
    Cuts();
    assert [] + [R2(flags)] == [R2(flags)];
    var job := Example(flags);
    var s, damaged := At(done, 5, [0, 2, 3], "/a/b", 36, true), At(done, 5, [0, 2, 3], "/a\0b", 36, true);
    assert s.levels[..2] == At(done, 6, [0, 2], "/a", -1, true).levels;
    assert Decide(job, s) == Go(At(done, 5, [0, 2], "/a", 36, true), false, flags.directSubnodes);
    assert Decide(job, damaged) == Go(At(done, 5, [0, 2], "", 36, true), false, flags.directSubnodes);
  }

  lemma {:induction false} Cuts()
    ensures Pop("/a/b") == "/a" && Damage("/a/b") == "/a\0b" && Pop("/a\0b") == ""
  {
    PopPlain("/a/", "b");
    assert "/a/" + "b" == "/a/b";
    assert "/a/"[..2] == "/a";
    PopPlain("/", "a\0b");
    assert "/" + "a\0b" == "/a\0b";
  }

  /** The single pass goes on through d, which is "/a/d" and not kept. */
  lemma {:induction false} Tags6(flags: Flags, done: nat, out: seq<Region>)
    requires Walking(flags, done)
    ensures var job := Example(flags);
      && Within(job, At(done, 6, [0, 2], "/a", -1, true)) && Within(job, At(done, 8, [0, 2, 7], "/a/d", -1, true))
      && Full(job, At(done, 6, [0, 2], "/a", -1, true), out) == Full(job, At(done, 8, [0, 2, 7], "/a/d", -1, true), out)
  {
    Offsets();
    assert Push("/a", "d") == "/a/d";
    var job := Example(flags);
    assert Advance(job, At(done, 6, [0, 2], "/a", -1, true), out, false) == Moved(At(done, 7, [0, 2], "/a", -1, true), out);
    assert Advance(job, At(done, 7, [0, 2], "/a", -1, true), out, false) == Moved(At(done, 8, [0, 2, 7], "/a/d", -1, true), out);
  }

  lemma {:induction false} Tags8(flags: Flags, done: nat, out: seq<Region>)
    requires Walking(flags, done)
    ensures var job := Example(flags);
      && Within(job, At(done, 8, [0, 2, 7], "/a/d", -1, true)) && Within(job, At(done, 10, [0, 2], "/a", -1, true))
      && Full(job, At(done, 8, [0, 2, 7], "/a/d", -1, true), out) == Full(job, At(done, 10, [0, 2], "/a", -1, true), out)
  {
    Offsets();
    PopPlain("/a/", "d");
    assert "/a/" + "d" == "/a/d" && "/a/"[..2] == "/a";
    assert At(done, 8, [0, 2, 7], "/a/d", -1, true).levels[..2] == At(done, 9, [0, 2], "/a", -1, true).levels;
    var job := Example(flags);
    assert Advance(job, At(done, 8, [0, 2, 7], "/a/d", -1, true), out, false) == Moved(At(done, 9, [0, 2], "/a", -1, true), out);
    assert Advance(job, At(done, 9, [0, 2], "/a", -1, true), out, false) == Moved(At(done, 10, [0, 2], "/a", -1, true), out);
  }

  lemma {:induction false} Tags10(flags: Flags, done: nat, out: seq<Region>)
    requires Walking(flags, done)
    ensures var job := Example(flags);
      && Within(job, At(done, 10, [0, 2], "/a", -1, true)) && Within(job, At(DONE_STRUCT, 13, [], "", 80, true))
      && Full(job, At(done, 10, [0, 2], "/a", -1, true), out) == Full(job, At(DONE_STRUCT, 13, [], "", 80, true), out)
  {
    Offsets();
    PopPlain("/", "a");
    assert "/" + "a" == "/a" && "/"[..0] == "";
    assert At(done, 10, [0, 2], "/a", -1, true).levels[..1] == At(done, 11, [0], "", -1, true).levels;
    assert At(done, 11, [0], "", -1, true).levels[..0] == At(done, 12, [], "", -1, true).levels;
    var job := Example(flags);
    assert Advance(job, At(done, 10, [0, 2], "/a", -1, true), out, false) == Moved(At(done, 11, [0], "", -1, true), out);
    assert Advance(job, At(done, 11, [0], "", -1, true), out, false) == Moved(At(done, 12, [], "", -1, true), out);
    assert Full(job, At(done, 10, [0, 2], "/a", -1, true), out) == Full(job, At(done, 12, [], "", -1, true), out);
    assert Advance(job, At(done, 12, [], "", -1, true), out, false) == Moved(At(DONE_STRUCT, 13, [], "", 80, true), out);
  }

  /** The END tag and the } before it make the last region but for the strings. */
  lemma {:induction false} Parts(flags: Flags, out: seq<Region>)
    requires !flags.supernodes && out != [] && out[|out| - 1] == R2(flags)
    ensures var job := Example(flags);
      var s := At(DONE_STRUCT, 13, [], "", 80, true);
      Within(job, s) && Full(job, s, out) == Ok(out + [LAST] + if flags.addStrings then [Region(140, 2)] else [])
  {
    Offsets();
    var job := Example(flags);
    assert Advance(job, At(DONE_STRUCT, 13, [], "", 80, true), out, false) == Moved(At(DONE_EMPTY, 13, [], "", 80, true), out);
    assert Advance(job, At(DONE_EMPTY, 13, [], "", 80, true), out, false) == Moved(At(DONE_END, 13, [], "", 76, true), out + [LAST]);
    var r := Advance(job, At(DONE_END, 13, [], "", 76, true), out + [LAST], false);
    assert r.Moved? && r.state.done == DONE_STRINGS && r.out == out + [LAST] + if flags.addStrings then [Region(140, 2)] else [];
    assert Full(job, r.state, r.out) == Ok(r.out);
  }

  function Head(flags: Flags): seq<Region> {
    if flags.addRsvmap then [RSV] else []
  }

  function Done(flags: Flags): nat {
    if flags.addRsvmap then DONE_MEM_RSVMAP else DONE_NOTHING
  }

  lemma {:induction false} FirstSteps(flags: Flags, one: bool)
    requires !flags.supernodes && flags.addRsvmap
    ensures Advance(Example(flags), FIRST, [], one) == Moved(At(DONE_MEM_RSVMAP, 0, [], "", -1, false), [RSV])
  {
  }

  lemma {:induction false} SinglePassTo5(flags: Flags)
    requires !flags.supernodes
    ensures var job, s := Example(flags), At(Done(flags), 5, [0, 2, 3], "/a/b", 36, true);
      Within(job, s) && Full(job, FIRST, []) == Full(job, s, Head(flags) + [R1])
  {
    var done, canMerge, out := Done(flags), !flags.addRsvmap, Head(flags);
    if flags.addRsvmap { FirstSteps(flags, false); }
    assert Full(Example(flags), FIRST, []) == Full(Example(flags), At(done, 0, [], "", -1, canMerge), out);
    Tags0(flags, done, canMerge, out, false);
    Tag2(flags, done, canMerge, out, false);
    Tags3(flags, done, out + [R1], false);
    Tag5(flags, done, out + [R1]);
  }

  lemma {:induction false} SinglePassFrom6(flags: Flags, done: nat, out: seq<Region>)
    requires Walking(flags, done) && out != [] && out[|out| - 1] == R2(flags)
    ensures var job, s := Example(flags), At(done, 6, [0, 2], "/a", -1, true);
      Within(job, s) && Full(job, s, out) == Ok(out + [LAST] + if flags.addStrings then [Region(140, 2)] else [])
  {
    Tags6(flags, done, out);
    Tags8(flags, done, out);
    Tags10(flags, done, out);
    Parts(flags, out);
  }

  lemma {:induction false} SinglePass(flags: Flags)
    requires !flags.supernodes
    ensures Full(Example(flags), FIRST, []) ==
      Ok(Head(flags) + [R1] + [R2(flags)] + [LAST] + if flags.addStrings then [Region(140, 2)] else [])
  {
    SinglePassTo5(flags);
    Tag5(flags, Done(flags), Head(flags) + [R1]);
    SinglePassFrom6(flags, Done(flags), Head(flags) + [R1] + [R2(flags)]);
  }

  // ----- the calls -----

  function Damaged(done: nat): State {
    At(done, 5, [0, 2, 3], "/a\0b", 36, true)
  }

  lemma {:induction false} Moves(job: Job, s: State, out: seq<Region>, s': State, out': seq<Region>)
    requires Within(job, s) && s.done < DONE_STRINGS && Advance(job, s, out, true) == Moved(s', out')
    ensures Within(job, s') && s'.done <= DONE_STRINGS && Next(job, s, out) == Next(job, s', out')
  {
  }

  lemma {:induction false} Returns(job: Job, s: State, out: seq<Region>, s': State)
    requires Within(job, s) && s.done < DONE_STRINGS && Advance(job, s, out, true) == Refused(s', out)
    ensures Within(job, s') && Next(job, s, out) == Turn(0, out, s')
  {
  }

  /** From the open region of the root's property to the refused END_NODE. */
  lemma {:induction false} CallTo5(flags: Flags, done: nat, canMerge: bool)
    requires Walking(flags, done)
    ensures var job, s := Example(flags), At(done, 2, [0], "/", 8, canMerge);
      Within(job, s) && Within(job, Damaged(done)) && Next(job, s, []) == Turn(0, [R1], Damaged(done))
  {
    var job := Example(flags);
    var s3, s4, s5 := At(done, 3, [0, 2], "/a", -1, true), At(done, 4, [0, 2, 3], "/a/b", -1, true), At(done, 5, [0, 2, 3], "/a/b", 36, true);
    assert [] + [R1] == [R1];
    Tag2(flags, done, canMerge, [], true);
    Moves(job, At(done, 2, [0], "/", 8, canMerge), [], s3, [R1]);
    Tags3(flags, done, [R1], true);
    Moves(job, s3, [R1], s4, [R1]);
    Moves(job, s4, [R1], s5, [R1]);
    Tag5(flags, done, [R1]);
    Returns(job, s5, [R1], Damaged(done));
  }

  lemma {:induction false} CallsToDamage(flags: Flags)
    requires !flags.supernodes
    ensures After(Example(flags), FIRST, |Head(flags)| + 1) == Damaged(Done(flags))
  {
    var job, done, canMerge := Example(flags), Done(flags), !flags.addRsvmap;
    Tags0(flags, done, canMerge, Head(flags), true);
    CallTo5(flags, done, canMerge);
    if flags.addRsvmap {
      FirstSteps(flags, true);
      Tag2(flags, done, canMerge, [RSV], true);
      var s := At(done, 2, [0], "/", 8, canMerge);
      assert Next(job, At(done, 0, [], "", -1, canMerge), [RSV]) == Turn(0, [RSV], s);
      assert Next(job, FIRST, []) == Turn(0, [RSV], s);
      assert After(job, s, 1) == After(job, Damaged(done), 0);
    } else {
      assert Next(job, FIRST, []) == Turn(0, [R1], Damaged(done));
      assert After(job, FIRST, 1) == After(job, Damaged(done), 0);
    }
  }

  /** Inside d, taken for "/d". */
  function Inside(flags: Flags, done: nat): State {
    var want := if flags.allSubnodes then WANT_ALL_NODES_AND_PROPS else WANT_NODES_AND_PROPS;
    var s := At(done, 8, [0, 2], "/d", 56, true);
    s.(levels := s.levels + [Level(7, 0, true)], want := want)
  }

  /** The retry goes on with the wrong path: d is taken for "/d" and kept. */
  lemma {:induction false} Wrong6(flags: Flags, done: nat, out: seq<Region>)
    requires Walking(flags, done)
    ensures var job, s6, s7 := Example(flags), At(done, 6, [0, 2], "", -1, true), At(done, 7, [0, 2], "", -1, true);
      && Within(job, s6) && Within(job, s7)
      && Advance(job, s6, out, true) == Moved(s7, out)
      && Advance(job, s7, out, true) == Moved(Inside(flags, done), out)
  {
    Offsets();
    assert Push("", "d") == "/d";
    var job, s6, s7, s8 := Example(flags), At(done, 6, [0, 2], "", -1, true), At(done, 7, [0, 2], "", -1, true), Inside(flags, done);
    assert Within(job, s6) && Within(job, s7);
    GoesOn(job, s6, out, true, Go(s6, false, false), s7);
    var c := Go(s8.(pos := 7, start := -1), true, false);
    assert DecideBegin(job, s7, "d") == c;
    Starts(job, s7, out, true, c, s8);
  }

  lemma {:induction false} Wrong8(flags: Flags, done: nat, out: seq<Region>)
    requires Walking(flags, done)
    ensures var job, s8 := Example(flags), Inside(flags, done);
      Within(job, s8) && Advance(job, s8, out, true) == Moved(At(done, 9, [0, 2], "", 56, true), out)
  {
    PopPlain("/", "d");
    assert "/" + "d" == "/d" && "/"[..0] == "";
    var job, s8, s9 := Example(flags), Inside(flags, done), At(done, 9, [0, 2], "", 56, true);
    assert s8.levels[..2] == s9.levels;
    assert Within(job, s8) && DecideEnd(job, s8) == Go(s9.(pos := 8), true, true);
    GoesOn(job, s8, out, true, Go(s9.(pos := 8), true, true), s9);
  }

  lemma {:induction false} Wrong9(flags: Flags, done: nat)
    requires Walking(flags, done)
    ensures var job, s := Example(flags), At(done, 9, [0, 2], "", 56, true);
      && Within(job, s) && Within(job, At(done, 10, [0, 2], "", -1, true))
      && Advance(job, s, [R2(flags)], true) == Refused(s, [R2(flags)])
      && Advance(job, s, [], true) == Moved(At(done, 10, [0, 2], "", -1, true), [R3])
  {
    Offsets();
    assert [] + [R3] == [R3];
  }

  lemma {:induction false} DamagedCall(flags: Flags, done: nat)
    requires Walking(flags, done)
    ensures var job, s9 := Example(flags), At(done, 9, [0, 2], "", 56, true);
      && Within(job, Damaged(done)) && Within(job, s9)
      && Next(job, Damaged(done), []) == Turn(0, [R2(flags)], s9)
      && Next(job, s9, []) == Next(job, At(done, 10, [0, 2], "", -1, true), [R3])
  {
    var job, out := Example(flags), [R2(flags)];
    var s6, s7, s9 := At(done, 6, [0, 2], "", -1, true), At(done, 7, [0, 2], "", -1, true), At(done, 9, [0, 2], "", 56, true);
    Tag5(flags, done, [R1]);
    Moves(job, Damaged(done), [], s6, out);
    Wrong6(flags, done, out);
    Moves(job, s6, out, s7, out);
    Moves(job, s7, out, Inside(flags, done), out);
    Wrong8(flags, done, out);
    Moves(job, Inside(flags, done), out, s9, out);
    Wrong9(flags, done);
    Returns(job, s9, out, s9);
    Moves(job, s9, [], At(done, 10, [0, 2], "", -1, true), [R3]);
  }

  /** Without supernodes a region in the slot keeps its offset until it is delivered. */
  lemma {:induction false} SlotStays(job: Job, s: State, r: Region)
    requires !job.flags.supernodes && Within(job, s) && s.done <= DONE_STRINGS
    ensures var t := Next(job, s, [r]); |t.slot| == 1 && t.slot[0].offset == r.offset
    decreases DONE_STRINGS - s.done, |job.blob.tags| + 1 - s.pos
  {
    if s.done < DONE_STRINGS {
      var step := Advance(job, s, [r], true);
      SlotStep(job, s, r);
      if step.Moved? { SlotStays(job, step.state, step.out[0]); }
    }
  }

  lemma {:induction false} SlotStep(job: Job, s: State, r: Region)
    requires !job.flags.supernodes && Within(job, s) && s.done < DONE_STRINGS
    ensures var step := Advance(job, s, [r], true);
      !step.Failed? ==> |step.out| == 1 && step.out[0].offset == r.offset && (step.Moved? ==> step.out == [step.out[0]])
  {
  }

  /** The call after the damaged one delivers d. */
  lemma {:induction false} StrayCall(flags: Flags)
    requires !flags.supernodes
    ensures var t := Next(Example(flags), After(Example(flags), FIRST, |Head(flags)| + 2), []);
      |t.slot| == 1 && t.slot[0].offset == R3.offset
  {
    var job, done := Example(flags), Done(flags);
    CallsToDamage(flags);
    DamagedCall(flags, done);
    AfterNext(job, FIRST, |Head(flags)| + 1);
    Wrong9(flags, done);
    SlotStays(job, At(done, 10, [0, 2], "", -1, true), R3);
  }

  lemma {:induction false} ExampleStrays(flags: Flags)
    requires !flags.supernodes
    ensures !Faithful(Example(flags))
  {
    SinglePass(flags);
    var rs := Head(flags) + [R1] + [R2(flags)] + [LAST] + if flags.addStrings then [Region(140, 2)] else [];
    NotDelivered(flags, rs);
  }

  lemma {:induction false} NotDelivered(flags: Flags, rs: seq<Region>)
    requires !flags.supernodes && |rs| > |Head(flags)| + 2 && rs[|Head(flags)| + 2] == LAST
    ensures !Delivers(Example(flags), FIRST, rs, |Head(flags)| + 2)
  {
    StrayCall(flags);
  }

  /** The calls are faithful for every tree and every callback iff FDT_REG_SUPERNODES is set. */
  lemma {:induction false} FaithfulIffSupernodes(flags: Flags)
    ensures (forall job: Job :: job.flags == flags ==> Faithful(job)) <==> flags.supernodes
  {
    if flags.supernodes {
      forall job: Job | job.flags == flags
        ensures Faithful(job)
      {
        SupernodesFaithful(job);
      }
    } else {
      ExampleStrays(flags);
      assert Example(flags).flags == flags;
    }
  }
}
