/**
 What fdt_next_region() keeps of a well-formed device tree, read off the tree by recursion: the regions of
 a single pass hold exactly those tags, the parts around them, and nothing else.
 */
module FdtKeep {
  import opened Wrappers
  import opened FdtTags
  import opened FdtRuns
  import opened FdtIter
  import opened FdtTree
  import opened FdtCover

  // ----- what is asked for -----

  /** The node at `path` is wanted with its properties; `full` says the same of its parent. */
  predicate Wanted(job: Job, path: string, full: bool) {
    job.nodes(path) != 0 || (job.flags.allSubnodes && full)
  }

  /** The tags of the subnode itself are asked for, not only those of a node in it. */
  predicate Asked(job: Job, path: string, full: bool) {
    Wanted(job, path, full) || (job.flags.directSubnodes && full)
  }

  /**
   What to keep of the inside of the node at `path`, where `full` says whether that node is wanted with its
   properties. A property goes by its own answer, or with its node if the answer is -1; a NOP goes with its
   node. A subnode is kept when it is asked for and, with supernodes, when anything in it is kept.
   */
  function KeepIn(job: Job, f: Forest, path: string, full: bool): (flags: seq<bool>)
    ensures |flags| == |Flatten(f)|
  {
    match f
    case Done => []
    case PropThen(key, _, rest) =>
      [if job.props(key) == -1 then full else job.props(key) != 0] + KeepIn(job, rest, path, full)
    case NopThen(rest) => [full] + KeepIn(job, rest, path, full)
    case NodeThen(name, body, rest) =>
      var sub := Join(path, name);
      var inner := KeepIn(job, body, sub, Wanted(job, sub, full));
      var node := Asked(job, sub, full) || Upward(job, inner);
      [node] + (inner + ([node] + KeepIn(job, rest, path, full)))
  }

  /** Something inside is kept, and the nodes around it with it. */
  predicate Upward(job: Job, flags: seq<bool>) {
    job.flags.supernodes && true in flags
  }

  // ----- what a stretch of tags does to the walk -----

  function Want(job: Job, full: bool, any: bool): nat {
    if full then (if job.flags.allSubnodes then WANT_ALL_NODES_AND_PROPS else WANT_NODES_AND_PROPS)
    else if any then WANT_NODES_ONLY else WANT_NOTHING
  }

  /** The tag before is in the open run. */
  predicate Last(flags: seq<bool>, before: bool) {
    if flags == [] then before else flags[|flags| - 1]
  }

  /** With FDT_REG_DIRECT_SUBNODES the END_NODE right after a kept tag comes along. */
  predicate Covers(job: Job, pos: nat, flags: seq<bool>, before: bool, k: nat)
    requires k < |flags|
  {
    flags[k] || (job.flags.directSubnodes && TagAt(job, pos + k).EndNode? && if k == 0 then before else flags[k - 1])
  }

  function Flagged(job: Job, pos: nat, flags: seq<bool>, before: bool): set<nat> {
    set k: nat | k < |flags| && Covers(job, pos, flags, before, k) :: pos + k
  }

  lemma FlaggedAppend(job: Job, pos: nat, a: seq<bool>, b: seq<bool>, before: bool)
    ensures Flagged(job, pos, a + b, before) == Flagged(job, pos, a, before) + Flagged(job, pos + |a|, b, Last(a, before))
  {
    var l, r := Flagged(job, pos, a + b, before), Flagged(job, pos, a, before) + Flagged(job, pos + |a|, b, Last(a, before));
    forall i | i in l ensures i in r {
      var k: nat :| k < |a + b| && Covers(job, pos, a + b, before, k) && i == pos + k;
      if k < |a| { assert Covers(job, pos, a, before, k); }
      else { assert Covers(job, pos + |a|, b, Last(a, before), k - |a|); }
    }
    forall i | i in r ensures i in l {
      if i in Flagged(job, pos, a, before) {
        var k: nat :| k < |a| && Covers(job, pos, a, before, k) && i == pos + k;
        assert Covers(job, pos, a + b, before, k);
      } else {
        var k: nat :| k < |b| && Covers(job, pos + |a|, b, Last(a, before), k) && i == pos + |a| + k;
        assert Covers(job, pos, a + b, before, |a| + k);
      }
    }
  }

  lemma FlaggedOne(job: Job, pos: nat, flag: bool, before: bool)
    ensures Flagged(job, pos, [flag], before) ==
            if flag || (job.flags.directSubnodes && TagAt(job, pos).EndNode? && before) then {pos} else {}
  {
    assert Covers(job, pos, [flag], before, 0) == (flag || (job.flags.directSubnodes && TagAt(job, pos).EndNode? && before));
  }

  /** The walk has gone from `s` to `s'` and kept what `flags` says. */
  ghost predicate Walked(job: Job, s: State, head: seq<Region>, cov: set<nat>, flags: seq<bool>, full: bool, any: bool,
                         buffer: string, s': State, rest': seq<Region>) {
    && s'.done == s.done && s'.pos == s.pos + |flags| && s'.buffer == buffer
    && s'.levels == (if Upward(job, flags) then RaiseFrom(s.levels, 0) else s.levels)
    && s'.want == Want(job, full, any || Upward(job, flags))
    && (s'.start != -1 <==> Last(flags, s.start != -1))
    && On(job, s', head, rest', CovWith(job, s, cov, flags))
  }

  function CovWith(job: Job, s: State, cov: set<nat>, flags: seq<bool>): set<nat> {
    cov + Flagged(job, s.pos, flags, s.start != -1) + if Upward(job, flags) then Missing(s.levels, 0) else {}
  }

  lemma CovTwice(job: Job, s: State, cov: set<nat>, a: seq<bool>, b: seq<bool>, s1: State)
    requires s1.levels == (if Upward(job, a) then RaiseFrom(s.levels, 0) else s.levels)
    requires s1.pos == s.pos + |a| && (s1.start != -1 <==> Last(a, s.start != -1))
    ensures CovWith(job, s1, CovWith(job, s, cov, a), b) == CovWith(job, s, cov, a + b)
    ensures (if Upward(job, b) then RaiseFrom(s1.levels, 0) else s1.levels) ==
            if Upward(job, a + b) then RaiseFrom(s.levels, 0) else s.levels
  {
    FlaggedAppend(job, s.pos, a, b, s.start != -1);
    RaisedAll(s.levels);
    RaisedAll(RaiseFrom(s.levels, 0));
  }

  lemma WalkedTwice(job: Job, s: State, head: seq<Region>, cov: set<nat>, a: seq<bool>, b: seq<bool>, full: bool, any: bool,
                    s1: State, rest1: seq<Region>, s2: State, rest2: seq<Region>)
    requires Walked(job, s, head, cov, a, full, any, s1.buffer, s1, rest1)
    requires Walked(job, s1, head, CovWith(job, s, cov, a), b, full, any || Upward(job, a), s2.buffer, s2, rest2)
    ensures Walked(job, s, head, cov, a + b, full, any, s2.buffer, s2, rest2)
  {
    CovTwice(job, s, cov, a, b, s1);
  }

  // ----- properties and NOPs -----

  /** The tag at `pos` is a property or a NOP, and this is whether it is kept. */
  predicate Plain(job: Job, pos: nat, full: bool, kept: bool) {
    match TagAt(job, pos)
    case Prop(Some(key), _) => kept == if job.props(key) == -1 then full else job.props(key) != 0
    case Nop => kept == full
    case _ => false
  }

  lemma DecidePlain(job: Job, s: State, full: bool, any: bool, kept: bool, to: State)
    requires Within(job, s) && s.done < DONE_STRUCT && s.want == Want(job, full, any) && Plain(job, s.pos, full, kept)
    requires to == s.(pos := s.pos + 1, want := Want(job, full, any || Upward(job, [kept])))
    ensures Decide(job, s) == Go(to.(pos := s.pos), kept, false)
  {
    assert true in [kept] <==> kept;
  }

  lemma WalkPlain(job: Job, s: State, head: seq<Region>, rest: seq<Region>, cov: set<nat>, full: bool, any: bool, kept: bool)
    returns (s': State, rest': seq<Region>)
    requires On(job, s, head, rest, cov) && s.pos < |job.blob.tags|
    requires s.want == Want(job, full, any) && Plain(job, s.pos, full, kept)
    ensures Walked(job, s, head, cov, [kept], full, any, s.buffer, s', rest')
    ensures Full(job, s, head + rest) == Full(job, s', head + rest')
  {
    var to := s.(pos := s.pos + 1, want := Want(job, full, any || Upward(job, [kept])));
    DecidePlain(job, s, full, any, kept, to);
    s', rest' := StepOn(job, s, head, rest, cov, to, kept, false);
    CovPlain(job, s, to, cov, full, kept);
    assert true in [kept] <==> kept;
  }

  lemma CovPlain(job: Job, s: State, to: State, cov: set<nat>, full: bool, kept: bool)
    requires Plain(job, s.pos, full, kept) && to.levels == s.levels
    ensures CovAfter(job, s, to, cov, kept, false) == CovWith(job, s, cov, [kept])
  {
    FlaggedOne(job, s.pos, kept, s.start != -1);
    assert true in [kept] <==> kept;
  }

  // ----- a subnode -----

  lemma {:induction false} MissingAppend(levels: seq<Level>, l: Level, i: nat)
    requires i <= |levels|
    ensures Missing(levels + [l], i) == Missing(levels, i) + if l.included then {} else {l.pos}
    decreases |levels| - i
  {
    if i < |levels| {
      MissingAppend(levels, l, i + 1);
    } else {
      assert Missing(levels + [l], i + 1) == {};
    }
  }

  lemma DecideEnter(job: Job, s: State, name: string, path: string, full: bool, any: bool, to: State)
    requires Within(job, s) && s.done < DONE_STRUCT && s.want == Want(job, full, any)
    requires TagAt(job, s.pos) == BeginNode(name) && Push(s.buffer, name) == path
    requires |s.levels| < FDT_MAX_DEPTH && |s.buffer| + 2 + |name| < job.pathLen
    requires var node := Asked(job, path, full);
      to == s.(pos := s.pos + 1, levels := s.levels + [Level(s.pos, s.want, node)],
               want := Want(job, Wanted(job, path, full), node), buffer := path)
    ensures Decide(job, s) == Go(to.(pos := s.pos), Asked(job, path, full), false)
  {
  }

  /** The levels inside a node, given whether its BEGIN_NODE and something in it have been kept. */
  function Entered(job: Job, s: State, node: bool, up: bool): seq<Level> {
    var levels := s.levels + [Level(s.pos, s.want, node)];
    if up then RaiseFrom(levels, 0) else levels
  }

  function CovEntered(job: Job, s: State, cov: set<nat>, node: bool): set<nat> {
    cov + (if node then {s.pos} else {}) + (if node && job.flags.supernodes then Missing(s.levels, 0) else {})
  }

  /** The state behind the BEGIN_NODE of the subnode at `path`. */
  ghost predicate Inward(job: Job, s: State, path: string, full: bool, s1: State) {
    var node := Asked(job, path, full);
    && s1.done == s.done && s1.pos == s.pos + 1 && s1.buffer == path && s1.want == Want(job, Wanted(job, path, full), node)
    && s1.levels == Entered(job, s, node, node && job.flags.supernodes) && (s1.start != -1 <==> node)
  }

  lemma WalkEnter(job: Job, s: State, head: seq<Region>, rest: seq<Region>, cov: set<nat>, name: string, path: string,
                  full: bool, any: bool) returns (s': State, rest': seq<Region>)
    requires On(job, s, head, rest, cov) && s.pos < |job.blob.tags| && s.want == Want(job, full, any)
    requires TagAt(job, s.pos) == BeginNode(name) && Push(s.buffer, name) == path
    requires |s.levels| < FDT_MAX_DEPTH && |s.buffer| + 2 + |name| < job.pathLen
    ensures Inward(job, s, path, full, s')
    ensures On(job, s', head, rest', CovEntered(job, s, cov, Asked(job, path, full)))
    ensures Full(job, s, head + rest) == Full(job, s', head + rest')
  {
    var node := Asked(job, path, full);
    var l := Level(s.pos, s.want, node);
    var to := s.(pos := s.pos + 1, levels := s.levels + [l], want := Want(job, Wanted(job, path, full), node), buffer := path);
    DecideEnter(job, s, name, path, full, any, to);
    s', rest' := StepOn(job, s, head, rest, cov, to, node, false);
    MissingAppend(s.levels, l, 0);
    assert CovAfter(job, s, to, cov, node, false) == CovEntered(job, s, cov, node);
  }

  lemma DecideLeave(job: Job, s: State, levels: seq<Level>, l: Level, to: State)
    requires Within(job, s) && s.done < DONE_STRUCT && TagAt(job, s.pos) == EndNode && s.levels == levels + [l]
    requires to == s.(pos := s.pos + 1, levels := levels, want := l.want, buffer := Pop(s.buffer))
    ensures Decide(job, s) ==
      Go(to.(pos := s.pos), s.want != WANT_NOTHING, s.want != WANT_NOTHING || job.flags.directSubnodes)
  {
    assert (levels + [l])[..|levels|] == levels;
  }

  /** The END_NODE of a node: `levels` are those around it. */
  lemma WalkLeave(job: Job, s: State, head: seq<Region>, rest: seq<Region>, cov: set<nat>, levels: seq<Level>, l: Level, shown: bool)
    returns (s': State, rest': seq<Region>)
    requires On(job, s, head, rest, cov) && s.pos < |job.blob.tags| && TagAt(job, s.pos) == EndNode && s.levels == levels + [l]
    requires shown <==> s.want != WANT_NOTHING
    requires job.flags.supernodes && shown ==> AllRaised(levels)
    ensures s'.done == s.done && s'.pos == s.pos + 1 && s'.buffer == Pop(s.buffer) && s'.want == l.want
    ensures s'.levels == levels && (s'.start != -1 <==> shown)
    ensures On(job, s', head, rest', cov + Flagged(job, s.pos, [shown], s.start != -1))
    ensures Full(job, s, head + rest) == Full(job, s', head + rest')
  {
    var to := s.(pos := s.pos + 1, levels := levels, want := l.want, buffer := Pop(s.buffer));
    var after := shown || job.flags.directSubnodes;
    DecideLeave(job, s, levels, l, to);
    s', rest' := StepOn(job, s, head, rest, cov, to, shown, after);
    RaisedAll(levels);
    FlaggedOne(job, s.pos, shown, s.start != -1);
    assert CovAfter(job, s, to, cov, shown, after) == cov + Flagged(job, s.pos, [shown], s.start != -1);
  }

  lemma InnerLevels(job: Job, s: State, node: bool, up: bool, levels: seq<Level>)
    requires job.flags.supernodes || !up
    requires var first := Entered(job, s, node, node && job.flags.supernodes);
      levels == if up then RaiseFrom(first, 0) else first
    ensures var all := up || (node && job.flags.supernodes);
      var l := Level(s.pos, s.want, node);
      && levels == Entered(job, s, node, all)
      && levels == (if all then RaiseFrom(s.levels, 0) else s.levels) + [if all then Raised(l) else l]
  {
    var first := s.levels + [Level(s.pos, s.want, node)];
    RaisedAll(first);
    RaisedAll(RaiseFrom(first, 0));
    assert RaiseFrom(first, 0) == RaiseFrom(s.levels, 0) + [Raised(Level(s.pos, s.want, node))];
  }

  lemma InnerMissing(job: Job, s: State, node: bool)
    ensures Missing(Entered(job, s, node, node && job.flags.supernodes), 0) ==
      if node && job.flags.supernodes then {} else Missing(s.levels, 0) + if node then {} else {s.pos}
  {
    var first := s.levels + [Level(s.pos, s.want, node)];
    RaisedAll(first);
    RaisedAll(RaiseFrom(first, 0));
    MissingAppend(s.levels, Level(s.pos, s.want, node), 0);
  }

  lemma CovInner(job: Job, s: State, cov: set<nat>, node: bool, s1: State, inner: seq<bool>)
    requires s1.levels == Entered(job, s, node, node && job.flags.supernodes)
    requires s1.pos == s.pos + 1 && (s1.start != -1 <==> node)
    ensures var shown := node || Upward(job, inner);
      CovWith(job, s1, CovEntered(job, s, cov, node), inner) ==
      cov + (if shown then {s.pos} else {}) + Flagged(job, s.pos + 1, inner, node)
          + (if shown && job.flags.supernodes then Missing(s.levels, 0) else {})
  {
    InnerMissing(job, s, node);
  }

  /** Only an END_NODE looks back at the tag before it. */
  lemma FlaggedBefore(job: Job, pos: nat, flags: seq<bool>, before: bool, before': bool)
    requires flags != [] ==> !TagAt(job, pos).EndNode?
    ensures Flagged(job, pos, flags, before) == Flagged(job, pos, flags, before')
  {
    assert forall k: nat :: k < |flags| ==> Covers(job, pos, flags, before, k) == Covers(job, pos, flags, before', k);
  }

  lemma CovNode(job: Job, s: State, cov: set<nat>, node: bool, inner: seq<bool>)
    requires !TagAt(job, s.pos).EndNode? && (inner != [] ==> !TagAt(job, s.pos + 1).EndNode?)
    ensures var shown := node || Upward(job, inner);
      CovWith(job, s, cov, [shown] + (inner + [shown])) ==
      cov + (if shown then {s.pos} else {}) + Flagged(job, s.pos + 1, inner, node)
          + (if shown && job.flags.supernodes then Missing(s.levels, 0) else {})
          + Flagged(job, s.pos + 1 + |inner|, [shown], Last(inner, node))
  {
    var shown := node || Upward(job, inner);
    FlaggedAppend(job, s.pos, [shown], inner + [shown], s.start != -1);
    FlaggedAppend(job, s.pos + 1, inner, [shown], shown);
    FlaggedOne(job, s.pos, shown, s.start != -1);
    FlaggedBefore(job, s.pos + 1, inner, shown, node);
    NodeUpward(job, shown, inner);
    assert Last([shown], s.start != -1) == shown;
    assert Last(inner, shown) == Last(inner, node);
  }

  lemma NodeUpward(job: Job, shown: bool, inner: seq<bool>)
    requires Upward(job, inner) ==> shown
    ensures Upward(job, [shown] + (inner + [shown])) <==> shown && job.flags.supernodes
    ensures Last([shown] + (inner + [shown]), false) == shown
  {
    assert ([shown] + (inner + [shown]))[0] == shown;
  }

  /** The END_NODE brings the walk back to where it was before the node, but for what was kept in it. */
  lemma WalkOut(job: Job, s: State, head: seq<Region>, cov: set<nat>, path: string, full: bool, any: bool, inner: seq<bool>,
                buffer: string, s1: State, s2: State, rest2: seq<Region>, q: nat) returns (s': State, rest': seq<Region>)
    requires s.want == Want(job, full, any) && !TagAt(job, s.pos).EndNode?
    requires Inward(job, s, path, full, s1)
    requires var walked := Walked(job, s1, head, CovEntered(job, s, cov, Asked(job, path, full)), inner, Wanted(job, path, full),
                                  Asked(job, path, full), buffer, s2, rest2); walked
    requires q < |job.blob.tags| && TagAt(job, q) == EndNode && s2.pos == q && (inner != [] ==> !TagAt(job, s1.pos).EndNode?)
    ensures var shown := Asked(job, path, full) || Upward(job, inner);
      Walked(job, s, head, cov, [shown] + (inner + [shown]), full, any, Pop(buffer), s', rest')
    ensures Within(job, s2) && s2.done < DONE_STRUCT && Full(job, s2, head + rest2) == Full(job, s', head + rest')
  {
    var node := Asked(job, path, full);
    var shown := node || Upward(job, inner);
    var up := shown && job.flags.supernodes;
    var l := Level(s.pos, s.want, node);
    var levels := if up then RaiseFrom(s.levels, 0) else s.levels;
    InnerLevels(job, s, node, Upward(job, inner), s2.levels);
    RaisedAll(s.levels);
    var cov2 := CovWith(job, s1, CovEntered(job, s, cov, node), inner);
    s', rest' := WalkLeave(job, s2, head, rest2, cov2, levels, if up then Raised(l) else l, shown);
    CovOut(job, s, cov, node, s1, inner, q, s2.start != -1);
    NodeUpward(job, shown, inner);
  }

  lemma CovOut(job: Job, s: State, cov: set<nat>, node: bool, s1: State, inner: seq<bool>, q: nat, last: bool)
    requires s1.levels == Entered(job, s, node, node && job.flags.supernodes)
    requires s1.pos == s.pos + 1 && (s1.start != -1 <==> node) && q == s1.pos + |inner| && last == Last(inner, node)
    requires !TagAt(job, s.pos).EndNode? && (inner != [] ==> !TagAt(job, s1.pos).EndNode?)
    ensures var shown := node || Upward(job, inner);
      CovWith(job, s1, CovEntered(job, s, cov, node), inner) + Flagged(job, q, [shown], last) ==
      CovWith(job, s, cov, [shown] + (inner + [shown]))
  {
    CovInner(job, s, cov, node, s1, inner);
    CovNode(job, s, cov, node, inner);
  }

  // ----- the inside of a node -----

  /** The tags from `pos` on begin with `ts`. */
  predicate At(job: Job, pos: nat, ts: seq<Tag>) {
    pos + |ts| <= |job.blob.tags| && job.blob.tags[pos..pos + |ts|] == ts
  }

  lemma AtSplit(job: Job, pos: nat, a: seq<Tag>, b: seq<Tag>)
    requires At(job, pos, a + b)
    ensures At(job, pos, a) && At(job, pos + |a|, b)
  {
    var ts := job.blob.tags;
    assert a == (a + b)[..|a|] == ts[pos..pos + |a + b|][..|a|] == ts[pos..pos + |a|];
    assert b == (a + b)[|a|..] == ts[pos..pos + |a + b|][|a|..] == ts[pos + |a|..pos + |a| + |b|];
  }

  lemma AtFirst(job: Job, pos: nat, t: Tag)
    requires At(job, pos, [t])
    ensures pos < |job.blob.tags| && TagAt(job, pos) == t
  {
    assert job.blob.tags[pos..pos + 1][0] == t;
  }

  lemma FlattenFirst(job: Job, pos: nat, f: Forest)
    requires At(job, pos, Flatten(f))
    ensures |Flatten(f)| > 0 ==> !TagAt(job, pos).EndNode?
  {
    if f != Done { assert TagAt(job, pos) == job.blob.tags[pos..pos + |Flatten(f)|][0]; }
  }

  lemma FullFails(job: Job, s: State, out: seq<Region>, code: int)
    requires Within(job, s) && s.done < DONE_STRUCT && (s.done == DONE_NOTHING ==> !job.flags.addRsvmap)
    requires Decide(job, s) == Fail(code)
    ensures Full(job, s, out) == Err(code)
  {
  }

  ghost predicate Starts(job: Job, f: Forest, path: string, full: bool, any: bool, s: State, head: seq<Region>,
                         rest: seq<Region>, cov: set<nat>) {
    && PlainNames(f) && Stands(s.buffer, path) && |s.levels| <= FDT_MAX_DEPTH
    && On(job, s, head, rest, cov) && s.want == Want(job, full, any) && At(job, s.pos, Flatten(f))
  }

  /** Walking the inside of a node keeps what `KeepIn` keeps, or fails at the first node that does not fit. */
  lemma {:induction false} WalkForest(job: Job, f: Forest, path: string, full: bool, any: bool, s: State, head: seq<Region>,
                                      rest: seq<Region>, cov: set<nat>) returns (s': State, rest': seq<Region>)
    requires Starts(job, f, path, full, any, s, head, rest, cov)
    ensures var fault := Fault(job.pathLen, f, s.buffer, |s.levels|);
      var walked := Walked(job, s, head, cov, KeepIn(job, f, path, full), full, any, Settled(s.buffer, f), s', rest');
      if fault == 0 then walked && Within(job, s') && s'.done < DONE_STRUCT && Full(job, s, head + rest) == Full(job, s', head + rest')
      else Full(job, s, head + rest) == Err(fault)
    decreases f, 2
  {
    match f
    case Done =>
      s', rest' := s, rest;
      assert CovWith(job, s, cov, []) == cov;
    case PropThen(key, len, rest1) =>
      AtSplit(job, s.pos, [Prop(Some(key), len)], Flatten(rest1));
      AtFirst(job, s.pos, Prop(Some(key), len));
      var kept := if job.props(key) == -1 then full else job.props(key) != 0;
      s', rest' := WalkThen(job, rest1, path, full, any, kept, s, head, rest, cov);
    case NopThen(rest1) =>
      AtSplit(job, s.pos, [Nop], Flatten(rest1));
      AtFirst(job, s.pos, Nop);
      s', rest' := WalkThen(job, rest1, path, full, any, full, s, head, rest, cov);
    case NodeThen(name, body, rest1) =>
      s', rest' := WalkNode(job, name, body, rest1, path, full, any, s, head, rest, cov);
  }

  /** A property or a NOP, and what comes after it. */
  lemma {:induction false} WalkThen(job: Job, f: Forest, path: string, full: bool, any: bool, kept: bool, s: State,
                                    head: seq<Region>, rest: seq<Region>, cov: set<nat>)
    returns (s': State, rest': seq<Region>)
    requires PlainNames(f) && Stands(s.buffer, path) && |s.levels| <= FDT_MAX_DEPTH
    requires On(job, s, head, rest, cov) && s.want == Want(job, full, any) && At(job, s.pos + 1, Flatten(f))
    requires s.pos < |job.blob.tags| && Plain(job, s.pos, full, kept)
    ensures var fault := Fault(job.pathLen, f, s.buffer, |s.levels|);
      var walked := Walked(job, s, head, cov, [kept] + KeepIn(job, f, path, full), full, any, Settled(s.buffer, f), s', rest');
      if fault == 0 then walked && Within(job, s') && s'.done < DONE_STRUCT && Full(job, s, head + rest) == Full(job, s', head + rest')
      else Full(job, s, head + rest) == Err(fault)
    decreases f, 3
  {
    var s1, rest1 := WalkPlain(job, s, head, rest, cov, full, any, kept);
    s', rest' := WalkForest(job, f, path, full, any || Upward(job, [kept]), s1, head, rest1, CovWith(job, s, cov, [kept]));
    if Fault(job.pathLen, f, s.buffer, |s.levels|) == 0 {
      WalkedTwice(job, s, head, cov, [kept], KeepIn(job, f, path, full), full, any, s1, rest1, s', rest');
    }
  }

  /** A subnode, and what comes after it. */
  lemma {:induction false} WalkNode(job: Job, name: string, body: Forest, f: Forest, path: string, full: bool, any: bool,
                                    s: State, head: seq<Region>, rest: seq<Region>, cov: set<nat>)
    returns (s': State, rest': seq<Region>)
    requires Starts(job, NodeThen(name, body, f), path, full, any, s, head, rest, cov)
    ensures var whole := NodeThen(name, body, f);
      var fault := Fault(job.pathLen, whole, s.buffer, |s.levels|);
      var walked := Walked(job, s, head, cov, KeepIn(job, whole, path, full), full, any, Settled(s.buffer, whole), s', rest');
      if fault == 0 then walked && Within(job, s') && s'.done < DONE_STRUCT && Full(job, s, head + rest) == Full(job, s', head + rest')
      else Full(job, s, head + rest) == Err(fault)
    decreases NodeThen(name, body, f), 1
  {
    NodeAt(job, s.pos, name, body, f);
    FaultNode(job, name, body, f, s);
    s', rest' := WalkBoth(job, name, body, f, path, full, any, s, head, rest, cov, s.pos + 1 + |Flatten(body)|);
  }

  lemma {:induction false} WalkBoth(job: Job, name: string, body: Forest, f: Forest, path: string, full: bool, any: bool,
                                    s: State, head: seq<Region>, rest: seq<Region>, cov: set<nat>, q: nat)
    returns (s': State, rest': seq<Region>)
    requires PlainNames(body) && '/' !in name && PlainNames(f) && Stands(s.buffer, path) && |s.levels| <= FDT_MAX_DEPTH
    requires On(job, s, head, rest, cov) && s.want == Want(job, full, any)
    requires s.pos < |job.blob.tags| && TagAt(job, s.pos) == BeginNode(name) && At(job, s.pos + 1, Flatten(body))
    requires q == s.pos + 1 + |Flatten(body)| && q < |job.blob.tags| && TagAt(job, q) == EndNode && At(job, q + 1, Flatten(f))
    ensures var first := NodeFault(job, name, body, s);
      var fault := if first != 0 then first else Fault(job.pathLen, f, Outside(s), |s.levels|);
      var walked := Walked(job, s, head, cov, KeepIn(job, NodeThen(name, body, f), path, full), full, any, Outside(s), s', rest');
      if fault == 0 then walked && Within(job, s') && s'.done < DONE_STRUCT && Full(job, s, head + rest) == Full(job, s', head + rest')
      else Full(job, s, head + rest) == Err(fault)
    decreases NodeThen(name, body, f), 0
  {
    var s1, rest1 := WalkSubnode(job, name, body, path, full, any, s, head, rest, cov, q);
    s', rest' := s1, rest1;
    if NodeFault(job, name, body, s) == 0 {
      s', rest' := WalkNext(job, name, body, f, path, full, any, s, head, cov, s1, rest1, q);
    }
  }

  lemma {:induction false} WalkNext(job: Job, name: string, body: Forest, f: Forest, path: string, full: bool, any: bool,
                                    s: State, head: seq<Region>, cov: set<nat>, s1: State, rest1: seq<Region>, q: nat)
    returns (s': State, rest': seq<Region>)
    requires PlainNames(f) && Stands(s.buffer, path) && |s.levels| <= FDT_MAX_DEPTH
    requires s1.pos == q + 1 && At(job, q + 1, Flatten(f))
    requires var walked := Walked(job, s, head, cov, KeepNode(job, body, Join(path, name), full), full, any, Outside(s), s1, rest1); walked
    ensures Within(job, s1) && s1.done < DONE_STRUCT
    ensures var fault := Fault(job.pathLen, f, Outside(s), |s.levels|);
      var walked := Walked(job, s, head, cov, KeepIn(job, NodeThen(name, body, f), path, full), full, any, Outside(s), s', rest');
      if fault == 0 then walked && Within(job, s') && s'.done < DONE_STRUCT && Full(job, s1, head + rest1) == Full(job, s', head + rest')
      else Full(job, s1, head + rest1) == Err(fault)
    decreases f, 3
  {
    var flags := KeepNode(job, body, Join(path, name), full);
    StandsSettled(s.buffer, path);
    SettledEither(s1.buffer, f);
    s', rest' := WalkForest(job, f, path, full, any || Upward(job, flags), s1, head, rest1, CovWith(job, s, cov, flags));
    if Fault(job.pathLen, f, Outside(s), |s.levels|) == 0 {
      WalkedTwice(job, s, head, cov, flags, KeepIn(job, f, path, full), full, any, s1, rest1, s', rest');
      KeepSplit(job, name, body, f, path, full);
    }
  }

  lemma FaultNode(job: Job, name: string, body: Forest, f: Forest, s: State)
    ensures Fault(job.pathLen, NodeThen(name, body, f), s.buffer, |s.levels|) ==
      if NodeFault(job, name, body, s) != 0 then NodeFault(job, name, body, s)
      else Fault(job.pathLen, f, Outside(s), |s.levels|)
  {
  }

  /** What to keep of the subnode at `path`. */
  function KeepNode(job: Job, body: Forest, path: string, full: bool): (flags: seq<bool>)
    ensures |flags| == |Flatten(body)| + 2
  {
    var inner := KeepIn(job, body, path, Wanted(job, path, full));
    var node := Asked(job, path, full) || Upward(job, inner);
    [node] + (inner + [node])
  }

  function NodeFault(job: Job, name: string, body: Forest, s: State): int {
    if |s.levels| >= FDT_MAX_DEPTH then FDT_ERR_BADSTRUCTURE
    else if |s.buffer| + 2 + |name| >= job.pathLen then FDT_ERR_NOSPACE
    else Fault(job.pathLen, body, Push(s.buffer, name), |s.levels| + 1)
  }

  lemma StandsSettled(buffer: string, path: string)
    requires Stands(buffer, path)
    ensures Stands(if buffer == "/" then "" else buffer, path)
  {
  }

  lemma KeepSplit(job: Job, name: string, body: Forest, f: Forest, path: string, full: bool)
    ensures KeepIn(job, NodeThen(name, body, f), path, full) == KeepNode(job, body, Join(path, name), full) + KeepIn(job, f, path, full)
  {
    var sub := Join(path, name);
    var inner := KeepIn(job, body, sub, Wanted(job, sub, full));
    Regroup(Asked(job, sub, full) || Upward(job, inner), inner, KeepIn(job, f, path, full));
  }

  lemma Regroup(node: bool, inner: seq<bool>, more: seq<bool>)
    ensures [node] + (inner + ([node] + more)) == [node] + (inner + [node]) + more
  {
  }

  lemma NodeAt(job: Job, pos: nat, name: string, body: Forest, f: Forest)
    requires At(job, pos, Flatten(NodeThen(name, body, f)))
    ensures pos < |job.blob.tags| && TagAt(job, pos) == BeginNode(name) && At(job, pos + 1, Flatten(body))
    ensures var q := pos + 1 + |Flatten(body)|;
      q < |job.blob.tags| && TagAt(job, q) == EndNode && At(job, q + 1, Flatten(f))
  {
    BracketsAt(job, pos, BeginNode(name), Flatten(body), EndNode, Flatten(f));
  }

  lemma BracketsAt(job: Job, pos: nat, a: Tag, b: seq<Tag>, c: Tag, d: seq<Tag>)
    requires At(job, pos, [a] + (b + ([c] + d)))
    ensures pos < |job.blob.tags| && TagAt(job, pos) == a && At(job, pos + 1, b)
    ensures var q := pos + 1 + |b|;
      q < |job.blob.tags| && TagAt(job, q) == c && At(job, q + 1, d)
  {
    AtSplit(job, pos, [a], b + ([c] + d));
    AtFirst(job, pos, a);
    AtSplit(job, pos + 1, b, [c] + d);
    AtSplit(job, pos + 1 + |b|, [c], d);
    AtFirst(job, pos + 1 + |b|, c);
  }

  lemma SubnodeFails(job: Job, name: string, body: Forest, s: State, out: seq<Region>)
    requires Within(job, s) && s.done < DONE_STRUCT && (s.done == DONE_NOTHING ==> !job.flags.addRsvmap)
    requires TagAt(job, s.pos) == BeginNode(name) && |s.levels| <= FDT_MAX_DEPTH
    requires |s.levels| >= FDT_MAX_DEPTH || |s.buffer| + 2 + |name| >= job.pathLen
    ensures NodeFault(job, name, body, s) != 0 && Full(job, s, out) == Err(NodeFault(job, name, body, s))
  {
    FullFails(job, s, out, NodeFault(job, name, body, s));
  }

  /** From a subnode's BEGIN_NODE to its END_NODE. */
  lemma {:induction false} WalkSubnode(job: Job, name: string, body: Forest, path: string, full: bool, any: bool, s: State,
                                       head: seq<Region>, rest: seq<Region>, cov: set<nat>, q: nat)
    returns (s': State, rest': seq<Region>)
    requires PlainNames(body) && '/' !in name && Stands(s.buffer, path) && |s.levels| <= FDT_MAX_DEPTH
    requires On(job, s, head, rest, cov) && s.want == Want(job, full, any)
    requires s.pos < |job.blob.tags| && TagAt(job, s.pos) == BeginNode(name) && At(job, s.pos + 1, Flatten(body))
    requires q == s.pos + 1 + |Flatten(body)| && q < |job.blob.tags| && TagAt(job, q) == EndNode
    ensures var fault := NodeFault(job, name, body, s);
      var walked := Walked(job, s, head, cov, KeepNode(job, body, Join(path, name), full), full, any, Outside(s), s', rest');
      if fault == 0 then walked && Within(job, s') && s'.done < DONE_STRUCT && Full(job, s, head + rest) == Full(job, s', head + rest')
      else Full(job, s, head + rest) == Err(fault)
    decreases body, 4
  {
    s', rest' := s, rest;
    if |s.levels| >= FDT_MAX_DEPTH || |s.buffer| + 2 + |name| >= job.pathLen {
      SubnodeFails(job, name, body, s, head + rest);
    } else {
      StandsPush(s.buffer, path, name);
      var s1, rest1 := WalkEnter(job, s, head, rest, cov, name, Join(path, name), full, any);
      FaultInward(job, name, body, Join(path, name), full, s, s1);
      PopSettled(s.buffer, path, name, body);
      s', rest' := WalkBody(job, body, Join(path, name), full, any, s, head, cov, s1, rest1, q);
    }
  }

  lemma FaultInward(job: Job, name: string, body: Forest, path: string, full: bool, s: State, s1: State)
    requires Inward(job, s, path, full, s1) && path == Push(s.buffer, name)
    requires |s.levels| < FDT_MAX_DEPTH && |s.buffer| + 2 + |name| < job.pathLen
    ensures NodeFault(job, name, body, s) == Fault(job.pathLen, body, s1.buffer, |s1.levels|) && |s1.levels| == |s.levels| + 1
  {
  }

  /** The path buffer behind a subnode. */
  function Outside(s: State): string {
    if s.buffer == "/" then "" else s.buffer
  }

  /** The inside of a subnode and its END_NODE. */
  lemma {:induction false} WalkBody(job: Job, body: Forest, path: string, full: bool, any: bool, s: State, head: seq<Region>,
                                    cov: set<nat>, s1: State, rest1: seq<Region>, q: nat)
    returns (s': State, rest': seq<Region>)
    requires PlainNames(body) && Stands(path, path) && |s.levels| < FDT_MAX_DEPTH && Pop(Settled(path, body)) == Outside(s)
    requires s.want == Want(job, full, any) && !TagAt(job, s.pos).EndNode? && Inward(job, s, path, full, s1)
    requires On(job, s1, head, rest1, CovEntered(job, s, cov, Asked(job, path, full))) && At(job, s1.pos, Flatten(body))
    requires q == s1.pos + |Flatten(body)| && q < |job.blob.tags| && TagAt(job, q) == EndNode
    ensures var fault := Fault(job.pathLen, body, s1.buffer, |s1.levels|);
      var walked := Walked(job, s, head, cov, KeepNode(job, body, path, full), full, any, Outside(s), s', rest');
      if fault == 0 then walked && Within(job, s') && s'.done < DONE_STRUCT && Full(job, s1, head + rest1) == Full(job, s', head + rest')
      else Full(job, s1, head + rest1) == Err(fault)
    decreases body, 3
  {
    var node, all := Asked(job, path, full), Wanted(job, path, full);
    var s2, rest2 := WalkForest(job, body, path, all, node, s1, head, rest1, CovEntered(job, s, cov, node));
    s', rest' := s2, rest2;
    if Fault(job.pathLen, body, s1.buffer, |s1.levels|) == 0 {
      FlattenFirst(job, s1.pos, body);
      s', rest' := WalkOut(job, s, head, cov, path, full, any, KeepIn(job, body, path, all), Settled(path, body), s1, s2, rest2, q);
    }
  }
}
