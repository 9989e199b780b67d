/**
 The regions of a single pass of fdt_next_region() over a whole device tree: the reserve map, the kept tags,
 the END tag with the END_NODE before it, and the strings block.
 */
module FdtExact {
  import opened Wrappers
  import opened FdtTags
  import opened FdtRuns
  import opened FdtIter
  import FdtResume
  import opened FdtPass
  import opened FdtTree
  import opened FdtCover
  import opened FdtKeep

  // ----- what is asked for -----

  /** Supernodes ask for the root's BEGIN_NODE, unless the reserve map is taken for it. */
  predicate AsksRoot(job: Job) {
    job.flags.supernodes && !FalseRoot(job)
  }

  function Head(job: Job): seq<Region> {
    if job.flags.addRsvmap then [Region(job.blob.rsvmap, job.blob.base - job.blob.rsvmap)] else []
  }

  function Tail(job: Job): seq<Region> {
    if job.flags.addStrings then [Region(job.blob.strings, job.blob.stringsSize)] else []
  }

  /** Whether the root node is kept. */
  predicate RootKept(job: Job, body: Forest) {
    job.nodes("/") != 0 || Upward(job, KeepIn(job, body, "/", job.nodes("/") != 0))
  }

  /** What to keep of the root node and the END tag: the last } and END are always there. */
  function KeepRoot(job: Job, body: Forest): (flags: seq<bool>)
    ensures |flags| == |Flatten(body)| + 3
  {
    [RootKept(job, body) || AsksRoot(job)] + (KeepIn(job, body, "/", job.nodes("/") != 0) + [true, true])
  }

  function Nothing(n: nat): (flags: seq<bool>)
    ensures |flags| == n && true !in flags
  {
    seq(n, _ => false)
  }

  /** What to keep of a structure block: leading NOPs are left out. */
  function KeepBlock(job: Job, nops: nat, body: Forest): seq<bool> {
    Nothing(nops) + KeepRoot(job, body)
  }

  // ----- the tags of a structure block -----

  lemma {:induction false} StreamTags(nops: nat, body: Forest)
    ensures |Stream(nops, body)| == nops + |Flatten(body)| + 3
    ensures forall i :: 0 <= i < nops ==> Stream(nops, body)[i] == Nop
    ensures Stream(nops, body)[nops..] == [BeginNode("")] + (Flatten(body) + ([EndNode] + [End]))
  {
    if nops > 0 {
      StreamTags(nops - 1, body);
      var more := Stream(nops - 1, body);
      assert Stream(nops, body) == [Nop] + more;
      assert ([Nop] + more)[nops..] == more[nops - 1..];
    } else {
      assert [EndNode, End] == [EndNode] + [End];
    }
  }

  /** The blob holds the tags of this tree. */
  predicate Holding(job: Job, nops: nat, body: Forest) {
    PlainNames(body) && job.blob.tags == Stream(nops, body) && job.blob.structSize == Offset(job.blob.tags, |job.blob.tags|)
  }

  /** The first tags: NOPs, the root's BEGIN_NODE and then, if the root is not empty, a tag of its body. */
  ghost predicate Opens(job: Job, nops: nat, body: Forest) {
    && (forall i: nat :: i < nops ==> TagAt(job, i) == Nop) && nops < |job.blob.tags| && TagAt(job, nops) == BeginNode("")
    && (|Flatten(body)| > 0 ==> !TagAt(job, nops + 1).EndNode?)
  }

  /** The last two tags: the root's END_NODE at `q` and END. */
  ghost predicate Closes(job: Job, q: nat) {
    && |job.blob.tags| == q + 2 && TagAt(job, q) == EndNode && TagAt(job, q + 1) == End
    && job.blob.structSize == Offset(job.blob.tags, q + 2)
  }

  /** A structure block opens and closes as it should, with the tags of the root's body in between. */
  lemma BlockAt(job: Job, nops: nat, body: Forest, q: nat)
    requires Holding(job, nops, body) && q == nops + 1 + |Flatten(body)|
    ensures Opens(job, nops, body) && At(job, nops + 1, Flatten(body)) && Closes(job, q)
  {
    StreamTags(nops, body);
    BlockSlice(job, nops, [BeginNode("")] + (Flatten(body) + ([EndNode] + [End])));
    BracketsAt(job, nops, BeginNode(""), Flatten(body), EndNode, [End]);
    AtFirst(job, q + 1, End);
    FlattenFirst(job, nops + 1, body);
  }

  lemma BlockSlice(job: Job, nops: nat, ts: seq<Tag>)
    requires nops <= |job.blob.tags| && job.blob.tags[nops..] == ts
    ensures At(job, nops, ts)
  {
    assert job.blob.tags[nops..nops + |ts|] == job.blob.tags[nops..];
  }

  lemma {:induction false} NopOffset(job: Job, n: nat)
    requires n <= |job.blob.tags| && forall i: nat :: i < n ==> TagAt(job, i) == Nop
    ensures Offset(job.blob.tags, n) == 4 * n
  {
    if n > 0 {
      NopOffset(job, n - 1);
      assert TagAt(job, n - 1) == Nop;
    }
  }

  // ----- the walk to the END tag -----

  lemma {:induction false} WalkNops(job: Job, n: nat, s: State, head: seq<Region>, rest: seq<Region>)
    returns (s': State, rest': seq<Region>)
    requires On(job, s, head, rest, {}) && s.levels == [] && s.want == WANT_NOTHING && s.start == -1
    requires s.pos + n <= |job.blob.tags| && forall i: nat :: s.pos <= i < s.pos + n ==> TagAt(job, i) == Nop
    ensures On(job, s', head, rest', {}) && s' == s.(pos := s.pos + n, canMerge := s'.canMerge, haveNode := s'.haveNode)
    ensures Full(job, s, head + rest) == Full(job, s', head + rest')
    decreases n
  {
    s', rest' := s, rest;
    if n > 0 {
      assert TagAt(job, s.pos) == Nop;
      s', rest' := WalkPlain(job, s, head, rest, {}, false, false, false);
      CovNop(job, s);
      s', rest' := WalkNops(job, n - 1, s', head, rest');
    }
  }

  lemma CovNop(job: Job, s: State)
    requires TagAt(job, s.pos) == Nop
    ensures CovWith(job, s, {}, [false]) == {} && !Upward(job, [false])
  {
    FlaggedOne(job, s.pos, false, s.start != -1);
  }

  /** The tags of the root node that are kept or covered. */
  function RootCov(job: Job, nops: nat, body: Forest): set<nat> {
    Flagged(job, nops, KeepNode(job, body, "/", false), false)
  }

  lemma RootBuffer(body: Forest)
    ensures Push("", "") == "/" && Pop(Settled("/", body)) == ""
  {
    SettledEither("/", body);
    assert "/"[..0] == "";
  }

  /** From the root's BEGIN_NODE to its END_NODE at `q`. */
  lemma WalkRoot(job: Job, nops: nat, body: Forest, q: nat, s: State, head: seq<Region>, rest: seq<Region>)
    returns (s': State, rest': seq<Region>)
    requires On(job, s, head, rest, {}) && s.pos == nops && PlainNames(body)
    requires s.levels == [] && s.want == WANT_NOTHING && s.start == -1 && s.buffer == ""
    requires nops < |job.blob.tags| && TagAt(job, nops) == BeginNode("") && At(job, nops + 1, Flatten(body))
    requires q == nops + 1 + |Flatten(body)| && q < |job.blob.tags| && TagAt(job, q) == EndNode
    ensures var fault := TreeFault(job.pathLen, body);
      if fault == 0 then
        && On(job, s', head, rest', RootCov(job, nops, body)) && s'.levels == [] && s'.pos == q + 1
        && (s'.start != -1 <==> RootKept(job, body)) && Full(job, s, head + rest) == Full(job, s', head + rest')
      else Full(job, s, head + rest) == Err(fault)
  {
    s', rest' := s, rest;
    RootBuffer(body);
    if job.pathLen <= 2 {
      SubnodeFails(job, "", body, s, head + rest);
    } else {
      var s1, rest1 := WalkEnter(job, s, head, rest, {}, "", "/", false, false);
      FaultInward(job, "", body, "/", false, s, s1);
      s', rest' := WalkBody(job, body, "/", false, false, s, head, {}, s1, rest1, q);
      if TreeFault(job.pathLen, body) == 0 {
        RootWalked(job, nops, body, s, head, s', rest');
      }
    }
  }

  lemma RootWalked(job: Job, nops: nat, body: Forest, s: State, head: seq<Region>, s': State, rest': seq<Region>)
    requires Walked(job, s, head, {}, KeepNode(job, body, "/", false), false, false, "", s', rest')
    requires s.levels == [] && s.start == -1 && s.pos == nops
    ensures On(job, s', head, rest', RootCov(job, nops, body)) && s'.levels == []
    ensures s'.pos == nops + 2 + |Flatten(body)| && (s'.start != -1 <==> RootKept(job, body))
  {
    var flags := KeepNode(job, body, "/", false);
    assert CovWith(job, s, {}, flags) == RootCov(job, nops, body);
    assert s'.levels == [];
  }

  // ----- the END tag -----

  /** The state behind the END tag at `e`. */
  ghost predicate Finished(job: Job, s: State, head: seq<Region>, rest: seq<Region>, cov: set<nat>, e: nat, kept: bool) {
    && Within(job, s) && s.done == DONE_STRUCT && s.pos == e + 1 && Linked(job, s, head, rest, cov + {e})
    && 0 <= s.start && (if kept then s.start < Here(job, e) else s.start == Here(job, e))
  }

  lemma EndSteps(job: Job, s: State, out: seq<Region>, e: nat, s': State)
    requires Tagging(job, s) && s.levels == [] && s.pos == e < |job.blob.tags| && TagAt(job, e) == End
    requires s' == s.(done := DONE_STRUCT, pos := e + 1, start := if s.start != -1 then s.start else Here(job, e))
    ensures Within(job, s') && Full(job, s, out) == Full(job, s', out)
  {
    var to := s.(done := DONE_STRUCT, pos := e + 1);
    assert Decide(job, s) == Go(s.(done := DONE_STRUCT), true, true);
    assert TagStep(job, s, out, false) == Moved(s', out);
    FullTag(job, s, out, s', out);
  }

  lemma WalkEnd(job: Job, s: State, head: seq<Region>, rest: seq<Region>, cov: set<nat>, e: nat) returns (s': State)
    requires On(job, s, head, rest, cov) && s.levels == [] && s.pos == e < |job.blob.tags| && TagAt(job, e) == End
    ensures Finished(job, s', head, rest, cov, e, s.start != -1) && Full(job, s, head + rest) == Full(job, s', head + rest)
  {
    assert Look(0);
    s' := s.(done := DONE_STRUCT, pos := e + 1, start := if s.start != -1 then s.start else Here(job, e));
    EndSteps(job, s, head + rest, e, s');
    if s.start != -1 {
      BeganBefore(job, s);
      LinkedStay(job, s, head, rest, cov, s');
    } else {
      OpenHolds(job, s, rest, cov);
      LinkedOpen(job, s', e, head, rest, cov);
    }
  }

  // ----- the whole walk -----

  /** The first state that looks at tags. */
  lemma WalkFirst(job: Job) returns (s: State)
    ensures On(job, s, Head(job), [], {}) && Full(job, FIRST, []) == Full(job, s, Head(job) + [])
    ensures s == FIRST.(done := s.done, canMerge := s.canMerge, haveNode := s.haveNode)
  {
    if job.flags.addRsvmap {
      s := FIRST.(done := DONE_MEM_RSVMAP, canMerge := false, haveNode := job.blob.rsvmap == job.blob.base);
      assert Head(job) + [] == [] + [Region(job.blob.rsvmap, job.blob.base - job.blob.rsvmap)];
      assert RsvmapStep(job, FIRST, [], false) == Moved(s, Head(job) + []);
    } else {
      s := FIRST;
      assert Head(job) + [] == [];
    }
    FirstSteady(job, s);
  }

  lemma FirstSteady(job: Job, s: State)
    requires s == FIRST.(done := s.done, canMerge := s.canMerge, haveNode := s.haveNode)
    requires s.canMerge == !job.flags.addRsvmap && s.haveNode == FalseRoot(job)
    ensures Steady(job, s, Head(job), [], {})
  {
    forall x ensures Reached(job, s, [], x) <==> InTags(job, {}, x) {
    }
  }

  /** To the root's BEGIN_NODE. */
  lemma WalkToRoot(job: Job, nops: nat) returns (s: State, rest: seq<Region>)
    requires nops < |job.blob.tags| && forall i: nat :: i < nops ==> TagAt(job, i) == Nop
    ensures On(job, s, Head(job), rest, {}) && Full(job, FIRST, []) == Full(job, s, Head(job) + rest)
    ensures s == FIRST.(done := s.done, pos := nops, canMerge := s.canMerge, haveNode := s.haveNode)
  {
    var s0 := WalkFirst(job);
    s, rest := WalkNops(job, nops, s0, Head(job), []);
  }

  lemma WalkBlock(job: Job, nops: nat, body: Forest, q: nat) returns (s: State, rest: seq<Region>)
    requires PlainNames(body) && q == nops + 1 + |Flatten(body)|
    requires Opens(job, nops, body) && At(job, nops + 1, Flatten(body)) && Closes(job, q)
    ensures var fault := TreeFault(job.pathLen, body);
      if fault == 0 then
        && Finished(job, s, Head(job), rest, RootCov(job, nops, body), q + 1, RootKept(job, body))
        && Full(job, FIRST, []) == Full(job, s, Head(job) + rest)
      else Full(job, FIRST, []) == Err(fault)
  {
    var s0, rest0 := WalkToRoot(job, nops);
    var s1, rest1 := WalkRoot(job, nops, body, q, s0, Head(job), rest0);
    s, rest := s1, rest1;
    if TreeFault(job.pathLen, body) == 0 {
      s := WalkEnd(job, s1, Head(job), rest1, RootCov(job, nops, body), q + 1);
    }
  }

  // ----- the parts behind the tags -----

  /** A region behind `rest`, merged with its last one if that is allowed and it touches or overlaps. */
  function Place(rest: seq<Region>, merge: bool, offset: int, size: int): (r: seq<Region>)
    ensures r != []
  {
    if merge && rest != [] && offset <= Stop(rest[|rest| - 1]) then Extend(rest, offset + size) else rest + [Region(offset, size)]
  }

  lemma PutPlaces(head: seq<Region>, rest: seq<Region>, merge: bool, offset: int, size: int)
    requires merge ==> rest != [] || head == []
    ensures Put(head + rest, false, merge, offset, size) == Slots(head + Place(rest, merge, offset, size))
  {
    if rest == [] {
      assert head + rest == head;
    } else {
      ExtendLast(head, rest, offset + size);
      assert head + rest + [Region(offset, size)] == head + (rest + [Region(offset, size)]);
    }
  }

  /** The root's BEGIN_NODE has not been seen in a region or at the start of the open run. */
  predicate AsksNow(job: Job, s: State) {
    job.flags.supernodes && !s.haveNode && s.start != 0
  }

  /** Where the last region of the structure block begins: with the last } at the latest. */
  function EndFrom(job: Job, s: State): int {
    if s.start == job.blob.structSize - 4 then s.start - 4 else s.start
  }

  function Early(job: Job, s: State, rest: seq<Region>): seq<Region> {
    if AsksNow(job, s) then Place(rest, s.canMerge, job.blob.base, 8) else rest
  }

  /** The regions of the structure block. */
  function Mid(job: Job, s: State, rest: seq<Region>): seq<Region> {
    Place(Early(job, s, rest), s.canMerge, job.blob.base + EndFrom(job, s), job.blob.structSize - EndFrom(job, s))
  }

  lemma EmptyPlaces(job: Job, s: State, head: seq<Region>, rest: seq<Region>) returns (s': State)
    requires s.done == DONE_STRUCT && Within(job, s) && (s.canMerge ==> rest != [] || head == [])
    ensures s' == s.(done := DONE_EMPTY, haveNode := s'.haveNode)
    ensures Within(job, s') && Full(job, s, head + rest) == Full(job, s', head + Early(job, s, rest))
  {
    PutPlaces(head, rest, s.canMerge, job.blob.base, 8);
    s' := EmptyStep(job, s, head + rest, false).state;
  }

  lemma EndPlaces(job: Job, s: State, head: seq<Region>, rest: seq<Region>) returns (s': State)
    requires s.done == DONE_EMPTY && Within(job, s) && (s.canMerge ==> rest != [] || head == [])
    requires s.pos == |job.blob.tags| && job.blob.structSize == Offset(job.blob.tags, |job.blob.tags|)
    ensures s' == s.(done := DONE_END, start := s'.start, haveNode := s'.haveNode) && Within(job, s')
    ensures Full(job, s, head + rest) == Full(job, s', head +
      Place(rest, s.canMerge, job.blob.base + EndFrom(job, s), job.blob.structSize - EndFrom(job, s)))
  {
    PutPlaces(head, rest, s.canMerge, job.blob.base + EndFrom(job, s), job.blob.structSize - EndFrom(job, s));
    s' := EndStep(job, s, head + rest, false).state;
  }

  lemma StringsPlaces(job: Job, s: State, out: seq<Region>)
    requires s.done == DONE_END && Within(job, s)
    requires s.pos == |job.blob.tags| && job.blob.structSize == Offset(job.blob.tags, |job.blob.tags|)
    ensures Full(job, s, out) ==
      if job.flags.addStrings && job.blob.strings < job.blob.base + job.blob.structSize then Err(FDT_ERR_BADLAYOUT)
      else Ok(out + Tail(job))
  {
    if !job.flags.addStrings { assert out + Tail(job) == out; }
  }

  lemma LastPlaces(job: Job, s: State, head: seq<Region>, rest: seq<Region>)
    requires s.done == DONE_STRUCT && Within(job, s) && (s.canMerge ==> rest != [] || head == [])
    requires s.pos == |job.blob.tags| && job.blob.structSize == Offset(job.blob.tags, |job.blob.tags|)
    ensures Full(job, s, head + rest) ==
      if job.flags.addStrings && job.blob.strings < job.blob.base + job.blob.structSize then Err(FDT_ERR_BADLAYOUT)
      else Ok(head + Mid(job, s, rest) + Tail(job))
  {
    var s1 := EmptyPlaces(job, s, head, rest);
    var s2 := EndPlaces(job, s1, head, Early(job, s, rest));
    StringsPlaces(job, s2, head + Mid(job, s, rest));
  }

  // ----- what these regions hold -----

  lemma TagOf(job: Job, i: nat, j: nat, x: int)
    requires InTag(job, i, x) && InTag(job, j, x)
    ensures i == j
  {
    if i < j { OffsetMonotone(job.blob.tags, i + 1, j); }
    if j < i { OffsetMonotone(job.blob.tags, j + 1, i); }
  }

  lemma PlaceAdds(rest: seq<Region>, merge: bool, from: int, to: int, placed: seq<Region>)
    requires Separated(rest) && Below(rest, from) && from < to && (rest != [] ==> merge)
    requires placed == Place(rest, merge, from, to - from)
    ensures Separated(placed) && forall x :: Holds(placed, x) <==> Holds(rest, x) || from <= x < to
  {
    assert placed == Add(rest, from, to);
    AddExact(rest, from, to);
  }

  lemma CloseOffsets(job: Job, q: nat)
    requires Closes(job, q)
    ensures Offset(job.blob.tags, q + 1) == job.blob.structSize - 4 && Offset(job.blob.tags, q) == job.blob.structSize - 8
    ensures forall x :: InTag(job, q, x) <==> job.blob.base + job.blob.structSize - 8 <= x < job.blob.base + job.blob.structSize - 4
  {
  }

  /** The END tag joins a run that is already open. */
  lemma MidOpen(job: Job, s: State, head: seq<Region>, rest: seq<Region>, cov: set<nat>, q: nat)
    requires Closes(job, q) && Finished(job, s, head, rest, cov, q + 1, true) && q in cov && !AsksNow(job, s)
    ensures Separated(Mid(job, s, rest)) && forall x :: Holds(Mid(job, s, rest), x) <==> InTags(job, cov + {q, q + 1}, x)
  {
    CloseOffsets(job, q);
    assert cov + {q + 1} == cov + {q, q + 1};
    RunPlaced(job, s, head, rest, cov + {q, q + 1}, Mid(job, s, rest));
  }

  lemma RunPlaced(job: Job, s: State, head: seq<Region>, rest: seq<Region>, cov: set<nat>, mid: seq<Region>)
    requires Linked(job, s, head, rest, cov) && 0 <= s.start < job.blob.structSize == Here(job, s.pos)
    requires mid == Place(rest, s.canMerge, job.blob.base + s.start, job.blob.structSize - s.start)
    ensures Separated(mid) && forall x :: Holds(mid, x) <==> InTags(job, cov, x)
  {
    var from, to := job.blob.base + s.start, job.blob.base + job.blob.structSize;
    assert to - from == job.blob.structSize - s.start;
    PlaceAdds(rest, s.canMerge, from, to, mid);
    forall x ensures Holds(mid, x) <==> InTags(job, cov, x) {
      assert Reached(job, s, rest, x) <==> Holds(rest, x) || from <= x < to;
    }
  }

  /** A region that reaches into the root's END_NODE holds all of it. */
  lemma OverlapTag(job: Job, s: State, head: seq<Region>, rest: seq<Region>, cov: set<nat>, q: nat)
    requires Closes(job, q) && Finished(job, s, head, rest, cov, q + 1, false)
    requires rest != [] && Stop(rest[|rest| - 1]) > job.blob.base + job.blob.structSize - 8
    ensures q in cov
  {
    CloseOffsets(job, q);
    var x := Stop(rest[|rest| - 1]) - 1;
    assert Holds(rest, x);
    assert Reached(job, s, rest, x);
    var i :| i in cov + {q + 1} && InTag(job, i, x);
    assert InTag(job, q, x);
    TagOf(job, i, q, x);
  }

  /** END stands alone, so that the END_NODE before it is taken along. */
  lemma MidAlone(job: Job, s: State, head: seq<Region>, rest: seq<Region>, cov: set<nat>, q: nat)
    requires Closes(job, q) && Finished(job, s, head, rest, cov, q + 1, false) && !AsksNow(job, s)
    ensures Separated(Mid(job, s, rest)) && forall x :: Holds(Mid(job, s, rest), x) <==> InTags(job, cov + {q, q + 1}, x)
  {
    CloseOffsets(job, q);
    var from, to := job.blob.base + job.blob.structSize - 8, job.blob.base + job.blob.structSize;
    var mid := Mid(job, s, rest);
    assert to - from == 8 && mid == Place(rest, s.canMerge, from, to - from);
    AloneReached(job, s, head, rest, cov, q);
    if rest != [] && Stop(rest[|rest| - 1]) > from {
      OverlapTag(job, s, head, rest, cov, q);
      AlonePlaced(job, s, rest, cov, q, mid);
    } else {
      AloneBelow(rest, from);
      PlaceAdds(rest, s.canMerge, from, to, mid);
    }
  }

  lemma AloneBelow(rest: seq<Region>, from: int)
    requires Separated(rest) && (rest != [] ==> Stop(rest[|rest| - 1]) <= from)
    ensures Below(rest, from)
  {
    forall k | 0 <= k < |rest| ensures Stop(rest[k]) <= from {
      var last := |rest| - 1;
      assert k < last ==> Stop(rest[k]) < rest[last].offset;
      assert rest[last].size > 0;
    }
  }

  lemma AloneReached(job: Job, s: State, head: seq<Region>, rest: seq<Region>, cov: set<nat>, q: nat)
    requires Closes(job, q) && Finished(job, s, head, rest, cov, q + 1, false)
    ensures forall x :: InTags(job, cov + {q, q + 1}, x) <==>
      Holds(rest, x) || job.blob.base + job.blob.structSize - 8 <= x < job.blob.base + job.blob.structSize
    ensures q in cov ==> forall x :: InTag(job, q, x) ==> Holds(rest, x)
  {
    CloseOffsets(job, q);
    assert cov + {q, q + 1} == cov + {q + 1} + {q};
    forall x
      ensures InTags(job, cov + {q, q + 1}, x) <==>
        Holds(rest, x) || job.blob.base + job.blob.structSize - 8 <= x < job.blob.base + job.blob.structSize
    {
      InTagsAdd(job, cov + {q + 1}, q, x);
      assert Reached(job, s, rest, x) <==> InTags(job, cov + {q + 1}, x);
    }
    if q in cov {
      forall x | InTag(job, q, x) ensures Holds(rest, x) {
        assert q in cov + {q + 1};
        assert Reached(job, s, rest, x);
      }
    }
  }

  lemma AlonePlaced(job: Job, s: State, rest: seq<Region>, cov: set<nat>, q: nat, mid: seq<Region>)
    requires Closes(job, q) && Separated(rest) && rest != [] && forall x :: InTag(job, q, x) ==> Holds(rest, x)
    requires var k := Stop(rest[|rest| - 1]);
      job.blob.base + job.blob.structSize - 8 < k <= job.blob.base + job.blob.structSize - 4
    requires mid == Extend(rest, job.blob.base + job.blob.structSize)
    ensures Separated(mid)
    ensures forall x :: Holds(mid, x) <==>
      Holds(rest, x) || job.blob.base + job.blob.structSize - 8 <= x < job.blob.base + job.blob.structSize
  {
    CloseOffsets(job, q);
    forall x
      ensures Holds(mid, x) <==>
        Holds(rest, x) || job.blob.base + job.blob.structSize - 8 <= x < job.blob.base + job.blob.structSize
    {
      ExtendHolds(rest, job.blob.base + job.blob.structSize, x);
    }
  }

  // ----- supernodes that ask for the root -----

  lemma BlockStart(job: Job, nops: nat)
    requires nops < |job.blob.tags| && TagAt(job, nops) == BeginNode("") && forall i: nat :: i < nops ==> TagAt(job, i) == Nop
    ensures Offset(job.blob.tags, nops) == 4 * nops && Offset(job.blob.tags, nops + 1) == 4 * nops + 8
  {
    NopOffset(job, nops);
  }

  /** No region and no run holds the root's BEGIN_NODE. */
  lemma RootMissing(job: Job, s: State, head: seq<Region>, rest: seq<Region>, cov: set<nat>)
    requires Linked(job, s, head, rest, cov) && s.pos > 0 && Began(job, s)
    ensures 0 in cov ==> s.haveNode || s.start == 0
    ensures s.start == 0 || (s.haveNode && !FalseRoot(job)) ==> 0 in cov
  {
    var x := job.blob.base;
    OffsetRises(job, 0, s.pos);
    assert InTag(job, 0, x);
    assert Reached(job, s, rest, x) <==> InTags(job, cov, x);
    if 0 in cov {
      assert Reached(job, s, rest, x);
      if Holds(rest, x) {
        var k :| 0 <= k < |rest| && rest[k].offset <= x < Stop(rest[k]);
        assert k == 0;
      } else {
        StartSigned(job, s);
      }
    }
    if s.start == 0 || (s.haveNode && !FalseRoot(job)) {
      if s.start != 0 { assert rest[0].offset == x; }
      assert Reached(job, s, rest, x);
      var i :| i in cov && InTag(job, i, x);
      TagOf(job, i, 0, x);
    }
  }

  lemma StartSigned(job: Job, s: State)
    requires Began(job, s)
    ensures s.start == -1 || s.start >= 0
  {
  }

  /** With supernodes nothing is kept of a tree whose root is not. */
  lemma NothingKept(job: Job, nops: nat, body: Forest)
    requires job.flags.supernodes && !RootKept(job, body)
    ensures RootCov(job, nops, body) == {}
  {
    var flags := KeepNode(job, body, "/", false);
    var inner := KeepIn(job, body, "/", false);
    assert Wanted(job, "/", false) == false && flags == [false] + (inner + [false]);
    assert forall k: nat :: k < |inner| ==> !inner[k];
    assert forall k: nat :: k < |flags| ==> !flags[k];
  }

  /** The BEGIN_NODE and END_NODE of a kept root are covered, and nothing before it is. */
  lemma RootCovers(job: Job, nops: nat, body: Forest, q: nat)
    requires q == nops + 1 + |Flatten(body)|
    ensures RootKept(job, body) ==> nops in RootCov(job, nops, body) && q in RootCov(job, nops, body)
    ensures forall i :: i in RootCov(job, nops, body) ==> nops <= i <= q
  {
    var flags := KeepNode(job, body, "/", false);
    if RootKept(job, body) {
      assert Wanted(job, "/", false) == (job.nodes("/") != 0);
      assert flags[0] && flags[|flags| - 1];
      assert Covers(job, nops, flags, false, 0) && Covers(job, nops, flags, false, q - nops);
    }
  }

  lemma NoRegions(job: Job, s: State, head: seq<Region>, rest: seq<Region>, e: nat)
    requires Linked(job, s, head, rest, {e}) && s.start == Here(job, e) && e < |job.blob.tags|
    ensures rest == []
  {
    forall x | x < job.blob.base + s.start ensures !Holds(rest, x) {
      assert Reached(job, s, rest, x) <==> InTags(job, {e}, x);
    }
    NoneHeld(rest, job.blob.base + s.start);
  }

  lemma NoneHeld(rest: seq<Region>, edge: int)
    requires Separated(rest) && Below(rest, edge) && forall x :: x < edge ==> !Holds(rest, x)
    ensures rest == []
  {
    assert rest != [] ==> rest[0].size > 0;
    assert rest != [] ==> Holds(rest, rest[0].offset);
  }

  /** Only the root's first tag, its last tag and END: two regions, or one if they touch and may be merged. */
  lemma MidEmpty(job: Job, s: State, q: nat, mid: seq<Region>)
    requires Closes(job, q) && q > 0 && Offset(job.blob.tags, 1) == 8
    requires mid == Place([Region(job.blob.base, 8)], s.canMerge, job.blob.base + job.blob.structSize - 8, 8)
    ensures Separated(mid) <==> s.canMerge || q != 1
    ensures forall x :: Holds(mid, x) <==> InTags(job, {0, q, q + 1}, x)
  {
    CloseOffsets(job, q);
    OffsetMonotone(job.blob.tags, 1, q);
    var first := Region(job.blob.base, 8);
    var from, to := job.blob.base + job.blob.structSize - 8, job.blob.base + job.blob.structSize;
    EmptyGap(job, q);
    forall x ensures Holds(mid, x) <==> InTags(job, {0, q, q + 1}, x) {
      EmptyTags(job, q, x);
      ExtendHolds([first], to, x);
      AppendHolds([first], Region(from, 8), x);
      assert Holds([first], x) <==> first.offset <= x < Stop(first) by { AppendHolds([], first, x); assert [] + [first] == [first]; }
    }
    if mid == [first] + [Region(from, 8)] {
      assert mid[0] == first && mid[1] == Region(from, 8);
    }
  }

  lemma EmptyGap(job: Job, q: nat)
    requires Closes(job, q) && q > 0 && Offset(job.blob.tags, 1) == 8
    ensures job.blob.structSize >= 16 && (job.blob.structSize == 16 <==> q == 1)
  {
    CloseOffsets(job, q);
    OffsetMonotone(job.blob.tags, 1, q);
  }

  lemma EmptyTags(job: Job, q: nat, x: int)
    requires Closes(job, q) && q > 0 && Offset(job.blob.tags, 1) == 8
    ensures var b, n := job.blob.base, job.blob.structSize;
      InTags(job, {0, q, q + 1}, x) <==> b <= x < b + 8 || b + n - 8 <= x < b + n
  {
    CloseOffsets(job, q);
    assert {0, q, q + 1} == {} + {0} + {q} + {q + 1};
    InTagsAdd(job, {}, 0, x);
    InTagsAdd(job, {} + {0}, q, x);
    InTagsAdd(job, {} + {0} + {q}, q + 1, x);
  }

  // ----- the tags to keep, as a set -----

  /** The tags of the structure block that should be in a region. */
  function Chosen(job: Job, nops: nat, body: Forest): set<nat> {
    Flagged(job, 0, KeepBlock(job, nops, body), false)
  }

  lemma SkipNops(job: Job, nops: nat, more: seq<bool>)
    requires forall i: nat :: i < nops ==> TagAt(job, i) == Nop
    ensures Flagged(job, 0, Nothing(nops) + more, false) == Flagged(job, nops, more, false)
  {
    assert forall k: nat :: k < nops ==> !Nothing(nops)[k] && !TagAt(job, 0 + k).EndNode?;
    assert Flagged(job, 0, Nothing(nops), false) == {};
    FlaggedAppend(job, 0, Nothing(nops), more, false);
  }

  /** What differs from the tags that the walk itself keeps: the root's first tag, the last } and END. */
  lemma ChosenIs(job: Job, nops: nat, body: Forest, q: nat)
    requires q == nops + 1 + |Flatten(body)| && Opens(job, nops, body)
    ensures Chosen(job, nops, body) ==
      RootCov(job, nops, body) + {q, q + 1} + if RootKept(job, body) || AsksRoot(job) then {nops} else {}
  {
    SkipNops(job, nops, KeepRoot(job, body));
    var inner := KeepIn(job, body, "/", job.nodes("/") != 0);
    BlockFlags(job, nops, inner, RootKept(job, body), RootKept(job, body) || AsksRoot(job), q);
    RootFlags(job, body, inner);
  }

  lemma RootFlags(job: Job, body: Forest, inner: seq<bool>)
    requires inner == KeepIn(job, body, "/", job.nodes("/") != 0)
    ensures KeepRoot(job, body) == [RootKept(job, body) || AsksRoot(job)] + (inner + [true, true])
    ensures KeepNode(job, body, "/", false) == [RootKept(job, body)] + (inner + [RootKept(job, body)])
  {
    assert Wanted(job, "/", false) == (job.nodes("/") != 0);
  }

  lemma BlockFlags(job: Job, pos: nat, inner: seq<bool>, kept: bool, first: bool, q: nat)
    requires !TagAt(job, pos).EndNode? && (inner != [] ==> !TagAt(job, pos + 1).EndNode?) && q == pos + 1 + |inner|
    ensures Flagged(job, pos, [first] + (inner + [true, true]), false) ==
      Flagged(job, pos, [kept] + (inner + [kept]), false) + {q, q + 1} + (if first then {pos} else {})
      || (kept && !first)
  {
    FlagsSplit(job, pos, first, inner, [true, true], kept);
    FlagsSplit(job, pos, kept, inner, [kept], kept);
    FlaggedOne(job, q, kept, Last(inner, kept));
    FlaggedAppend(job, q, [true], [true], Last(inner, first));
    FlaggedOne(job, q, true, Last(inner, first));
    FlaggedOne(job, q + 1, true, true);
    assert [true] + [true] == [true, true];
  }

  lemma FlagsSplit(job: Job, pos: nat, first: bool, inner: seq<bool>, end: seq<bool>, kept: bool)
    requires !TagAt(job, pos).EndNode? && (inner != [] ==> !TagAt(job, pos + 1).EndNode?)
    ensures Flagged(job, pos, [first] + (inner + end), false) ==
      (if first then {pos} else {}) + Flagged(job, pos + 1, inner, kept) + Flagged(job, pos + 1 + |inner|, end, Last(inner, first))
  {
    FlaggedAppend(job, pos, [first], inner + end, false);
    FlaggedOne(job, pos, first, false);
    assert Last([first], false) == first;
    FlaggedAppend(job, pos + 1, inner, end, first);
    FlaggedBefore(job, pos + 1, inner, first, kept);
  }

  // ----- the property and its condition -----

  /** The regions hold exactly the bytes of the chosen tags. */
  ghost predicate Exact(job: Job, nops: nat, body: Forest, mid: seq<Region>) {
    forall x :: Holds(mid, x) <==> InTags(job, Chosen(job, nops, body), x)
  }

  /** Where the walk stands when it has passed all tags of a tree without a fault. */
  ghost predicate Passed(job: Job, nops: nat, body: Forest, q: nat, s: State, rest: seq<Region>) {
    && q == nops + 1 + |Flatten(body)| && Opens(job, nops, body) && Closes(job, q)
    && Finished(job, s, Head(job), rest, RootCov(job, nops, body), q + 1, RootKept(job, body))
  }

  /** When the root is not asked for any more, it is in the first region already, or it was not asked for. */
  lemma RootSeen(job: Job, nops: nat, body: Forest, q: nat, s: State, rest: seq<Region>)
    requires Passed(job, nops, body, q, s, rest) && (nops == 0 || !AsksRoot(job)) && !AsksNow(job, s)
    ensures Chosen(job, nops, body) == RootCov(job, nops, body) + {q, q + 1}
  {
    var cov := RootCov(job, nops, body);
    ChosenIs(job, nops, body, q);
    RootCovers(job, nops, body, q);
    if AsksRoot(job) {
      RootMissing(job, s, Head(job), rest, cov + {q + 1});
    }
  }

  lemma ExactSeen(job: Job, nops: nat, body: Forest, q: nat, s: State, rest: seq<Region>)
    requires Passed(job, nops, body, q, s, rest) && (nops == 0 || !AsksRoot(job)) && !AsksNow(job, s)
    ensures Separated(Mid(job, s, rest)) && Exact(job, nops, body, Mid(job, s, rest))
  {
    RootSeen(job, nops, body, q, s, rest);
    if RootKept(job, body) {
      RootCovers(job, nops, body, q);
      MidOpen(job, s, Head(job), rest, RootCov(job, nops, body), q);
    } else {
      MidAlone(job, s, Head(job), rest, RootCov(job, nops, body), q);
    }
  }

  /** The root's BEGIN_NODE is asked for when it comes first, but nothing was kept. */
  lemma AskedEmpty(job: Job, body: Forest, q: nat, s: State, rest: seq<Region>)
    requires Passed(job, 0, body, q, s, rest) && AsksNow(job, s)
    ensures AsksRoot(job) && !RootKept(job, body) && RootCov(job, 0, body) == {} && s.canMerge == !job.flags.addRsvmap
    ensures Mid(job, s, rest) ==
      Place([Region(job.blob.base, 8)], s.canMerge, job.blob.base + job.blob.structSize - 8, 8)
  {
    CloseOffsets(job, q);
    AskedUnkept(job, body, q, s, rest);
    assert RootCov(job, 0, body) + {q + 1} == {q + 1};
    NoRegions(job, s, Head(job), rest, q + 1);
    assert Early(job, s, rest) == [Region(job.blob.base, 8)];
  }

  lemma AskedUnkept(job: Job, body: Forest, q: nat, s: State, rest: seq<Region>)
    requires Passed(job, 0, body, q, s, rest) && AsksNow(job, s)
    ensures !RootKept(job, body) && RootCov(job, 0, body) == {}
  {
    RootCovers(job, 0, body, q);
    RootMissing(job, s, Head(job), rest, RootCov(job, 0, body) + {q + 1});
    NothingKept(job, 0, body);
  }

  lemma ExactAsked(job: Job, body: Forest, q: nat, s: State, rest: seq<Region>)
    requires Passed(job, 0, body, q, s, rest) && AsksNow(job, s)
    ensures Exact(job, 0, body, Mid(job, s, rest))
    ensures Separated(Mid(job, s, rest)) <==> !job.flags.addRsvmap || body != Done
  {
    AskedEmpty(job, body, q, s, rest);
    ChosenIs(job, 0, body, q);
    BlockStart(job, 0);
    assert Chosen(job, 0, body) == {0, q, q + 1};
    MidEmpty(job, s, q, Mid(job, s, rest));
    FlattenDone(body);
  }

  lemma FlattenDone(f: Forest)
    ensures |Flatten(f)| == 0 <==> f == Done
  {
  }

  /** The two regions of an empty root touch but cannot be merged, because the reserve map came before them. */
  predicate Touching(job: Job, body: Forest) {
    job.flags.addRsvmap && AsksRoot(job) && body == Done && job.nodes("/") == 0
  }

  /** The regions are exact and separated when the root comes first, or nobody asks for it. */
  lemma ExactMid(job: Job, nops: nat, body: Forest, q: nat, s: State, rest: seq<Region>)
    requires Passed(job, nops, body, q, s, rest) && (nops == 0 || !AsksRoot(job))
    ensures Exact(job, nops, body, Mid(job, s, rest))
    ensures Separated(Mid(job, s, rest)) <==> !Touching(job, body)
  {
    if AsksNow(job, s) {
      NowAsks(job, s, Head(job), rest);
      ExactAsked(job, body, q, s, rest);
      AskedEmpty(job, body, q, s, rest);
    } else {
      ExactSeen(job, nops, body, q, s, rest);
      if AsksRoot(job) { SeenKept(job, body, q, s, rest); }
    }
  }

  lemma NowAsks(job: Job, s: State, head: seq<Region>, rest: seq<Region>)
    requires AsksNow(job, s) && Good(job, head, rest, s.canMerge, s.haveNode)
    ensures AsksRoot(job)
  {
  }

  lemma SeenKept(job: Job, body: Forest, q: nat, s: State, rest: seq<Region>)
    requires Passed(job, 0, body, q, s, rest) && AsksRoot(job) && !AsksNow(job, s)
    ensures body == Done ==> job.nodes("/") != 0
  {
    var cov := RootCov(job, 0, body);
    RootMissing(job, s, Head(job), rest, cov + {q + 1});
    if !RootKept(job, body) { NothingKept(job, 0, body); }
  }

  // ----- leading NOPs -----

  lemma Truncated(rest: seq<Region>, edge: int, from: int, to: int, x: int)
    requires Separated(rest) && rest != [] && Below(rest, from) && edge <= x == Stop(rest[|rest| - 1]) - 1
    ensures !Holds(Extend(rest, edge) + [Region(from, to - from)], x)
  {
    var n, cut := |rest| - 1, Extend(rest, edge);
    AppendHolds(cut, Region(from, to - from), x);
    assert forall k :: 0 <= k < n ==> cut[k] == rest[k];
    assert Stop(cut[n]) == edge;
    assert rest[n].size > 0;
  }

  /** Behind leading NOPs the first tag of the root ends more than 8 bytes into the block. */
  lemma PastEight(job: Job, nops: nat, body: Forest, q: nat, s: State, rest: seq<Region>)
    requires Passed(job, nops, body, q, s, rest) && nops > 0 && RootKept(job, body) && rest != []
    ensures Stop(rest[|rest| - 1]) > job.blob.base + 8
  {
    var cov := RootCov(job, nops, body) + {q + 1};
    RootCovers(job, nops, body, q);
    BlockStart(job, nops);
    var y := job.blob.base + 4 * nops + 7;
    assert InTag(job, nops, y) && nops in cov;
    assert Reached(job, s, rest, y);
    if !Holds(rest, y) {
      RunFrom(job, nops, s, y);
      NothingBefore(job, nops, s, Head(job), rest, cov);
    } else {
      LastStop(rest, y);
    }
  }

  lemma LastStop(rest: seq<Region>, y: int)
    requires Separated(rest) && Holds(rest, y)
    ensures rest != [] && y < Stop(rest[|rest| - 1])
  {
    var k :| 0 <= k < |rest| && rest[k].offset <= y < Stop(rest[k]);
    var n := |rest| - 1;
    assert k < n ==> Stop(rest[k]) < rest[n].offset;
    assert rest[n].size > 0;
  }

  lemma RunFrom(job: Job, nops: nat, s: State, y: int)
    requires Began(job, s) && s.start != -1 && nops < |job.blob.tags|
    requires Offset(job.blob.tags, nops + 1) > y - job.blob.base >= s.start
    ensures s.start <= Offset(job.blob.tags, nops)
  {
    var k: nat :| k < s.pos <= |job.blob.tags| && s.start == Offset(job.blob.tags, k);
    if k > nops { OffsetMonotone(job.blob.tags, nops + 1, k); } else { OffsetMonotone(job.blob.tags, k, nops); }
  }

  /** There is no region when the open run starts with the first tag that may be kept. */
  lemma NothingBefore(job: Job, nops: nat, s: State, head: seq<Region>, rest: seq<Region>, cov: set<nat>)
    requires Linked(job, s, head, rest, cov) && nops < |job.blob.tags| && forall i :: i in cov ==> nops <= i
    requires s.start != -1 && s.start <= Offset(job.blob.tags, nops)
    ensures rest == []
  {
    var edge := job.blob.base + s.start;
    forall x | x < edge ensures !Holds(rest, x) {
      if Holds(rest, x) {
        assert Reached(job, s, rest, x);
        var i :| i in cov && InTag(job, i, x);
        OffsetMonotone(job.blob.tags, nops, i);
      }
    }
    NoneHeld(rest, edge);
  }

  /** Behind leading NOPs, eight bytes at the start of the block are not the root's BEGIN_NODE. */
  lemma NotExact(job: Job, nops: nat, body: Forest, q: nat, s: State, rest: seq<Region>)
    requires Passed(job, nops, body, q, s, rest) && nops > 0 && AsksRoot(job)
    ensures !Exact(job, nops, body, Mid(job, s, rest))
  {
    var cov := RootCov(job, nops, body);
    RootCovers(job, nops, body, q);
    RootMissing(job, s, Head(job), rest, cov + {q + 1});
    ChosenIs(job, nops, body, q);
    if rest == [] {
      StartHeld(job, s);
      FirstByte(job, nops, Chosen(job, nops, body));
    } else {
      LastLost(job, nops, body, q, s, rest);
    }
  }

  lemma StartHeld(job: Job, s: State)
    requires AsksNow(job, s) && 0 <= EndFrom(job, s) < job.blob.structSize
    ensures Holds(Mid(job, s, []), job.blob.base)
  {
    var mid := Mid(job, s, []);
    assert Early(job, s, []) == [Region(job.blob.base, 8)];
    assert mid[0].offset == job.blob.base && Stop(mid[0]) > job.blob.base;
  }

  lemma FirstByte(job: Job, nops: nat, cov: set<nat>)
    requires 0 < nops < |job.blob.tags| && forall i :: i in cov ==> nops <= i
    ensures !InTags(job, cov, job.blob.base)
  {
    forall i | i in cov && InTag(job, i, job.blob.base) ensures false {
      OffsetMonotone(job.blob.tags, nops, i);
      OffsetMonotone(job.blob.tags, 0, nops);
    }
  }

  lemma LastLost(job: Job, nops: nat, body: Forest, q: nat, s: State, rest: seq<Region>)
    requires Passed(job, nops, body, q, s, rest) && nops > 0 && AsksNow(job, s) && rest != []
    requires RootCov(job, nops, body) + {q + 1} <= Chosen(job, nops, body)
    ensures !Exact(job, nops, body, Mid(job, s, rest))
  {
    var cov := RootCov(job, nops, body) + {q + 1};
    var x := Stop(rest[|rest| - 1]) - 1;
    KeptIfAny(job, nops, body, q, s, rest);
    CloseOffsets(job, q);
    PastEight(job, nops, body, q, s, rest);
    var from, to := job.blob.base + s.start, job.blob.base + job.blob.structSize;
    Truncated(rest, job.blob.base + 8, from, to, x);
    assert Mid(job, s, rest) == Extend(rest, job.blob.base + 8) + [Region(from, to - from)];
    assert Holds(rest, x) by { assert rest[|rest| - 1].size > 0; }
    assert Reached(job, s, rest, x);
    var i :| i in cov && InTag(job, i, x);
    assert InTags(job, Chosen(job, nops, body), x);
  }

  lemma KeptIfAny(job: Job, nops: nat, body: Forest, q: nat, s: State, rest: seq<Region>)
    requires Passed(job, nops, body, q, s, rest) && job.flags.supernodes && rest != []
    ensures RootKept(job, body)
  {
    if !RootKept(job, body) {
      NothingKept(job, nops, body);
      assert RootCov(job, nops, body) + {q + 1} == {q + 1};
      NoRegions(job, s, Head(job), rest, q + 1);
    }
  }

  ghost predicate Right(job: Job, nops: nat, body: Forest, mid: seq<Region>) {
    && (Exact(job, nops, body, mid) <==> nops == 0 || !AsksRoot(job))
    && (Exact(job, nops, body, mid) ==> (Separated(mid) <==> !Touching(job, body)))
  }

  /**
   A single pass over a tree with plain names fails iff some node is too deep or its path too long, or the strings
   block lies below the end of the structure block. Otherwise it delivers the reserve map, the regions of the
   structure block, and the strings block. The middle ones hold exactly the chosen tags unless supernodes are
   asked for and the block starts with NOPs; then they are sorted and do not touch, but for an empty root.
   */
  lemma FullKeepsTree(job: Job, nops: nat, body: Forest) returns (mid: seq<Region>)
    requires Holding(job, nops, body)
    ensures var fault := TreeFault(job.pathLen, body);
      var r := Full(job, FIRST, []);
      if fault != 0 then r == Err(fault)
      else if job.flags.addStrings && job.blob.strings < job.blob.base + job.blob.structSize then r == Err(FDT_ERR_BADLAYOUT)
      else
        r == Ok(Head(job) + mid + Tail(job)) && Right(job, nops, body, mid)
  {
    var q := nops + 1 + |Flatten(body)|;
    BlockAt(job, nops, body, q);
    var s, rest := WalkBlock(job, nops, body, q);
    mid := [];
    if TreeFault(job.pathLen, body) == 0 {
      mid := Mid(job, s, rest);
      LastPlaces(job, s, Head(job), rest);
      if nops == 0 || !AsksRoot(job) {
        ExactMid(job, nops, body, q, s, rest);
      } else {
        NotExact(job, nops, body, q, s, rest);
      }
    }
  }

  /** What a caller gets of a tree in all: the code of the last call and the regions of the others. */
  ghost predicate TreeCalls(job: Job, nops: nat, body: Forest, r: int, regions: seq<Region>) {
    var fault := TreeFault(job.pathLen, body);
    if fault != 0 then job.flags.supernodes ==> r == fault
    else if job.flags.addStrings && job.blob.strings < job.blob.base + job.blob.structSize then
      job.flags.supernodes ==> r == FDT_ERR_BADLAYOUT
    else r == FDT_ERR_NOTFOUND && exists mid :: regions == Head(job) + mid + Tail(job) && Right(job, nops, body, mid)
  }

  /** Calls that are faithful to the single pass give the reserve map, the chosen tags and the strings. */
  lemma CallsKeepTree(job: Job, nops: nat, body: Forest, r: int, regions: seq<Region>)
    requires Holding(job, nops, body) && Collected(job, regions, r) && FdtResume.Faithful(job)
    ensures TreeCalls(job, nops, body, r, regions)
  {
    var mid := FullKeepsTree(job, nops, body);
    RunEnds(job, regions, r);
  }
}
