/**
 fdt_first_region() and fdt_next_region(): the region walk with one region slot per call. A tag
 whose region does not fit the slot is refused, the call returns, and the next call retries the
 tag. `Full` is the same walk with as many slots as it needs, in one pass.
 */
module FdtIter {
  import opened FdtTags
  import opened FdtRuns

  datatype Flags = Flags(addStrings: bool, supernodes: bool, directSubnodes: bool, allSubnodes: bool, addRsvmap: bool)

  /**
   What to walk and what to keep. The callback is asked about node paths (non-zero: include) and
   property names (-1: include if the node is, 0: exclude, else include).
   */
  datatype Job = Job(blob: Blob, flags: Flags, nodes: string -> int, props: string -> int, pathLen: nat)

  datatype Result<+T> = Ok(value: T) | Err(code: int)

  /** An open node: its tag, the value of `want` outside it, and whether its BEGIN_NODE is in a region. */
  datatype Level = Level(pos: nat, want: nat, included: bool)

  const WANT_NOTHING: nat := 0
  const WANT_NODES_ONLY: nat := 1
  const WANT_NODES_AND_PROPS: nat := 2
  const WANT_ALL_NODES_AND_PROPS: nat := 3

  // progress through the parts of the tree
  const DONE_NOTHING: nat := 0
  const DONE_MEM_RSVMAP: nat := 1
  const DONE_STRUCT: nat := 2
  const DONE_EMPTY: nat := 3
  const DONE_END: nat := 4
  const DONE_STRINGS: nat := 5

  /** The state that is kept between calls; `buffer` is the path buffer up to its end. */
  datatype State = State(done: nat, pos: nat, levels: seq<Level>, want: nat, buffer: string,
                         start: int, canMerge: bool, haveNode: bool)

  const FIRST := State(DONE_NOTHING, 0, [], WANT_NOTHING, "", -1, true, false)

  predicate Within(job: Job, s: State) {
    && s.pos <= |job.blob.tags| + 1
    && (s.done < DONE_STRUCT ==> s.pos <= |job.blob.tags|)
    && (forall k :: 0 <= k < |s.levels| ==> s.levels[k].pos < |job.blob.tags|)
  }

  function Here(job: Job, pos: nat): nat {
    Offset(job.blob.tags, if pos <= |job.blob.tags| then pos else |job.blob.tags|)
  }

  // ----- adding a region -----

  /** A list of regions, or a refusal because the only slot holds a region that cannot be merged. */
  datatype Slots = Slots(out: seq<Region>) | Refusal

  /** fdt_add_region(): `one` is true when there is a single slot. */
  function Put(out: seq<Region>, one: bool, canMerge: bool, offset: int, size: int): (r: Slots)
    ensures r.Refusal? ==> one && out != []
  {
    if canMerge && out != [] && offset <= Stop(out[|out| - 1]) then Slots(Extend(out, offset + size))
    else if one && out != [] then Refusal
    else Slots(out + [Region(offset, size)])
  }

  /** have_node is set when a new region starts at the structure block. */
  predicate PutsRoot(job: Job, out: seq<Region>, canMerge: bool, offset: int) {
    !(canMerge && out != [] && offset <= Stop(out[|out| - 1])) && offset == job.blob.base
  }

  // ----- deciding about a tag -----

  datatype Choice = Fail(code: int) | Go(state: State, kept: bool, stopAfter: bool)

  function TagAt(job: Job, pos: nat): Tag {
    if pos < |job.blob.tags| then job.blob.tags[pos] else End
  }

  function Flag(b: bool, yes: nat, no: nat): nat {
    if b then yes else no
  }

  function DecideProp(job: Job, s: State, key: string): Choice {
    var val := job.props(key);
    if val == -1 then Go(s, s.want >= WANT_NODES_AND_PROPS, false)
    else
      var bump := job.flags.supernodes && val != 0 && s.want == WANT_NOTHING;
      Go(if bump then s.(want := WANT_NODES_ONLY) else s, val != 0, false)
  }

  function DecideBegin(job: Job, s: State, name: string): Choice {
    if |s.levels| == FDT_MAX_DEPTH then Fail(FDT_ERR_BADSTRUCTURE)
    else if |s.buffer| + 2 + |name| >= job.pathLen then Fail(FDT_ERR_NOSPACE)
    else
      var buffer := Push(s.buffer, name);
      var inherit := job.flags.directSubnodes || job.flags.allSubnodes;
      var outer := if s.want == WANT_NODES_ONLY || !inherit then WANT_NOTHING else s.want;
      var want :=
        if job.nodes(buffer) != 0 then Flag(job.flags.allSubnodes, WANT_ALL_NODES_AND_PROPS, WANT_NODES_AND_PROPS)
        else if outer != WANT_NOTHING && outer != WANT_ALL_NODES_AND_PROPS then outer - 1
        else outer;
      var kept := want != WANT_NOTHING;
      Go(s.(levels := s.levels + [Level(s.pos, s.want, kept)], want := want, buffer := buffer), kept, false)
  }

  function DecideEnd(job: Job, s: State): Choice {
    if s.levels == [] then Fail(FDT_ERR_BADSTRUCTURE)
    else
      var d := |s.levels| - 1;
      Go(s.(levels := s.levels[..d], want := s.levels[d].want, buffer := Pop(s.buffer)), s.want != WANT_NOTHING,
         s.want != WANT_NOTHING || job.flags.directSubnodes)
  }

  function Decide(job: Job, s: State): (c: Choice)
    requires Within(job, s) && s.done < DONE_STRUCT
    ensures c.Go? ==> c.state.done in {s.done, DONE_STRUCT} && Within(job, c.state.(pos := s.pos + 1))
  {
    match TagAt(job, s.pos)
    case Prop(None, _) => Fail(FDT_ERR_BADSTRUCTURE)
    case Prop(Some(key), _) => DecideProp(job, s, key)
    case Nop => Go(s, s.want >= WANT_NODES_AND_PROPS, false)
    case BeginNode(name) => DecideBegin(job, s, name)
    case EndNode => DecideEnd(job, s)
    case End => Go(s.(done := DONE_STRUCT), true, true)
  }

  // ----- supernodes -----

  /** What fdt_include_supernodes() leaves behind; `at` is the level whose region was refused. */
  datatype Chain = Chain(levels: seq<Level>, out: seq<Region>, canMerge: bool, haveNode: bool, at: nat)

  /** An open node that is in a region and whose END_NODE will be kept. */
  function Raised(l: Level): Level {
    Level(l.pos, if l.want == WANT_NOTHING then WANT_NODES_ONLY else l.want, true)
  }

  /** Put the BEGIN_NODE of every open node that is not in a region yet, from level `i` on. */
  function Supernodes(job: Job, levels: seq<Level>, out: seq<Region>, one: bool, canMerge: bool, haveNode: bool,
                      i: nat): (c: Chain)
    requires i <= |levels|
    requires forall k :: 0 <= k < |levels| ==> levels[k].pos < |job.blob.tags|
    ensures i <= c.at <= |levels| == |c.levels|
    ensures forall k :: 0 <= k < |levels| ==> c.levels[k].pos == levels[k].pos
    ensures c.at < |levels| ==> one
    decreases |levels| - i
  {
    if i == |levels| then Chain(levels, out, canMerge, haveNode, i)
    else
      var l := levels[i];
      var levels' := levels[i := Raised(l)];
      if l.included then Supernodes(job, levels', out, one, canMerge, haveNode, i + 1)
      else
        var offset := job.blob.base + Offset(job.blob.tags, l.pos);
        match Put(out, one, canMerge, offset, Size(job.blob.tags[l.pos]))
        case Refusal => Chain(levels, out, canMerge, haveNode, i)
        case Slots(out') =>
          Supernodes(job, levels', out', one, true, haveNode || PutsRoot(job, out, canMerge, offset), i + 1)
  }

  // ----- one step -----

  datatype Step =
    | Failed(code: int)
    | Refused(state: State, out: seq<Region>)   // the call returns; the state is what the next call finds
    | Moved(state: State, out: seq<Region>)

  /** The path buffer after an END_NODE was refused: the cut is in the buffer, the end is not moved. */
  function Damage(buffer: string): string {
    var k := |Pop(buffer)|;
    if k < |buffer| then buffer[k := '\0'] else buffer
  }

  function Left(job: Job, s: State): State {
    if TagAt(job, s.pos).EndNode? then s.(buffer := Damage(s.buffer)) else s
  }

  function OpenRun(job: Job, s: State, to: State, out: seq<Region>, one: bool): (r: Step)
    requires Within(job, s) && Within(job, to)
    ensures r.Moved? ==> Within(job, r.state) && r.state.done == to.done && r.state.pos == to.pos
    ensures r.Refused? ==> one && Within(job, r.state) && r.state.done == s.done
  {
    var offset := Here(job, s.pos);
    if !job.flags.supernodes then Moved(to.(start := offset), out)
    else
      var c := Supernodes(job, to.levels, out, one, s.canMerge, s.haveNode, 0);
      if c.at == |to.levels| then
        Moved(to.(start := offset, levels := c.levels, canMerge := c.canMerge, haveNode := c.haveNode), c.out)
      else
        var kept := if |c.levels| <= |s.levels| then c.levels + s.levels[|c.levels|..] else c.levels[..|s.levels|];
        Refused(Left(job, s.(levels := kept, canMerge := c.canMerge, haveNode := c.haveNode)), c.out)
  }

  function CloseRun(job: Job, s: State, to: State, stop: int, out: seq<Region>, one: bool): (r: Step)
    requires Within(job, s) && Within(job, to)
    ensures r.Moved? ==> Within(job, r.state) && r.state.done == to.done && r.state.pos == to.pos
    ensures r.Refused? ==> one && Within(job, r.state) && r.state.done == s.done
  {
    var haveNode := s.haveNode || s.start == 0;
    var offset := job.blob.base + s.start;
    match Put(out, one, s.canMerge, offset, stop - s.start)
    case Refusal => Refused(Left(job, s.(haveNode := haveNode)), out)
    case Slots(out') => Moved(to.(start := -1, canMerge := true, haveNode := haveNode || PutsRoot(job, out, s.canMerge, offset)), out')
  }

  function TagStep(job: Job, s: State, out: seq<Region>, one: bool): (r: Step)
    requires Within(job, s) && s.done < DONE_STRUCT
    ensures r.Moved? ==> Within(job, r.state) && r.state.pos == s.pos + 1 && r.state.done in {s.done, DONE_STRUCT}
    ensures r.Refused? ==> one && Within(job, r.state) && r.state.done == s.done
  {
    match Decide(job, s)
    case Fail(code) => Failed(code)
    case Go(next, kept, stopAfter) =>
      var to := next.(pos := s.pos + 1);
      if kept && s.start == -1 then OpenRun(job, s, to, out, one)
      else if !kept && s.start != -1 then
        CloseRun(job, s, to, Here(job, if stopAfter then s.pos + 1 else s.pos), out, one)
      else Moved(to, out)
  }

  /** Put one of the parts around the tags and go on to the next part. */
  function PutPart(job: Job, s: State, done: nat, out: seq<Region>, one: bool, offset: int, size: int): Step {
    match Put(out, one, s.canMerge, offset, size)
    case Refusal => Refused(s, out)
    case Slots(out') => Moved(s.(done := done, haveNode := s.haveNode || PutsRoot(job, out, s.canMerge, offset)), out')
  }

  function RsvmapStep(job: Job, s: State, out: seq<Region>, one: bool): Step {
    var size := job.blob.base - job.blob.rsvmap;
    match Put(out, one, s.canMerge, job.blob.rsvmap, size)
    case Refusal => Refused(s, out)
    case Slots(out') =>
      Moved(s.(done := DONE_MEM_RSVMAP, canMerge := false,
               haveNode := s.haveNode || PutsRoot(job, out, s.canMerge, job.blob.rsvmap)), out')
  }

  /** A tree without nodes is not valid, so supernodes ask for the first { at least. */
  function EmptyStep(job: Job, s: State, out: seq<Region>, one: bool): Step {
    if job.flags.supernodes && !s.haveNode && s.start != 0 then PutPart(job, s, DONE_EMPTY, out, one, job.blob.base, 8)
    else Moved(s.(done := DONE_EMPTY), out)
  }

  /** The END tag, with the } before it. */
  function EndStep(job: Job, s: State, out: seq<Region>, one: bool): Step {
    if s.pos > |job.blob.tags| || Here(job, s.pos) != job.blob.structSize then Failed(FDT_ERR_BADSTRUCTURE)
    else
      var s' := if s.start == job.blob.structSize - 4 then s.(start := s.start - 4) else s;
      PutPart(job, s', DONE_END, out, one, job.blob.base + s'.start, job.blob.structSize - s'.start)
  }

  function StringsStep(job: Job, s: State, out: seq<Region>, one: bool): Step {
    if !job.flags.addStrings then Moved(s.(done := DONE_STRINGS), out)
    else if job.blob.strings < job.blob.base + Here(job, s.pos) then Failed(FDT_ERR_BADLAYOUT)
    else PutPart(job, s.(canMerge := false), DONE_STRINGS, out, one, job.blob.strings, job.blob.stringsSize)
  }

  function Advance(job: Job, s: State, out: seq<Region>, one: bool): (r: Step)
    requires Within(job, s) && s.done < DONE_STRINGS
    ensures r.Moved? ==> Within(job, r.state) && s.done <= r.state.done <= DONE_STRINGS
    ensures r.Moved? && r.state.done == s.done ==> s.done < DONE_STRUCT && r.state.pos == s.pos + 1
    ensures r.Refused? ==> one && Within(job, r.state) && r.state.done == s.done
    ensures r.Failed? ==> r.code < FDT_ERR_NOTFOUND
  {
    if s.done == DONE_NOTHING && job.flags.addRsvmap then RsvmapStep(job, s, out, one)
    else if s.done < DONE_STRUCT then TagStep(job, s, out, one)
    else if s.done == DONE_STRUCT then EmptyStep(job, s, out, one)
    else if s.done == DONE_EMPTY then EndStep(job, s, out, one)
    else StringsStep(job, s, out, one)
  }

  // ----- a single pass with enough slots -----

  function Full(job: Job, s: State, out: seq<Region>): Result<seq<Region>>
    requires Within(job, s) && s.done <= DONE_STRINGS
    decreases DONE_STRINGS - s.done, |job.blob.tags| + 1 - s.pos
  {
    if s.done == DONE_STRINGS then Ok(out)
    else match Advance(job, s, out, false)
      case Failed(code) => Err(code)
      case Moved(s', out') => Full(job, s', out')
  }

  // ----- one call -----

  /** The return value of a call, the region it delivered (if any) and the state it left. */
  datatype Turn = Turn(code: int, slot: seq<Region>, state: State)

  function Next(job: Job, s: State, out: seq<Region>): (t: Turn)
    requires Within(job, s) && s.done <= DONE_STRINGS
    ensures Within(job, t.state) && t.state.done <= DONE_STRINGS
    decreases DONE_STRINGS - s.done, |job.blob.tags| + 1 - s.pos
  {
    if s.done == DONE_STRINGS then Turn(if out != [] then 0 else FDT_ERR_NOTFOUND, out, s)
    else match Advance(job, s, out, true)
      case Failed(code) => Turn(code, out, s)
      case Refused(s', out') => Turn(0, out', s')
      case Moved(s', out') => Next(job, s', out')
  }

  /** The state after `n` calls. */
  function After(job: Job, s: State, n: nat): (s': State)
    requires Within(job, s) && s.done <= DONE_STRINGS
    ensures Within(job, s') && s'.done <= DONE_STRINGS
    decreases n
  {
    if n == 0 then s else After(job, Next(job, s, []).state, n - 1)
  }
}
