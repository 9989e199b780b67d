/**
 fdt_find_regions(): one pass over the tags that decides, from a list of node paths and a list
 of excluded property names, which tags to keep, and merges them into byte regions.
 */
module FdtFind {
  import opened FdtTags
  import opened FdtRuns

  /** What to keep: listed node paths, excluded property names, and the size of the path buffer. */
  datatype Config = Config(listed: seq<string>, excluded: seq<string>, pathLen: nat)

  datatype Result<+T> = Ok(value: T) | Err(code: int)

  // ----- the walk over the tags -----

  /** `saved` holds the value of `want` outside each open node; its length is the node depth + 1. */
  datatype Walk = Walk(want: nat, saved: seq<nat>, buffer: string, rootDone: bool)

  const START := Walk(0, [], "", false)

  datatype Step = Fail(code: int) | Go(walk: Walk, kept: bool)

  function Enter(cfg: Config, w: Walk, name: string): Step {
    if |w.saved| == FDT_MAX_DEPTH then Fail(FDT_ERR_BADSTRUCTURE)
    else if w.saved == [] && name != "" then Fail(FDT_ERR_BADLAYOUT)
    else if |w.buffer| + 2 + |name| >= cfg.pathLen then Fail(FDT_ERR_NOSPACE)
    else
      var buffer := Push(w.buffer, name);
      var want := if buffer in cfg.listed then 2 else if w.want > 0 then w.want - 1 else 0;
      Go(Walk(want, w.saved + [w.want], buffer, w.rootDone), want > 0)
  }

  function Leave(w: Walk): Step {
    if w.saved == [] then Fail(FDT_ERR_BADSTRUCTURE)
    else
      var d := |w.saved| - 1;
      Go(Walk(w.saved[d], w.saved[..d], Pop(w.buffer), d == 0), w.want > 0)
  }

  function Visit(cfg: Config, w: Walk, t: Tag): Step {
    if w.rootDone && !t.End? then Fail(FDT_ERR_BADLAYOUT)
    else match t
      case Prop(None, _) => Fail(FDT_ERR_BADSTRUCTURE)
      case Prop(Some(key), _) => Go(w, w.want >= 2 && key !in cfg.excluded)
      case Nop => Go(w, w.want >= 2)
      case BeginNode(name) => Enter(cfg, w, name)
      case EndNode => Leave(w)
      case End => Go(w, true)
  }

  function Prepend(bs: seq<bool>, r: Result<seq<bool>>): Result<seq<bool>> {
    if r.Ok? then Ok(bs + r.value) else r
  }

  /** The include flags of the tags up to the first END tag, or the first error. */
  function Scan(cfg: Config, w: Walk, tags: seq<Tag>): Result<seq<bool>>
    decreases |tags|
  {
    if tags == [] then Err(FDT_ERR_BADLAYOUT)
    else match Visit(cfg, w, tags[0])
      case Fail(code) => Err(code)
      case Go(w', kept) =>
        if tags[0].End? then Ok([kept]) else Prepend([kept], Scan(cfg, w', tags[1..]))
  }

  lemma {:induction false} ScanLength(cfg: Config, w: Walk, tags: seq<Tag>)
    ensures var r := Scan(cfg, w, tags);
      r.Ok? ==> 0 < |r.value| <= |tags| && tags[|r.value| - 1].End? && r.value[|r.value| - 1]
    decreases |tags|
  {
    if tags != [] && Visit(cfg, w, tags[0]).Go? && !tags[0].End? {
      ScanLength(cfg, Visit(cfg, w, tags[0]).walk, tags[1..]);
    }
  }

  /** The whole answer: the runs of covered tags, the last one stretched over the strings block. */
  function Regions(cfg: Config, b: Blob, addStrings: bool): Result<seq<Region>> {
    match Scan(cfg, START, b.tags)
    case Err(code) => Err(code)
    case Ok(inc) =>
      ScanLength(cfg, START, b.tags);
      if Offset(b.tags, |inc|) != b.structSize then Err(FDT_ERR_BADLAYOUT)
      else
        var rs := Runs(b.base, b.tags, inc, |inc|);
        if rs == [] then Ok(rs)
        else Ok(Extend(rs, b.base + b.structSize + if addStrings then b.stringsSize else 0))
  }

  // ----- the C function -----

  /** strcpy of '/' and a node name at the end of the path buffer. */
  method AppendName(path: array<char>, end: nat, name: string) returns (end': nat)
    requires end + 2 + |name| < path.Length
    modifies path
    ensures end' < path.Length
    ensures path[..end'] == Push(old(path[..end]), name) && path[..end] == old(path[..end])
  {
    end' := end;
    if end != 1 {
      path[end'] := '/';
      end' := end' + 1;
    }
    ghost var front := path[..end'];
    forall k | 0 <= k < |name| {
      path[end' + k] := name[k];
    }
    end' := end' + |name|;
    path[end'] := '\0';
    assert path[..end'] == front + name;
  }

  /** Cut the path buffer back to its last '/'. */
  method CutName(path: array<char>, end: nat) returns (end': nat)
    requires end < path.Length
    modifies path
    ensures end' <= end
    ensures path[..end'] == Pop(old(path[..end]))
    ensures path[..end] == if end' < end then old(path[..end])[end' := '\0'] else old(path[..end])
  {
    end' := end;
    var found := false;
    while end' > 0 && !found
      invariant end' <= end
      invariant path[..] == old(path[..])
      invariant if found then path[..end'] == Pop(old(path[..end])) else Pop(path[..end']) == Pop(old(path[..end]))
      decreases if found then 0 else end' + 1
    {
      assert path[..end'][..end' - 1] == path[..end' - 1];
      end' := end' - 1;
      found := path[end'] == '/';
    }
    ghost var front := path[..end'];
    path[end'] := '\0';
    assert path[..end'] == front;
  }

  /**
   The region array next to the runs `rs` of the tags seen so far (ending at `here`). `start` is
   the open run, which is not in the array yet; past the end of the array only a count is kept.
   */
  ghost predicate Tracks(region: array<Region>, count: nat, start: int, base: int, here: int, rs: seq<Region>)
    reads region
  {
    && (forall k :: 0 <= k < |rs| ==> rs[k].offset >= base)
    && (forall k :: 0 <= k < region.Length && k < count ==> k < |rs| && region[k] == rs[k])
    && (count > region.Length ==> |rs| > region.Length)
    && (count <= region.Length ==>
      && |rs| == count + (if start == -1 then 0 else 1)
      && (start != -1 ==> rs[count] == Region(base + start, here - (base + start))))
  }

  ghost function Grown(rs: seq<Region>, from: int, to: int, covered: bool): seq<Region> {
    if covered then Add(rs, from, to) else rs
  }

  /** Open, extend or close a run for the tag at [offset, next). */
  method Note(region: array<Region>, base: int, count: nat, start: int, kept: bool,
              offset: nat, next: nat, stopBefore: bool, ghost rs: seq<Region>,
              ghost rs': seq<Region>)
    returns (count': nat, start': int)
    requires offset < next
    requires rs' == Grown(rs, base + offset, base + next, kept || (start != -1 && !stopBefore))
    requires Tracks(region, count, start, base, base + offset, rs)
    modifies region
    ensures (start' != -1) == kept
    ensures Tracks(region, count', start', base, base + next, rs')
  {
    count', start' := count, start;
    if kept && start' == -1 {
      if count' > 0 && count' <= region.Length && offset == region[count' - 1].offset + region[count' - 1].size - base {
        count' := count' - 1;
        start' := region[count'].offset - base;
      } else {
        start' := offset;
      }
    }
    if !kept && start' != -1 {
      if count' < region.Length {
        region[count'] := Region(base + start', (if stopBefore then offset else next) - start');
      }
      count' := count' + 1;
      start' := -1;
    }
  }

  /** One more tag: `Runs` grows by that tag's bytes iff the tag is covered. */
  lemma RunsNext(base: nat, tags: seq<Tag>, flags: seq<bool>, kept: bool)
    requires |flags| < |tags|
    ensures var n := |flags|;
      Runs(base, tags, flags + [kept], n + 1) ==
      if kept || (tags[n].EndNode? && n > 0 && flags[n - 1])
      then Add(Runs(base, tags, flags, n), base + Offset(tags, n), base + Offset(tags, n + 1))
      else Runs(base, tags, flags, n)
  {
    RunsPrefix(base, tags, flags, kept, |flags|);
  }

  lemma {:induction false} RunsPrefix(base: nat, tags: seq<Tag>, flags: seq<bool>, kept: bool, n: nat)
    requires n <= |flags| < |tags|
    ensures Runs(base, tags, flags + [kept], n) == Runs(base, tags, flags, n)
  {
    if n > 0 {
      RunsPrefix(base, tags, flags, kept, n - 1);
      assert Covered(tags, flags + [kept], n - 1) == Covered(tags, flags, n - 1);
    }
  }

  /** After `|flags|` tags the walk is at `w` and the runs so far are `rs`. */
  ghost predicate Reached(cfg: Config, b: Blob, flags: seq<bool>, w: Walk, rs: seq<Region>, done: bool) {
    && |flags| <= |b.tags|
    && rs == Runs(b.base, b.tags, flags, |flags|)
    && Scan(cfg, START, b.tags) == if done then Ok(flags) else Prepend(flags, Scan(cfg, w, b.tags[|flags|..]))
  }

  lemma ReachedStart(cfg: Config, b: Blob)
    ensures Reached(cfg, b, [], START, [], false)
  {
    assert b.tags[0..] == b.tags;
    var all := Scan(cfg, START, b.tags);
    if all.Ok? { assert [] + all.value == all.value; }
  }

  lemma ReachedFail(cfg: Config, b: Blob, flags: seq<bool>, w: Walk, rs: seq<Region>, code: int)
    requires Reached(cfg, b, flags, w, rs, false)
    requires if |flags| == |b.tags| then code == FDT_ERR_BADLAYOUT else Visit(cfg, w, b.tags[|flags|]) == Fail(code)
    ensures Scan(cfg, START, b.tags) == Err(code)
  {
  }

  lemma ReachedNext(cfg: Config, b: Blob, flags: seq<bool>, w: Walk, rs: seq<Region>, w': Walk, kept: bool)
    requires Reached(cfg, b, flags, w, rs, false)
    requires |flags| < |b.tags| && Visit(cfg, w, b.tags[|flags|]) == Go(w', kept)
    ensures var n := |flags|;
      var covered := kept || (b.tags[n].EndNode? && n > 0 && flags[n - 1]);
      Reached(cfg, b, flags + [kept], w',
              Grown(rs, b.base + Offset(b.tags, n), b.base + Offset(b.tags, n + 1), covered), b.tags[n].End?)
  {
    var n := |flags|;
    RunsNext(b.base, b.tags, flags, kept);
    if !b.tags[n].End? {
      assert b.tags[n..][1..] == b.tags[n + 1..];
      var rest := Scan(cfg, w', b.tags[n + 1..]);
      if rest.Ok? { assert flags + ([kept] + rest.value) == flags + [kept] + rest.value; }
    }
  }

  /** The state of the walk, read off the C variables. */
  ghost function WalkOf(want: nat, stack: array<nat>, depth: int, path: array<char>, end: nat, expectEnd: bool): Walk
    requires -1 <= depth < stack.Length && end < path.Length
    reads stack, path
  {
    Walk(want, stack[..depth + 1], path[..end], expectEnd)
  }

  /** The switch over one tag: a negative `err`, or the new state, `kept` and where a run would stop. */
  method Decide(listed: seq<string>, excluded: seq<string>, tag: Tag, stack: array<nat>, path: array<char>,
                depth: int, end: nat, want: nat, expectEnd: bool)
    returns (err: int, depth': int, end': nat, want': nat, expectEnd': bool, kept: bool, stopBefore: bool)
    requires stack.Length == FDT_MAX_DEPTH && -1 <= depth < FDT_MAX_DEPTH && end < path.Length
    modifies stack, path
    ensures end' < path.Length
    ensures match Visit(Config(listed, excluded, path.Length), old(WalkOf(want, stack, depth, path, end, expectEnd)), tag)
      case Fail(code) => err == code < 0
      case Go(w, k) =>
        && err == 0 && kept == k && -1 <= depth' < FDT_MAX_DEPTH
        && w == WalkOf(want', stack, depth', path, end', expectEnd')
        && (!kept ==> (stopBefore <==> !tag.EndNode?))
  {
    err, depth', end', want', expectEnd', kept, stopBefore := 0, depth, end, want, expectEnd, false, false;
    if expectEnd && !tag.End? {
      err := FDT_ERR_BADLAYOUT;
      return;
    }
    match tag {
      case Prop(key, _) =>
        kept := want >= 2;
        stopBefore := true;
        if key.None? {
          err := FDT_ERR_BADSTRUCTURE;
        } else if key.value in excluded {
          kept := false;
        }
      case Nop =>
        kept := want >= 2;
        stopBefore := true;
      case BeginNode(name) =>
        depth' := depth + 1;
        if depth' == FDT_MAX_DEPTH {
          err := FDT_ERR_BADSTRUCTURE;
          return;
        }
        if depth' == 0 && name != "" {
          err := FDT_ERR_BADLAYOUT;
          return;
        }
        if end + 2 + |name| >= path.Length {
          err := FDT_ERR_NOSPACE;
          return;
        }
        end' := AppendName(path, end, name);
        stack[depth'] := want;
        if want == 1 {
          stopBefore := true;
        }
        if path[..end'] in listed {
          want' := 2;
        } else if want > 0 {
          want' := want - 1;
        } else {
          stopBefore := true;
        }
        kept := want' > 0;
      case EndNode =>
        if depth < 0 {
          err := FDT_ERR_BADSTRUCTURE;
          return;
        }
        kept := want > 0;
        want' := stack[depth];
        depth' := depth - 1;
        end' := CutName(path, end);
        if depth' == -1 {
          expectEnd' := true;
        }
      case End =>
        kept := true;
    }
  }

  /** Decide about tag number `|flags|`, without touching the regions. */
  method DecideNext(ghost b: Blob, listed: seq<string>, excluded: seq<string>, tag: Tag, stack: array<nat>,
                    path: array<char>,
                depth: int, end: nat, want: nat, expectEnd: bool, ghost flags: seq<bool>, ghost rs: seq<Region>,
                ghost offset: nat, ghost open: bool)
    returns (err: int, depth': int, end': nat, want': nat, expectEnd': bool, kept: bool, stopBefore: bool,
             ghost rs': seq<Region>)
    requires stack.Length == FDT_MAX_DEPTH && -1 <= depth < FDT_MAX_DEPTH && end < path.Length
    requires |flags| < |b.tags| && tag == b.tags[|flags|] && offset == Offset(b.tags, |flags|)
    requires open == (|flags| > 0 && flags[|flags| - 1])
    requires Reached(Config(listed, excluded, path.Length), b, flags, WalkOf(want, stack, depth, path, end, expectEnd), rs, false)
    modifies stack, path
    ensures end' < path.Length && -1 <= depth' < FDT_MAX_DEPTH && err <= 0
    ensures err < 0 ==> Scan(Config(listed, excluded, path.Length), START, b.tags) == Err(err)
    ensures err == 0 ==>
      && (tag.End? ==> kept)
      && rs' == Grown(rs, b.base + offset, b.base + (offset + Size(tag)), kept || (open && !stopBefore))
      && Reached(Config(listed, excluded, path.Length), b, flags + [kept],
                 WalkOf(want', stack, depth', path, end', expectEnd'), rs', tag.End?)
  {
    ghost var cfg := Config(listed, excluded, path.Length);
    ghost var w := WalkOf(want, stack, depth, path, end, expectEnd);
    err, depth', end', want', expectEnd', kept, stopBefore :=
      Decide(listed, excluded, tag, stack, path, depth, end, want, expectEnd);
    rs' := Grown(rs, b.base + offset, b.base + (offset + Size(tag)), kept || (open && !stopBefore));
    if err < 0 {
      ReachedFail(cfg, b, flags, w, rs, err);
      depth' := depth;
    } else {
      ReachedNext(cfg, b, flags, w, rs, WalkOf(want', stack, depth', path, end', expectEnd'), kept);
    }
  }

  /** One turn of the tag loop. */
  method OneTag(b: Blob, listed: seq<string>, excluded: seq<string>, pos: nat, stack: array<nat>, path: array<char>,
                region: array<Region>, depth: int, end: nat, want: nat, expectEnd: bool, count: nat, start: int,
                offset: nat, ghost flags: seq<bool>, ghost rs: seq<Region>)
    returns (err: int, depth': int, end': nat, want': nat, expectEnd': bool, count': nat, start': int, next: nat,
             ghost kept: bool, ghost rs': seq<Region>)
    requires stack.Length == FDT_MAX_DEPTH && -1 <= depth < FDT_MAX_DEPTH && end < path.Length
    requires pos == |flags| < |b.tags| && offset == Offset(b.tags, pos)
    requires (start != -1) == (pos > 0 && flags[pos - 1])
    requires Reached(Config(listed, excluded, path.Length), b, flags, WalkOf(want, stack, depth, path, end, expectEnd), rs, false)
    requires Tracks(region, count, start, b.base, b.base + offset, rs)
    modifies stack, path, region
    ensures end' < path.Length && -1 <= depth' < FDT_MAX_DEPTH && err <= 0
    ensures err < 0 ==> Scan(Config(listed, excluded, path.Length), START, b.tags) == Err(err)
    ensures err == 0 ==>
      && next == Offset(b.tags, pos + 1)
      && (start' != -1) == kept && (b.tags[pos].End? ==> kept)
      && Reached(Config(listed, excluded, path.Length), b, flags + [kept],
                 WalkOf(want', stack, depth', path, end', expectEnd'), rs', b.tags[pos].End?)
      && Tracks(region, count', start', b.base, b.base + next, rs')
  {
    var k, stopBefore;
    var tag := b.tags[pos];
    err, depth', end', want', expectEnd', k, stopBefore, rs' :=
      DecideNext(b, listed, excluded, tag, stack, path, depth, end, want, expectEnd, flags, rs, offset, start != -1);
    count', start', next, kept := count, start, offset + Size(tag), k;
    if err == 0 {
      count', start' := Note(region, b.base, count, start, k, offset, next, stopBefore, rs, rs');
    }
  }

  /** The tag loop: a negative `err`, or the number of closed regions and the run left open by END. */
  method WalkTags(b: Blob, listed: seq<string>, excluded: seq<string>, region: array<Region>, path: array<char>)
    returns (err: int, count: nat, start: int, nextoffset: nat, ghost flags: seq<bool>)
    requires path.Length > 0
    modifies region, path
    ensures match Scan(Config(listed, excluded, path.Length), START, b.tags)
      case Err(code) => err == code < 0
      case Ok(inc) =>
        && err == 0 && inc == flags && |flags| <= |b.tags| && nextoffset == Offset(b.tags, |flags|)
        && start != -1
        && Tracks(region, count, start, b.base, b.base + nextoffset, Runs(b.base, b.tags, flags, |flags|))
  {
    var stack := new nat[FDT_MAX_DEPTH];
    var end: nat, pos: nat, want: nat := 0, 0, 0;
    var depth, expectEnd, done := -1, false, false;
    err, count, start, nextoffset, flags := 0, 0, -1, 0, [];
    path[0] := '\0';

    ghost var cfg := Config(listed, excluded, path.Length);
    ghost var rs: seq<Region> := [];
    ReachedStart(cfg, b);
    while !done
      invariant |flags| == pos <= |b.tags| && nextoffset == Offset(b.tags, pos)
      invariant err == 0 && end < path.Length && -1 <= depth < FDT_MAX_DEPTH
      invariant (start != -1) == (pos > 0 && flags[pos - 1]) && (done ==> start != -1)
      invariant Reached(cfg, b, flags, WalkOf(want, stack, depth, path, end, expectEnd), rs, done)
      invariant Tracks(region, count, start, b.base, b.base + nextoffset, rs)
      decreases !done, |b.tags| - pos
    {
      if pos == |b.tags| {
        // fdt_next_tag() reports END with a negative next offset
        err := FDT_ERR_BADLAYOUT;
        ReachedFail(cfg, b, flags, WalkOf(want, stack, depth, path, end, expectEnd), rs, err);
        return;
      }
      ghost var kept;
      done := b.tags[pos].End?;
      err, depth, end, want, expectEnd, count, start, nextoffset, kept, rs :=
        OneTag(b, listed, excluded, pos, stack, path, region, depth, end, want, expectEnd, count, start, nextoffset, flags, rs);
      if err < 0 {
        return;
      }
      flags, pos := flags + [kept], pos + 1;
    }
  }

  /** fdt_find_regions(); the arrays are the caller's region list and path buffer. */
  method FindRegions(b: Blob, listed: seq<string>, excluded: seq<string>, region: array<Region>,
                     path: array<char>, addStrings: bool)
    returns (r: int)
    requires path.Length > 0
    modifies region, path
    ensures match Regions(Config(listed, excluded, path.Length), b, addStrings)
      case Err(code) => r == code
      case Ok(rs) =>
        && rs != []
        && (|rs| <= region.Length ==> r == |rs| && region[..r] == rs)
        && (|rs| > region.Length ==> r > region.Length && region[..] == rs[..region.Length])
  {
    var count, start, nextoffset;
    ghost var flags;
    r, count, start, nextoffset, flags := WalkTags(b, listed, excluded, region, path);
    if r < 0 {
      return;
    }
    if nextoffset != b.structSize {
      return FDT_ERR_BADLAYOUT;
    }
    if count < region.Length {
      region[count] := Region(b.base + start, nextoffset - start);
      if addStrings {
        region[count] := Region(b.base + start, nextoffset - start + b.stringsSize);
      }
    }
    return count + 1;
  }
}
