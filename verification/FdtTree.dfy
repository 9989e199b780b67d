/**
 The tags of a well-formed device tree, and the tags that a recursive reading of the tree keeps.
 fdt_find_regions() is shown to keep exactly those.
 */
module FdtTree {
  import opened Wrappers
  import opened FdtTags
  import opened FdtRuns
  import opened FdtFind

  /** The inside of a node: properties, NOPs and subnodes, in order. */
  datatype Forest =
    | Done
    | PropThen(key: string, len: nat, rest: Forest)
    | NopThen(rest: Forest)
    | NodeThen(name: string, body: Forest, rest: Forest)

  function Flatten(f: Forest): seq<Tag> {
    match f
    case Done => []
    case PropThen(key, len, rest) => [Prop(Some(key), len)] + Flatten(rest)
    case NopThen(rest) => [Nop] + Flatten(rest)
    case NodeThen(name, body, rest) => [BeginNode(name)] + (Flatten(body) + ([EndNode] + Flatten(rest)))
  }

  /** A whole structure block: some NOPs, the root node, END. */
  function Stream(nops: nat, body: Forest): seq<Tag> {
    if nops == 0 then [BeginNode("")] + (Flatten(body) + [EndNode, End])
    else [Nop] + Stream(nops - 1, body)
  }

  /** No node name holds a '/'. */
  predicate PlainNames(f: Forest) {
    match f
    case Done => true
    case PropThen(_, _, rest) => PlainNames(rest)
    case NopThen(rest) => PlainNames(rest)
    case NodeThen(name, body, rest) => '/' !in name && PlainNames(body) && PlainNames(rest)
  }

  /**
   What to keep of the inside of the node at `path`: properties and NOPs of a listed node, unless
   excluded by name; the BEGIN_NODE and END_NODE of a node that is listed or whose parent is.
   */
  function Keep(cfg: Config, f: Forest, path: string): seq<bool> {
    var listed := path in cfg.listed;
    match f
    case Done => []
    case PropThen(key, _, rest) => [listed && key !in cfg.excluded] + Keep(cfg, rest, path)
    case NopThen(rest) => [listed] + Keep(cfg, rest, path)
    case NodeThen(name, body, rest) =>
      var sub := Join(path, name);
      var node := listed || sub in cfg.listed;
      [node] + (Keep(cfg, body, sub) + ([node] + Keep(cfg, rest, path)))
  }

  function KeepStream(cfg: Config, nops: nat, body: Forest): seq<bool> {
    var root := "/" in cfg.listed;
    if nops == 0 then [root] + (Keep(cfg, body, "/") + [root, true])
    else [false] + KeepStream(cfg, nops - 1, body)
  }

  /** What the path buffer holds once the walk has left the nodes of `f`: the root's "/" is cut to "". */
  function Settled(buffer: string, f: Forest): string {
    match f
    case Done => buffer
    case PropThen(_, _, rest) => Settled(buffer, rest)
    case NopThen(rest) => Settled(buffer, rest)
    case NodeThen(_, _, _) => if buffer == "/" then "" else buffer
  }

  /** The error of the first node, in document order, that is too deep or too long; 0 if there is none. */
  function Fault(pathLen: nat, f: Forest, buffer: string, depth: nat): int {
    match f
    case Done => 0
    case PropThen(_, _, rest) => Fault(pathLen, rest, buffer, depth)
    case NopThen(rest) => Fault(pathLen, rest, buffer, depth)
    case NodeThen(name, body, rest) =>
      if depth >= FDT_MAX_DEPTH then FDT_ERR_BADSTRUCTURE
      else if |buffer| + 2 + |name| >= pathLen then FDT_ERR_NOSPACE
      else
        var inner := Fault(pathLen, body, Push(buffer, name), depth + 1);
        if inner != 0 then inner else Fault(pathLen, rest, Settled(buffer, f), depth)
  }

  /** The error of the whole tree: the root's own path must fit, too. */
  function TreeFault(pathLen: nat, body: Forest): int {
    if pathLen <= 2 then FDT_ERR_NOSPACE else Fault(pathLen, body, "/", 1)
  }

  /** The buffer stands for the node at `path`. */
  predicate Stands(buffer: string, path: string) {
    && path != ""
    && (buffer == path || (buffer == "" && path == "/"))
    && (|path| == 1 ==> path == "/")
  }

  lemma StandsPush(buffer: string, path: string, name: string)
    requires Stands(buffer, path)
    ensures Push(buffer, name) == Join(path, name) && Stands(Push(buffer, name), Join(path, name))
  {
  }

  lemma PrependPrepend(a: seq<bool>, b: seq<bool>, r: Result<seq<bool>>)
    ensures Prepend(a, Prepend(b, r)) == Prepend(a + b, r)
  {
    if r.Ok? { assert a + (b + r.value) == a + b + r.value; }
  }

  lemma PopSettled(buffer: string, path: string, name: string, body: Forest)
    requires Stands(buffer, path) && '/' !in name
    ensures Pop(Settled(Push(buffer, name), body)) == if buffer == "/" then "" else buffer
  {
    PopPush(buffer, name);
    SettledEither(Push(buffer, name), body);
  }

  lemma {:induction false} SettledEither(buffer: string, f: Forest)
    ensures Settled(buffer, f) == buffer || (buffer == "/" && Settled(buffer, f) == "")
  {
    match f
    case PropThen(_, _, rest) => SettledEither(buffer, rest);
    case NopThen(rest) => SettledEither(buffer, rest);
    case _ =>
  }

  /** Walking the inside of a node keeps what `Keep` keeps, and comes back to the same state. */
  lemma {:induction false} ScanForest(cfg: Config, f: Forest, path: string, w: Walk, tail: seq<Tag>)
    requires PlainNames(f) && Stands(w.buffer, path)
    requires w.saved != [] && |w.saved| <= FDT_MAX_DEPTH && !w.rootDone
    requires w.want <= 2 && (w.want == 2 <==> path in cfg.listed)
    ensures var fault := Fault(cfg.pathLen, f, w.buffer, |w.saved|);
      Scan(cfg, w, Flatten(f) + tail) ==
      if fault == 0 then Prepend(Keep(cfg, f, path), Scan(cfg, w.(buffer := Settled(w.buffer, f)), tail))
      else Err(fault)
    decreases f, 1
  {
    match f
    case Done =>
      assert Flatten(f) + tail == tail;
      var r := Scan(cfg, w, tail);
      if r.Ok? { assert [] + r.value == r.value; }
    case PropThen(key, _, rest) =>
      assert (Flatten(f) + tail)[1..] == Flatten(rest) + tail;
      ScanForest(cfg, rest, path, w, tail);
      PrependPrepend([path in cfg.listed && key !in cfg.excluded], Keep(cfg, rest, path),
                     Scan(cfg, w.(buffer := Settled(w.buffer, f)), tail));
    case NopThen(rest) =>
      assert (Flatten(f) + tail)[1..] == Flatten(rest) + tail;
      ScanForest(cfg, rest, path, w, tail);
      PrependPrepend([path in cfg.listed], Keep(cfg, rest, path), Scan(cfg, w.(buffer := Settled(w.buffer, f)), tail));
    case NodeThen(name, body, rest) =>
      ScanNode(cfg, name, body, rest, path, w, tail);
  }

  lemma {:induction false} ScanNode(cfg: Config, name: string, body: Forest, rest: Forest, path: string, w: Walk,
                                    tail: seq<Tag>)
    requires PlainNames(NodeThen(name, body, rest)) && Stands(w.buffer, path)
    requires w.saved != [] && |w.saved| <= FDT_MAX_DEPTH && !w.rootDone
    requires w.want <= 2 && (w.want == 2 <==> path in cfg.listed)
    ensures var f := NodeThen(name, body, rest);
      var fault := Fault(cfg.pathLen, f, w.buffer, |w.saved|);
      Scan(cfg, w, Flatten(f) + tail) ==
      if fault == 0 then Prepend(Keep(cfg, f, path), Scan(cfg, w.(buffer := Settled(w.buffer, f)), tail))
      else Err(fault)
    decreases NodeThen(name, body, rest), 0
  {
    var f := NodeThen(name, body, rest);
    var tail' := Flatten(rest) + tail;
    assert Flatten(f) + tail == [BeginNode(name)] + (Flatten(body) + ([EndNode] + tail'));
    ScanSubnode(cfg, name, body, path, w, tail');
    var step := Enter(cfg, w, name);
    if step.Go? && Fault(cfg.pathLen, body, step.walk.buffer, |step.walk.saved|) == 0 {
      var w2 := w.(buffer := Settled(w.buffer, f));
      StandsPush(w.buffer, path, name);
      ScanForest(cfg, rest, path, w2, tail);
      SettledEither(w2.buffer, rest);
      PrependFour([step.kept], Keep(cfg, body, Join(path, name)), Keep(cfg, rest, path), Scan(cfg, w2, tail));
    }
  }

  /** From a subnode's BEGIN_NODE to its END_NODE. */
  lemma {:induction false} ScanSubnode(cfg: Config, name: string, body: Forest, path: string, w: Walk, tail: seq<Tag>)
    requires '/' !in name && PlainNames(body) && Stands(w.buffer, path)
    requires w.saved != [] && |w.saved| <= FDT_MAX_DEPTH && !w.rootDone
    requires w.want <= 2 && (w.want == 2 <==> path in cfg.listed)
    ensures var step := Enter(cfg, w, name);
      Scan(cfg, w, [BeginNode(name)] + (Flatten(body) + ([EndNode] + tail))) ==
      if step.Fail? then Err(step.code)
      else
        var fault := Fault(cfg.pathLen, body, step.walk.buffer, |step.walk.saved|);
        if fault != 0 then Err(fault)
        else Prepend([step.kept], Prepend(Keep(cfg, body, Join(path, name)), Prepend([step.kept],
               Scan(cfg, w.(buffer := if w.buffer == "/" then "" else w.buffer), tail))))
    decreases body, 2
  {
    var after := [EndNode] + tail;
    ScanEnter(cfg, w, name, Flatten(body) + after);
    var step := Enter(cfg, w, name);
    if step.Go? {
      StandsPush(w.buffer, path, name);
      ScanForest(cfg, body, Join(path, name), step.walk, after);
      if Fault(cfg.pathLen, body, step.walk.buffer, |step.walk.saved|) == 0 {
        ScanLeave(cfg, w, path, name, body, step, tail, w.(buffer := if w.buffer == "/" then "" else w.buffer));
      }
    }
  }

  lemma PrependFour(a: seq<bool>, b: seq<bool>, c: seq<bool>, r: Result<seq<bool>>)
    ensures Prepend(a, Prepend(b, Prepend(a, Prepend(c, r)))) == Prepend(a + (b + (a + c)), r)
  {
    PrependPrepend(a, c, r);
    PrependPrepend(b, a + c, r);
    PrependPrepend(a, b + (a + c), r);
  }

  lemma ScanEnter(cfg: Config, w: Walk, name: string, tail: seq<Tag>)
    requires !w.rootDone
    ensures var step := Enter(cfg, w, name);
      Scan(cfg, w, [BeginNode(name)] + tail) ==
      if step.Fail? then Err(step.code) else Prepend([step.kept], Scan(cfg, step.walk, tail))
  {
    assert ([BeginNode(name)] + tail)[1..] == tail;
  }

  /** The END_NODE that closes the node entered from `w` restores `w`, but for the root's buffer. */
  lemma ScanLeave(cfg: Config, w: Walk, path: string, name: string, body: Forest, step: Step, tail: seq<Tag>, w2: Walk)
    requires Stands(w.buffer, path) && '/' !in name && w.saved != [] && !w.rootDone
    requires step == Enter(cfg, w, name) && step.Go?
    requires w2 == w.(buffer := if w.buffer == "/" then "" else w.buffer)
    ensures Scan(cfg, step.walk.(buffer := Settled(step.walk.buffer, body)), [EndNode] + tail) ==
      Prepend([step.kept], Scan(cfg, w2, tail))
  {
    PopSettled(w.buffer, path, name, body);
    var w1 := step.walk.(buffer := Settled(step.walk.buffer, body));
    assert w1.saved[..|w.saved|] == w.saved;
    assert Leave(w1) == Go(w2, step.kept);
    assert ([EndNode] + tail)[1..] == tail;
  }

  lemma ScanEnd(cfg: Config, w: Walk)
    requires |w.saved| == 1 && w.saved[0] == 0 && !w.rootDone
    ensures Scan(cfg, w, [EndNode, End]) == Ok([w.want > 0, true])
  {
    assert [EndNode, End][1..] == [End];
    assert Leave(w) == Go(Walk(0, [], Pop(w.buffer), true), w.want > 0);
    assert [w.want > 0] + [true] == [w.want > 0, true];
  }

  lemma ScanRoot(cfg: Config, body: Forest)
    requires PlainNames(body) && cfg.pathLen > 2
    ensures var fault := Fault(cfg.pathLen, body, "/", 1);
      Scan(cfg, START, Stream(0, body)) == if fault == 0 then Ok(KeepStream(cfg, 0, body)) else Err(fault)
  {
    var w := Enter(cfg, START, "").walk;
    assert Stream(0, body)[1..] == Flatten(body) + [EndNode, End];
    ScanForest(cfg, body, "/", w, [EndNode, End]);
    ScanEnd(cfg, w.(buffer := Settled("/", body)));
  }

  lemma {:induction false} ScanStream(cfg: Config, nops: nat, body: Forest)
    requires PlainNames(body)
    ensures var fault := TreeFault(cfg.pathLen, body);
      Scan(cfg, START, Stream(nops, body)) == if fault == 0 then Ok(KeepStream(cfg, nops, body)) else Err(fault)
  {
    if nops > 0 {
      assert Stream(nops, body)[1..] == Stream(nops - 1, body);
      ScanStream(cfg, nops - 1, body);
    } else if cfg.pathLen > 2 {
      ScanRoot(cfg, body);
    }
  }

  lemma {:induction false} KeepLength(cfg: Config, f: Forest, path: string)
    ensures |Keep(cfg, f, path)| == |Flatten(f)|
  {
    match f
    case Done =>
    case PropThen(_, _, rest) => KeepLength(cfg, rest, path);
    case NopThen(rest) => KeepLength(cfg, rest, path);
    case NodeThen(name, body, rest) =>
      KeepLength(cfg, body, Join(path, name));
      KeepLength(cfg, rest, path);
  }

  lemma {:induction false} KeepStreamLength(cfg: Config, nops: nat, body: Forest)
    ensures |KeepStream(cfg, nops, body)| == |Stream(nops, body)|
  {
    if nops == 0 { KeepLength(cfg, body, "/"); } else { KeepStreamLength(cfg, nops - 1, body); }
  }

  /**
   For a tree with plain names the regions are separated and hold exactly the bytes of the tags
   that `KeepStream` keeps, of an END_NODE right after a kept tag, and of the END tag (with the
   strings block behind it). The call fails iff some node is too deep or its path too long.
   */
  lemma FindKeepsTree(cfg: Config, b: Blob, nops: nat, body: Forest, addStrings: bool)
    requires PlainNames(body)
    requires b.tags == Stream(nops, body) && b.structSize == Offset(b.tags, |b.tags|)
    ensures |KeepStream(cfg, nops, body)| == |b.tags|
    ensures var fault := TreeFault(cfg.pathLen, body);
      var r := Regions(cfg, b, addStrings);
      var strings := if addStrings then b.stringsSize else 0;
      if fault != 0 then r == Err(fault)
      else
        && r.Ok? && Separated(r.value) && r.value != []
        && Stop(r.value[|r.value| - 1]) == b.base + b.structSize + strings
        && forall x :: x < b.base + b.structSize ==>
            (Holds(r.value, x) <==> Selected(b.base, b.tags, KeepStream(cfg, nops, body), |b.tags|, x))
  {
    KeepStreamLength(cfg, nops, body);
    ScanStream(cfg, nops, body);
    if TreeFault(cfg.pathLen, body) == 0 {
      KeptRegions(cfg, b, KeepStream(cfg, nops, body), addStrings);
    }
  }

  lemma KeptRegions(cfg: Config, b: Blob, inc: seq<bool>, addStrings: bool)
    requires Scan(cfg, START, b.tags) == Ok(inc) && |inc| == |b.tags| && b.structSize == Offset(b.tags, |b.tags|)
    ensures var r := Regions(cfg, b, addStrings);
      && r.Ok? && Separated(r.value) && r.value != []
      && Stop(r.value[|r.value| - 1]) == b.base + b.structSize + (if addStrings then b.stringsSize else 0)
      && forall x :: x < b.base + b.structSize ==>
          (Holds(r.value, x) <==> Selected(b.base, b.tags, inc, |b.tags|, x))
  {
    ScanLength(cfg, START, b.tags);
    var more := if addStrings then b.stringsSize else 0;
    LastTag(b, inc);
    var longer := Extend(Runs(b.base, b.tags, inc, |inc|), b.base + b.structSize + more);
    assert Regions(cfg, b, addStrings) == Ok(longer);
    KeptBytes(b, inc, more, longer);
  }

  lemma LastTag(b: Blob, inc: seq<bool>)
    requires |inc| == |b.tags| > 0 && inc[|inc| - 1]
    ensures var rs := Runs(b.base, b.tags, inc, |inc|);
      rs != [] && Stop(rs[|rs| - 1]) == b.base + Offset(b.tags, |b.tags|)
  {
  }

  lemma KeptBytes(b: Blob, inc: seq<bool>, more: nat, longer: seq<Region>)
    requires |inc| == |b.tags| > 0 && inc[|inc| - 1] && b.structSize == Offset(b.tags, |b.tags|)
    requires Runs(b.base, b.tags, inc, |inc|) != []
    requires longer == Extend(Runs(b.base, b.tags, inc, |inc|), b.base + b.structSize + more)
    ensures Separated(longer)
    ensures forall x :: x < b.base + b.structSize ==>
      (Holds(longer, x) <==> Selected(b.base, b.tags, inc, |b.tags|, x))
  {
    LastTag(b, inc);
    RunsExact(b.base, b.tags, inc, |inc|);
    Stretch(Runs(b.base, b.tags, inc, |inc|), b.base + b.structSize, more);
  }

  /** Moving the end of the last region further out keeps the list separated. */
  lemma Stretch(rs: seq<Region>, end: int, more: nat)
    requires Separated(rs) && rs != [] && Stop(rs[|rs| - 1]) == end
    ensures Separated(Extend(rs, end + more))
    ensures forall x :: x < end ==> (Holds(Extend(rs, end + more), x) <==> Holds(rs, x))
  {
    var longer := Extend(rs, end + more);
    forall x | x < end
      ensures Holds(longer, x) <==> Holds(rs, x)
    {
      if Holds(rs, x) {
        var k :| 0 <= k < |rs| && rs[k].offset <= x < Stop(rs[k]);
        assert longer[k].offset <= x < Stop(longer[k]);
      }
      if Holds(longer, x) {
        var k :| 0 <= k < |longer| && longer[k].offset <= x < Stop(longer[k]);
        assert rs[k].offset <= x < Stop(rs[k]);
      }
    }
  }
}
