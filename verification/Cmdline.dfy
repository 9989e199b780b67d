/**
 cmdline_set_arg() and cmdline_get_arg(): change, add, delete or find one argument of a kernel
 command line.
 */
module Cmdline {
  import opened CmdlineArgs

  const ENOENT := -2
  const E2BIG := -7
  const EBADF := -9
  const EINVAL := -22

  /** The new value: none at all (delete), no '=' sign (BOOTFLOWCL_EMPTY), or a text. */
  datatype Value = Delete | Bare | Text(text: string)

  datatype Result = Ok(line: string) | Err(code: int)

  /** A value with a space is quoted. */
  function Quoted(text: string): string {
    if ' ' in text then "\"" + text + "\"" else text
  }

  /** How an argument with a new value is written. */
  function Render(name: string, v: Value): string
    requires !v.Delete?
  {
    if v.Bare? then name else name + "=" + Quoted(v.text)
  }

  /** Every argument called `name` is replaced or deleted, the others stay. */
  function Edit(args: seq<string>, name: string, v: Value): seq<string>
    decreases |args|
  {
    if args == [] then []
    else
      var rest := Edit(args[1..], name, v);
      if Name(args[0]) != name then [args[0]] + rest
      else if v.Delete? then rest
      else [Render(name, v)] + rest
  }

  /** The argument list that the call asks for. */
  function Edited(args: seq<string>, name: string, v: Value): seq<string> {
    if Has(args, name) || v.Delete? then Edit(args, name, v) else args + [Render(name, v)]
  }

  function Trim(line: string): string {
    if line != "" && line[|line| - 1] == ' ' then line[..|line| - 1] else line
  }

  /** The answer of a call with room for `max` characters. */
  function Set(max: nat, s: string, name: string, v: Value): Result {
    var p := Args(s, 0);
    var body := Join(Edit(p.args, name, v));
    if v.Text? && '"' in v.text then Err(EBADF)
    else if s != "" && |body| >= max then Err(E2BIG)
    else if !p.closed then Err(EINVAL)
    else if Has(p.args, name) then Ok(Trim(body))
    else if v.Delete? then Err(ENOENT)
    else
      var line := Glue(body, Render(name, v));
      if |line| >= max then Err(E2BIG) else Ok(Trim(line))
  }

  // ----- the C functions -----

  /** Find the end of the argument at `from`, of its name, and its value. */
  method ScanArg(s: string, from: nat) returns (ok: bool, argEnd: nat, val: int, valEnd: nat)
    requires from < |s| && s[from] != ' '
    ensures ok <==> End(s, from, false) >= 0
    ensures ok ==> valEnd == End(s, from, false) && from < valEnd && argEnd == NameEnd(s, from, false, valEnd)
    ensures ok ==> val == if argEnd < valEnd then argEnd + 1 else -1
  {
    var p, inQuote, nameSeen := from, false, false;
    ok, argEnd, val, valEnd := true, from, -1, from;
    ghost var e := End(s, from, false);
    EndAfter(s, from);
    while true
      invariant from <= p <= |s| && End(s, p, inQuote) == e
      invariant nameSeen ==> argEnd < p && val == argEnd + 1
      invariant !nameSeen ==> val == -1
      invariant e >= 0 ==>
        p <= e && NameEnd(s, from, false, e) == if nameSeen then argEnd else NameEnd(s, p, inQuote, e)
      decreases |s| - p
    {
      if inQuote {
        if p == |s| {
          ok := false;
          return;
        }
        if s[p] == '"' {
          inQuote := false;
        }
      } else if p < |s| && s[p] == '=' && !nameSeen {
        nameSeen, argEnd, val := true, p, p + 1;
      } else if p < |s| && s[p] == '"' {
        inQuote := true;
      } else if p == |s| || s[p] == ' ' {
        valEnd := p;
        if !nameSeen {
          argEnd := p;
        }
        return;
      }
      p := p + 1;
    }
  }

  /** Write `text` at `to`. */
  method CopyText(buf: array<char>, to: nat, text: string)
    requires to + |text| <= buf.Length
    modifies buf
    ensures buf[..to + |text|] == old(buf[..to]) + text
  {
    forall i | 0 <= i < |text| {
      buf[to + i] := text[i];
    }
  }

  /** The text of copy_in() behind the "=". */
  method CopyValue(buf: array<char>, to: nat, text: string) returns (upto: nat)
    requires to + |Quoted(text)| <= buf.Length
    modifies buf
    ensures upto == to + |Quoted(text)| && buf[..upto] == old(buf[..to]) + Quoted(text)
  {
    var needQuote := ' ' in text;
    upto := to;
    if needQuote {
      CopyText(buf, upto, "\"");
      upto := upto + 1;
    }
    CopyText(buf, upto, text);
    upto := upto + |text|;
    if needQuote {
      CopyText(buf, upto, "\"");
      upto := upto + 1;
    }
  }

  /** copy_in(): the name and the new value, if they fit. */
  method CopyIn(buf: array<char>, to: nat, name: string, v: Value) returns (ret: int)
    requires to <= buf.Length && !v.Delete?
    modifies buf
    ensures if to + |Render(name, v)| < buf.Length
      then ret == |Render(name, v)| && buf[..to + ret] == old(buf[..to]) + Render(name, v)
      else ret == E2BIG
  {
    if to + |name| >= buf.Length {
      return E2BIG;
    }
    ghost var front := buf[..to];
    CopyText(buf, to, name);
    var upto := to + |name|;
    if v.Text? {
      var needQuote := ' ' in v.text;
      if upto + 1 + (if needQuote then 2 else 0) + |v.text| >= buf.Length {
        return E2BIG;
      }
      CopyText(buf, upto, "=");
      upto := CopyValue(buf, upto + 1, v.text);
      assert front + name + "=" + Quoted(v.text) == front + (name + "=" + Quoted(v.text));
    }
    return upto - to;
  }

  /** The output after one more argument. */
  function Next(line: string, arg: string, name: string, v: Value): string {
    if Name(arg) != name then Glue(line, arg)
    else if v.Delete? then line
    else Glue(line, Render(name, v))
  }

  /** One argument of the line, as the loop sees it. */
  lemma {:induction false} ArgStep(s: string, from: nat, name: string, v: Value, line: string)
    requires from < |s| && s[from] != ' '
    ensures var e := End(s, from, false);
      if e < 0 then Args(s, from) == Parsed([], false)
      else
        var arg, rest := s[from..e], Args(s, e);
        && Args(s, from) == Parsed([arg] + rest.args, rest.closed)
        && Name(arg) == s[from..NameEnd(s, from, false, e)]
        && JoinAfter(line, Edit([arg] + rest.args, name, v)) == JoinAfter(Next(line, arg, name, v), Edit(rest.args, name, v))
        && (Has([arg] + rest.args, name) <==> Name(arg) == name || Has(rest.args, name))
  {
    var e := End(s, from, false);
    EndAfter(s, from);
    if e >= 0 {
      var arg, rest := s[from..e], Args(s, e).args;
      NameEndMoves(s, arg, from, false, e, 0 - from);
      var more := [arg] + rest;
      assert more[0] == arg && more[1..] == rest;
      if Has(rest, name) {
        var i :| 0 <= i < |rest| && Name(rest[i]) == name;
        assert more[i + 1] == rest[i];
      }
      var done := Edit(rest, name, v);
      if Name(arg) != name {
        assert ([arg] + done)[0] == arg && ([arg] + done)[1..] == done;
      } else if !v.Delete? {
        var r := Render(name, v);
        assert ([r] + done)[0] == r && ([r] + done)[1..] == done;
      }
    }
  }

  /** A separating space, then the argument itself if it fits. */
  method PutArg(buf: array<char>, to: nat, s: string, from: nat, argEnd: nat, valEnd: nat, name: string, v: Value)
    returns (err: int, to': nat, from': nat, found: bool)
    requires to <= buf.Length && from <= argEnd <= valEnd <= |s| && Name(s[from..valEnd]) == s[from..argEnd]
    modifies buf
    ensures found == (Name(s[from..valEnd]) == name) && to' <= buf.Length
    ensures var line' := Next(old(buf[..to]), s[from..valEnd], name, v);
      if err == 0 then to' == |line'| <= buf.Length && buf[..to'] == line' && (to' < buf.Length || to' == to)
      else err == E2BIG && |line'| >= buf.Length
    ensures err == 0 ==> (from' == valEnd || (from' == valEnd + 1 && from' <= |s| && s[valEnd] == ' '))
  {
    err, to', from', found := 0, to, valEnd, false;
    ghost var line := buf[..to];
    var arg := s[from..valEnd];
    found := argEnd - from == |name| && s[from..argEnd] == name;
    if to' != 0 {
      if to' >= buf.Length {
        err := E2BIG;
        return;
      }
      CopyText(buf, to', " ");
      to' := to' + 1;
    }
    ghost var spaced := if line == "" then "" else line + " ";
    assert buf[..to'] == spaced;
    if found && v.Delete? {
      from' := if valEnd < |s| && s[valEnd] == ' ' then valEnd + 1 else valEnd;
      if to' != 0 {
        to' := to' - 1;
      }
      assert buf[..to'] == line;
    } else if found {
      var ret := CopyIn(buf, to', s[from..argEnd], v);
      if ret < 0 {
        err := E2BIG;
        return;
      }
      assert Glue(line, Render(name, v)) == spaced + Render(name, v);
      to' := to' + ret;
    } else {
      if to' + |arg| >= buf.Length {
        err := E2BIG;
        return;
      }
      CopyText(buf, to', arg);
      assert Glue(line, arg) == spaced + arg;
      to' := to' + |arg|;
    }
  }

  method SkipSpaces(s: string, from: nat) returns (from': nat)
    requires from <= |s|
    ensures from <= from' <= |s| && Args(s, from') == Args(s, from)
    ensures from' == |s| || s[from'] != ' '
  {
    from' := from;
    while from' < |s| && s[from'] == ' '
      invariant from <= from' <= |s| && Args(s, from') == Args(s, from)
    {
      from' := from' + 1;
    }
  }

  /** What is still to come: the rest of the line gives the rest of the output. */
  ghost predicate Pending(s: string, from: nat, line: string, found: bool, name: string, v: Value) {
    var all := Args(s, 0);
    && from <= |s|
    && JoinAfter(line, Edit(Args(s, from).args, name, v)) == Join(Edit(all.args, name, v))
    && Args(s, from).closed == all.closed
    && (Has(all.args, name) <==> found || Has(Args(s, from).args, name))
  }

  lemma {:induction false} PendingNext(s: string, from: nat, line: string, found: bool, name: string, v: Value,
                                       from': nat)
    requires Pending(s, from, line, found, name, v) && from < |s| && s[from] != ' ' && End(s, from, false) >= 0
    requires var e := End(s, from, false); from' == e || (e < |s| && s[e] == ' ' && from' == e + 1)
    ensures var arg := s[from..End(s, from, false)];
      Pending(s, from', Next(line, arg, name, v), found || Name(arg) == name, name, v)
  {
    ArgStep(s, from, name, v, line);
    var e := End(s, from, false);
    assert Args(s, from') == Args(s, e);
  }

  /** The loop over the arguments: the output so far, or an error. */
  method EditArgs(buf: array<char>, s: string, name: string, v: Value) returns (err: int, to: nat, found: bool)
    modifies buf
    ensures to <= buf.Length
    ensures var p := Args(s, 0);
      var body := Join(Edit(p.args, name, v));
      && err == (if s != "" && |body| >= buf.Length then E2BIG else if !p.closed then EINVAL else 0)
      && (err == 0 ==> buf[..to] == body && found == Has(p.args, name))
  {
    var from := 0;
    err, to, found := 0, 0, false;
    ghost var body := Join(Edit(Args(s, 0).args, name, v));
    assert buf[..0] == "";
    while from < |s|
      invariant err == 0 && from <= |s| && to <= buf.Length && (from > 0 ==> to < buf.Length)
      invariant Pending(s, from, buf[..to], found, name, v)
      decreases |s| - from
    {
      ghost var line, rest := buf[..to], Edit(Args(s, from).args, name, v);
      JoinLonger(line, rest);
      if to >= buf.Length {
        err := E2BIG;
        return;
      }
      from := SkipSpaces(s, from);
      if from == |s| {
        break;
      }
      var ok, argEnd, val, valEnd := ScanArg(s, from);
      ArgStep(s, from, name, v, line);
      if !ok {
        err := EINVAL;
        return;
      }
      var from', matched;
      PendingNext(s, from, line, found, name, v, valEnd);
      JoinLonger(Next(line, s[from..valEnd], name, v), Edit(Args(s, valEnd).args, name, v));
      err, to, from', matched := PutArg(buf, to, s, from, argEnd, valEnd, name, v);
      if err < 0 {
        return;
      }
      PendingNext(s, from, line, found, name, v, from');
      found, from := found || matched, from';
    }
  }

  lemma {:induction false} EditNothing(args: seq<string>, name: string, v: Value)
    requires !Has(args, name)
    ensures Edit(args, name, v) == args
    decreases |args|
  {
    if args != [] {
      assert Name(args[0]) != name;
      assert forall i :: 0 <= i < |args[1..]| ==> args[1..][i] == args[i + 1];
      EditNothing(args[1..], name, v);
    }
  }

  /** The argument was not found: add it at the end. */
  method AppendArg(buf: array<char>, to: nat, name: string, v: Value) returns (ret: int)
    requires to <= buf.Length && !v.Delete? && (to > 0 ==> buf[to - 1] != ' ')
    modifies buf
    ensures var line := Glue(old(buf[..to]), Render(name, v));
      if |line| < buf.Length then ret == |line| && buf[..ret] == line else ret == E2BIG
  {
    ghost var line := buf[..to];
    var upto := to;
    if upto >= buf.Length {
      return E2BIG;
    }
    if upto != 0 && buf[upto - 1] != ' ' {
      CopyText(buf, upto, " ");
      upto := upto + 1;
    }
    ghost var spaced := if line == "" then "" else line + " ";
    assert buf[..upto] == spaced && Glue(line, Render(name, v)) == spaced + Render(name, v);
    ret := CopyIn(buf, upto, name, v);
    if ret >= 0 {
      ret := upto + ret;
    }
  }

  /** Delete a trailing space and end the line. */
  method FinishLine(buf: array<char>, to: nat) returns (ret: int)
    requires to <= buf.Length
    modifies buf
    ensures var line := Trim(old(buf[..to]));
      if |line| < buf.Length then ret == |line| + 1 && buf[..ret] == line + ['\0'] else ret == E2BIG
  {
    var upto := to;
    if upto > 0 && buf[upto - 1] == ' ' {
      upto := upto - 1;
    }
    ghost var line := buf[..upto];
    assert line == Trim(buf[..to]);
    if upto >= buf.Length {
      return E2BIG;
    }
    buf[upto] := '\0';
    assert buf[..upto + 1] == line + ['\0'];
    return upto + 1;
  }

  /** cmdline_set_arg() with a buffer. */
  method SetArg(buf: array<char>, s: string, name: string, v: Value) returns (ret: int)
    modifies buf
    ensures match Set(buf.Length, s, name, v)
      case Err(code) => ret == code
      case Ok(line) => ret == |line| + 1 <= buf.Length && buf[..ret] == line + ['\0']
  {
    if v.Text? && '"' in v.text {
      return EBADF;
    }
    var to, foundArg;
    ret, to, foundArg := EditArgs(buf, s, name, v);
    if ret < 0 {
      return;
    }
    if !foundArg {
      if v.Delete? {
        return ENOENT;
      }
      ghost var args := Args(s, 0).args;
      EditNothing(args, name, v);
      ArgsSolid(s, 0);
      JoinNoSpace("", args);
      assert to > 0 ==> buf[to - 1] == buf[..to][to - 1];
      ret := AppendArg(buf, to, name, v);
      if ret < 0 {
        return;
      }
      to := ret;
    }
    ret := FinishLine(buf, to);
  }

  // ----- reading -----

  /** Where a value is, or why there is none. */
  datatype Found = At(pos: int, len: int) | Missing(code: int)

  /** The value of the first argument called `name`, without quotes around it. */
  function Get(s: string, from: nat, name: string): Found
    requires from <= |s|
    decreases |s| - from
  {
    if from == |s| then Missing(ENOENT)
    else if s[from] == ' ' then Get(s, from + 1, name)
    else
      var e := End(s, from, false);
      EndAfter(s, from);
      if e < 0 then Missing(EINVAL)
      else
        var n := NameEnd(s, from, false, e);
        if s[from..n] == name then ValueAt(s, n, e) else Get(s, e, name)
  }

  function ValueAt(s: string, n: nat, e: nat): Found
    requires n <= e <= |s| && 0 < e
  {
    var val, quote := if n < e then n + 1 else e, if s[e - 1] == '"' then 1 else 0;
    At(val + quote, e - val - 2 * quote)
  }

  /** cmdline_get_arg(), that is cmdline_set_arg() without a buffer. */
  method GetArg(s: string, name: string) returns (ret: int, pos: int)
    ensures match Get(s, 0, name)
      case At(p, len) => ret == len && pos == p
      case Missing(code) => ret == code
  {
    var from := 0;
    pos := 0;
    while from < |s|
      invariant from <= |s| && Get(s, from, name) == Get(s, 0, name)
      decreases |s| - from
    {
      var start := from;
      while from < |s| && s[from] == ' '
        invariant start <= from <= |s| && Get(s, from, name) == Get(s, 0, name)
      {
        from := from + 1;
      }
      if from == |s| {
        break;
      }
      var ok, argEnd, val, valEnd := ScanArg(s, from);
      if !ok {
        return EINVAL, 0;
      }
      if argEnd - from == |name| && s[from..argEnd] == name {
        var hasQuote := if s[valEnd - 1] == '"' then 1 else 0;
        if val == -1 {
          val := valEnd;
        }
        return valEnd - val - 2 * hasQuote, val + hasQuote;
      }
      from := valEnd;
    }
    return ENOENT, 0;
  }
}
