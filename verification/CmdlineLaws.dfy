/**
 What setting, reading and deleting an argument mean for the argument list of a command line.
 */
module CmdlineLaws {
  import opened CmdlineArgs
  import opened Cmdline

  predicate PlainName(name: string) {
    ' ' !in name && '=' !in name && '"' !in name
  }

  /** An argument that can be written and read back; without a value it needs a name. */
  predicate Settable(name: string, v: Value) {
    PlainName(name) && (v.Text? ==> '"' !in v.text) && (v.Bare? ==> name != "")
  }

  // ----- a written argument is one argument with that name -----

  lemma {:induction false} EndPlain(s: string, p: nat, e: nat)
    requires p <= e <= |s| && forall i :: p <= i < e ==> s[i] != ' ' && s[i] != '"'
    ensures End(s, p, false) == End(s, e, false)
    decreases e - p
  {
    if p < e { EndPlain(s, p + 1, e); }
  }

  lemma {:induction false} EndQuoted(s: string, p: nat, e: nat)
    requires p <= e <= |s| && forall i :: p <= i < e ==> s[i] != '"'
    ensures End(s, p, true) == End(s, e, true)
    decreases e - p
  {
    if p < e { EndQuoted(s, p + 1, e); }
  }

  lemma {:induction false} NameEndPlain(s: string, p: nat, n: nat, e: nat)
    requires p <= n <= e <= |s| && forall i :: p <= i < n ==> s[i] != '=' && s[i] != '"'
    requires n < e ==> s[n] == '='
    ensures NameEnd(s, p, false, e) == n
    decreases n - p
  {
    if p < n { NameEndPlain(s, p + 1, n, e); }
  }

  lemma RenderSolid(name: string, v: Value)
    requires Settable(name, v) && !v.Delete?
    ensures Solid(Render(name, v)) && Name(Render(name, v)) == name
  {
    var r, n := Render(name, v), |name|;
    assert r[..n] == name;
    assert forall i :: 0 <= i < n ==> r[i] == name[i];
    NameEndPlain(r, 0, n, |r|);
    if v.Text? && ' ' in v.text {
      QuotedSolid(name, v.text);
    } else {
      assert v.Text? ==> forall i :: n + 1 <= i < |r| ==> r[i] == v.text[i - (n + 1)];
      EndPlain(r, 0, |r|);
    }
  }

  lemma QuotedSolid(name: string, text: string)
    requires Settable(name, Text(text)) && ' ' in text
    ensures Solid(Render(name, Text(text)))
  {
    var r, n := Render(name, Text(text)), |name|;
    assert forall i :: 0 <= i < n ==> r[i] == name[i];
    EndPlain(r, 0, n + 1);
    assert r[n + 1] == '"' && forall i :: n + 2 <= i < |r| - 1 ==> r[i] == text[i - (n + 2)];
    EndQuoted(r, n + 2, |r| - 1);
  }

  // ----- the edited list -----

  lemma HasTail(args: seq<string>, name: string)
    requires args != []
    ensures Has(args, name) <==> Name(args[0]) == name || Has(args[1..], name)
  {
    assert forall i :: 0 <= i < |args[1..]| ==> args[1..][i] == args[i + 1];
    if Has(args, name) {
      var i :| 0 <= i < |args| && Name(args[i]) == name;
      assert i > 0 ==> args[1..][i - 1] == args[i];
    }
  }

  lemma {:induction false} EditSolid(args: seq<string>, name: string, v: Value)
    requires AllSolid(args) && Settable(name, v)
    ensures AllSolid(Edit(args, name, v))
    decreases |args|
  {
    if args != [] {
      EditSolid(args[1..], name, v);
      if !v.Delete? { RenderSolid(name, v); }
    }
  }

  lemma EditedSolid(args: seq<string>, name: string, v: Value)
    requires AllSolid(args) && Settable(name, v)
    ensures AllSolid(Edited(args, name, v))
  {
    EditSolid(args, name, v);
    if !v.Delete? { RenderSolid(name, v); }
  }

  lemma {:induction false} JoinAppend(line: string, args: seq<string>, a: string)
    ensures JoinAfter(line, args + [a]) == Glue(JoinAfter(line, args), a)
    decreases |args|
  {
    if args == [] {
      assert ([] + [a])[1..] == [];
    } else {
      assert (args + [a])[0] == args[0] && (args + [a])[1..] == args[1..] + [a];
      JoinAppend(Glue(line, args[0]), args[1..], a);
    }
  }

  lemma SetPresent(max: nat, s: string, name: string, v: Value)
    requires Args(s, 0).closed && Settable(name, v) && Has(Args(s, 0).args, name)
    ensures var line := Join(Edit(Args(s, 0).args, name, v));
      Set(max, s, name, v) == if |line| + 1 > max then Err(E2BIG) else Ok(line)
  {
    var args := Args(s, 0).args;
    ArgsSolid(s, 0);
    EditedSolid(args, name, v);
    JoinNoSpace("", Edit(args, name, v));
  }

  lemma SetAbsent(max: nat, s: string, name: string, v: Value)
    requires Args(s, 0).closed && Settable(name, v) && !v.Delete? && !Has(Args(s, 0).args, name)
    ensures var line := Join(Args(s, 0).args + [Render(name, v)]);
      Set(max, s, name, v) == if |line| + 1 > max then Err(E2BIG) else Ok(line)
  {
    var args := Args(s, 0).args;
    ArgsSolid(s, 0);
    EditedSolid(args, name, v);
    JoinNoSpace("", args + [Render(name, v)]);
    EditNothing(args, name, v);
    JoinAppend("", args, Render(name, v));
  }

  /**
   Setting an argument, or deleting one that is there: the result is the edited argument list with
   single spaces, and -E2BIG is returned iff that line and its NUL do not fit.
   */
  lemma SetLine(max: nat, s: string, name: string, v: Value)
    requires Args(s, 0).closed && Settable(name, v) && (v.Delete? ==> Has(Args(s, 0).args, name))
    ensures var line := Join(Edited(Args(s, 0).args, name, v));
      Set(max, s, name, v) == if |line| + 1 > max then Err(E2BIG) else Ok(line)
  {
    if Has(Args(s, 0).args, name) { SetPresent(max, s, name, v); } else { SetAbsent(max, s, name, v); }
  }

  /** The result of a successful call reads as the edited list. */
  lemma SetReads(max: nat, s: string, name: string, v: Value)
    requires Args(s, 0).closed && Settable(name, v) && Set(max, s, name, v).Ok?
    ensures Args(Set(max, s, name, v).line, 0) == Parsed(Edited(Args(s, 0).args, name, v), true)
  {
    var args := Args(s, 0).args;
    SetLine(max, s, name, v);
    ArgsSolid(s, 0);
    EditedSolid(args, name, v);
    ArgsJoin("", Edited(args, name, v));
  }

  // ----- what stays and what changes -----

  /** The arguments with another name, in order. */
  function Others(args: seq<string>, name: string): seq<string>
    decreases |args|
  {
    if args == [] then []
    else (if Name(args[0]) != name then [args[0]] else []) + Others(args[1..], name)
  }

  lemma {:induction false} OthersAppend(args: seq<string>, a: string, name: string)
    requires Name(a) == name
    ensures Others(args + [a], name) == Others(args, name)
    decreases |args|
  {
    if args == [] {
      assert ([] + [a])[1..] == [];
    } else {
      assert (args + [a])[0] == args[0] && (args + [a])[1..] == args[1..] + [a];
      OthersAppend(args[1..], a, name);
    }
  }

  lemma {:induction false} EditOthers(args: seq<string>, name: string, v: Value)
    requires Settable(name, v)
    ensures Others(Edit(args, name, v), name) == Others(args, name)
    decreases |args|
  {
    if args != [] {
      var rest := Edit(args[1..], name, v);
      var edited := Edit(args, name, v);
      EditOthers(args[1..], name, v);
      if !v.Delete? { RenderSolid(name, v); }
      if edited != rest {
        assert edited[1..] == rest;
      }
    }
  }

  /** Every argument called `name` has the new value. */
  ghost predicate AllRendered(args: seq<string>, name: string, v: Value) {
    forall i :: 0 <= i < |args| && Name(args[i]) == name ==> !v.Delete? && args[i] == Render(name, v)
  }

  lemma {:induction false} EditRendered(args: seq<string>, name: string, v: Value)
    ensures AllRendered(Edit(args, name, v), name, v)
    decreases |args|
  {
    if args != [] {
      var rest := Edit(args[1..], name, v);
      EditRendered(args[1..], name, v);
      if Name(args[0]) != name || !v.Delete? {
        var a := if Name(args[0]) != name then args[0] else Render(name, v);
        assert Edit(args, name, v) == [a] + rest;
        assert forall i :: 0 <= i < |rest| ==> ([a] + rest)[i + 1] == rest[i];
      }
    }
  }

  lemma {:induction false} EditHas(args: seq<string>, name: string, v: Value)
    requires Settable(name, v)
    ensures Has(Edit(args, name, v), name) <==> Has(args, name) && !v.Delete?
    decreases |args|
  {
    if args != [] {
      var rest := Edit(args[1..], name, v);
      var edited := Edit(args, name, v);
      EditHas(args[1..], name, v);
      HasTail(args, name);
      if !v.Delete? { RenderSolid(name, v); }
      if edited != rest {
        assert edited[1..] == rest;
        HasTail(edited, name);
      }
    }
  }

  /**
   The other arguments are untouched and in order; every argument called `name` has the new value,
   and there is one iff the value is not deleted.
   */
  lemma EditedChanges(args: seq<string>, name: string, v: Value)
    requires Settable(name, v)
    ensures var edited := Edited(args, name, v);
      && Others(edited, name) == Others(args, name)
      && AllRendered(edited, name, v)
      && (Has(edited, name) <==> !v.Delete?)
  {
    EditOthers(args, name, v);
    EditRendered(args, name, v);
    EditHas(args, name, v);
    if !Has(args, name) && !v.Delete? {
      var r := Render(name, v);
      RenderSolid(name, v);
      OthersAppend(args, r, name);
      assert (args + [r])[|args|] == r;
    }
  }

  // ----- set, then get -----

  /** The argument `r` stands at `from` in the line, and reading finds its value. */
  ghost predicate Reads(j: string, at: nat, name: string, r: string, from: nat) {
    && at <= |j| && from + |r| <= |j| && |name| <= |r| && r != ""
    && j[from..from + |r|] == r
    && Get(j, at, name) == ValueAt(j, from + |name|, from + |r|)
  }

  lemma {:induction false} GetAt(j: string, from: nat, a: string, name: string)
    requires Solid(a) && from + |a| <= |j| && j[from..from + |a|] == a
    requires from + |a| == |j| || j[from + |a|] == ' '
    ensures Get(j, from, name) ==
      if Name(a) == name then ValueAt(j, from + |Name(a)|, from + |a|) else Get(j, from + |a|, name)
  {
    assert forall i :: 0 <= i < |a| ==> a[i] == j[from..from + |a|][i] == j[i + from];
    EndMoves(a, j, 0, false, from);
    NameEndMoves(a, j, 0, false, |a|, from);
    assert j[from..from + |Name(a)|] == Name(a);
  }

  lemma {:induction false} GetJoin(line: string, args: seq<string>, name: string, r: string) returns (from: nat)
    requires AllSolid(args) && Has(args, name)
    requires forall i :: 0 <= i < |args| && Name(args[i]) == name ==> args[i] == r
    ensures Reads(JoinAfter(line, args), |line|, name, r, from)
    decreases |args|
  {
    var a, rest := args[0], args[1..];
    JoinLonger(line, args);
    FirstArg(line, args);
    from := if line == "" then 0 else |line| + 1;
    GetAt(JoinAfter(line, args), from, a, name);
    HasTail(args, name);
    if Name(a) != name {
      assert forall i :: 0 <= i < |rest| ==> rest[i] == args[i + 1];
      from := GetJoin(Glue(line, a), rest, name, r);
    }
  }

  /** After a successful set, reading gives exactly the new value, without the quotes around it. */
  lemma GetAfterSet(max: nat, s: string, name: string, v: Value)
    requires Args(s, 0).closed && Settable(name, v) && !v.Delete? && Set(max, s, name, v).Ok?
    ensures var line := Set(max, s, name, v).line; Shows(line, Get(line, 0, name), TextOf(v))
  {
    var args, r := Args(s, 0).args, Render(name, v);
    SetLine(max, s, name, v);
    ArgsSolid(s, 0);
    EditedSolid(args, name, v);
    EditedChanges(args, name, v);
    var line := Join(Edited(args, name, v));
    var from := GetJoin("", Edited(args, name, v), name, r);
    ValueText(line, from, name, v);
  }

  lemma SubText(line: string, from: nat, r: string, a: nat, b: nat)
    requires from + |r| <= |line| && line[from..from + |r|] == r && a <= b <= |r|
    ensures line[from + a..from + b] == r[a..b]
  {
    assert forall k :: a <= k < b ==> r[k] == line[from + k];
  }

  lemma RenderParts(name: string, text: string)
    ensures var r := Render(name, Text(text));
      && |r| == |name| + 1 + |Quoted(text)| && r[|name|] == '='
      && if ' ' in text then r[|name| + 1] == '"' && r[|r| - 1] == '"' && r[|name| + 2..|r| - 1] == text
         else r[|name| + 1..|r|] == text
  {
    var r := Render(name, Text(text));
    assert r[|name| + 1..] == Quoted(text);
    if ' ' in text {
      assert r[|name| + 2..|r| - 1] == Quoted(text)[1..|Quoted(text)| - 1];
    }
  }

  /** `r` stands at `from`. */
  ghost predicate Stands(line: string, from: nat, r: string) {
    r != "" && from + |r| <= |line| && line[from..from + |r|] == r
  }

  lemma LastOf(line: string, from: nat, r: string)
    requires Stands(line, from, r)
    ensures line[from + |r| - 1] == r[|r| - 1]
  {
    assert line[from + |r| - 1] == line[from..from + |r|][|r| - 1];
  }

  /** What was found is exactly `text`. */
  ghost predicate Shows(line: string, g: Found, text: string) {
    g.At? && g.len == |text| && 0 <= g.pos && g.pos + g.len <= |line| && line[g.pos..g.pos + g.len] == text
  }

  lemma ValueQuoted(line: string, from: nat, name: string, text: string)
    requires ' ' in text && Stands(line, from, Render(name, Text(text)))
    ensures Shows(line, ValueAt(line, from + |name|, from + |Render(name, Text(text))|), text)
  {
    var r := Render(name, Text(text));
    RenderParts(name, text);
    LastOf(line, from, r);
    SubText(line, from, r, |name| + 2, |r| - 1);
  }

  lemma ValuePlain(line: string, from: nat, name: string, text: string)
    requires ' ' !in text && '"' !in text && Stands(line, from, Render(name, Text(text)))
    ensures Shows(line, ValueAt(line, from + |name|, from + |Render(name, Text(text))|), text)
  {
    var r := Render(name, Text(text));
    RenderParts(name, text);
    LastOf(line, from, r);
    SubText(line, from, r, |name| + 1, |r|);
    if text != "" {
      assert r[|r| - 1] == r[|name| + 1..|r|][|text| - 1] == text[|text| - 1];
    }
  }

  lemma ValueBare(line: string, from: nat, name: string)
    requires PlainName(name) && Stands(line, from, name)
    ensures Shows(line, ValueAt(line, from + |name|, from + |name|), "")
  {
    LastOf(line, from, name);
    assert line[from + |name|..from + |name|] == "";
  }

  /** The text of a value, or none. */
  function TextOf(v: Value): string {
    if v.Text? then v.text else ""
  }

  lemma ValueGiven(line: string, from: nat, name: string, text: string)
    requires '"' !in text && Stands(line, from, Render(name, Text(text)))
    ensures Shows(line, ValueAt(line, from + |name|, from + |Render(name, Text(text))|), text)
  {
    if ' ' in text {
      ValueQuoted(line, from, name, text);
    } else {
      ValuePlain(line, from, name, text);
    }
  }

  lemma ValueText(line: string, from: nat, name: string, v: Value)
    requires Settable(name, v) && !v.Delete? && Stands(line, from, Render(name, v))
    ensures Shows(line, ValueAt(line, from + |name|, from + |Render(name, v)|), TextOf(v))
  {
    if v.Bare? {
      ValueBare(line, from, name);
    } else {
      ValueGiven(line, from, name, v.text);
    }
  }

  // ----- get on any line -----

  /** The argument at `from`, up to `e`, and its name. */
  lemma ArgHere(s: string, from: nat, e: nat)
    requires from < |s| && s[from] != ' ' && e == End(s, from, false)
    ensures from < e && NameEnd(s, from, false, e) == from + |Name(s[from..e])|
    ensures s[from..from + |Name(s[from..e])|] == Name(s[from..e])
  {
    EndAfter(s, from);
    var a := s[from..e];
    NameEndMoves(a, s, 0, false, |a|, from);
    assert s[from..from + |Name(a)|] == a[..|Name(a)|];
  }

  /** Reading goes through the arguments one by one. */
  lemma GetHere(s: string, from: nat, name: string, e: nat)
    requires from < |s| && s[from] != ' ' && e == End(s, from, false)
    ensures from < e && var a := s[from..e];
      && Args(s, from) == Parsed([a] + Args(s, e).args, Args(s, e).closed)
      && Get(s, from, name) == if Name(a) == name then ValueAt(s, from + |name|, e) else Get(s, e, name)
  {
    ArgHere(s, from, e);
  }

  /** An argument that is not there: -ENOENT, or -EINVAL if a quote is left open. */
  lemma {:induction false} GetAbsent(s: string, from: nat, name: string)
    requires from <= |s| && !Has(Args(s, from).args, name)
    ensures Get(s, from, name) == Missing(if Args(s, from).closed then -2 else -22)
    decreases |s| - from
  {
    if from < |s| {
      var e := End(s, from, false);
      if s[from] == ' ' {
        GetAbsent(s, from + 1, name);
      } else if e >= 0 {
        GetHere(s, from, name, e);
        var args, rest := Args(s, from).args, Args(s, e).args;
        assert args[0] == s[from..e] && args[1..] == rest;
        HasTail(args, name);
        GetAbsent(s, e, name);
      }
    }
  }

  /** The text behind the '=' of an argument called `name`; none without a '='. */
  function Behind(a: string, name: string): string
    requires |name| <= |a|
  {
    if |a| == |name| then "" else a[|name| + 1..]
  }

  /** A text without the first and the last character, if it ends in a quote. */
  function Unquoted(text: string): string {
    if |text| >= 2 && text[|text| - 1] == '"' then text[1..|text| - 1] else text
  }

  /** `g` is the value of the argument `a`; one that ends in a quote needs a text with two quotes for that. */
  ghost predicate Gives(s: string, g: Found, a: string, name: string) {
    |name| <= |a| && (a == "" || a[|a| - 1] != '"' || |Behind(a, name)| >= 2 ==> Shows(s, g, Unquoted(Behind(a, name))))
  }

  lemma ShowsPart(s: string, at: nat, a: string, from: nat, to: nat, text: string)
    requires Stands(s, at, a) && from <= to <= |a| && text == a[from..to]
    ensures Shows(s, At(at + from, to - from), text)
  {
    SubText(s, at, a, from, to);
  }

  lemma ValueGives(s: string, at: nat, a: string, name: string, g: Found)
    requires Stands(s, at, a) && |name| <= |a| && g == ValueAt(s, at + |name|, at + |a|)
    ensures Gives(s, g, a, name)
  {
    LastOf(s, at, a);
    var text := Behind(a, name);
    var val := if |name| < |a| then |name| + 1 else |a|;
    assert text == a[val..];
    if a[|a| - 1] != '"' {
      assert text != "" ==> text[|text| - 1] == a[|a| - 1];
      ShowsPart(s, at, a, val, |a|, Unquoted(text));
    } else if |text| >= 2 {
      assert text[|text| - 1] == '"' && Unquoted(text) == a[val + 1..|a| - 1];
      ShowsPart(s, at, a, val + 1, |a| - 1, Unquoted(text));
    }
  }

  /** `g` is the value of the first of the arguments that is called `name`. */
  ghost predicate GivesFirst(s: string, g: Found, args: seq<string>, name: string)
    decreases |args|
  {
    args != [] && if Name(args[0]) == name then Gives(s, g, args[0], name) else GivesFirst(s, g, args[1..], name)
  }

  lemma {:induction false} GetPresent(s: string, from: nat, name: string)
    requires from <= |s| && Has(Args(s, from).args, name)
    ensures GivesFirst(s, Get(s, from, name), Args(s, from).args, name)
    decreases |s| - from
  {
    var e := End(s, from, false);
    if s[from] == ' ' {
      GetPresent(s, from + 1, name);
    } else {
      GetHere(s, from, name, e);
      var args, rest, a := Args(s, from).args, Args(s, e).args, s[from..e];
      assert args[0] == a && args[1..] == rest;
      if Name(a) == name {
        ValueGives(s, from, a, name, Get(s, from, name));
      } else {
        HasTail(args, name);
        GetPresent(s, e, name);
      }
    }
  }

  /**
   Reading any line. An argument that is not there gives -ENOENT, or -EINVAL if a quote is left open;
   otherwise the value of the first argument of that name is given.
   */
  lemma GetExact(s: string, name: string)
    ensures Has(Args(s, 0).args, name) ==> GivesFirst(s, Get(s, 0, name), Args(s, 0).args, name)
    ensures !Has(Args(s, 0).args, name) ==> Get(s, 0, name) == Missing(if Args(s, 0).closed then -2 else -22)
  {
    if Has(Args(s, 0).args, name) { GetPresent(s, 0, name); } else { GetAbsent(s, 0, name); }
  }

  // ----- what a set refuses -----

  /**
   A value with a quote is refused, then a line that does not fit, then an open quote, then to delete what is
   not there.
   */
  lemma SetRefuses(max: nat, s: string, name: string, v: Value)
    ensures v.Text? && '"' in v.text ==> Set(max, s, name, v) == Err(-9)
    ensures var p := Args(s, 0);
      var fits := s == "" || |Join(Edit(p.args, name, v))| < max;
      !(v.Text? && '"' in v.text) ==>
        && (!fits ==> Set(max, s, name, v) == Err(-7))
        && (fits && !p.closed ==> Set(max, s, name, v) == Err(-22))
        && (fits && p.closed && v.Delete? && !Has(p.args, name) ==> Set(max, s, name, v) == Err(-2))
  {
  }

  // ----- set twice, set and delete -----

  lemma {:induction false} EditEdit(args: seq<string>, name: string, v: Value, w: Value)
    requires Settable(name, v) && !v.Delete?
    ensures Edit(Edit(args, name, v), name, w) == Edit(args, name, w)
    decreases |args|
  {
    if args != [] {
      var edited := Edit(args, name, v);
      EditEdit(args[1..], name, v, w);
      RenderSolid(name, v);
      assert edited[1..] == Edit(args[1..], name, v);
    }
  }

  lemma {:induction false} EditAppend(args: seq<string>, a: string, name: string, w: Value)
    ensures Edit(args + [a], name, w) == Edit(args, name, w) + Edit([a], name, w)
    decreases |args|
  {
    if args == [] {
      assert [] + [a] == [a];
    } else {
      assert (args + [a])[0] == args[0] && (args + [a])[1..] == args[1..] + [a];
      EditAppend(args[1..], a, name, w);
    }
  }

  lemma EditedEdited(args: seq<string>, name: string, v: Value, w: Value)
    requires Settable(name, v) && !v.Delete? && Settable(name, w)
    ensures Edited(Edited(args, name, v), name, w) == Edited(args, name, w)
  {
    EditedChanges(args, name, v);
    if Has(args, name) {
      EditEdit(args, name, v, w);
    } else {
      var r := Render(name, v);
      RenderSolid(name, v);
      EditAppend(args, r, name, w);
      EditNothing(args, name, w);
      assert Edit([r], name, w) == if w.Delete? then [] else [Render(name, w)];
    }
  }

  /** Setting twice is setting the last value once. */
  lemma SetTwice(max: nat, s: string, name: string, v: Value, w: Value)
    requires Args(s, 0).closed && Settable(name, v) && Settable(name, w) && !v.Delete? && !w.Delete?
    requires Set(max, s, name, v).Ok?
    ensures Set(max, Set(max, s, name, v).line, name, w) == Set(max, s, name, w)
  {
    SetReads(max, s, name, v);
    EditedEdited(Args(s, 0).args, name, v, w);
    SetLine(max, s, name, w);
    SetLine(max, Set(max, s, name, v).line, name, w);
  }

  /** Deleting an argument that was just added gives the original line, but for its spacing. */
  lemma SetThenDelete(max: nat, s: string, name: string, v: Value)
    requires Args(s, 0).closed && Settable(name, v) && !v.Delete? && !Has(Args(s, 0).args, name)
    requires Set(max, s, name, v).Ok?
    ensures Set(max, Set(max, s, name, v).line, name, Delete) == Ok(Join(Args(s, 0).args))
  {
    var args, line := Args(s, 0).args, Set(max, s, name, v).line;
    SetReads(max, s, name, v);
    EditedChanges(args, name, v);
    EditedEdited(args, name, v, Delete);
    EditNothing(args, name, Delete);
    SetLine(max, line, name, Delete);
    SetLine(max, s, name, v);
    JoinAppend("", args, Render(name, v));
  }
}
