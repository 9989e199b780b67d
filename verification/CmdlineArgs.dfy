/**
 A kernel command line as a list of arguments: arguments are separated by spaces that are not
 inside double quotes, and an argument's name ends at its first '=' outside quotes.
 */
module CmdlineArgs {

  /** Where the argument that contains position `p` ends, or -1 if a quote is never closed. */
  function End(s: string, p: nat, quoted: bool): (e: int)
    requires p <= |s|
    ensures e == -1 || p <= e <= |s|
    ensures e != -1 && e < |s| ==> s[e] == ' '
    decreases |s| - p
  {
    if p == |s| then (if quoted then -1 else p)
    else if quoted then End(s, p + 1, s[p] != '"')
    else if s[p] == '"' then End(s, p + 1, true)
    else if s[p] == ' ' then p
    else End(s, p + 1, false)
  }

  /** Where the name ends in an argument that ends at `e`. */
  function NameEnd(s: string, p: nat, quoted: bool, e: nat): (n: nat)
    requires p <= e <= |s|
    ensures p <= n <= e
    decreases e - p
  {
    if p == e then e
    else if quoted then NameEnd(s, p + 1, s[p] != '"', e)
    else if s[p] == '=' then p
    else NameEnd(s, p + 1, s[p] == '"', e)
  }

  /** The arguments up to the first unclosed quote; `closed` says that there is none. */
  datatype Parsed = Parsed(args: seq<string>, closed: bool)

  function Args(s: string, from: nat): Parsed
    requires from <= |s|
    decreases |s| - from
  {
    if from == |s| then Parsed([], true)
    else if s[from] == ' ' then Args(s, from + 1)
    else
      var e := End(s, from, false);
      if e < 0 then Parsed([], false)
      else
        EndAfter(s, from);
        var rest := Args(s, e);
        Parsed([s[from..e]] + rest.args, rest.closed)
  }

  lemma EndAfter(s: string, from: nat)
    requires from < |s| && s[from] != ' '
    ensures End(s, from, false) == -1 || End(s, from, false) > from
  {
  }

  function Name(arg: string): string {
    arg[..NameEnd(arg, 0, false, |arg|)]
  }

  predicate Has(args: seq<string>, name: string) {
    exists i :: 0 <= i < |args| && Name(args[i]) == name
  }

  // ----- moving a piece of text -----

  /** The text of `s` in [p, e) stands in `t` as well, `d` further on. */
  predicate Copied(s: string, t: string, p: nat, e: nat, d: int) {
    && p <= e <= |s| && 0 <= p + d && e + d <= |t|
    && forall i :: p <= i < e ==> s[i] == t[i + d]
  }

  lemma {:induction false} EndMoves(s: string, t: string, p: nat, quoted: bool, d: int)
    requires p <= |s| && End(s, p, quoted) >= 0
    requires var e := End(s, p, quoted); Copied(s, t, p, e, d) && (e + d == |t| || t[e + d] == ' ')
    ensures End(t, p + d, quoted) == End(s, p, quoted) + d
    decreases |s| - p
  {
    var e := End(s, p, quoted);
    if p < e {
      assert s[p] == t[p + d];
      EndMoves(s, t, p + 1, if quoted then s[p] != '"' else s[p] == '"', d);
    }
  }

  lemma {:induction false} NameEndMoves(s: string, t: string, p: nat, quoted: bool, e: nat, d: int)
    requires p <= e && Copied(s, t, p, e, d)
    ensures NameEnd(t, p + d, quoted, e + d) == NameEnd(s, p, quoted, e) + d
    decreases e - p
  {
    if p < e {
      assert s[p] == t[p + d];
      NameEndMoves(s, t, p + 1, if quoted then s[p] != '"' else s[p] == '"', e, d);
    }
  }

  // ----- arguments that can stand in a line -----

  /** A whole argument: not empty, no quote left open, no space outside quotes. */
  predicate Solid(arg: string) {
    arg != "" && arg[0] != ' ' && End(arg, 0, false) == |arg|
  }

  /** The arguments of any line are solid. */
  lemma {:induction false} ArgsSolid(s: string, from: nat)
    requires from <= |s|
    ensures forall i :: 0 <= i < |Args(s, from).args| ==> Solid(Args(s, from).args[i])
    decreases |s| - from
  {
    if from < |s| {
      if s[from] == ' ' {
        ArgsSolid(s, from + 1);
      } else {
        var e := End(s, from, false);
        if e >= 0 {
          EndAfter(s, from);
          ArgsSolid(s, e);
          EndMoves(s, s[from..e], from, false, 0 - from);
        }
      }
    }
  }

  // ----- writing a list of arguments -----

  function Glue(line: string, arg: string): string {
    if line == "" then arg else line + " " + arg
  }

  /** The arguments with single spaces between them, after `line`. */
  function JoinAfter(line: string, args: seq<string>): string
    decreases |args|
  {
    if args == [] then line else JoinAfter(Glue(line, args[0]), args[1..])
  }

  function Join(args: seq<string>): string {
    JoinAfter("", args)
  }

  ghost predicate AllSolid(args: seq<string>) {
    forall i :: 0 <= i < |args| ==> Solid(args[i])
  }

  lemma {:induction false} JoinLonger(line: string, args: seq<string>)
    ensures |line| <= |JoinAfter(line, args)| && line == JoinAfter(line, args)[..|line|]
    decreases |args|
  {
    if args != [] {
      JoinLonger(Glue(line, args[0]), args[1..]);
      assert line == Glue(line, args[0])[..|line|];
    }
  }

  /** After a non-empty line the joined arguments start with a space. */
  lemma {:induction false} JoinSpaced(line: string, args: seq<string>)
    requires line != "" && args != []
    ensures var j := JoinAfter(line, args); |j| > |line| && j[|line|] == ' '
  {
    JoinLonger(Glue(line, args[0]), args[1..]);
    assert Glue(line, args[0])[|line|] == ' ';
  }

  /** A solid argument at `from`, up to a space or the end, is read as one argument. */
  lemma {:induction false} ArgsAt(j: string, from: nat, a: string, rest: seq<string>)
    requires Solid(a) && from + |a| <= |j| && j[from..from + |a|] == a
    requires from + |a| == |j| || j[from + |a|] == ' '
    requires Args(j, from + |a|) == Parsed(rest, true)
    ensures Args(j, from) == Parsed([a] + rest, true)
  {
    assert forall i :: 0 <= i < |a| ==> a[i] == j[from..from + |a|][i] == j[i + from];
    EndMoves(a, j, 0, false, from);
  }

  /** Where the first argument of a joined list stands. */
  lemma {:induction false} FirstArg(line: string, args: seq<string>)
    requires args != []
    ensures var a, j, from := args[0], JoinAfter(line, args), if line == "" then 0 else |line| + 1;
      && from + |a| <= |j| && from + |a| == |Glue(line, a)| && j[from..from + |a|] == a
      && (args[1..] == [] ==> from + |a| == |j|)
      && (args[1..] != [] && Glue(line, a) != "" ==> from + |a| < |j| && j[from + |a|] == ' ')
      && (line != "" ==> j[|line|] == ' ')
  {
    var a, longer, rest := args[0], Glue(line, args[0]), args[1..];
    var j := JoinAfter(line, args);
    JoinLonger(longer, rest);
    if rest != [] && longer != "" { JoinSpaced(longer, rest); }
    var from := |longer| - |a|;
    assert j[from..from + |a|] == longer[from..] == a;
    if line != "" { assert j[|line|] == longer[|line|] == ' '; }
  }

  /** Reading a joined list gives the list back. */
  lemma {:induction false} ArgsJoin(line: string, args: seq<string>)
    requires AllSolid(args)
    ensures var j := JoinAfter(line, args); |line| <= |j| && Args(j, |line|) == Parsed(args, true)
    decreases |args|
  {
    JoinLonger(line, args);
    if args != [] {
      FirstArg(line, args);
      ArgsJoin(Glue(line, args[0]), args[1..]);
      ArgsAt(JoinAfter(line, args), if line == "" then 0 else |line| + 1, args[0], args[1..]);
      assert [args[0]] + args[1..] == args;
    }
  }

  /** No argument, and so no joined line, ends in a space. */
  lemma {:induction false} EndNoSpace(s: string, p: nat, quoted: bool)
    requires p < |s| && End(s, p, quoted) == |s|
    ensures s[|s| - 1] != ' '
    decreases |s| - p
  {
    if p + 1 < |s| { EndNoSpace(s, p + 1, if quoted then s[p] != '"' else s[p] == '"'); }
  }

  lemma {:induction false} JoinNoSpace(line: string, args: seq<string>)
    requires AllSolid(args) && (line != "" ==> line[|line| - 1] != ' ')
    ensures var j := JoinAfter(line, args); j != "" ==> j[|j| - 1] != ' '
    decreases |args|
  {
    if args != [] {
      EndNoSpace(args[0], 0, false);
      assert Glue(line, args[0])[|Glue(line, args[0])| - 1] == args[0][|args[0]| - 1];
      JoinNoSpace(Glue(line, args[0]), args[1..]);
    }
  }
}
