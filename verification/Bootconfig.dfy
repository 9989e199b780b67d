/** The bootconfig section of an Android image (image-android.c): parameters, then one trailer. */
module Bootconfig {
  import opened Bytes

  const EINVAL := -22

  /** "#BOOTCONFIG\n" */
  const MAGIC: seq<Byte> := [0x23, 0x42, 0x4f, 0x4f, 0x54, 0x43, 0x4f, 0x4e, 0x46, 0x49, 0x47, 0x0a]

  const MAGIC_SIZE: nat := 12
  const TRAILER_SIZE: nat := 20

  function Sum(s: seq<Byte>): nat {
    if s == [] then 0 else Sum(s[..|s| - 1]) + s[|s| - 1]
  }

  /** The bytes up to an end of a section end in the magic: is_trailer_present() */
  predicate Ends(s: seq<Byte>) {
    |s| >= MAGIC_SIZE && s[|s| - MAGIC_SIZE..] == MAGIC
  }

  /** Size and byte sum as 32-bit numbers, and the magic. */
  function Trailer(payload: seq<Byte>): (s: seq<Byte>)
    ensures |s| == TRAILER_SIZE
  {
    LE(|payload| % U32, 4) + LE(Sum(payload) % U32, 4) + MAGIC
  }

  /** A payload with its trailer, unless it looks as if it had one. */
  function Sealed(before: seq<Byte>, payload: seq<Byte>): seq<Byte> {
    if Ends(before + payload) then payload else payload + Trailer(payload)
  }

  /** The section after one call, where `before` is the memory before the section. */
  function Step(before: seq<Byte>, section: seq<Byte>, params: seq<Byte>): seq<Byte>
    requires params != [] && Ends(before + section) ==> |section| >= TRAILER_SIZE
  {
    if params == [] then section
    else
      var payload := if Ends(before + section) then section[..|section| - TRAILER_SIZE] else section;
      Sealed(before, payload + params)
  }

  /** `after` is the section after one call. */
  ghost predicate Stepped(before: seq<Byte>, section: seq<Byte>, params: seq<Byte>, after: seq<Byte>) {
    (params != [] && Ends(before + section) ==> |section| >= TRAILER_SIZE) && after == Step(before, section, params)
  }

  // ----- low bytes of a number -----

  lemma ModMod(n: nat, p: nat)
    requires p > 0
    ensures n % (256 * p) == n % 256 + 256 * (n / 256 % p)
  {
    var q := n / 256 / p;
    var r := n / 256 % p;
    assert n / 256 == q * p + r;
    assert n == 256 * (q * p + r) + n % 256;
    assert n == q * (256 * p) + (256 * r + n % 256);
    ModUnique(n, 256 * p, q, 256 * r + n % 256);
  }

  lemma ModUnique(n: nat, m: nat, q: nat, r: nat)
    requires m > 0 && r < m && n == q * m + r
    ensures n % m == r
  {
    var d := n / m - q;
    assert n == n / m * m + n % m;
    assert d * m == r - n % m;
  }

  lemma {:induction false} NumLow(n: nat, w: nat)
    ensures Num(LE(n, w)) == n % Pow256(w)
  {
    if w == 0 {
    } else {
      NumLow(n / 256, w - 1);
      assert LE(n, w)[1..] == LE(n / 256, w - 1);
      ModMod(n, Pow256(w - 1));
    }
  }

  lemma SameLow(a: nat, b: nat)
    requires a % U32 == b % U32
    ensures LE(a, 4) == LE(b, 4)
  {
    PowValues();
    NumLow(a, 4);
    NumLow(b, 4);
    LENum(LE(a, 4));
    LENum(LE(b, 4));
  }

  lemma ModChain(n: nat)
    ensures n % U64 % U32 == n % U32
  {
  }

  /** memcpy() of four bytes of a 64-bit number writes the number modulo 2^32. */
  lemma LowWord(n: nat)
    ensures LE(n % U64, 4) == LE(n % U32, 4)
  {
    ModChain(n);
    SameLow(n % U64, n % U32);
  }

  // ----- memory -----

  /** checksum() */
  method Checksum(mem: array<Byte>, start: nat, size: nat) returns (sum: nat)
    requires start + size <= mem.Length
    ensures sum == Sum(mem[start..start + size]) % U64
  {
    sum := 0;
    for i := 0 to size
      invariant sum == Sum(mem[start..start + i]) % U64
    {
      assert mem[start..start + i + 1][..i] == mem[start..start + i];
      sum := (sum + mem[start + i]) % U64;
    }
  }

  /** memcpy() */
  method Copy(mem: array<Byte>, at: nat, b: seq<Byte>)
    requires at + |b| <= mem.Length
    modifies mem
    ensures mem[..] == Overlay(old(mem[..]), at, b)
  {
    forall k | 0 <= k < |b| {
      mem[at + k] := b[k];
    }
    OverlayAt(old(mem[..]), at, b);
  }

  lemma OverlayThrice(out: seq<Byte>, at: nat, at2: nat, at3: nat, a: seq<Byte>, b: seq<Byte>, c: seq<Byte>)
    requires at2 == at + |a| && at3 == at2 + |b| && at3 + |c| <= |out|
    ensures Overlay(Overlay(Overlay(out, at, a), at2, b), at3, c) == Overlay(out, at, a + b + c)
  {
    var out1 := Overlay(out, at, a);
    OverlayAt(out, at, a);
    var out2 := Overlay(out1, at2, b);
    OverlayAt(out1, at2, b);
    var out3 := Overlay(out2, at3, c);
    OverlayAt(out2, at3, c);
    var all := a + b + c;
    var whole := Overlay(out, at, all);
    OverlayAt(out, at, all);
    forall k | 0 <= k < |out| ensures out3[k] == whole[k] {
    }
  }

  lemma TrailerWritten(was: seq<Byte>, end: nat, payload: seq<Byte>, a: seq<Byte>, b: seq<Byte>)
    requires end + TRAILER_SIZE <= |was| && a == LE(|payload| % U64, 4) && b == LE(Sum(payload) % U64, 4)
    ensures Overlay(Overlay(Overlay(was, end, a), end + 4, b), end + 8, MAGIC) == Overlay(was, end, Trailer(payload))
  {
    LowWord(|payload|);
    LowWord(Sum(payload));
    OverlayThrice(was, end, end + 4, end + 8, a, b, MAGIC);
  }

  /** add_trailer(), where `start` 0 stands for NULL: the result is then -1 as a 64-bit number */
  method AddTrailer(mem: array<Byte>, start: nat, size: nat) returns (n: nat)
    requires start + size + TRAILER_SIZE <= mem.Length
    modifies mem
    ensures start == 0 ==> n == U64 - 1 && mem[..] == old(mem[..])
    ensures start > 0 ==> n == if size == 0 || Ends(old(mem[..])[..start + size]) then 0 else TRAILER_SIZE
    ensures start > 0 ==> mem[..] == if n == 0 then old(mem[..])
      else Overlay(old(mem[..]), start + size, Trailer(old(mem[..])[start..start + size]))
  {
    if start == 0 {
      return U64 - 1;
    }
    if size == 0 {
      return 0;
    }
    var end := start + size;
    ghost var was := mem[..];
    ghost var payload := was[start..end];
    assert mem[..end] == was[..end];
    if Ends(mem[..end]) {
      return 0;
    }
    Copy(mem, end, LE(size % U64, 4));
    OverlayMiss(was, end, LE(size % U64, 4), start, end);
    assert mem[start..start + size] == mem[..][start..end];
    var sum := Checksum(mem, start, size);
    Copy(mem, end + 4, LE(sum, 4));
    Copy(mem, end + 8, MAGIC);
    TrailerWritten(was, end, payload, LE(size % U64, 4), LE(sum, 4));
    return TRAILER_SIZE;
  }

  lemma SectionGrows(mem: seq<Byte>, start: nat, end: nat, b: seq<Byte>)
    requires start <= end && end + |b| <= |mem|
    ensures |Overlay(mem, end, b)| == |mem| && Overlay(mem, end, b)[..start] == mem[..start]
    ensures Overlay(mem, end, b)[start..end + |b|] == mem[start..end] + b
  {
    OverlayAt(mem, end, b);
  }

  lemma SplitAt(mem: seq<Byte>, start: nat, end: nat)
    requires start <= end <= |mem|
    ensures mem[..end] == mem[..start] + mem[start..end]
  {
  }

  /** What appending does to all of memory. */
  ghost predicate Appended(was: seq<Byte>, mem: seq<Byte>, start: nat, end: nat, params: seq<Byte>, newEnd: nat)
    requires start <= end <= |was|
  {
    && newEnd <= |mem| == |was| && start <= newEnd && mem[..start] == was[..start]
    && mem[start..newEnd] == Sealed(was[..start], was[start..end] + params)
  }

  /** All of memory with the parameters written at `end`, and with a trailer for what is then behind `start`. */
  function Extended(was: seq<Byte>, start: nat, end: nat, params: seq<Byte>): (mem: seq<Byte>)
    requires start <= end + |params| && end + |params| + TRAILER_SIZE <= |was|
  {
    var mid := Overlay(was, end, params);
    OverlayAt(was, end, params);
    var e := end + |params|;
    if e == start || Ends(mid[..e]) then mid else Overlay(mid, e, Trailer(mid[start..e]))
  }

  lemma AppendedOf(was: seq<Byte>, mid: seq<Byte>, mem: seq<Byte>, start: nat, end: nat, params: seq<Byte>, e: nat, n: nat)
    requires start <= end && e == end + |params| && e + TRAILER_SIZE <= |was| && mid == Overlay(was, end, params)
    requires |mid| == |was| && n == if Ends(mid[..e]) then 0 else TRAILER_SIZE
    requires mem == if n == 0 then mid else Overlay(mid, e, Trailer(mid[start..e]))
    ensures Appended(was, mem, start, end, params, e + n)
  {
    SectionGrows(was, start, end, params);
    SplitAt(mid, start, e);
    if n != 0 {
      SectionGrows(mid, start, e, Trailer(mid[start..e]));
    }
  }

  /** The bytes that appending adds for the trailer. */
  function Added(was: seq<Byte>, start: nat, end: nat, params: seq<Byte>): nat
    requires start <= end + |params| && end + |params| + TRAILER_SIZE <= |was|
  {
    var mid := Overlay(was, end, params);
    OverlayAt(was, end, params);
    if end + |params| == start || Ends(mid[..end + |params|]) then 0 else TRAILER_SIZE
  }

  /** Copy the parameters to the end of the payload and add a trailer. */
  method Append(mem: array<Byte>, start: nat, end: nat, params: seq<Byte>) returns (n: nat)
    requires 0 < start <= end + |params| && end + |params| + TRAILER_SIZE <= mem.Length
    modifies mem
    ensures mem[..] == Extended(old(mem[..]), start, end, params) && n == Added(old(mem[..]), start, end, params)
  {
    Copy(mem, end, params);
    n := AddTrailer(mem, start, end + |params| - start);
  }

  lemma ExtendedAppends(was: seq<Byte>, start: nat, end: nat, params: seq<Byte>)
    requires start <= end && params != [] && end + |params| + TRAILER_SIZE <= |was|
    ensures Appended(was, Extended(was, start, end, params), start, end, params, end + |params| + Added(was, start, end, params))
  {
    var mid := Overlay(was, end, params);
    OverlayAt(was, end, params);
    AppendedOf(was, mid, Extended(was, start, end, params), start, end, params, end + |params|, Added(was, start, end, params));
  }

  /** Where the payload of a section ends: before the trailer, if there is one. */
  function PayloadEnd(mem: seq<Byte>, start: nat, size: nat): nat
    requires start + size <= |mem| && (Ends(mem[..start + size]) ==> start + size >= TRAILER_SIZE)
  {
    if Ends(mem[..start + size]) then start + size - TRAILER_SIZE else start + size
  }

  lemma StepOf(before: seq<Byte>, section: seq<Byte>, base: seq<Byte>, params: seq<Byte>, after: seq<Byte>)
    requires params != [] && after == Sealed(before, base + params)
    requires if Ends(before + section) then |section| >= TRAILER_SIZE && base == section[..|section| - TRAILER_SIZE]
             else base == section
    ensures Stepped(before, section, params, after)
  {
  }

  lemma AppendedStep(was: seq<Byte>, mem: seq<Byte>, start: nat, size: nat, params: seq<Byte>, newEnd: nat)
    requires start + size <= |was| && (Ends(was[..start + size]) ==> size >= TRAILER_SIZE) && params != []
    requires Appended(was, mem, start, PayloadEnd(was, start, size), params, newEnd)
    ensures Stepped(was[..start], was[start..start + size], params, mem[start..newEnd])
  {
    var section, base := was[start..start + size], was[start..PayloadEnd(was, start, size)];
    SplitAt(was, start, start + size);
    if Ends(was[..start + size]) {
      assert base == section[..|section| - TRAILER_SIZE];
    }
    StepOf(was[..start], section, base, params, mem[start..newEnd]);
  }

  /** There is room, and no section is so short that the parameters would not reach its start. */
  predicate Roomy(mem: seq<Byte>, start: nat, size: nat, params: seq<Byte>) {
    && start + size + |params| + TRAILER_SIZE <= |mem|
    && (Ends(mem[..start + size]) ==> start + size >= TRAILER_SIZE && size + |params| >= TRAILER_SIZE)
  }

  /** add_bootconfig_parameters() for a string that is not empty */
  method AddSome(mem: array<Byte>, start: nat, size: nat, params: seq<Byte>) returns (ret: int)
    requires 0 < start && Roomy(mem[..], start, size, params)
    modifies mem
    ensures var was := old(mem[..]);
      var end := PayloadEnd(was, start, size);
      mem[..] == Extended(was, start, end, params) && start + size + ret == end + |params| + Added(was, start, end, params)
  {
    ghost var was := mem[..];
    var end := start + size;
    ret := 0;
    assert mem[..end] == was[..end];
    if Ends(mem[..end]) {
      end := end - TRAILER_SIZE;
      ret := ret - TRAILER_SIZE;
    }
    assert end == PayloadEnd(was, start, size);
    var n := Append(mem, start, end, params);
    ret := ret + |params| + n;
  }

  /** `now` is `was` after one call on the section at `start`, which returns `ret`. */
  ghost predicate SectionStepped(was: seq<Byte>, now: seq<Byte>, start: nat, size: nat, params: seq<Byte>, ret: int) {
    var newEnd := start + size + ret;
    && start + size <= |was| && start <= newEnd <= |now| == |was| && now[..start] == was[..start]
    && Stepped(was[..start], was[start..start + size], params, now[start..newEnd])
  }

  lemma ExtendedSteps(was: seq<Byte>, start: nat, size: nat, params: seq<Byte>, end: nat, ret: int)
    requires Roomy(was, start, size, params) && (Ends(was[..start + size]) ==> size >= TRAILER_SIZE) && params != []
    requires end == PayloadEnd(was, start, size) && start + size + ret == end + |params| + Added(was, start, end, params)
    ensures SectionStepped(was, Extended(was, start, end, params), start, size, params, ret)
  {
    ExtendedAppends(was, start, end, params);
    AppendedStep(was, Extended(was, start, end, params), start, size, params, start + size + ret);
  }

  /**
   add_bootconfig_parameters(): what memory holds then. If a trailer that is found is inside of the section,
   the section is what one step of the section gives, and the memory before it is not touched.
   `start` 0 stands for NULL.
   */
  method AddParameters(mem: array<Byte>, start: nat, size: nat, params: seq<Byte>) returns (ret: int)
    requires start > 0 ==> start + size <= mem.Length
    requires start > 0 && params != [] ==> Roomy(mem[..], start, size, params)
    modifies mem
    ensures start == 0 || params == [] ==> ret == (if start == 0 then EINVAL else 0) && mem[..] == old(mem[..])
    ensures start > 0 && params != [] ==> var was := old(mem[..]); var end := PayloadEnd(was, start, size);
      mem[..] == Extended(was, start, end, params) && start + size + ret == end + |params| + Added(was, start, end, params)
    ensures start > 0 && (params != [] && Ends(old(mem[..])[..start + size]) ==> size >= TRAILER_SIZE) ==>
      SectionStepped(old(mem[..]), mem[..], start, size, params, ret)
  {
    if start == 0 {
      return EINVAL;
    }
    ghost var was := mem[..];
    if params == [] {
      return 0;
    }
    ret := AddSome(mem, start, size, params);
    if Ends(was[..start + size]) ==> size >= TRAILER_SIZE {
      ExtendedSteps(was, start, size, params, PayloadEnd(was, start, size), ret);
    }
  }

  // ----- many calls -----

  /** A section that holds a payload, with one trailer or still without. */
  ghost predicate Holds(before: seq<Byte>, section: seq<Byte>, payload: seq<Byte>) {
    section == payload + Trailer(payload) || (section == payload && !Ends(before + payload))
  }

  lemma HoldsEnds(before: seq<Byte>, section: seq<Byte>, payload: seq<Byte>)
    requires Holds(before, section, payload)
    ensures Ends(before + section) <==> section == payload + Trailer(payload)
    ensures Ends(before + section) ==> |section| >= TRAILER_SIZE && section[..|section| - TRAILER_SIZE] == payload
  {
    if section == payload + Trailer(payload) {
      var s := before + section;
      assert s[|s| - MAGIC_SIZE..] == MAGIC;
    }
  }

  /** One call adds the parameters and leaves one trailer, exactly when the new payload does not end in the magic. */
  lemma StepSeals(before: seq<Byte>, section: seq<Byte>, payload: seq<Byte>, params: seq<Byte>)
    requires Holds(before, section, payload) && params != []
    ensures Ends(before + section) ==> |section| >= TRAILER_SIZE
    ensures Step(before, section, params) == Sealed(before, payload + params)
    ensures Step(before, section, params) == payload + params + Trailer(payload + params) <==> !Ends(before + (payload + params))
  {
    HoldsEnds(before, section, payload);
  }

  /** All parameter strings in order. */
  function All(params: seq<seq<Byte>>): seq<Byte> {
    if params == [] then [] else All(params[..|params| - 1]) + params[|params| - 1]
  }

  /** No payload on the way ends in the magic. */
  ghost predicate Clean(before: seq<Byte>, payload: seq<Byte>, params: seq<seq<Byte>>) {
    forall n :: 0 <= n <= |params| && All(params[..n]) != [] ==> !Ends(before + (payload + All(params[..n])))
  }

  /** A section that held `payload`, with more added: as it was, or all of it with one trailer. */
  function Grown(section: seq<Byte>, payload: seq<Byte>, added: seq<Byte>): seq<Byte> {
    if added == [] then section else payload + added + Trailer(payload + added)
  }

  lemma GrownHolds(before: seq<Byte>, section: seq<Byte>, payload: seq<Byte>, added: seq<Byte>)
    requires Holds(before, section, payload)
    ensures Holds(before, Grown(section, payload, added), payload + added)
  {
    if added == [] {
      assert payload + added == payload;
    }
  }

  lemma HoldsNext(before: seq<Byte>, section: seq<Byte>, payload: seq<Byte>, params: seq<Byte>, after: seq<Byte>,
                  next: seq<Byte>)
    requires Holds(before, section, payload) && params != [] && Stepped(before, section, params, after)
    requires next == payload + params && !Ends(before + next)
    ensures after == next + Trailer(next)
  {
    StepSeals(before, section, payload, params);
  }

  lemma GrownNext(before: seq<Byte>, section0: seq<Byte>, payload: seq<Byte>, added: seq<Byte>, params: seq<Byte>,
                  section: seq<Byte>, after: seq<Byte>)
    requires Holds(before, section0, payload) && section == Grown(section0, payload, added)
    requires Stepped(before, section, params, after)
    requires added + params != [] ==> !Ends(before + (payload + (added + params)))
    ensures after == Grown(section0, payload, added + params)
  {
    if params == [] {
      assert added + params == added;
    } else {
      var next := payload + (added + params);
      assert next == payload + added + params;
      GrownHolds(before, section0, payload, added);
      HoldsNext(before, section, payload + added, params, after, next);
    }
  }

  lemma GrownEnds(before: seq<Byte>, section: seq<Byte>, payload: seq<Byte>, added: seq<Byte>)
    requires Holds(before, section, payload)
    ensures var s := Grown(section, payload, added); Ends(before + s) ==> |s| >= TRAILER_SIZE
    ensures |Grown(section, payload, added)| <= |section| + |added| + TRAILER_SIZE
  {
    HoldsEnds(before, section, payload);
  }

  lemma {:induction false} AllLonger(params: seq<seq<Byte>>, n: nat)
    requires n < |params|
    ensures All(params[..n + 1]) == All(params[..n]) + params[n] && |All(params[..n + 1])| <= |All(params)|
    decreases |params| - n
  {
    assert params[..n + 1][..n] == params[..n];
    if n + 1 < |params| {
      AllLonger(params, n + 1);
    } else {
      assert params[..n + 1] == params;
    }
  }

  /** The sections before, between and after calls with each of `params`. */
  ghost predicate Calls(before: seq<Byte>, sections: seq<seq<Byte>>, params: seq<seq<Byte>>) {
    |sections| == |params| + 1 && forall i :: 0 <= i < |params| ==> Called(before, sections, params, i)
  }

  ghost predicate Called(before: seq<Byte>, sections: seq<seq<Byte>>, params: seq<seq<Byte>>, i: nat)
    requires i < |params| && |sections| == |params| + 1
  {
    Stepped(before, sections[i], params[i], sections[i + 1])
  }

  /** After `n` calls the section holds the payload, all parameters so far and one trailer. */
  ghost predicate RightAt(sections: seq<seq<Byte>>, payload: seq<Byte>, params: seq<seq<Byte>>, n: nat)
    requires n <= |params| && |sections| == |params| + 1
  {
    sections[n] == Grown(sections[0], payload, All(params[..n]))
  }

  ghost predicate AllRight(sections: seq<seq<Byte>>, payload: seq<Byte>, params: seq<seq<Byte>>)
    requires |sections| == |params| + 1
  {
    forall n :: 0 <= n <= |params| ==> RightAt(sections, payload, params, n)
  }

  lemma {:induction false} CleanRight(before: seq<Byte>, sections: seq<seq<Byte>>, payload: seq<Byte>,
                                      params: seq<seq<Byte>>, n: nat)
    requires Calls(before, sections, params) && Holds(before, sections[0], payload) && Clean(before, payload, params)
    requires n <= |params|
    ensures RightAt(sections, payload, params, n)
  {
    if n > 0 {
      CleanRight(before, sections, payload, params, n - 1);
      AllLonger(params, n - 1);
      assert Called(before, sections, params, n - 1);
      GrownNext(before, sections[0], payload, All(params[..n - 1]), params[n - 1], sections[n - 1], sections[n]);
    }
  }

  lemma HoldsRight(before: seq<Byte>, section: seq<Byte>, payload: seq<Byte>, params: seq<Byte>, after: seq<Byte>,
                   next: seq<Byte>)
    requires Holds(before, section, payload) && params != [] && Stepped(before, section, params, after)
    requires next == payload + params && after == next + Trailer(next)
    ensures !Ends(before + next)
  {
    StepSeals(before, section, payload, params);
  }

  lemma RightStep(before: seq<Byte>, section0: seq<Byte>, payload: seq<Byte>, added: seq<Byte>, params: seq<Byte>,
                  section: seq<Byte>, after: seq<Byte>, next: seq<Byte>)
    requires Holds(before, section0, payload) && section == Grown(section0, payload, added) && params != []
    requires Stepped(before, section, params, after)
    requires next == added + params && after == Grown(section0, payload, next)
    ensures !Ends(before + (payload + next))
  {
    GrownHolds(before, section0, payload, added);
    var held, whole := payload + added, payload + next;
    assert whole == held + params && next != [];
    HoldsRight(before, section, held, params, after, whole);
  }

  lemma {:induction false} RightClean(before: seq<Byte>, sections: seq<seq<Byte>>, payload: seq<Byte>,
                                      params: seq<seq<Byte>>, n: nat)
    requires Calls(before, sections, params) && Holds(before, sections[0], payload) && AllRight(sections, payload, params)
    requires n <= |params| && All(params[..n]) != []
    ensures !Ends(before + (payload + All(params[..n])))
  {
    AllLonger(params, n - 1);
    var added, last, next := All(params[..n - 1]), params[n - 1], All(params[..n]);
    if last == [] {
      assert next == added;
      RightClean(before, sections, payload, params, n - 1);
    } else {
      assert Called(before, sections, params, n - 1);
      assert RightAt(sections, payload, params, n - 1) && RightAt(sections, payload, params, n);
      RightStep(before, sections[0], payload, added, last, sections[n - 1], sections[n], next);
    }
  }

  /**
   The section is right after every one of any number of calls exactly when no payload on the way ends in
   the magic.
   */
  lemma RightIffClean(before: seq<Byte>, sections: seq<seq<Byte>>, payload: seq<Byte>, params: seq<seq<Byte>>)
    requires Calls(before, sections, params) && Holds(before, sections[0], payload)
    ensures AllRight(sections, payload, params) <==> Clean(before, payload, params)
  {
    if Clean(before, payload, params) {
      forall n | 0 <= n <= |params| ensures RightAt(sections, payload, params, n) {
        CleanRight(before, sections, payload, params, n);
      }
    }
    if AllRight(sections, payload, params) {
      forall n | 0 <= n <= |params| && All(params[..n]) != [] ensures !Ends(before + (payload + All(params[..n]))) {
        RightClean(before, sections, payload, params, n);
      }
    }
  }

  /** Memory where the bytes before the section are kept, and the section has grown by `added`. */
  ghost predicate Kept(mem: seq<Byte>, start: nat, size: nat, before: seq<Byte>, section0: seq<Byte>,
                       payload: seq<Byte>, added: seq<Byte>)
  {
    && start + size <= |mem| && mem[..start] == before
    && mem[start..start + size] == Grown(section0, payload, added)
  }

  lemma KeptFits(mem: seq<Byte>, start: nat, size: nat, before: seq<Byte>, section0: seq<Byte>,
                 payload: seq<Byte>, added: seq<Byte>)
    requires Kept(mem, start, size, before, section0, payload, added) && Holds(before, section0, payload)
    ensures size <= |section0| + |added| + TRAILER_SIZE
    ensures Ends(mem[..start + size]) ==> size >= TRAILER_SIZE
  {
    GrownEnds(before, section0, payload, added);
    SplitAt(mem, start, start + size);
  }

  lemma KeptNext(was: seq<Byte>, now: seq<Byte>, start: nat, size: nat, params: seq<Byte>, ret: int,
                 before: seq<Byte>, section0: seq<Byte>, payload: seq<Byte>, added: seq<Byte>)
    requires Holds(before, section0, payload) && Kept(was, start, size, before, section0, payload, added)
    requires added + params != [] ==> !Ends(before + (payload + (added + params)))
    requires SectionStepped(was, now, start, size, params, ret)
    ensures size + ret >= 0 && Kept(now, start, size + ret, before, section0, payload, added + params)
  {
    GrownNext(before, section0, payload, added, params, was[start..start + size], now[start..start + size + ret]);
  }

  /** A call on a section that is not shorter than the trailer it ends in. */
  method AddWithin(mem: array<Byte>, start: nat, size: nat, params: seq<Byte>) returns (ret: int)
    requires 0 < start && start + size + |params| + TRAILER_SIZE <= mem.Length
    requires Ends(mem[..][..start + size]) ==> size >= TRAILER_SIZE
    modifies mem
    ensures SectionStepped(old(mem[..]), mem[..], start, size, params, ret)
  {
    ret := AddParameters(mem, start, size, params);
  }

  /** One more call on a section that calls have grown. */
  method AddNext(mem: array<Byte>, start: nat, size: nat, params: seq<Byte>,
                 ghost before: seq<Byte>, ghost section0: seq<Byte>, ghost payload: seq<Byte>, ghost added: seq<Byte>)
    returns (newSize: nat)
    requires 0 < start && start + |section0| + |added + params| + 2 * TRAILER_SIZE <= mem.Length
    requires Holds(before, section0, payload) && Kept(mem[..], start, size, before, section0, payload, added)
    requires added + params != [] ==> !Ends(before + (payload + (added + params)))
    modifies mem
    ensures Kept(mem[..], start, newSize, before, section0, payload, added + params)
  {
    ghost var was := mem[..];
    KeptFits(was, start, size, before, section0, payload, added);
    var ret := AddWithin(mem, start, size, params);
    ghost var now := mem[..];
    KeptNext(was, now, start, size, params, ret, before, section0, payload, added);
    newSize := size + ret;
  }

  /**
   After any number of calls, each fed the size that the one before it left: the payload, all parameter
   strings in order, and exactly one trailer.
   */
  method AddAll(mem: array<Byte>, start: nat, size0: nat, params: seq<seq<Byte>>, ghost payload: seq<Byte>)
    returns (size: nat)
    requires 0 < start && start + size0 + |All(params)| + 2 * TRAILER_SIZE <= mem.Length
    requires Holds(mem[..][..start], mem[..][start..start + size0], payload) && Clean(mem[..][..start], payload, params)
    modifies mem
    ensures start + size <= mem.Length && mem[..][..start] == old(mem[..])[..start]
    ensures mem[..][start..start + size] == Grown(old(mem[..])[start..start + size0], payload, All(params))
  {
    ghost var before, section0 := mem[..][..start], mem[..][start..start + size0];
    size := size0;
    for i := 0 to |params|
      invariant Kept(mem[..], start, size, before, section0, payload, All(params[..i]))
    {
      AllLonger(params, i);
      size := AddNext(mem, start, size, params[i], before, section0, payload, All(params[..i]));
    }
    assert params[..|params|] == params;
  }

  lemma ThreeFields(a: seq<Byte>, b: seq<Byte>, c: seq<Byte>)
    requires |a| == 4 && |b| == 4
    ensures var s := a + b + c; s[0..4] == a && s[4..8] == b && s[8..] == c
  {
  }

  /** The trailer tells the size and the byte sum of the payload, modulo 2^32. */
  lemma TrailerReads(payload: seq<Byte>)
    ensures var s := Trailer(payload);
      Num(s[0..4]) == |payload| % U32 && Num(s[4..8]) == Sum(payload) % U32 && s[8..] == MAGIC
  {
    var a, b := LE(|payload| % U32, 4), LE(Sum(payload) % U32, 4);
    ThreeFields(a, b, MAGIC);
    LE4(|payload| % U32);
    LE4(Sum(payload) % U32);
  }

  lemma EndsInMagic(s: seq<Byte>, a: seq<Byte>)
    requires s == a + MAGIC
    ensures Ends(s)
  {
  }

  lemma StepSealed(before: seq<Byte>, section: seq<Byte>, base: seq<Byte>, params: seq<Byte>, whole: seq<Byte>)
    requires params != [] && whole == base + params
    requires if Ends(before + section) then |section| >= TRAILER_SIZE && base == section[..|section| - TRAILER_SIZE]
             else base == section
    ensures Step(before, section, params) == Sealed(before, whole)
  {
  }

  /** Parameters that end in the magic are taken for a trailer: none is added. */
  lemma MagicLosesTrailer(before: seq<Byte>, payload: seq<Byte>, params: seq<Byte>)
    requires Holds(before, payload, payload)
    ensures !Ends(before + payload)
    ensures Step(before, payload, params + MAGIC) == payload + (params + MAGIC)
    ensures Ends(before + (payload + (params + MAGIC)))
  {
    HoldsEnds(before, payload, payload);
    var whole := payload + (params + MAGIC);
    assert before + whole == before + payload + params + MAGIC;
    EndsInMagic(before + whole, before + payload + params);
    StepSealed(before, payload, payload, params + MAGIC, whole);
  }

  /** The call after one that left a payload ending in the magic cuts the length of a trailer off that payload. */
  lemma MagicCutsPayload(before: seq<Byte>, payload: seq<Byte>, params: seq<Byte>, more: seq<Byte>, section: seq<Byte>)
    requires Holds(before, payload, payload) && more != []
    requires section == Step(before, payload, params + MAGIC) && |section| >= TRAILER_SIZE
    ensures section == payload + (params + MAGIC)
    ensures Step(before, section, more) == Sealed(before, section[..|section| - TRAILER_SIZE] + more)
  {
    MagicLosesTrailer(before, payload, params);
    var base := section[..|section| - TRAILER_SIZE];
    StepSealed(before, section, base, more, base + more);
  }
}
