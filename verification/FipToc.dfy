/**
 The table of contents of a Firmware Image Package, as the "Firmware Image Package (FIP)" section of
 the Trusted Firmware-A Firmware Design lays it out: a 16-byte header, 40-byte entries, and an entry
 with a zero UUID that ends the table.
 */
module FipToc {
  import opened Bytes
  import opened Wrappers

  const FIP_MAGIC: nat := 0xAA640001
  const FIP_SERIAL: nat := 0x12345678

  const ZERO_UUID: nat := 0

  /** A table entry. A UUID is kept as the number that its 16 bytes spell. */
  datatype Entry = Entry(uuid: nat, off: nat, size: nat, flags: nat)

  /** `term` is the entry with the zero UUID; its offset is the end of the package. */
  datatype Toc = Toc(serial: nat, flags: nat, entries: seq<Entry>, term: Entry)

  function Pos(i: nat): nat {
    16 + 40 * i
  }

  function TocEnd(n: nat): nat {
    Pos(n + 1)
  }

  /** Everything in an entry fits its field. */
  ghost predicate Encodable(e: Entry) {
    e.uuid < Pow256(16) && e.off < U64 && e.size < U64 && e.flags < U64
  }

  function EntryBytes(e: Entry): (s: seq<Byte>)
    ensures |s| == 40
  {
    Id(e.uuid) + Word(e.off) + Word(e.size) + Word(e.flags)
  }

  function EntryAt(data: seq<Byte>, pos: nat): Entry
    requires pos + 40 <= |data|
  {
    Entry(Big(data[pos..pos + 16]), Num(data[pos + 16..pos + 24]), Num(data[pos + 24..pos + 32]), Num(data[pos + 32..pos + 40]))
  }

  lemma EntryMoves(data: seq<Byte>, pos: nat)
    requires pos + 40 <= |data|
    ensures EntryAt(data, pos) == EntryAt(data[pos..pos + 40], 0)
  {
    Slice(data, pos, pos + 40, 0, 16);
    Slice(data, pos, pos + 40, 16, 24);
    Slice(data, pos, pos + 40, 24, 32);
    Slice(data, pos, pos + 40, 32, 40);
  }

  lemma Fields(d: seq<Byte>, e: Entry)
    requires |d| == 40
    ensures d == EntryBytes(e) <==> d[0..16] == Id(e.uuid) && d[16..24] == Word(e.off) && d[24..32] == Word(e.size) && d[32..40] == Word(e.flags)
  {
    assert d == d[0..16] + d[16..24] + d[24..32] + d[32..40];
  }

  /** An entry and its 40 bytes determine each other. */
  lemma EntryRoundTrip(data: seq<Byte>, pos: nat, e: Entry)
    requires pos + 40 <= |data|
    ensures EntryAt(data, pos) == e <==> Encodable(e) && data[pos..pos + 40] == EntryBytes(e)
  {
    EntryMoves(data, pos);
    var d := data[pos..pos + 40];
    Fields(d, e);
    IdRoundTrip(d[0..16], e.uuid);
    WordRoundTrip(d[16..24], e.off);
    WordRoundTrip(d[24..32], e.size);
    WordRoundTrip(d[32..40], e.flags);
  }

  /** The table of contents that `data` starts with. */
  ghost predicate StartsWith(data: seq<Byte>, toc: Toc) {
    && TocEnd(|toc.entries|) <= |data|
    && Num(data[0..4]) == FIP_MAGIC && Num(data[4..8]) == toc.serial && Num(data[8..16]) == toc.flags
    && (forall i :: 0 <= i < |toc.entries| ==> EntryAt(data, Pos(i)) == toc.entries[i])
    && EntryAt(data, Pos(|toc.entries|)) == toc.term
  }

  ghost predicate Terminated(toc: Toc) {
    (forall i :: 0 <= i < |toc.entries| ==> toc.entries[i].uuid != ZERO_UUID) && toc.term.uuid == ZERO_UUID
  }

  /** Every entry of the table lies within a package of `len` bytes. */
  ghost predicate Within(entries: seq<Entry>, len: nat) {
    forall i :: 0 <= i < |entries| ==> entries[i].off + entries[i].size <= len
  }

  /** What a parser of these tables accepts: `data` starts with the table, and its entries lie in it. */
  ghost predicate Holds(data: seq<Byte>, toc: Toc) {
    StartsWith(data, toc) && Terminated(toc) && Within(toc.entries, |data|)
  }

  datatype Error =
    | TooSmall | BadHeader | OutOfBounds | NoTerminator | WrongEnd
    | WrongEntries | WrongLayout | Overlaps | TooLarge | NotPackable | Mismatch

  datatype Result<+T> = Ok(value: T) | Err(error: Error)

  /** The loop of the Python parsers from entry `i` on. */
  function ParseFrom(data: seq<Byte>, i: nat): Result<(seq<Entry>, Entry)>
    decreases |data| - Pos(i)
  {
    if Pos(i) + 40 > |data| then Err(NoTerminator)
    else
      var e := EntryAt(data, Pos(i));
      if e.uuid == ZERO_UUID then Ok(([], e))
      else if e.off + e.size > |data| then Err(OutOfBounds)
      else
        var rest := ParseFrom(data, i + 1);
        if rest.Ok? then Ok(([e] + rest.value.0, rest.value.1)) else rest
  }

  function Parse(data: seq<Byte>): Result<Toc> {
    if |data| < 16 then Err(TooSmall)
    else if Num(data[0..4]) != FIP_MAGIC then Err(BadHeader)
    else
      var r := ParseFrom(data, 0);
      if r.Ok? then Ok(Toc(Num(data[4..8]), Num(data[8..16]), r.value.0, r.value.1)) else Err(r.error)
  }

  /** Entries `i` to `i + |es|` of the table. */
  ghost predicate Table(data: seq<Byte>, i: nat, es: seq<Entry>) {
    && Pos(i + |es|) <= |data|
    && forall k :: i <= k < i + |es| ==> EntryAt(data, Pos(k)) == es[k - i] && es[k - i].uuid != ZERO_UUID
  }

  /** Parsing and laying out are inverse: a package parses to `toc` exactly when it holds `toc`. */
  lemma ParseExact(data: seq<Byte>, toc: Toc)
    ensures Parse(data) == Ok(toc) <==> Holds(data, toc)
  {
    if Parse(data) == Ok(toc) {
      ParsedHolds(data, 0, toc.entries, toc.term);
      assert forall i :: 0 <= i < |toc.entries| ==> EntryAt(data, Pos(i)) == toc.entries[i];
    }
    if Holds(data, toc) {
      HeldParses(data, 0, toc);
      assert toc.entries[0..] == toc.entries;
    }
  }

  lemma ParseSplit(data: seq<Byte>, i: nat, es: seq<Entry>, term: Entry)
    requires ParseFrom(data, i) == Ok((es, term)) && es != []
    ensures Pos(i) + 40 <= |data| && es[0] == EntryAt(data, Pos(i)) && es[0].uuid != ZERO_UUID
    ensures es[0].off + es[0].size <= |data|
    ensures ParseFrom(data, i + 1) == Ok((es[1..], term))
  {
  }

  lemma {:induction false} ParsedHolds(data: seq<Byte>, i: nat, es: seq<Entry>, term: Entry)
    requires ParseFrom(data, i) == Ok((es, term))
    ensures Table(data, i, es) && Within(es, |data|)
    ensures Pos(i + |es|) + 40 <= |data| && EntryAt(data, Pos(i + |es|)) == term && term.uuid == ZERO_UUID
    decreases |es|
  {
    if es == [] {
    } else {
      ParseSplit(data, i, es, term);
      ParsedHolds(data, i + 1, es[1..], term);
      TablePrepend(data, i, es);
    }
  }

  lemma TablePrepend(data: seq<Byte>, i: nat, es: seq<Entry>)
    requires es != [] && Table(data, i + 1, es[1..]) && Within(es[1..], |data|)
    requires Pos(i) + 40 <= |data| && es[0] == EntryAt(data, Pos(i)) && es[0].uuid != ZERO_UUID
    requires es[0].off + es[0].size <= |data|
    ensures Table(data, i, es) && Within(es, |data|)
  {
    forall k | i <= k < i + |es| ensures EntryAt(data, Pos(k)) == es[k - i] && es[k - i].uuid != ZERO_UUID {
      if k > i { assert es[k - i] == es[1..][k - (i + 1)]; }
    }
    forall k | 0 <= k < |es| ensures es[k].off + es[k].size <= |data| {
      if k > 0 { assert es[k] == es[1..][k - 1]; }
    }
  }

  lemma {:induction false} HeldParses(data: seq<Byte>, i: nat, toc: Toc)
    requires Holds(data, toc) && i <= |toc.entries|
    ensures ParseFrom(data, i) == Ok((toc.entries[i..], toc.term))
    decreases |toc.entries| - i
  {
    if i == |toc.entries| {
    } else {
      HeldParses(data, i + 1, toc);
      assert EntryAt(data, Pos(i)) == toc.entries[i];
      assert toc.entries[i..] == [toc.entries[i]] + toc.entries[i + 1..];
    }
  }

  function Prepend(es: seq<Entry>, r: Result<(seq<Entry>, Entry)>): Result<(seq<Entry>, Entry)> {
    if r.Ok? then Ok((es + r.value.0, r.value.1)) else r
  }

  lemma PrependOne(data: seq<Byte>, i: nat, es: seq<Entry>, e: Entry)
    requires Pos(i) + 40 <= |data| && e == EntryAt(data, Pos(i)) && e.uuid != ZERO_UUID && e.off + e.size <= |data|
    ensures Prepend(es, ParseFrom(data, i)) == Prepend(es + [e], ParseFrom(data, i + 1))
  {
    var r := ParseFrom(data, i + 1);
    if r.Ok? {
      assert es + ([e] + r.value.0) == es + [e] + r.value.0;
    }
  }

  lemma PrependNone(r: Result<(seq<Entry>, Entry)>)
    ensures Prepend([], r) == r
  {
    if r.Ok? {
      assert [] + r.value.0 == r.value.0;
    }
  }

  lemma PrependEnd(data: seq<Byte>, es: seq<Entry>)
    requires Pos(|es|) + 40 <= |data| && EntryAt(data, Pos(|es|)).uuid == ZERO_UUID
    ensures Prepend(es, ParseFrom(data, |es|)) == Ok((es, EntryAt(data, Pos(|es|))))
  {
    assert es + [] == es;
  }

  /** parse() of the persistent repacker: the table, or why there is none. */
  method ParsePersistent(data: seq<Byte>) returns (r: Result<Toc>)
    ensures r == Parse(data)
  {
    if |data| < 16 {
      return Err(TooSmall);
    }
    if Num(data[0..4]) != FIP_MAGIC {
      return Err(BadHeader);
    }
    var serial, flags := Num(data[4..8]), Num(data[8..16]);
    var out: seq<Entry> := [];
    var pos := 16;
    PrependNone(ParseFrom(data, 0));
    while pos + 40 <= |data|
      invariant pos == Pos(|out|)
      invariant ParseFrom(data, 0) == Prepend(out, ParseFrom(data, |out|))
    {
      var e := EntryAt(data, pos);
      if e.uuid == ZERO_UUID {
        PrependEnd(data, out);
        return Ok(Toc(serial, flags, out, e));
      }
      if e.off + e.size > |data| {
        return Err(OutOfBounds);
      }
      PrependOne(data, |out|, out, e);
      out := out + [e];
      pos := pos + 40;
    }
    return Err(NoTerminator);
  }

  /** parse_fip() of the recovery patcher: a package of at least 96 bytes. */
  method ParseRecovery(data: seq<Byte>) returns (r: Result<Toc>)
    ensures r == if |data| < 96 then Err(TooSmall) else Parse(data)
  {
    if |data| < 96 {
      return Err(TooSmall);
    }
    r := ParsePersistent(data);
  }

  ghost predicate NonEmpty(entries: seq<Entry>) {
    forall i :: 0 <= i < |entries| ==> entries[i].size > 0
  }

  /** What parse_fip() of the vanilla repacker accepts beyond what parse() does. */
  ghost predicate Strict(data: seq<Byte>, toc: Toc) {
    |data| >= 136 && toc.serial == FIP_SERIAL && NonEmpty(toc.entries) && toc.term.off == |data|
  }

  lemma RejectsNext(data: seq<Byte>, entries: seq<Entry>, e: Entry)
    requires |data| >= 16 && ParseFrom(data, 0) == Prepend(entries, ParseFrom(data, |entries|))
    requires Pos(|entries|) + 40 <= |data| && e == EntryAt(data, Pos(|entries|)) && e.uuid != ZERO_UUID
    requires e.size == 0 || e.off + e.size > |data|
    ensures Parse(data).Err? || !NonEmpty(Parse(data).value.entries)
  {
    if e.off + e.size <= |data| {
      PrependOne(data, |entries|, entries, e);
      if ParseFrom(data, |entries| + 1).Ok? {
        assert (entries + [e] + ParseFrom(data, |entries| + 1).value.0)[|entries|] == e;
      }
    }
  }

  /** parse_fip() of the vanilla repacker */
  method ParseVanilla(data: seq<Byte>) returns (r: Result<Toc>)
    ensures r.Ok? ==> Parse(data) == r && Strict(data, r.value)
    ensures r.Err? ==> Parse(data).Err? || !Strict(data, Parse(data).value)
  {
    if |data| < 136 {
      return Err(TooSmall);
    }
    if Num(data[0..4]) != FIP_MAGIC || Num(data[4..8]) != FIP_SERIAL {
      return Err(BadHeader);
    }
    var entries: seq<Entry> := [];
    var end: Option<Entry> := None;
    var pos := 16;
    PrependNone(ParseFrom(data, 0));
    while pos + 40 <= |data|
      invariant pos == Pos(|entries|) && NonEmpty(entries)
      invariant ParseFrom(data, 0) == Prepend(entries, ParseFrom(data, |entries|))
    {
      var e := EntryAt(data, pos);
      if e.uuid == ZERO_UUID {
        PrependEnd(data, entries);
        end := Some(e);
        break;
      }
      if e.size == 0 || e.off + e.size > |data| {
        RejectsNext(data, entries, e);
        return Err(OutOfBounds);
      }
      PrependOne(data, |entries|, entries, e);
      entries := entries + [e];
      pos := pos + 40;
    }
    if end.None? || end.value.off != |data| {
      return Err(WrongEnd);
    }
    return Ok(Toc(Num(data[4..8]), Num(data[8..16]), entries, end.value));
  }

  function Payload(data: seq<Byte>, e: Entry): seq<Byte>
    requires e.off + e.size <= |data|
  {
    data[e.off..e.off + e.size]
  }

  /** What is read from a package fits the fields it was read from. */
  lemma ParsedFits(data: seq<Byte>, toc: Toc)
    requires Parse(data) == Ok(toc)
    ensures Holds(data, toc) && toc.serial < U32 && toc.flags < U64 && Encodable(toc.term)
    ensures forall i :: 0 <= i < |toc.entries| ==> Encodable(toc.entries[i]) && toc.entries[i].uuid != ZERO_UUID
  {
    ParseExact(data, toc);
    Num4(data[4..8]);
    Num8(data[8..16]);
    EntryRoundTrip(data, Pos(|toc.entries|), toc.term);
    forall i | 0 <= i < |toc.entries| ensures Encodable(toc.entries[i]) {
      EntryRoundTrip(data, Pos(i), toc.entries[i]);
    }
  }

  /** The last entry with a UUID. */
  function Find(entries: seq<Entry>, uuid: nat): Option<Entry> {
    if entries == [] then None
    else
      var e := entries[|entries| - 1];
      if e.uuid == uuid then Some(e) else Find(entries[..|entries| - 1], uuid)
  }

  lemma {:induction false} FindExact(entries: seq<Entry>, uuid: nat)
    ensures var r := Find(entries, uuid);
      && (r.Some? ==> r.value in entries && r.value.uuid == uuid)
      && (r.None? ==> forall i :: 0 <= i < |entries| ==> entries[i].uuid != uuid)
    decreases |entries|
  {
    if entries != [] {
      FindExact(entries[..|entries| - 1], uuid);
    }
  }
}
