/** The three repackers of a package that holds SOC_FW and NT_FW, and why they build the same bytes. */
module FipRepack {
  import opened Bytes
  import opened FipToc
  import opened FipCompact

  ghost predicate ItemsFit(serial: nat, flags: nat, items: seq<Item>) {
    serial < U32 && flags < U64 && forall i :: 0 <= i < |items| ==> items[i].uuid < Pow256(16) && items[i].flags < U64
  }

  /** The offsets of the payloads, by cursor, and where the last one ends. */
  method Offsets(items: seq<Item>) returns (offsets: seq<nat>, cursor: nat)
    ensures |offsets| == |items| && cursor == Cursor(items, |items|)
    ensures forall i :: 0 <= i < |items| ==> offsets[i] == Cursor(items, i)
  {
    offsets, cursor := [], 16 + 40 * (|items| + 1);
    for i := 0 to |items|
      invariant |offsets| == i && cursor == Cursor(items, i)
      invariant forall k :: 0 <= k < i ==> offsets[k] == Cursor(items, k)
    {
      CursorBound(items, i);
      offsets := offsets + [cursor];
      cursor := cursor + |items[i].payload|;
    }
  }

  /** The three numbers of an entry as struct.pack() writes them. */
  function Numbers(e: Entry): (s: seq<Byte>)
    ensures |s| == 24
  {
    Word(e.off) + Word(e.size) + Word(e.flags)
  }

  /** Write one entry: its UUID, then the three numbers. */
  function PutEntry(out: seq<Byte>, pos: nat, e: Entry): seq<Byte> {
    Overlay(Overlay(out, pos, Id(e.uuid)), pos + 16, Numbers(e))
  }

  lemma PutEntryNext(prefix: seq<Byte>, n: nat, e: Entry)
    requires n >= 40
    ensures PutEntry(prefix + Zeros(n), |prefix|, e) == prefix + EntryBytes(e) + Zeros(n - 40)
  {
    OverlayNext(prefix, n, Id(e.uuid));
    OverlayNext(prefix + Id(e.uuid), n - 16, Numbers(e));
    assert prefix + Id(e.uuid) + Numbers(e) == prefix + EntryBytes(e);
  }

  lemma EntryStep(h: seq<Byte>, items: seq<Item>, i: nat, n: nat)
    requires i < |items| && n >= 40
    ensures PutEntry(h + Flat(items, i) + Zeros(n), |h + Flat(items, i)|, EntryOf(items, i)) == h + Flat(items, i + 1) + Zeros(n - 40)
  {
    PutEntryNext(h + Flat(items, i), n, EntryOf(items, i));
    Assoc(h, Flat(items, i), EntryBytes(EntryOf(items, i)));
  }

  /** Write the entries behind the header. */
  method WriteEntries(out0: seq<Byte>, items: seq<Item>, offsets: seq<nat>, ghost h: seq<Byte>, ghost n: nat)
    returns (out: seq<Byte>)
    requires |h| == 16 && out0 == h + Zeros(n) && n >= 40 * |items|
    requires |offsets| == |items| && forall i :: 0 <= i < |items| ==> offsets[i] == Cursor(items, i)
    ensures out == h + Flat(items, |items|) + Zeros(n - 40 * |items|)
  {
    out := out0;
    var pos := 16;
    assert h + Flat(items, 0) == h;
    for i := 0 to |items|
      invariant pos == Pos(i)
      invariant out == h + Flat(items, i) + Zeros(n - 40 * i)
    {
      FlatSize(items, i);
      EntryStep(h, items, i, n - 40 * i);
      out := PutEntry(out, pos, Entry(items[i].uuid, offsets[i], |items[i].payload|, items[i].flags));
      pos := pos + 40;
    }
  }

  /** Write the header into a zeroed buffer. */
  method WriteHeader(serial: nat, flags: nat, cursor: nat) returns (out: seq<Byte>)
    requires cursor >= 16
    ensures out == Header(serial, flags) + Zeros(cursor - 16)
  {
    var h := Header(serial, flags);
    OverlayNext([], cursor, h);
    assert [] + Zeros(cursor) == Zeros(cursor) && [] + h == h;
    out := Overlay(Zeros(cursor), 0, h);
  }

  /** Write the terminator behind the entries. */
  method WriteTerm(out0: seq<Byte>, n: nat, e: Entry, ghost prefix: seq<Byte>, ghost rest: nat) returns (out: seq<Byte>)
    requires out0 == prefix + Zeros(rest) && rest >= 40 && |prefix| == Pos(n)
    ensures out == prefix + EntryBytes(e) + Zeros(rest - 40)
  {
    PutEntryNext(prefix, rest, e);
    out := PutEntry(out0, 16 + 40 * n, e);
  }

  /** Write the header, the entries and the terminator. */
  method WriteToc(serial: nat, flags: nat, items: seq<Item>, offsets: seq<nat>, cursor: nat) returns (out: seq<Byte>)
    requires ItemsFit(serial, flags, items) && cursor == Cursor(items, |items|)
    requires |offsets| == |items| && forall i :: 0 <= i < |items| ==> offsets[i] == Cursor(items, i)
    ensures out == Header(serial, flags) + Flat(items, |items|) + EntryBytes(Last(items)) + Zeros(cursor - TocEnd(|items|))
  {
    ghost var h, f := Header(serial, flags), Flat(items, |items|);
    out := WriteHeader(serial, flags, cursor);
    out := WriteEntries(out, items, offsets, h, cursor - 16);
    FlatSize(items, |items|);
    out := WriteTerm(out, |items|, Entry(ZERO_UUID, cursor, 0, 0), h + f, cursor - Pos(|items|));
  }

  /** Copy the payloads to their offsets. */
  method WritePayloads(toc: seq<Byte>, out0: seq<Byte>, items: seq<Item>, offsets: seq<nat>) returns (out: seq<Byte>)
    requires |toc| == TocEnd(|items|) && out0 == toc + Zeros(|Payloads(items)|)
    requires |offsets| == |items| && forall i :: 0 <= i < |items| ==> offsets[i] == Cursor(items, i)
    ensures out == toc + Payloads(items)
  {
    out := out0;
    ghost var n := |Payloads(items)|;
    assert items[..|items|] == items && toc + Payloads(items[..0]) == toc;
    for i := 0 to |items|
      invariant |Payloads(items[..i])| <= n
      invariant out == toc + Payloads(items[..i]) + Zeros(n - |Payloads(items[..i])|)
    {
      PayloadAt(items, |items|, i);
      var p := items[i].payload;
      OverlayNext(toc + Payloads(items[..i]), n - |Payloads(items[..i])|, p);
      assert items[..i + 1][..i] == items[..i];
      assert toc + Payloads(items[..i]) + p == toc + Payloads(items[..i + 1]);
      out := Overlay(out, offsets[i], p);
    }
    assert toc + Payloads(items) + Zeros(0) == toc + Payloads(items);
  }

  /** The layout part of rebuild() and of rebuild_fip(): a buffer filled by cursor is the compact package. */
  method LayOut(serial: nat, flags: nat, items: seq<Item>) returns (r: Result<seq<Byte>>)
    requires ItemsFit(serial, flags, items)
    ensures r == if Cursor(items, |items|) < U64 then Ok(Compact(serial, flags, items)) else Err(NotPackable)
  {
    var offsets, cursor := Offsets(items);
    if cursor >= U64 {
      return Err(NotPackable);
    }
    var out := WriteToc(serial, flags, items, offsets, cursor);
    ghost var h, f, e := Header(serial, flags), Flat(items, |items|), EntryBytes(Last(items));
    FlatSize(items, |items|);
    assert items[..|items|] == items;
    assert out[..TocEnd(|items|)] == h + f + e;
    out := WritePayloads(out[..TocEnd(|items|)], out, items, offsets);
    assert h + f + e + Payloads(items) == h + f + e + Payloads(items) + [];
    Regroup(h, f, e, Payloads(items));
    return Ok(out);
  }

  // ----- the repackers -----

  /** A package with two entries whose payloads begin right after the table. */
  ghost predicate TwoEntries(data: seq<Byte>) {
    && Parse(data).Ok? && |Parse(data).value.entries| == 2
    && Parse(data).value.entries[0].off == TocEnd(2)
  }

  /** What the repackers keep of a donor with two entries, with a new second payload. */
  function Replaced(data: seq<Byte>, toc: Toc, nt: seq<Byte>): seq<Item>
    requires |toc.entries| == 2 && toc.entries[0].off + toc.entries[0].size <= |data|
  {
    [Item(toc.entries[0].uuid, toc.entries[0].flags, Payload(data, toc.entries[0])),
     Item(toc.entries[1].uuid, toc.entries[1].flags, nt)]
  }

  lemma ReplacedFits(data: seq<Byte>, nt: seq<Byte>)
    requires TwoEntries(data)
    ensures var toc := Parse(data).value;
      && toc.entries[0].off + toc.entries[0].size <= |data|
      && ItemsFit(toc.serial, toc.flags, Replaced(data, toc, nt))
      && Replaced(data, toc, nt)[0].uuid != ZERO_UUID && Replaced(data, toc, nt)[1].uuid != ZERO_UUID
  {
    var toc := Parse(data).value;
    ParsedFits(data, toc);
    var a, b := toc.entries[0], toc.entries[1];
    assert Encodable(a) && Encodable(b) && a.uuid != ZERO_UUID && b.uuid != ZERO_UUID;
  }

  /** The donor with the second payload replaced, as one compact package. */
  ghost function Expected(data: seq<Byte>, nt: seq<Byte>): Result<seq<Byte>>
    requires TwoEntries(data)
  {
    var toc := Parse(data).value;
    ReplacedFits(data, nt);
    var items := Replaced(data, toc, nt);
    if Cursor(items, 2) < U64 then Ok(Compact(toc.serial, toc.flags, items)) else Err(NotPackable)
  }

  /** The checks that rebuild() makes of its own output. */
  predicate Unchanged(a: Toc, b: Toc, final: seq<Byte>, items: seq<Item>) {
    && b.serial == a.serial && b.flags == a.flags && b.term.off == |final|
    && |a.entries| == |b.entries| == |items|
    && forall i :: 0 <= i < |items| ==>
         && b.entries[i].uuid == a.entries[i].uuid && b.entries[i].flags == a.entries[i].flags
         && b.entries[i].off + b.entries[i].size <= |final| && Payload(final, b.entries[i]) == items[i].payload
  }

  lemma TwoTable(items: seq<Item>)
    requires |items| == 2
    ensures Entries(items, 2) == [EntryOf(items, 0), EntryOf(items, 1)]
  {
  }

  /** A compact package of two payloads, read back. */
  lemma TwoParsed(serial: nat, flags: nat, items: seq<Item>)
    requires |items| == 2 && Packable(serial, flags, items) && items[0].uuid != ZERO_UUID && items[1].uuid != ZERO_UUID
    ensures Parse(Compact(serial, flags, items)) == Ok(Toc(serial, flags, [EntryOf(items, 0), EntryOf(items, 1)], Last(items)))
    ensures |Compact(serial, flags, items)| == Last(items).off >= 136
  {
    CompactParses(serial, flags, items);
    TwoTable(items);
  }

  lemma TwoHeld(serial: nat, flags: nat, items: seq<Item>)
    requires |items| == 2 && Packable(serial, flags, items)
    ensures var c, a, b := Compact(serial, flags, items), EntryOf(items, 0), EntryOf(items, 1);
      && a.off + a.size <= |c| && Payload(c, a) == items[0].payload
      && b.off + b.size <= |c| && Payload(c, b) == items[1].payload
  {
    CompactPayload(serial, flags, items, 0);
    CompactPayload(serial, flags, items, 1);
  }

  lemma TwoUnchanged(a: Toc, b: Toc, final: seq<Byte>, items: seq<Item>)
    requires |items| == |a.entries| == 2 && b == Toc(a.serial, a.flags, [EntryOf(items, 0), EntryOf(items, 1)], Last(items))
    requires items[0].uuid == a.entries[0].uuid && items[0].flags == a.entries[0].flags
    requires items[1].uuid == a.entries[1].uuid && items[1].flags == a.entries[1].flags && Last(items).off == |final|
    requires Cursor(items, 0) + |items[0].payload| <= |final| && Payload(final, EntryOf(items, 0)) == items[0].payload
    requires Cursor(items, 1) + |items[1].payload| <= |final| && Payload(final, EntryOf(items, 1)) == items[1].payload
    ensures Unchanged(a, b, final, items)
  {
  }

  lemma BuildKeeps(data: seq<Byte>, toc: Toc, nt: seq<Byte>)
    requires TwoEntries(data) && Parse(data) == Ok(toc) && Expected(data, nt).Ok?
    ensures toc.entries[0].off + toc.entries[0].size <= |data|
    ensures var final := Expected(data, nt).value;
      |final| >= 96 && Parse(final).Ok? && Unchanged(toc, Parse(final).value, final, Replaced(data, toc, nt))
  {
    ReplacedFits(data, nt);
    var items := Replaced(data, toc, nt);
    TwoParsed(toc.serial, toc.flags, items);
    TwoHeld(toc.serial, toc.flags, items);
    TwoUnchanged(toc, Parse(Expected(data, nt).value).value, Expected(data, nt).value, items);
  }

  /** The layout with the checks that follow it: they never fail. */
  method Build(data: seq<Byte>, toc: Toc, nt: seq<Byte>) returns (r: Result<seq<Byte>>)
    requires TwoEntries(data) && Parse(data) == Ok(toc)
    ensures r == Expected(data, nt)
  {
    ReplacedFits(data, nt);
    var items := Replaced(data, toc, nt);
    r := LayOut(toc.serial, toc.flags, items);
    if r.Ok? {
      var final := r.value;
      BuildKeeps(data, toc, nt);
      var check := ParseRecovery(final);
      if check.Err? || !Unchanged(toc, check.value, final, items) {
        r := Err(Mismatch);
      }
    }
  }

  /** rebuild() of the MF2 repacker, from the compressed payload on */
  method RebuildMf2(source: seq<Byte>, nt: seq<Byte>) returns (r: Result<seq<Byte>>)
    ensures if |source| >= 96 && TwoEntries(source) && Parse(source).value.term.off == |source| then r == Expected(source, nt)
            else r.Err?
  {
    var p := ParseRecovery(source);
    if p.Err? {
      return Err(p.error);
    }
    var toc := p.value;
    if |toc.entries| != 2 {
      return Err(WrongEntries);
    }
    if toc.term.off != |source| {
      return Err(WrongEnd);
    }
    if toc.entries[0].off != 16 + 40 * (|toc.entries| + 1) {
      return Err(WrongLayout);
    }
    r := Build(source, toc, nt);
  }

  /** The layout part of rebuild_fip() of the recovery patcher */
  method RebuildRecovery(source: seq<Byte>, nt: seq<Byte>) returns (r: Result<seq<Byte>>)
    ensures if |source| >= 96 && TwoEntries(source) then r == Expected(source, nt) else r.Err?
  {
    var p := ParseRecovery(source);
    if p.Err? {
      return Err(p.error);
    }
    var toc := p.value;
    if |toc.entries| != 2 {
      return Err(WrongEntries);
    }
    if toc.entries[0].off != 16 + 40 * (|toc.entries| + 1) {
      return Err(WrongLayout);
    }
    r := Build(source, toc, nt);
  }

  /** A donor the vanilla repacker takes: SOC_FW and NT_FW, one after the other. */
  ghost predicate Canonical(donor: seq<Byte>) {
    && TwoEntries(donor) && Strict(donor, Parse(donor).value)
    && var es := Parse(donor).value.entries;
       es[0].uuid == SOC_FW_UUID && es[1].uuid == NT_FW_UUID && es[1].off == es[0].off + es[0].size
  }

  lemma HeaderKept(data: seq<Byte>, toc: Toc)
    requires Parse(data) == Ok(toc)
    ensures |data| >= 16 && data[..16] == Header(toc.serial, toc.flags)
  {
    ParseExact(data, toc);
    Num4(data[0..4]);
    Num4(data[4..8]);
    WordRoundTrip(data[8..16], toc.flags);
    assert data[..16] == data[0..4] + data[4..8] + data[8..16];
  }

  lemma TwoEntriesFlat(items: seq<Item>)
    requires |items| == 2
    ensures Flat(items, 2) == EntryBytes(EntryOf(items, 0)) + EntryBytes(EntryOf(items, 1))
  {
    assert Flat(items, 1) == Flat(items, 0) + EntryBytes(EntryOf(items, 0));
    assert Flat(items, 1) == EntryBytes(EntryOf(items, 0));
  }

  lemma TwoPayloads(a: Item, b: Item)
    ensures Payloads([a, b][..0]) == [] && Payloads([a, b][..1]) == a.payload
    ensures Payloads([a, b][..2]) == Payloads([a, b]) == a.payload + b.payload
  {
    var items := [a, b];
    assert items[..0] == [] && items[..1] == [a] && items[..2] == items && [a][..0] == [];
    assert Payloads([a]) == [] + a.payload;
  }

  /** A header, three entries and two payloads, concatenated. */
  function Concat(h: seq<Byte>, a: Entry, b: Entry, c: Entry, p: seq<Byte>, q: seq<Byte>): seq<Byte> {
    h + (EntryBytes(a) + EntryBytes(b) + EntryBytes(c)) + p + q
  }

  lemma ConcatGroups(h: seq<Byte>, a: Entry, b: Entry, c: Entry, p: seq<Byte>, q: seq<Byte>)
    ensures Concat(h, a, b, c, p, q) == h + (EntryBytes(a) + EntryBytes(b)) + (EntryBytes(c) + (p + q))
  {
  }

  /** Concatenation gives the compact package. */
  lemma TwoConcatenated(serial: nat, flags: nat, a: Item, b: Item)
    ensures var items := [a, b];
      Compact(serial, flags, items) ==
      Concat(Header(serial, flags), EntryOf(items, 0), EntryOf(items, 1), Last(items), a.payload, b.payload)
  {
    var items := [a, b];
    TwoPayloads(a, b);
    TwoEntriesFlat(items);
    ConcatGroups(Header(serial, flags), EntryOf(items, 0), EntryOf(items, 1), Last(items), a.payload, b.payload);
  }

  /** The checks at the start of repack(). */
  method TakeDonor(donor: seq<Byte>) returns (r: Result<Toc>)
    ensures if Canonical(donor) then r == Parse(donor) else r.Err?
  {
    r := ParseVanilla(donor);
    if r.Err? {
      return;
    }
    var es := r.value.entries;
    if |es| != 2 || es[0].uuid != SOC_FW_UUID || es[1].uuid != NT_FW_UUID {
      return Err(WrongEntries);
    }
    if es[0].off != 16 + 40 * |es| + 40 {
      return Err(WrongLayout);
    }
    if es[1].off != es[0].off + es[0].size {
      return Err(WrongLayout);
    }
  }

  /** The checks at the end of repack(): only an empty payload fails them. */
  method CheckRepacked(out: seq<Byte>, soc: seq<Byte>, nt: seq<Byte>, ghost flags: nat, ghost items: seq<Item>)
    returns (r: Result<seq<Byte>>)
    requires |items| == 2 && items[0].payload == soc != [] && items[1].payload == nt && Packable(FIP_SERIAL, flags, items)
    requires items[0].uuid != ZERO_UUID && items[1].uuid != ZERO_UUID && out == Compact(FIP_SERIAL, flags, items)
    ensures if nt != [] then r == Ok(out) else r.Err?
  {
    TwoParsed(FIP_SERIAL, flags, items);
    TwoHeld(FIP_SERIAL, flags, items);
    var check := ParseVanilla(out);
    if check.Err? {
      return Err(check.error);
    }
    r := Ok(out);
    if Payload(out, check.value.entries[0]) != soc || Payload(out, check.value.entries[1]) != nt {
      r := Err(Mismatch);
    }
  }

  /** The bytes that repack() concatenates. */
  function Concatenation(donor: seq<Byte>, toc: Toc, nt: seq<Byte>): seq<Byte>
    requires |donor| >= 16 && |toc.entries| == 2 && toc.entries[0].off + toc.entries[0].size <= |donor|
  {
    var soc := Payload(donor, toc.entries[0]);
    var socOff := toc.entries[0].off;
    var ntOff := socOff + |soc|;
    var finalSize := ntOff + |nt|;
    Concat(donor[..16],
           Entry(SOC_FW_UUID, socOff, |soc|, toc.entries[0].flags),
           Entry(NT_FW_UUID, ntOff, |nt|, toc.entries[1].flags),
           Entry(ZERO_UUID, finalSize, 0, 0),
           soc, nt)
  }

  lemma TwoEntriesOf(a: Item, b: Item)
    ensures var items := [a, b];
      && EntryOf(items, 0) == Entry(a.uuid, TocEnd(2), |a.payload|, a.flags)
      && EntryOf(items, 1) == Entry(b.uuid, TocEnd(2) + |a.payload|, |b.payload|, b.flags)
      && Last(items) == Entry(ZERO_UUID, TocEnd(2) + |a.payload| + |b.payload|, 0, 0)
  {
    TwoPayloads(a, b);
  }

  lemma ConcatItems(serial: nat, flags: nat, a: Item, b: Item, h: seq<Byte>, e0: Entry, e1: Entry, e2: Entry)
    requires h == Header(serial, flags)
    requires e0 == Entry(a.uuid, TocEnd(2), |a.payload|, a.flags)
    requires e1 == Entry(b.uuid, TocEnd(2) + |a.payload|, |b.payload|, b.flags)
    requires e2 == Entry(ZERO_UUID, TocEnd(2) + |a.payload| + |b.payload|, 0, 0)
    ensures Concat(h, e0, e1, e2, a.payload, b.payload) == Compact(serial, flags, [a, b])
  {
    TwoConcatenated(serial, flags, a, b);
    TwoEntriesOf(a, b);
  }

  lemma ConcatenationCompact(donor: seq<Byte>, toc: Toc, nt: seq<Byte>)
    requires |donor| >= 16 && donor[..16] == Header(toc.serial, toc.flags) && |toc.entries| == 2
    requires toc.entries[0].off + toc.entries[0].size <= |donor| && toc.entries[0].off == TocEnd(2)
    requires toc.entries[0].uuid == SOC_FW_UUID && toc.entries[1].uuid == NT_FW_UUID
    ensures Concatenation(donor, toc, nt) == Compact(toc.serial, toc.flags, Replaced(donor, toc, nt))
  {
    var a, b := Replaced(donor, toc, nt)[0], Replaced(donor, toc, nt)[1];
    var at, size := TocEnd(2) + |a.payload|, |nt|;
    ConcatItems(toc.serial, toc.flags, a, b, donor[..16], Entry(SOC_FW_UUID, TocEnd(2), |a.payload|, toc.entries[0].flags),
                Entry(NT_FW_UUID, at, size, toc.entries[1].flags), Entry(ZERO_UUID, at + size, 0, 0));
  }

  /** repack() from its checks on: the package is concatenated. */
  method Concatenate(donor: seq<Byte>, toc: Toc, nt: seq<Byte>) returns (r: Result<seq<Byte>>)
    requires Canonical(donor) && Parse(donor) == Ok(toc)
    ensures if nt != [] && Expected(donor, nt).Ok? then r == Expected(donor, nt) else r.Err?
  {
    ReplacedFits(donor, nt);
    ghost var items := Replaced(donor, toc, nt);
    TwoPayloads(items[0], items[1]);
    HeaderKept(donor, toc);
    ConcatenationCompact(donor, toc, nt);
    var soc := Payload(donor, toc.entries[0]);
    if toc.entries[0].off + |soc| + |nt| >= U64 {
      return Err(NotPackable);
    }
    r := CheckRepacked(Concatenation(donor, toc, nt), soc, nt, toc.flags, items);
  }

  /** repack() of the vanilla repacker */
  method Repack(donor: seq<Byte>, nt: seq<Byte>) returns (r: Result<seq<Byte>>)
    ensures r.Ok? <==> Canonical(donor) && nt != [] && Expected(donor, nt).Ok?
    ensures r.Ok? ==> r == Expected(donor, nt)
  {
    var p := TakeDonor(donor);
    if p.Err? {
      return Err(p.error);
    }
    var toc := p.value;
    ReplacedFits(donor, nt);
    r := Concatenate(donor, toc, nt);
  }

  /**
   Three repackers, one function: on a canonical donor all three build the same bytes exactly when
   the new payload is not empty; the vanilla repacker refuses an empty one.
   */
  method RepackAll(donor: seq<Byte>, nt: seq<Byte>)
    returns (vanilla: Result<seq<Byte>>, mf2: Result<seq<Byte>>, recovery: Result<seq<Byte>>)
    ensures Canonical(donor) ==> mf2 == recovery == Expected(donor, nt)
    ensures Canonical(donor) && Expected(donor, nt).Ok? ==> (vanilla == mf2 <==> nt != [])
  {
    vanilla := Repack(donor, nt);
    mf2 := RebuildMf2(donor, nt);
    recovery := RebuildRecovery(donor, nt);
  }
}
