/** The package validator of the boot loader, and why it agrees with the Python builders and parsers. */
module FipValidate {
  import opened Bytes
  import opened Wrappers
  import opened FipToc
  import opened FipCompact
  import FipRepack

  const EINVAL := -22
  const ERANGE := -34

  const EFBIG := -27

  const VOL_SIZE: nat := 0x100000
  const STOCK_MAX: nat := 0x7b800
  const MAX_ENTRIES: nat := 32

  /** Subtraction of 64-bit numbers. */
  function Sub64(a: nat, b: nat): nat {
    (a - b) % U64
  }

  /** Every payload lies between the table and the declared end. */
  ghost predicate Bounded(entries: seq<Entry>, tocEnd: nat, end: nat) {
    forall i :: 0 <= i < |entries| ==> tocEnd <= entries[i].off && entries[i].off + entries[i].size <= end
  }

  /** The end of the table that the first pass accepts. */
  ghost predicate Ends(term: Entry, n: nat, len: nat) {
    term.size == 0 && TocEnd(n) <= term.off <= len
  }

  /** What the validator accepts, in terms of what the Python parser reads. */
  ghost predicate Accepts(buf: seq<Byte>) {
    && |buf| >= 96 && Parse(buf).Ok?
    && var toc := Parse(buf).value;
       && toc.serial == FIP_SERIAL && |toc.entries| < MAX_ENTRIES && NonEmpty(toc.entries)
       && Ends(toc.term, |toc.entries|, |buf|)
       && Bounded(toc.entries, TocEnd(|toc.entries|), toc.term.off)
       && Find(toc.entries, NT_FW_UUID).Some?
  }

  /** The first `i` entries have been read. */
  ghost predicate Reading(buf: seq<Byte>, es: seq<Entry>, nt: Option<Entry>) {
    && Pos(|es|) <= |buf| && ParseFrom(buf, 0) == Prepend(es, ParseFrom(buf, |es|)) && NonEmpty(es)
    && nt == Find(es, NT_FW_UUID)
  }

  lemma ReadNext(buf: seq<Byte>, es: seq<Entry>, nt: Option<Entry>, e: Entry)
    requires Reading(buf, es, nt) && Pos(|es|) + 40 <= |buf| && e == EntryAt(buf, Pos(|es|)) && e.uuid != ZERO_UUID
    requires e.size > 0 && e.off + e.size <= |buf|
    ensures Reading(buf, es + [e], if e.uuid == NT_FW_UUID then Some(e) else nt)
  {
    PrependOne(buf, |es|, es, e);
    assert (es + [e])[..|es|] == es;
  }

  lemma ReadEnd(buf: seq<Byte>, es: seq<Entry>, nt: Option<Entry>, e: Entry)
    requires Reading(buf, es, nt) && Pos(|es|) + 40 <= |buf| && e == EntryAt(buf, Pos(|es|)) && e.uuid == ZERO_UUID
    requires Num(buf[0..4]) == FIP_MAGIC
    ensures Parse(buf) == Ok(Toc(Num(buf[4..8]), Num(buf[8..16]), es, e))
  {
    PrependEnd(buf, es);
  }

  lemma ReadOn(buf: seq<Byte>, es: seq<Entry>, nt: Option<Entry>)
    requires Reading(buf, es, nt)
    ensures Parse(buf).Ok? ==> |Parse(buf).value.entries| >= |es| && Pos(|es|) + 40 <= |buf|
  {
  }

  /** The first pass has found the end of the table. */
  ghost predicate Read(buf: seq<Byte>, toc: Toc) {
    && Parse(buf) == Ok(toc) && NonEmpty(toc.entries) && |toc.entries| < MAX_ENTRIES && Ends(toc.term, |toc.entries|, |buf|)
  }

  /** Entry `i` can be read and is not the terminator. */
  predicate Listed(buf: seq<Byte>, i: nat) {
    Pos(i) + 40 <= |buf| && EntryAt(buf, Pos(i)).uuid != ZERO_UUID
  }

  /** It has a payload in the buffer. */
  predicate Inside(buf: seq<Byte>, i: nat) {
    Listed(buf, i) && var e := EntryAt(buf, Pos(i)); e.size > 0 && e.off + e.size <= |buf|
  }

  /** Entry `k`, after entries with payloads in the buffer, has none. */
  ghost predicate FirstOutside(buf: seq<Byte>, k: nat) {
    k < MAX_ENTRIES && (forall i: nat :: i < k ==> Inside(buf, i)) && Listed(buf, k) && !Inside(buf, k)
  }

  /** The first fault of the table is an entry without a payload in the buffer. */
  ghost predicate EntryOutside(buf: seq<Byte>) {
    exists k: nat :: FirstOutside(buf, k)
  }

  lemma NoneOutside(buf: seq<Byte>, n: nat)
    requires forall i: nat :: i < n ==> Inside(buf, i)
    requires n == MAX_ENTRIES || !Listed(buf, n)
    ensures !EntryOutside(buf)
  {
    forall k: nat ensures !FirstOutside(buf, k) {
      assert k > n && FirstOutside(buf, k) ==> Inside(buf, n);
    }
  }

  /** The first pass: every entry lies in the buffer, up to the terminator. */
  method FirstPass(buf: seq<Byte>) returns (ret: int, n: nat, nt: Option<Entry>, dend: nat)
    requires 96 <= |buf| < U64 && Num(buf[0..4]) == FIP_MAGIC
    ensures ret == 0 ==> Parse(buf).Ok? && Read(buf, Parse(buf).value)
    ensures ret == 0 ==> var toc := Parse(buf).value;
      n == |toc.entries| && nt == Find(toc.entries, NT_FW_UUID) && dend == toc.term.off
    ensures ret != 0 ==> Parse(buf).Err? || !Read(buf, Parse(buf).value)
    ensures ret in {0, EINVAL, ERANGE} && (ret == ERANGE <==> EntryOutside(buf))
  {
    n, nt, dend := 0, None, 0;
    ghost var es: seq<Entry> := [];
    PrependNone(ParseFrom(buf, 0));
    while n < MAX_ENTRIES
      invariant n == |es| <= MAX_ENTRIES && Reading(buf, es, nt)
      invariant forall i: nat :: i < n ==> Inside(buf, i)
    {
      if 16 + 40 * n + 40 > |buf| {
        ReadOn(buf, es, nt);
        NoneOutside(buf, n);
        return EINVAL, n, nt, dend;
      }
      var e := EntryAt(buf, 16 + 40 * n);
      if e.uuid == ZERO_UUID {
        ReadEnd(buf, es, nt, e);
        NoneOutside(buf, n);
        if e.size != 0 || e.off > |buf| {
          return EINVAL, n, nt, dend;
        }
        if e.off < 16 + 40 * n + 40 {
          return EINVAL, n, nt, dend;
        }
        return 0, n, nt, e.off;
      }
      if e.size == 0 || e.off > |buf| || e.size > Sub64(|buf|, e.off) {
        RejectsNext(buf, es, e);
        assert FirstOutside(buf, n);
        return ERANGE, n, nt, dend;
      }
      ReadNext(buf, es, nt, e);
      es := es + [e];
      if e.uuid == NT_FW_UUID {
        nt := Some(e);
      }
      n := n + 1;
    }
    ReadOn(buf, es, nt);
    NoneOutside(buf, n);
    return EINVAL, n, nt, dend;
  }

  /** The second pass: every payload lies after the table and before the declared end. */
  method SecondPass(buf: seq<Byte>, n: nat, dend: nat, ghost entries: seq<Entry>) returns (ok: bool)
    requires |buf| < U64 && dend <= |buf| && n == |entries| && TocEnd(n) <= |buf|
    requires forall i :: 0 <= i < n ==> EntryAt(buf, Pos(i)) == entries[i]
    ensures ok == Bounded(entries, TocEnd(n), dend)
  {
    var tocEnd := 16 + 40 * n + 40;
    for j := 0 to n
      invariant Bounded(entries[..j], TocEnd(n), dend)
    {
      var e := EntryAt(buf, 16 + 40 * j);
      assert e == entries[j];
      if e.off < tocEnd || e.off > dend || e.size > Sub64(dend, e.off) {
        return false;
      }
      assert entries[..j + 1] == entries[..j] + [e];
    }
    assert entries[..n] == entries;
    return true;
  }

  /** The fault is a range: an entry outside of the buffer, or of what the table declares. */
  ghost predicate RangeFault(buf: seq<Byte>) {
    && |buf| >= 96 && Num(buf[0..4]) == FIP_MAGIC && Num(buf[4..8]) == FIP_SERIAL
    && (|| EntryOutside(buf)
        || (&& Parse(buf).Ok? && Read(buf, Parse(buf).value) && Find(Parse(buf).value.entries, NT_FW_UUID).Some?
            && !Bounded(Parse(buf).value.entries, TocEnd(|Parse(buf).value.entries|), Parse(buf).value.term.off)))
  }

  /** ursus_fip_parse() */
  method FipParse(buf: seq<Byte>) returns (ret: int, ntOff: nat, ntSize: nat, declaredEnd: nat)
    requires |buf| < U64
    ensures ret == 0 <==> Accepts(buf)
    ensures ret in {0, EINVAL, ERANGE} && (ret == ERANGE <==> RangeFault(buf))
    ensures ret == 0 ==> var toc := Parse(buf).value; var nt := Find(toc.entries, NT_FW_UUID).value;
      ntOff == nt.off && ntSize == nt.size && declaredEnd == toc.term.off && ntOff + ntSize <= declaredEnd <= |buf|
  {
    ntOff, ntSize, declaredEnd := 0, 0, 0;
    if |buf| < 16 + 2 * 40 {
      return EINVAL, 0, 0, 0;
    }
    if Num(buf[0..4]) != FIP_MAGIC || Num(buf[4..8]) != FIP_SERIAL {
      return EINVAL, 0, 0, 0;
    }
    var n, nt, dend;
    ret, n, nt, dend := FirstPass(buf);
    if ret != 0 {
      return;
    }
    if nt.None? {
      return EINVAL, 0, 0, 0;
    }
    ParseExact(buf, Parse(buf).value);
    var ok := SecondPass(buf, n, dend, Parse(buf).value.entries);
    if !ok {
      return ERANGE, 0, 0, 0;
    }
    FindExact(Parse(buf).value.entries, NT_FW_UUID);
    return 0, nt.value.off, nt.value.size, dend;
  }

  /** The structural part of ursus_fip_validate_buf(): limits, table and length. */
  method ValidateLayout(buf: seq<Byte>, stockLimit: bool) returns (ret: int)
    ensures ret == 0 <==>
      0 < |buf| <= VOL_SIZE && (stockLimit ==> |buf| < STOCK_MAX) && Accepts(buf) && Parse(buf).value.term.off == |buf|
    ensures ret in {0, EFBIG, EINVAL, ERANGE}
    ensures ret == EFBIG <==> |buf| == 0 || |buf| > VOL_SIZE || (stockLimit && |buf| >= STOCK_MAX)
    ensures ret == ERANGE <==> ret != EFBIG && RangeFault(buf)
  {
    if |buf| == 0 || |buf| > VOL_SIZE {
      return EFBIG;
    }
    if stockLimit && |buf| >= STOCK_MAX {
      return EFBIG;
    }
    var ntOff, ntSize, declaredEnd;
    ret, ntOff, ntSize, declaredEnd := FipParse(buf);
    if ret == 0 && declaredEnd != |buf| {
      ret := EINVAL;
    }
  }

  // ----- builders and validator agree -----

  /** The position of the last item with a UUID, or -1. */
  function FindItem(items: seq<Item>, n: nat, uuid: nat): (k: int)
    requires n <= |items|
    ensures -1 <= k < n
  {
    if n == 0 then -1 else if items[n - 1].uuid == uuid then n - 1 else FindItem(items, n - 1, uuid)
  }

  lemma {:induction false} FindBuilt(items: seq<Item>, n: nat, uuid: nat)
    requires n <= |items|
    ensures var k := FindItem(items, n, uuid);
      Find(Entries(items, n), uuid) == if k < 0 then None else Some(EntryOf(items, k))
  {
    if n == 0 {
    } else {
      FindBuilt(items, n - 1, uuid);
      assert Entries(items, n)[..n - 1] == Entries(items, n - 1);
      assert Entries(items, n)[n - 1] == EntryOf(items, n - 1);
    }
  }

  lemma BuiltBounded(items: seq<Item>)
    ensures Bounded(Entries(items, |items|), TocEnd(|items|), Last(items).off)
  {
    forall i | 0 <= i < |items|
      ensures TocEnd(|items|) <= EntryOf(items, i).off && EntryOf(items, i).off + EntryOf(items, i).size <= Last(items).off
    {
      CursorBound(items, i);
    }
  }

  lemma BuiltNonEmpty(items: seq<Item>)
    ensures NonEmpty(Entries(items, |items|)) <==> forall i :: 0 <= i < |items| ==> items[i].payload != []
  {
    var es := Entries(items, |items|);
    assert forall i :: 0 <= i < |items| ==> es[i].size == |items[i].payload|;
  }

  /**
   The validator accepts a compact package with the standard serial number exactly when it has few
   enough entries, none of them empty, and NT_FW among them.
   */
  lemma BuiltAccepted(flags: nat, items: seq<Item>)
    requires Packable(FIP_SERIAL, flags, items) && forall i :: 0 <= i < |items| ==> items[i].uuid != ZERO_UUID
    ensures Accepts(Compact(FIP_SERIAL, flags, items)) <==>
      && |items| < MAX_ENTRIES && FindItem(items, |items|, NT_FW_UUID) >= 0
      && forall i :: 0 <= i < |items| ==> items[i].payload != []
  {
    CompactParses(FIP_SERIAL, flags, items);
    FindBuilt(items, |items|, NT_FW_UUID);
    assert items[..|items|] == items;
    BuiltNonEmpty(items);
    BuiltBounded(items);
  }

  /** Its declared end is its length, and the NT_FW range holds the NT_FW payload. */
  lemma BuiltRanges(flags: nat, items: seq<Item>, k: nat)
    requires Packable(FIP_SERIAL, flags, items) && forall i :: 0 <= i < |items| ==> items[i].uuid != ZERO_UUID
    requires k < |items| && k == FindItem(items, |items|, NT_FW_UUID)
    ensures var c := Compact(FIP_SERIAL, flags, items);
      && Parse(c).Ok? && Parse(c).value.term.off == |c|
      && Find(Parse(c).value.entries, NT_FW_UUID) == Some(EntryOf(items, k))
      && Cursor(items, k) + |items[k].payload| <= |c| && Payload(c, EntryOf(items, k)) == items[k].payload
  {
    CompactParses(FIP_SERIAL, flags, items);
    FindBuilt(items, |items|, NT_FW_UUID);
    CompactPayload(FIP_SERIAL, flags, items, k);
  }

  lemma TwoAccepted(flags: nat, items: seq<Item>)
    requires Packable(FIP_SERIAL, flags, items) && |items| == 2 && items[0].payload != [] && items[1].payload != []
    requires items[0].uuid == SOC_FW_UUID && items[1].uuid == NT_FW_UUID
    ensures var c := Compact(FIP_SERIAL, flags, items);
      && Accepts(c) && Parse(c).value.term.off == |c|
      && Find(Parse(c).value.entries, NT_FW_UUID) == Some(EntryOf(items, 1))
      && Cursor(items, 1) + |items[1].payload| <= |c| && Payload(c, EntryOf(items, 1)) == items[1].payload
  {
    assert FindItem(items, 2, NT_FW_UUID) == 1;
    BuiltAccepted(flags, items);
    BuiltRanges(flags, items, 1);
  }

  lemma CanonicalItems(donor: seq<Byte>, toc: Toc, nt: seq<Byte>)
    requires FipRepack.Canonical(donor) && Parse(donor) == Ok(toc) && nt != []
    ensures toc.entries[0].off + toc.entries[0].size <= |donor| && toc.serial == FIP_SERIAL
    ensures var items := FipRepack.Replaced(donor, toc, nt);
      && FipRepack.ItemsFit(FIP_SERIAL, toc.flags, items) && items[0].payload != [] && items[1].payload == nt
      && items[0].uuid == SOC_FW_UUID && items[1].uuid == NT_FW_UUID
  {
    FipRepack.ReplacedFits(donor, nt);
  }

  /** What the three repackers build of a canonical donor is accepted, with the new payload as NT_FW. */
  lemma RepackedAccepted(donor: seq<Byte>, nt: seq<Byte>)
    requires FipRepack.Canonical(donor) && nt != [] && FipRepack.Expected(donor, nt).Ok?
    ensures var c := FipRepack.Expected(donor, nt).value;
      && Accepts(c) && Parse(c).value.term.off == |c|
      && var e := Find(Parse(c).value.entries, NT_FW_UUID).value; e.off + e.size <= |c| && Payload(c, e) == nt
  {
    var toc := Parse(donor).value;
    CanonicalItems(donor, toc, nt);
    TwoAccepted(toc.flags, FipRepack.Replaced(donor, toc, nt));
  }
}
