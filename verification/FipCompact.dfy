/**
 Compact packages: the payloads follow the table of contents without gaps. One repacker concatenates
 them, two fill a buffer by cursor.
 */
module FipCompact {
  import opened Bytes
  import opened FipToc

  const SOC_FW_UUID: nat := 0x47d4086d4cfe98469b952950cbbd5a00
  const NT_FW_UUID: nat := 0xd6d0eea7fcead54b97829934f234b6e4

  datatype Item = Item(uuid: nat, flags: nat, payload: seq<Byte>)

  function Header(serial: nat, flags: nat): (s: seq<Byte>)
    ensures |s| == 16
  {
    LE(FIP_MAGIC, 4) + LE(serial, 4) + Word(flags)
  }

  /** The payloads one after the other. */
  function Payloads(items: seq<Item>): seq<Byte> {
    if items == [] then [] else Payloads(items[..|items| - 1]) + items[|items| - 1].payload
  }

  /** Where payload `i` begins. */
  function Cursor(items: seq<Item>, i: nat): nat
    requires i <= |items|
  {
    TocEnd(|items|) + |Payloads(items[..i])|
  }

  function EntryOf(items: seq<Item>, i: nat): Entry
    requires i < |items|
  {
    Entry(items[i].uuid, Cursor(items, i), |items[i].payload|, items[i].flags)
  }

  /** The first `n` entries of the table. */
  function Entries(items: seq<Item>, n: nat): seq<Entry>
    requires n <= |items|
  {
    seq(n, i requires 0 <= i < n => EntryOf(items, i))
  }

  function Last(items: seq<Item>): Entry {
    Entry(ZERO_UUID, Cursor(items, |items|), 0, 0)
  }

  /** The bytes of the first `n` entries. */
  function Flat(items: seq<Item>, n: nat): seq<Byte>
    requires n <= |items|
  {
    if n == 0 then [] else Flat(items, n - 1) + EntryBytes(EntryOf(items, n - 1))
  }

  function Compact(serial: nat, flags: nat, items: seq<Item>): seq<Byte> {
    Header(serial, flags) + Flat(items, |items|) + (EntryBytes(Last(items)) + Payloads(items))
  }

  ghost predicate Packable(serial: nat, flags: nat, items: seq<Item>) {
    && serial < U32 && flags < U64 && Cursor(items, |items|) < U64
    && forall i :: 0 <= i < |items| ==> items[i].uuid < Pow256(16) && items[i].flags < U64
  }

  lemma {:induction false} FlatSize(items: seq<Item>, n: nat)
    requires n <= |items|
    ensures |Flat(items, n)| == 40 * n
  {
    if n == 0 {
    } else {
      FlatSize(items, n - 1);
    }
  }

  lemma {:induction false} FlatAt(items: seq<Item>, n: nat, i: nat)
    requires i < n <= |items|
    ensures |Flat(items, n)| == 40 * n && Flat(items, n)[40 * i..40 * i + 40] == EntryBytes(EntryOf(items, i))
    decreases n
  {
    FlatSize(items, n);
    FlatSize(items, n - 1);
    if i < n - 1 {
      FlatAt(items, n - 1, i);
      assert Flat(items, n)[40 * i..40 * i + 40] == Flat(items, n - 1)[40 * i..40 * i + 40];
    }
  }

  lemma {:induction false} PayloadAt(items: seq<Item>, n: nat, i: nat)
    requires i < n <= |items|
    ensures |Payloads(items[..i])| + |items[i].payload| == |Payloads(items[..i + 1])| <= |Payloads(items[..n])|
    ensures Payloads(items[..n])[|Payloads(items[..i])|..|Payloads(items[..i + 1])|] == items[i].payload
    decreases n
  {
    assert items[..n][..n - 1] == items[..n - 1] && items[..i + 1][..i] == items[..i];
    if i < n - 1 {
      PayloadAt(items, n - 1, i);
    }
  }

  /** The table of a compact package. */
  function TocOf(serial: nat, flags: nat, items: seq<Item>): Toc {
    Toc(serial, flags, Entries(items, |items|), Last(items))
  }

  lemma CompactSize(serial: nat, flags: nat, items: seq<Item>)
    requires Packable(serial, flags, items)
    ensures |Compact(serial, flags, items)| == Cursor(items, |items|)
  {
    FlatSize(items, |items|);
    assert items[..|items|] == items;
  }

  lemma CursorBound(items: seq<Item>, i: nat)
    requires i < |items|
    ensures Cursor(items, i) + |items[i].payload| == Cursor(items, i + 1) <= Cursor(items, |items|)
  {
    PayloadAt(items, |items|, i);
  }

  lemma TableAt(h: seq<Byte>, f: seq<Byte>, rest: seq<Byte>, at: nat, e: Entry)
    requires at + 40 <= |f| && Encodable(e) && f[at..at + 40] == EntryBytes(e)
    ensures EntryAt(h + f + rest, |h| + at) == e
  {
    Inside(h, f, rest, at, at + 40);
    EntryRoundTrip(h + f + rest, |h| + at, e);
  }

  lemma CompactEntry(serial: nat, flags: nat, items: seq<Item>, i: nat)
    requires Packable(serial, flags, items) && i < |items|
    ensures |Compact(serial, flags, items)| >= TocEnd(|items|)
    ensures EntryAt(Compact(serial, flags, items), Pos(i)) == EntryOf(items, i)
  {
    CompactSize(serial, flags, items);
    FlatAt(items, |items|, i);
    CursorBound(items, i);
    var h, f, rest := Header(serial, flags), Flat(items, |items|), EntryBytes(Last(items)) + Payloads(items);
    TableAt(h, f, rest, 40 * i, EntryOf(items, i));
  }

  lemma TermAt(hf: seq<Byte>, e: Entry, rest: seq<Byte>)
    requires Encodable(e)
    ensures EntryAt(hf + (EntryBytes(e) + rest), |hf|) == e
  {
    assert EntryBytes(e)[0..40] == EntryBytes(e);
    TableAt(hf, EntryBytes(e), rest, 0, e);
    assert hf + EntryBytes(e) + rest == hf + (EntryBytes(e) + rest);
  }

  lemma CompactLast(serial: nat, flags: nat, items: seq<Item>)
    requires Packable(serial, flags, items)
    ensures |Compact(serial, flags, items)| >= TocEnd(|items|)
    ensures EntryAt(Compact(serial, flags, items), Pos(|items|)) == Last(items)
  {
    FlatSize(items, |items|);
    TermAt(Header(serial, flags) + Flat(items, |items|), Last(items), Payloads(items));
  }

  lemma CompactHeader(serial: nat, flags: nat, rest: seq<Byte>)
    requires serial < U32 && flags < U64
    ensures var c := Header(serial, flags) + rest;
      Num(c[0..4]) == FIP_MAGIC && Num(c[4..8]) == serial && Num(c[8..16]) == flags
  {
    var c := Header(serial, flags) + rest;
    assert c[0..4] == LE(FIP_MAGIC, 4) && c[4..8] == LE(serial, 4) && c[8..16] == Word(flags);
    LE4(FIP_MAGIC);
    LE4(serial);
    WordRoundTrip(c[8..16], flags);
  }

  lemma CompactPayload(serial: nat, flags: nat, items: seq<Item>, i: nat)
    requires Packable(serial, flags, items) && i < |items|
    ensures var c := Compact(serial, flags, items);
      && Cursor(items, i) + |items[i].payload| <= |c|
      && c[Cursor(items, i)..Cursor(items, i) + |items[i].payload|] == items[i].payload
  {
    var c := Compact(serial, flags, items);
    CompactSize(serial, flags, items);
    FlatSize(items, |items|);
    PayloadAt(items, |items|, i);
    assert items[..|items|] == items;
    var h, f, e := Header(serial, flags), Flat(items, |items|), EntryBytes(Last(items));
    Regroup(h, f, e, Payloads(items));
    Inside(h + f + e, Payloads(items), [], |Payloads(items[..i])|, |Payloads(items[..i + 1])|);
  }

  lemma CompactStarts(serial: nat, flags: nat, items: seq<Item>)
    requires Packable(serial, flags, items)
    ensures StartsWith(Compact(serial, flags, items), TocOf(serial, flags, items))
  {
    var c := Compact(serial, flags, items);
    var rest := Flat(items, |items|) + EntryBytes(Last(items)) + Payloads(items);
    CompactHeader(serial, flags, rest);
    Regroup(Header(serial, flags), Flat(items, |items|), EntryBytes(Last(items)), Payloads(items));
    CompactLast(serial, flags, items);
    forall i | 0 <= i < |items| ensures EntryAt(c, Pos(i)) == EntryOf(items, i) {
      CompactEntry(serial, flags, items, i);
    }
  }

  lemma CompactWithin(items: seq<Item>)
    requires forall i :: 0 <= i < |items| ==> items[i].uuid != ZERO_UUID
    ensures Terminated(TocOf(0, 0, items)) && Within(Entries(items, |items|), Cursor(items, |items|))
  {
    forall i | 0 <= i < |items| ensures EntryOf(items, i).off + EntryOf(items, i).size <= Cursor(items, |items|) {
      CursorBound(items, i);
    }
  }

  /** A compact package parses to its own table and payloads. */
  lemma CompactParses(serial: nat, flags: nat, items: seq<Item>)
    requires Packable(serial, flags, items) && forall i :: 0 <= i < |items| ==> items[i].uuid != ZERO_UUID
    ensures Parse(Compact(serial, flags, items)) == Ok(TocOf(serial, flags, items))
    ensures |Compact(serial, flags, items)| == Last(items).off
  {
    CompactSize(serial, flags, items);
    CompactStarts(serial, flags, items);
    CompactWithin(items);
    ParseExact(Compact(serial, flags, items), TocOf(serial, flags, items));
  }
}
