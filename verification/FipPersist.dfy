/**
 The repacker of the persistent package (repack_persistent_fip.py): it replaces NT_FW in a donor, moves
 the certificates behind it when it has grown, and seals the result with a checksum entry.
 */
module FipPersist {
  import opened Bytes
  import opened Wrappers
  import opened FipToc
  import opened FipCompact
  import opened FipRepack

  const CHECKSUM_UUID: nat := 0xa2cceab7f8254b279704633a6fd69ad8

  const CERTS: nat := 6

  const CERT_UUIDS: seq<nat> := [
    0x827ee890f860e411a1b4777a21b4f94c,
    0x8ab8beccf960e4119ad0eb4822d8dcf8,
    0x8ad5832afb60e4118aafdf30bbc49859,
    0xd6e269ea5d63e4118d8c9fbabe9956a5,
    0xe2b20c205e63e4119ce8abccf92bb666,
    0x8ec4c1f35d63e411a7a987ee40b23fa7]

  const CERT_REL: seq<nat> := [0x0000, 0x0c00, 0x1400, 0x1c00, 0x2400, 0x2c00]

  const CHECKSUM_REL: nat := 0x3400
  const END_REL: nat := 0x3800
  const ALIGN: nat := 0x800
  const PREFIX: nat := 0x400
  const FIP_OFFSET: nat := 0x800
  const FIP_LIMIT: nat := 0x7bffc

  type Digest = s: seq<Byte> | |s| == 32 witness Zeros(32)

  /** align_up() */
  function AlignUp(x: nat): (r: nat)
    ensures r % ALIGN == 0 && x <= r < x + ALIGN
  {
    (x + ALIGN - 1) / ALIGN * ALIGN
  }

  /** The certificate slot that a UUID belongs to, or -1. */
  function CertOf(uuid: nat): (c: int)
    ensures -1 <= c < CERTS
  {
    if uuid == CERT_UUIDS[0] then 0 else if uuid == CERT_UUIDS[1] then 1 else if uuid == CERT_UUIDS[2] then 2
    else if uuid == CERT_UUIDS[3] then 3 else if uuid == CERT_UUIDS[4] then 4 else if uuid == CERT_UUIDS[5] then 5
    else -1
  }

  /** An entry that is copied as it is. */
  predicate IsFixed(e: Entry) {
    e.uuid != NT_FW_UUID && e.uuid != CHECKSUM_UUID && CertOf(e.uuid) < 0
  }

  /** What a rebuild needs of a donor: where NT_FW is, and the six certificates. */
  datatype Parts = Parts(toc: Toc, nt: Entry, certs: seq<Entry>)

  function Certs(entries: seq<Entry>, n: nat): Option<seq<Entry>>
    requires n <= CERTS
  {
    if n == 0 then Some([])
    else
      var e := Find(entries, CERT_UUIDS[n - 1]);
      var rest := Certs(entries, n - 1);
      if e.Some? && rest.Some? then Some(rest.value + [e.value]) else None
  }

  /** The required entries, if none is missing. */
  function PartsOf(toc: Toc): Option<Parts> {
    var nt := Find(toc.entries, NT_FW_UUID);
    var certs := Certs(toc.entries, CERTS);
    if nt.None? || Find(toc.entries, CHECKSUM_UUID).None? || certs.None? then None
    else Some(Parts(toc, nt.value, certs.value))
  }

  /** Where the certificates go. */
  function First(p: Parts, nt: nat, force: bool): nat
    requires |p.certs| == CERTS
  {
    if force || p.nt.off + nt <= p.certs[0].off then p.certs[0].off else AlignUp(p.nt.off + nt)
  }

  /**
   The certificates stay where they are if NT_FW ends before them or the old layout is forced. Otherwise the
   first one is at the least multiple of 0x800 that is not before the end of NT_FW.
   */
  lemma FirstExact(p: Parts, nt: nat, force: bool)
    requires |p.certs| == CERTS
    ensures var first, end := First(p, nt, force), p.nt.off + nt;
      if force || end <= p.certs[0].off then first == p.certs[0].off
      else first % 0x800 == 0 && end <= first && forall x: nat :: x % 0x800 == 0 && end <= x ==> first <= x
  {
    var first, end := First(p, nt, force), p.nt.off + nt;
    forall x: nat | x % 0x800 == 0 && end <= x && first == AlignUp(end) ensures first <= x {
      assert first - x < 0x800;
    }
  }

  /** An entry of the rebuilt table: UUID and flags stay. */
  function NewEntry(e: Entry, first: nat, nt: nat): Entry {
    if e.uuid == NT_FW_UUID then e.(size := nt)
    else if CertOf(e.uuid) >= 0 then e.(off := first + CERT_REL[CertOf(e.uuid)])
    else if e.uuid == CHECKSUM_UUID then e.(off := first + CHECKSUM_REL, size := 40)
    else e
  }

  /** What the rebuilt table says of each entry: only NT_FW's size, the certificates' places and the checksum change. */
  lemma NewEntryExact(e: Entry, first: nat, nt: nat)
    ensures var e' := NewEntry(e, first, nt);
      && e'.uuid == e.uuid && e'.flags == e.flags
      && (e.uuid == NT_FW_UUID ==> e'.off == e.off && e'.size == nt)
      && (e.uuid == CHECKSUM_UUID ==> e'.off == first + 0x3400 && e'.size == 40)
      && (forall c :: 0 <= c < CERTS && e.uuid == CERT_UUIDS[c] ==>
            e'.off == first + (if c == 0 then 0 else 0x400 + c * 0x800) && e'.size == e.size)
      && (e.uuid != NT_FW_UUID && e.uuid != CHECKSUM_UUID && (forall c :: 0 <= c < CERTS ==> e.uuid != CERT_UUIDS[c]) ==> e' == e)
  {
    assert CertOf(CHECKSUM_UUID) == -1 && CertOf(NT_FW_UUID) == -1;
  }

  /** The table of the rebuilt package. */
  function NewEntries(entries: seq<Entry>, first: nat, nt: nat): (r: seq<Entry>)
    ensures |r| == |entries|
  {
    seq(|entries|, i requires 0 <= i < |entries| => NewEntry(entries[i], first, nt))
  }

  function NewTerm(first: nat): Entry {
    Entry(ZERO_UUID, first + END_REL, 0, 0)
  }

  /** The bytes of the checksum entry. */
  function Meta(body: seq<Byte>, crc: seq<Byte> -> nat, sha: seq<Byte> -> Digest): (s: seq<Byte>)
    ensures |s| == 40
  {
    LE(|body|, 4) + LE(crc(body) % U32, 4) + sha(body)
  }

  /** The checksum entry tells how many bytes are before it, their CRC-32 and their SHA-256. */
  lemma MetaReads(body: seq<Byte>, crc: seq<Byte> -> nat, sha: seq<Byte> -> Digest)
    requires |body| < U32
    ensures var s := Meta(body, crc, sha);
      Num(s[0..4]) == |body| && Num(s[4..8]) == crc(body) % U32 && s[8..] == sha(body)
  {
    var s, a, b := Meta(body, crc, sha), LE(|body|, 4), LE(crc(body) % U32, 4);
    assert s[0..4] == a && s[4..8] == b && s[8..] == sha(body);
    LE4(|body|);
    LE4(crc(body) % U32);
  }

  ghost predicate In(k: int, off: nat, size: nat) {
    off <= k < off + size
  }

  /** A position that a fixed payload covers. */
  ghost predicate InFixed(entries: seq<Entry>, k: int) {
    exists i :: 0 <= i < |entries| && IsFixed(entries[i]) && In(k, entries[i].off, entries[i].size)
  }

  ghost predicate InCert(certs: seq<Entry>, first: nat, k: int)
    requires |certs| <= CERTS
  {
    exists c :: 0 <= c < |certs| && In(k, first + CERT_REL[c], certs[c].size)
  }

  // ----- writing -----

  /** The fixed payloads are in `out`, and nothing else has changed. */
  ghost predicate FixedIn(out: seq<Byte>, out0: seq<Byte>, t: seq<Byte>, entries: seq<Entry>) {
    |out| == |out0| && forall k :: 0 <= k < |out| ==> out[k] == if InFixed(entries, k) && k < |t| then t[k] else out0[k]
  }

  lemma FixedNext(out: seq<Byte>, out0: seq<Byte>, t: seq<Byte>, entries: seq<Entry>, i: nat, out': seq<Byte>)
    requires i < |entries| && Within(entries, |t|) && FixedIn(out, out0, t, entries[..i])
    requires var e := entries[i]; if IsFixed(e) then e.off + e.size <= |out| && out' == Overlay(out, e.off, Payload(t, e)) else out' == out
    ensures FixedIn(out', out0, t, entries[..i + 1])
  {
    var e := entries[i];
    if IsFixed(e) { OverlayAt(out, e.off, Payload(t, e)); }
    forall k | 0 <= k < |out'| ensures out'[k] == if InFixed(entries[..i + 1], k) && k < |t| then t[k] else out0[k] {
      InFixedNext(entries, i, k);
    }
  }

  /** Copy the payloads that stay where they are. */
  method WriteFixed(out0: seq<Byte>, t: seq<Byte>, entries: seq<Entry>) returns (out: seq<Byte>)
    requires Within(entries, |t|)
    ensures (forall i :: 0 <= i < |entries| && IsFixed(entries[i]) ==> entries[i].off + entries[i].size <= |out0|) ==>
      && |out| == |out0|
      && forall k :: 0 <= k < |out| ==> out[k] == if InFixed(entries, k) && k < |t| then t[k] else out0[k]
  {
    out := out0;
    ghost var fits := forall i :: 0 <= i < |entries| && IsFixed(entries[i]) ==> entries[i].off + entries[i].size <= |out0|;
    for i := 0 to |entries|
      invariant fits ==> FixedIn(out, out0, t, entries[..i])
    {
      var e := entries[i];
      ghost var before := out;
      if IsFixed(e) {
        out := Overlay(out, e.off, Payload(t, e));
      }
      if fits { FixedNext(before, out0, t, entries, i, out); }
    }
    assert entries[..|entries|] == entries;
  }

  lemma InFixedNext(entries: seq<Entry>, i: nat, k: int)
    requires i < |entries|
    ensures InFixed(entries[..i + 1], k) <==> InFixed(entries[..i], k) || (IsFixed(entries[i]) && In(k, entries[i].off, entries[i].size))
  {
    var a, b := entries[..i], entries[..i + 1];
    assert forall j :: 0 <= j < i ==> b[j] == a[j];
    assert b[i] == entries[i];
    if InFixed(a, k) {
      var j :| 0 <= j < |a| && IsFixed(a[j]) && In(k, a[j].off, a[j].size);
      assert IsFixed(b[j]) && In(k, b[j].off, b[j].size);
    }
  }

  /** The room between the start of a certificate and the next thing. */
  function Slot(c: nat): nat
    requires c < CERTS
  {
    (if c + 1 < CERTS then CERT_REL[c + 1] else CHECKSUM_REL) - CERT_REL[c]
  }

  /** The payload of `e` is at `at`. */
  ghost predicate Copied(out: seq<Byte>, at: nat, t: seq<Byte>, e: Entry)
    requires e.off + e.size <= |t|
  {
    at + e.size <= |out| && out[at..at + e.size] == Payload(t, e)
  }

  ghost predicate CertsFit(certs: seq<Entry>) {
    |certs| == CERTS && forall c :: 0 <= c < CERTS ==> certs[c].size <= Slot(c)
  }

  /** Copy the certificates to their slots. */
  method WriteCerts(out0: seq<Byte>, t: seq<Byte>, certs: seq<Entry>, first: nat) returns (out: seq<Byte>)
    requires |certs| == CERTS && Within(certs, |t|)
    ensures first + CHECKSUM_REL <= |out0| && CertsFit(certs) ==>
      && |out| == |out0|
      && (forall c :: 0 <= c < CERTS ==> Copied(out, first + CERT_REL[c], t, certs[c]))
      && (forall k :: 0 <= k < |out| && !InCert(certs, first, k) ==> out[k] == out0[k])
  {
    out := out0;
    ghost var fits := first + CHECKSUM_REL <= |out0| && CertsFit(certs);
    for i := 0 to CERTS
      invariant fits ==> |out| == |out0|
      invariant fits ==> forall c :: 0 <= c < i ==> Copied(out, first + CERT_REL[c], t, certs[c])
      invariant fits ==> forall k :: 0 <= k < |out| && !InCert(certs[..i], first, k) ==> out[k] == out0[k]
    {
      ghost var before := out;
      out := Overlay(out, first + CERT_REL[i], Payload(t, certs[i]));
      if fits {
        WroteCert(before, t, certs, first, i);
        forall k | 0 <= k < |out0| && !InCert(certs[..i + 1], first, k) ensures out[k] == out0[k] {
          MissedCert(before, t, certs, first, i, k);
        }
      }
    }
    assert certs[..CERTS] == certs;
  }

  lemma WroteCert(before: seq<Byte>, t: seq<Byte>, certs: seq<Entry>, first: nat, i: nat)
    requires CertsFit(certs) && Within(certs, |t|) && i < CERTS && first + CHECKSUM_REL <= |before|
    requires forall c :: 0 <= c < i ==> Copied(before, first + CERT_REL[c], t, certs[c])
    ensures var out := Overlay(before, first + CERT_REL[i], Payload(t, certs[i]));
      |out| == |before| && forall c :: 0 <= c < i + 1 ==> Copied(out, first + CERT_REL[c], t, certs[c])
  {
    var b := Payload(t, certs[i]);
    OverlayHit(before, first + CERT_REL[i], b);
    forall c | 0 <= c < i ensures Copied(Overlay(before, first + CERT_REL[i], b), first + CERT_REL[c], t, certs[c]) {
      assert CERT_REL[c] + Slot(c) <= CERT_REL[i];
      OverlayMiss(before, first + CERT_REL[i], b, first + CERT_REL[c], first + CERT_REL[c] + certs[c].size);
    }
  }

  lemma MissedCert(before: seq<Byte>, t: seq<Byte>, certs: seq<Entry>, first: nat, i: nat, k: nat)
    requires CertsFit(certs) && Within(certs, |t|) && i < CERTS && first + CHECKSUM_REL <= |before|
    requires k < |before| && !InCert(certs[..i + 1], first, k)
    ensures !InCert(certs[..i], first, k)
    ensures |Overlay(before, first + CERT_REL[i], Payload(t, certs[i]))| == |before|
    ensures Overlay(before, first + CERT_REL[i], Payload(t, certs[i]))[k] == before[k]
  {
    assert certs[..i + 1][i] == certs[i];
    assert forall c :: 0 <= c < i ==> certs[..i + 1][c] == certs[..i][c];
    assert !In(k, first + CERT_REL[i], certs[i].size);
    OverlayAt(before, first + CERT_REL[i], Payload(t, certs[i]));
  }

  // ----- the table -----

  lemma PatchedBytes(out: seq<Byte>, pos: nat, b: seq<Byte>)
    requires |b| == 24 && pos + 40 <= |out|
    ensures |Overlay(out, pos + 16, b)| == |out|
    ensures Overlay(out, pos + 16, b)[pos..pos + 40] == out[pos..pos + 16] + b
  {
    var r := Overlay(out, pos + 16, b);
    OverlayHit(out, pos + 16, b);
    OverlayMiss(out, pos + 16, b, pos, pos + 16);
    assert r[pos..pos + 40] == r[pos..pos + 16] + r[pos + 16..pos + 40];
  }

  lemma IdNumbers(e: Entry)
    ensures Id(e.uuid) + Numbers(e) == EntryBytes(e)
  {
  }

  lemma EntryPatched(out: seq<Byte>, pos: nat, e: Entry)
    requires pos + 40 <= |out| && Encodable(e) && EntryAt(out, pos).uuid == e.uuid
    ensures |Overlay(out, pos + 16, Numbers(e))| == |out|
    ensures EntryAt(Overlay(out, pos + 16, Numbers(e)), pos) == e
  {
    IdRoundTrip(out[pos..pos + 16], e.uuid);
    PatchedBytes(out, pos, Numbers(e));
    IdNumbers(e);
    EntryRoundTrip(Overlay(out, pos + 16, Numbers(e)), pos, e);
  }

  lemma EntryKept(out: seq<Byte>, at: nat, b: seq<Byte>, pos: nat)
    requires at + |b| <= |out| && pos + 40 <= |out| && (pos + 40 <= at || at + |b| <= pos)
    ensures |Overlay(out, at, b)| == |out| && EntryAt(Overlay(out, at, b), pos) == EntryAt(out, pos)
  {
    OverlayMiss(out, at, b, pos, pos + 40);
    EntryMoves(out, pos);
    EntryMoves(Overlay(out, at, b), pos);
  }

  /** The first `i` entries of the table are new, the others are as they were. */
  ghost predicate Halfway(out: seq<Byte>, entries: seq<Entry>, table: seq<Entry>, i: nat) {
    && |entries| == |table| >= i && TocEnd(|entries|) <= |out|
    && (forall j :: 0 <= j < i ==> EntryAt(out, Pos(j)) == table[j])
    && (forall j :: i <= j < |entries| ==> EntryAt(out, Pos(j)) == entries[j])
    && EntryAt(out, Pos(|entries|)).uuid == ZERO_UUID
  }

  lemma OthersKept(out: seq<Byte>, n: nat, i: nat, b: seq<Byte>)
    requires TocEnd(n) <= |out| && i <= n && |b| == 24
    ensures var r := Overlay(out, Pos(i) + 16, b);
      |r| == |out| && forall j :: 0 <= j <= n && j != i ==> EntryAt(r, Pos(j)) == EntryAt(out, Pos(j))
  {
    OverlayAt(out, Pos(i) + 16, b);
    forall j | 0 <= j <= n && j != i ensures EntryAt(Overlay(out, Pos(i) + 16, b), Pos(j)) == EntryAt(out, Pos(j)) {
      EntryKept(out, Pos(i) + 16, b, Pos(j));
    }
  }

  lemma HalfwayNext(out: seq<Byte>, entries: seq<Entry>, table: seq<Entry>, i: nat)
    requires Halfway(out, entries, table, i) && i < |entries| && Encodable(table[i]) && table[i].uuid == entries[i].uuid
    ensures Halfway(Overlay(out, Pos(i) + 16, Numbers(table[i])), entries, table, i + 1)
  {
    EntryPatched(out, Pos(i), table[i]);
    OthersKept(out, |entries|, i, Numbers(table[i]));
  }

  /** The numbers of an entry, unless struct.pack_into() fails. */
  function Pack(out: seq<Byte>, pos: nat, e: Entry): Result<seq<Byte>> {
    if pos + 24 <= |out| && e.off < U64 && e.size < U64 && e.flags < U64 then Ok(Overlay(out, pos, Numbers(e)))
    else Err(NotPackable)
  }

  ghost predicate EntriesWritable(out: seq<Byte>, entries: seq<Entry>, table: seq<Entry>) {
    && Halfway(out, entries, table, 0)
    && forall i :: 0 <= i < |table| ==> Encodable(table[i]) && table[i].uuid == entries[i].uuid
  }

  ghost predicate Writable(out: seq<Byte>, entries: seq<Entry>, table: seq<Entry>, term: Entry) {
    EntriesWritable(out, entries, table) && Encodable(term) && term.uuid == ZERO_UUID
  }

  /** The bytes outside of the table. */
  ghost predicate Outside(out: seq<Byte>, out0: seq<Byte>, n: nat) {
    |out| == |out0| && forall k :: 0 <= k < |out| && !In(k, 16, 40 * (n + 1)) ==> out[k] == out0[k]
  }

  ghost predicate Written(out: seq<Byte>, table: seq<Entry>, term: Entry) {
    && TocEnd(|table|) <= |out|
    && (forall j :: 0 <= j < |table| ==> EntryAt(out, Pos(j)) == table[j])
    && EntryAt(out, Pos(|table|)) == term
  }

  lemma TermWritten(out: seq<Byte>, entries: seq<Entry>, table: seq<Entry>, term: Entry)
    requires Halfway(out, entries, table, |entries|) && Encodable(term) && term.uuid == ZERO_UUID
    ensures Written(Overlay(out, Pos(|entries|) + 16, Numbers(term)), table, term)
  {
    var r := Overlay(out, Pos(|entries|) + 16, Numbers(term));
    EntryPatched(out, Pos(|entries|), term);
    OthersKept(out, |entries|, |entries|, Numbers(term));
    forall j | 0 <= j < |table| ensures EntryAt(r, Pos(j)) == table[j] {
      assert EntryAt(r, Pos(j)) == EntryAt(out, Pos(j));
    }
  }

  lemma OutsideNext(out: seq<Byte>, out0: seq<Byte>, n: nat, i: nat, b: seq<Byte>)
    requires Outside(out, out0, n) && i <= n && TocEnd(n) <= |out| && |b| == 24
    ensures Outside(Overlay(out, Pos(i) + 16, b), out0, n)
  {
    OverlayAt(out, Pos(i) + 16, b);
  }

  lemma PackEncodable(out: seq<Byte>, pos: nat, e: Entry)
    requires Encodable(e) && pos + 24 <= |out|
    ensures Pack(out, pos, e) == Ok(Overlay(out, pos, Numbers(e)))
  {
  }

  /** The table is being written, and nothing else has changed. */
  ghost predicate Writing(out: seq<Byte>, out0: seq<Byte>, entries: seq<Entry>, table: seq<Entry>, i: nat) {
    Halfway(out, entries, table, i) && Outside(out, out0, |entries|)
  }

  lemma TableStep(out: seq<Byte>, out0: seq<Byte>, entries: seq<Entry>, table: seq<Entry>, i: nat)
    requires Writing(out, out0, entries, table, i) && i < |entries| && Encodable(table[i]) && table[i].uuid == entries[i].uuid
    ensures Pack(out, Pos(i) + 16, table[i]).Ok?
    ensures Writing(Pack(out, Pos(i) + 16, table[i]).value, out0, entries, table, i + 1)
  {
    PackEncodable(out, Pos(i) + 16, table[i]);
    HalfwayNext(out, entries, table, i);
    OutsideNext(out, out0, |entries|, i, Numbers(table[i]));
  }

  lemma TableEnd(out: seq<Byte>, out0: seq<Byte>, entries: seq<Entry>, table: seq<Entry>, term: Entry,
                 r: Result<seq<Byte>>)
    requires Writing(out, out0, entries, table, |entries|) && Encodable(term) && term.uuid == ZERO_UUID
    requires r == Pack(out, Pos(|entries|) + 16, term)
    ensures r.Ok? && Written(r.value, table, term) && Outside(r.value, out0, |entries|)
  {
    PackEncodable(out, Pos(|entries|) + 16, term);
    TermWritten(out, entries, table, term);
    OutsideNext(out, out0, |entries|, |entries|, Numbers(term));
  }

  /** Update the entries of the table. */
  method WriteEntries(out0: seq<Byte>, entries: seq<Entry>, first: nat, nt: nat, ghost table: seq<Entry>)
    returns (r: Result<seq<Byte>>)
    requires |table| == |entries| && forall i :: 0 <= i < |entries| ==> table[i] == NewEntry(entries[i], first, nt)
    ensures EntriesWritable(out0, entries, table) ==> r.Ok? && Writing(r.value, out0, entries, table, |entries|)
  {
    ghost var ok := EntriesWritable(out0, entries, table);
    r := Ok(out0);
    for i := 0 to |entries|
      invariant r.Ok? && (ok ==> Writing(r.value, out0, entries, table, i))
    {
      if ok {
        TableStep(r.value, out0, entries, table, i);
      }
      r := Pack(r.value, 16 + 40 * i + 16, NewEntry(entries[i], first, nt));
      if r.Err? {
        return;
      }
    }
  }

  /** Update the table: its entries, and its terminator. */
  method WriteTable(out0: seq<Byte>, entries: seq<Entry>, first: nat, nt: nat) returns (r: Result<seq<Byte>>)
    ensures Writable(out0, entries, NewEntries(entries, first, nt), NewTerm(first)) ==>
      && r.Ok? && Written(r.value, NewEntries(entries, first, nt), NewTerm(first)) && Outside(r.value, out0, |entries|)
  {
    ghost var table := NewEntries(entries, first, nt);
    var w := WriteEntries(out0, entries, first, nt, table);
    if w.Err? {
      return w;
    }
    r := Pack(w.value, 16 + 40 * |entries| + 16, NewTerm(first));
    if Writable(out0, entries, table, NewTerm(first)) {
      TableEnd(w.value, out0, entries, table, NewTerm(first), r);
    }
  }

  // ----- rebuild() -----

  /** The parts of a parsed package. */
  ghost predicate HasParts(t: seq<Byte>, p: Parts) {
    Parse(t) == Ok(p.toc) && PartsOf(p.toc) == Some(p) && PREFIX <= |t|
  }

  /** Distinct UUIDs, a table within the prefix, fixed payloads before NT_FW, certificates that fit. */
  ghost predicate Shaped(p: Parts) {
    && (forall i, j :: 0 <= i < j < |p.toc.entries| ==> p.toc.entries[i].uuid != p.toc.entries[j].uuid)
    && TocEnd(|p.toc.entries|) <= PREFIX && TocEnd(|p.toc.entries|) <= p.nt.off
    && (forall i :: 0 <= i < |p.toc.entries| && IsFixed(p.toc.entries[i]) ==>
          TocEnd(|p.toc.entries|) <= p.toc.entries[i].off && p.toc.entries[i].off + p.toc.entries[i].size <= p.nt.off)
    && CertsFit(p.certs)
  }

  /** A donor that can be rebuilt. */
  ghost predicate Donor(t: seq<Byte>, p: Parts) {
    HasParts(t, p) && Shaped(p)
  }

  /** A byte that neither NT_FW nor a certificate covers. */
  ghost predicate Plain(p: Parts, nt: nat, first: nat, k: int)
    requires |p.certs| == CERTS
  {
    !In(k, p.nt.off, nt) && !InCert(p.certs, first, k)
  }

  /** The bytes of a plain position. */
  ghost predicate KeptOrZero(t: seq<Byte>, entries: seq<Entry>, out: seq<Byte>, k: nat)
    requires k < |out| && PREFIX <= |t| && Within(entries, |t|)
  {
    out[k] == if k < PREFIX || InFixed(entries, k) then t[k] else 0
  }

  ghost predicate WithinAll(t: seq<Byte>, p: Parts) {
    PREFIX <= |t| && Within(p.toc.entries, |t|) && |p.certs| == CERTS && Within(p.certs, |t|)
  }

  /** The payloads are in place. */
  ghost predicate Placed(t: seq<Byte>, p: Parts, nt: seq<Byte>, first: nat, out: seq<Byte>)
    requires WithinAll(t, p)
  {
    && p.nt.off + |nt| <= |out| && out[p.nt.off..p.nt.off + |nt|] == nt
    && (forall c :: 0 <= c < CERTS ==> Copied(out, first + CERT_REL[c], t, p.certs[c]))
    && (forall k :: TocEnd(|p.toc.entries|) <= k < |out| && Plain(p, |nt|, first, k) && k < first + CHECKSUM_REL ==>
          KeptOrZero(t, p.toc.entries, out, k))
  }

  /** Everything that the checksum covers is in place. */
  ghost predicate Filled(t: seq<Byte>, p: Parts, nt: seq<Byte>, first: nat, out: seq<Byte>)
    requires WithinAll(t, p)
  {
    && |out| == first + END_REL && out[..16] == t[..16]
    && Written(out, NewEntries(p.toc.entries, first, |nt|), NewTerm(first)) && Placed(t, p, nt, first, out)
  }

  /** The rebuilt package. */
  ghost predicate Rebuilt(t: seq<Byte>, p: Parts, nt: seq<Byte>, first: nat, out: seq<Byte>,
                          crc: seq<Byte> -> nat, sha: seq<Byte> -> Digest)
    requires WithinAll(t, p)
  {
    && Filled(t, p, nt, first, out)
    && out[first + CHECKSUM_REL..] == Meta(out[..first + CHECKSUM_REL], crc, sha) + Zeros(END_REL - CHECKSUM_REL - 40)
  }

  lemma {:induction false} CertsFound(entries: seq<Entry>, n: nat, certs: seq<Entry>)
    requires n <= CERTS && Certs(entries, n) == Some(certs)
    ensures |certs| == n && forall c :: 0 <= c < n ==> Find(entries, CERT_UUIDS[c]) == Some(certs[c])
  {
    if n == 0 {
    } else {
      CertsFound(entries, n - 1, Certs(entries, n - 1).value);
    }
  }

  lemma PartsWithin(t: seq<Byte>, p: Parts)
    requires Parse(t) == Ok(p.toc) && PartsOf(p.toc) == Some(p)
    ensures |p.certs| == CERTS && Within(p.toc.entries, |t|) && Within(p.certs, |t|) && p.nt.off + p.nt.size <= |t|
    ensures Holds(t, p.toc) && p.nt in p.toc.entries && p.nt.uuid == NT_FW_UUID
    ensures forall c :: 0 <= c < CERTS ==> p.certs[c] in p.toc.entries && p.certs[c].uuid == CERT_UUIDS[c]
  {
    ParseExact(t, p.toc);
    CertsFound(p.toc.entries, CERTS, p.certs);
    FindExact(p.toc.entries, NT_FW_UUID);
    forall c | 0 <= c < CERTS ensures p.certs[c] in p.toc.entries && p.certs[c].uuid == CERT_UUIDS[c] {
      FindExact(p.toc.entries, CERT_UUIDS[c]);
    }
  }

  lemma PlaceNt(t: seq<Byte>, p: Parts, nt: seq<Byte>, first: nat, out2: seq<Byte>, out3: seq<Byte>, out4: seq<Byte>)
    requires WithinAll(t, p) && |out2| == |out3| == |out4| >= first && p.nt.off + |nt| <= first
    requires forall k :: 0 <= k < |out2| ==> KeptOrZero(t, p.toc.entries, out2, k)
    requires out3 == Overlay(out2, p.nt.off, nt)
    requires forall c :: 0 <= c < CERTS ==> Copied(out4, first + CERT_REL[c], t, p.certs[c])
    requires forall k :: 0 <= k < |out4| && !InCert(p.certs, first, k) ==> out4[k] == out3[k]
    ensures Placed(t, p, nt, first, out4)
    ensures forall k :: 0 <= k < |out4| && Plain(p, |nt|, first, k) ==> KeptOrZero(t, p.toc.entries, out4, k)
    ensures forall k :: 0 <= k < p.nt.off ==> out4[k] == out2[k]
  {
    OverlayAt(out2, p.nt.off, nt);
    assert forall k :: 0 <= k < first ==> !InCert(p.certs, first, k);
    forall k | 0 <= k < |out4| && Plain(p, |nt|, first, k) ensures KeptOrZero(t, p.toc.entries, out4, k) {
      assert out4[k] == out2[k] && KeptOrZero(t, p.toc.entries, out2, k);
    }
  }

  /** out[:hi] = s for a Python bytearray. */
  function AssignPrefix(out: seq<Byte>, hi: nat, s: seq<Byte>): seq<Byte> {
    s + if hi <= |out| then out[hi..] else []
  }

  /** The certificates go behind NT_FW. */
  ghost predicate Fits(p: Parts, nt: seq<Byte>, first: nat) {
    p.nt.off + |nt| <= first < U32 && first + END_REL < U32
  }

  lemma FixedPlaced(t: seq<Byte>, entries: seq<Entry>, out1: seq<Byte>, out2: seq<Byte>)
    requires PREFIX <= |t| && Within(entries, |t|) && |out1| == |out2|
    requires forall k :: 0 <= k < |out1| ==> out1[k] == if k < PREFIX then t[k] else 0
    requires forall k :: 0 <= k < |out2| ==> out2[k] == if InFixed(entries, k) && k < |t| then t[k] else out1[k]
    ensures forall k :: 0 <= k < |out2| ==> KeptOrZero(t, entries, out2, k)
  {
  }

  /** Copy the prefix and the payloads that stay where they are. */
  method PlaceFixed(t: seq<Byte>, p: Parts, nt: seq<Byte>, first: nat) returns (out: seq<Byte>)
    requires Within(p.toc.entries, |t|)
    ensures Donor(t, p) && Fits(p, nt, first) ==>
      |out| == first + END_REL && forall k :: 0 <= k < |out| ==> KeptOrZero(t, p.toc.entries, out, k)
  {
    out := AssignPrefix(Zeros(first + END_REL), PREFIX, if PREFIX <= |t| then t[..PREFIX] else t);
    ghost var out1 := out;
    out := WriteFixed(out, t, p.toc.entries);
    if Donor(t, p) && Fits(p, nt, first) {
      FixedPlaced(t, p.toc.entries, out1, out);
    }
  }

  lemma TableKept(t: seq<Byte>, p: Parts, nt: seq<Byte>, first: nat, out2: seq<Byte>, out: seq<Byte>)
    requires WithinAll(t, p) && TocEnd(|p.toc.entries|) <= PREFIX && TocEnd(|p.toc.entries|) <= p.nt.off <= |out2| == |out|
    requires forall k :: 0 <= k < |out2| ==> KeptOrZero(t, p.toc.entries, out2, k)
    requires forall k :: 0 <= k < p.nt.off ==> out[k] == out2[k]
    ensures out[..TocEnd(|p.toc.entries|)] == t[..TocEnd(|p.toc.entries|)]
  {
    forall k | 0 <= k < TocEnd(|p.toc.entries|) ensures out[k] == t[k] {
      assert KeptOrZero(t, p.toc.entries, out2, k);
    }
  }

  /** Zero from `at` on. */
  ghost predicate Blank(out: seq<Byte>, at: nat) {
    forall k :: at <= k < |out| ==> out[k] == 0
  }

  lemma TailBlank(t: seq<Byte>, p: Parts, nt: seq<Byte>, first: nat, out: seq<Byte>)
    requires Donor(t, p) && WithinAll(t, p) && p.nt.off + |nt| <= first
    requires forall k :: 0 <= k < |out| && Plain(p, |nt|, first, k) ==> KeptOrZero(t, p.toc.entries, out, k)
    ensures Blank(out, first + CHECKSUM_REL)
  {
    forall k | first + CHECKSUM_REL <= k < |out| ensures out[k] == 0 {
      assert forall c :: 0 <= c < CERTS ==> CERT_REL[c] + Slot(c) <= CHECKSUM_REL;
      assert !InCert(p.certs, first, k) && !InFixed(p.toc.entries, k);
      assert Plain(p, |nt|, first, k);
      assert KeptOrZero(t, p.toc.entries, out, k);
    }
  }

  /** Copy the prefix and all payloads. */
  method PlacePayloads(t: seq<Byte>, p: Parts, nt: seq<Byte>, first: nat) returns (out: seq<Byte>)
    requires Within(p.toc.entries, |t|) && |p.certs| == CERTS && Within(p.certs, |t|)
    ensures Donor(t, p) && Fits(p, nt, first) ==>
      && |out| == first + END_REL && Placed(t, p, nt, first, out)
      && out[..TocEnd(|p.toc.entries|)] == t[..TocEnd(|p.toc.entries|)]
      && Blank(out, first + CHECKSUM_REL)
  {
    ghost var ok := Donor(t, p) && Fits(p, nt, first);
    out := PlaceFixed(t, p, nt, first);
    ghost var out2 := out;
    out := Overlay(out, p.nt.off, nt);
    ghost var out3 := out;
    if ok {
      OverlayAt(out2, p.nt.off, nt);
    }
    out := WriteCerts(out, t, p.certs, first);
    if ok {
      PlaceNt(t, p, nt, first, out2, out3, out);
      TableKept(t, p, nt, first, out2, out);
      TailBlank(t, p, nt, first, out);
    }
  }

  lemma SamePrefixEntry(a: seq<Byte>, b: seq<Byte>, n: nat, pos: nat)
    requires pos + 40 <= n <= |a| && n <= |b| && a[..n] == b[..n]
    ensures EntryAt(a, pos) == EntryAt(b, pos)
  {
    assert a[pos..pos + 40] == a[..n][pos..pos + 40];
    assert b[pos..pos + 40] == b[..n][pos..pos + 40];
    EntryMoves(a, pos);
    EntryMoves(b, pos);
  }

  lemma NewEncodable(e: Entry, first: nat, nt: nat)
    requires Encodable(e) && first + END_REL < U32 && nt < U32
    ensures Encodable(NewEntry(e, first, nt))
  {
    assert CertOf(e.uuid) >= 0 ==> CERT_REL[CertOf(e.uuid)] < END_REL;
  }

  lemma NewAllEncodable(entries: seq<Entry>, first: nat, nt: nat)
    requires first + END_REL < U32 && nt < U32 && forall i :: 0 <= i < |entries| ==> Encodable(entries[i])
    ensures var table := NewEntries(entries, first, nt);
      forall i :: 0 <= i < |table| ==> Encodable(table[i]) && table[i].uuid == entries[i].uuid
  {
    forall i | 0 <= i < |entries| ensures Encodable(NewEntry(entries[i], first, nt)) {
      NewEncodable(entries[i], first, nt);
    }
  }

  lemma TableCopied(t: seq<Byte>, toc: Toc, table: seq<Entry>, out: seq<Byte>)
    requires Holds(t, toc) && |table| == |toc.entries| && TocEnd(|toc.entries|) <= |out|
    requires out[..TocEnd(|toc.entries|)] == t[..TocEnd(|toc.entries|)]
    ensures Halfway(out, toc.entries, table, 0)
  {
    var n := |toc.entries|;
    forall i | 0 <= i <= n ensures EntryAt(out, Pos(i)) == EntryAt(t, Pos(i)) {
      SamePrefixEntry(out, t, TocEnd(n), Pos(i));
    }
  }

  lemma TableReady(t: seq<Byte>, p: Parts, nt: seq<Byte>, first: nat, out: seq<Byte>)
    requires Parse(t) == Ok(p.toc) && Fits(p, nt, first) && TocEnd(|p.toc.entries|) <= |out|
    requires TocEnd(|p.toc.entries|) <= |t| && out[..TocEnd(|p.toc.entries|)] == t[..TocEnd(|p.toc.entries|)]
    ensures Writable(out, p.toc.entries, NewEntries(p.toc.entries, first, |nt|), NewTerm(first))
  {
    ParsedFits(t, p.toc);
    NewAllEncodable(p.toc.entries, first, |nt|);
    TableCopied(t, p.toc, NewEntries(p.toc.entries, first, |nt|), out);
  }

  /** Writing the table leaves the payloads in place. */
  lemma StillPlaced(t: seq<Byte>, p: Parts, nt: seq<Byte>, first: nat, out0: seq<Byte>, out: seq<Byte>)
    requires WithinAll(t, p) && Placed(t, p, nt, first, out0) && Outside(out, out0, |p.toc.entries|)
    requires TocEnd(|p.toc.entries|) <= p.nt.off <= first
    ensures Placed(t, p, nt, first, out)
  {
    assert out[p.nt.off..p.nt.off + |nt|] == out0[p.nt.off..p.nt.off + |nt|];
    forall c | 0 <= c < CERTS ensures Copied(out, first + CERT_REL[c], t, p.certs[c]) {
      var at, size := first + CERT_REL[c], p.certs[c].size;
      assert Copied(out0, at, t, p.certs[c]);
      assert out[at..at + size] == out0[at..at + size];
    }
    forall k | TocEnd(|p.toc.entries|) <= k < |out| && Plain(p, |nt|, first, k) && k < first + CHECKSUM_REL
      ensures KeptOrZero(t, p.toc.entries, out, k)
    {
      assert KeptOrZero(t, p.toc.entries, out0, k) && out[k] == out0[k];
    }
  }

  /** All that the checksum covers: the prefix, the payloads and the new table. */
  method Fill(t: seq<Byte>, p: Parts, nt: seq<Byte>, first: nat) returns (r: Result<seq<Byte>>)
    requires Parse(t) == Ok(p.toc) && PartsOf(p.toc) == Some(p)
    ensures Donor(t, p) && Fits(p, nt, first) ==>
      WithinAll(t, p) && r.Ok? && Filled(t, p, nt, first, r.value) && Blank(r.value, first + CHECKSUM_REL)
  {
    PartsWithin(t, p);
    var out := PlacePayloads(t, p, nt, first);
    ghost var ok := Donor(t, p) && Fits(p, nt, first);
    if ok {
      TableReady(t, p, nt, first, out);
    }
    r := WriteTable(out, p.toc.entries, first, |nt|);
    if ok {
      StillPlaced(t, p, nt, first, out, r.value);
      HeaderStays(t, out, r.value, |p.toc.entries|);
    }
  }

  lemma HeaderStays(t: seq<Byte>, out0: seq<Byte>, out: seq<Byte>, n: nat)
    requires TocEnd(n) <= |t| && TocEnd(n) <= |out0| && out0[..TocEnd(n)] == t[..TocEnd(n)] && Outside(out, out0, n)
    ensures out[..16] == t[..16]
  {
    assert forall k :: 0 <= k < 16 ==> out0[k] == out0[..TocEnd(n)][k] && t[k] == t[..TocEnd(n)][k];
  }
}
