/** rebuild() keeps the donor: what its output parses to, what it holds, and that it is idempotent. */
module FipDonor {
  import opened Bytes
  import opened Wrappers
  import opened FipToc
  import opened FipCompact
  import opened FipPersist

  function NewParts(p: Parts, first: nat, nt: nat): Parts {
    Parts(Toc(p.toc.serial, p.toc.flags, NewEntries(p.toc.entries, first, nt), NewTerm(first)),
          NewEntry(p.nt, first, nt), NewEntries(p.certs, first, nt))
  }

  // ----- entries and their kinds -----

  /** With distinct UUIDs, an entry is the one that its UUID finds. */
  lemma {:induction false} FindThis(entries: seq<Entry>, i: nat)
    requires i < |entries| && forall a, b :: 0 <= a < b < |entries| ==> entries[a].uuid != entries[b].uuid
    ensures Find(entries, entries[i].uuid) == Some(entries[i])
    decreases |entries|
  {
    var n := |entries| - 1;
    if i < n {
      assert entries[i].uuid != entries[n].uuid;
      FindThis(entries[..n], i);
    }
  }

  lemma KindOf(t: seq<Byte>, p: Parts, i: nat)
    requires Donor(t, p) && i < |p.toc.entries|
    ensures p.toc.entries[i].uuid == NT_FW_UUID ==> p.toc.entries[i] == p.nt
    ensures |p.certs| == CERTS
    ensures CertOf(p.toc.entries[i].uuid) >= 0 ==> p.toc.entries[i] == p.certs[CertOf(p.toc.entries[i].uuid)]
  {
    FindThis(p.toc.entries, i);
    CertsFound(p.toc.entries, CERTS, p.certs);
  }

  lemma {:induction false} FindNew(entries: seq<Entry>, uuid: nat, first: nat, nt: nat)
    ensures Find(NewEntries(entries, first, nt), uuid) ==
      if Find(entries, uuid).Some? then Some(NewEntry(Find(entries, uuid).value, first, nt)) else None
    decreases |entries|
  {
    if entries == [] {
    } else {
      var n := |entries| - 1;
      FindNew(entries[..n], uuid, first, nt);
      assert NewEntries(entries, first, nt)[..n] == NewEntries(entries[..n], first, nt);
    }
  }

  lemma {:induction false} CertsNew(entries: seq<Entry>, n: nat, certs: seq<Entry>, first: nat, nt: nat)
    requires n <= CERTS && Certs(entries, n) == Some(certs)
    ensures Certs(NewEntries(entries, first, nt), n) == Some(NewEntries(certs, first, nt))
  {
    if n == 0 {
      assert NewEntries(certs, first, nt) == [];
    } else {
      var rest := Certs(entries, n - 1).value;
      CertsNew(entries, n - 1, rest, first, nt);
      FindNew(entries, CERT_UUIDS[n - 1], first, nt);
      assert NewEntries(certs, first, nt) == NewEntries(rest, first, nt) + [NewEntry(certs[|certs| - 1], first, nt)];
    }
  }

  lemma PartsNew(p: Parts, first: nat, nt: nat)
    requires PartsOf(p.toc) == Some(p)
    ensures PartsOf(NewParts(p, first, nt).toc) == Some(NewParts(p, first, nt))
  {
    FindNew(p.toc.entries, NT_FW_UUID, first, nt);
    FindNew(p.toc.entries, CHECKSUM_UUID, first, nt);
    CertsNew(p.toc.entries, CERTS, p.certs, first, nt);
  }

  // ----- where the new entries are -----

  /** Every new entry ends before the end, and the fixed ones and NT_FW before the certificates. */
  lemma NewBounds(t: seq<Byte>, p: Parts, nt: nat, first: nat, i: nat)
    requires Donor(t, p) && p.nt.off + nt <= first && i < |p.toc.entries|
    ensures var e := NewEntry(p.toc.entries[i], first, nt);
      && TocEnd(|p.toc.entries|) <= e.off && e.off + e.size <= first + END_REL
      && (IsFixed(e) ==> e.off + e.size <= p.nt.off)
      && (e.uuid == NT_FW_UUID ==> e.off == p.nt.off && e.size == nt)
      && (CertOf(e.uuid) >= 0 ==> e.off == first + CERT_REL[CertOf(e.uuid)] && e.size <= Slot(CertOf(e.uuid)))
      && (e.uuid == CHECKSUM_UUID ==> e.off == first + CHECKSUM_REL && e.size == 40)
  {
    KindOf(t, p, i);
    assert CertOf(NT_FW_UUID) < 0 && CertOf(CHECKSUM_UUID) < 0 && NT_FW_UUID != CHECKSUM_UUID;
  }

  /** Two payloads of the rebuilt package do not overlap, unless both were copied and overlap in the donor. */
  lemma NewDisjoint(t: seq<Byte>, p: Parts, nt: nat, first: nat, i: nat, j: nat, k: int)
    requires Donor(t, p) && p.nt.off + nt <= first && i < j < |p.toc.entries|
    requires var a, b := NewEntry(p.toc.entries[i], first, nt), NewEntry(p.toc.entries[j], first, nt);
      In(k, a.off, a.size) && In(k, b.off, b.size)
    ensures IsFixed(p.toc.entries[i]) && IsFixed(p.toc.entries[j])
    ensures In(k, p.toc.entries[i].off, p.toc.entries[i].size) && In(k, p.toc.entries[j].off, p.toc.entries[j].size)
  {
    NewBounds(t, p, nt, first, i);
    NewBounds(t, p, nt, first, j);
    assert p.toc.entries[i].uuid != p.toc.entries[j].uuid;
    assert forall c, d :: 0 <= c < d < CERTS ==> CERT_REL[c] + Slot(c) <= CERT_REL[d];
  }

  // ----- the rebuilt package parses -----

  lemma SameHeader(a: seq<Byte>, b: seq<Byte>)
    requires |a| >= 16 && |b| >= 16 && a[..16] == b[..16]
    ensures a[0..4] == b[0..4] && a[4..8] == b[4..8] && a[8..16] == b[8..16]
  {
    assert a[0..4] == a[..16][0..4] && a[4..8] == a[..16][4..8] && a[8..16] == a[..16][8..16];
    assert b[0..4] == b[..16][0..4] && b[4..8] == b[..16][4..8] && b[8..16] == b[..16][8..16];
  }

  lemma RebuiltStarts(t: seq<Byte>, toc: Toc, first: nat, nt: nat, out: seq<Byte>)
    requires Parse(t) == Ok(toc) && |out| >= 16 && |t| >= 16 && out[..16] == t[..16] && Written(out, NewEntries(toc.entries, first, nt), NewTerm(first))
    ensures StartsWith(out, Toc(toc.serial, toc.flags, NewEntries(toc.entries, first, nt), NewTerm(first)))
  {
    ParseExact(t, toc);
    SameHeader(out, t);
  }

  lemma NewTerminated(t: seq<Byte>, p: Parts, nt: nat, first: nat)
    requires Donor(t, p) && p.nt.off + nt <= first
    ensures Terminated(NewParts(p, first, nt).toc) && Within(NewEntries(p.toc.entries, first, nt), first + END_REL)
  {
    ParseExact(t, p.toc);
    var es := NewEntries(p.toc.entries, first, nt);
    forall i | 0 <= i < |es| ensures es[i].uuid != ZERO_UUID && es[i].off + es[i].size <= first + END_REL {
      NewBounds(t, p, nt, first, i);
      assert es[i].uuid == p.toc.entries[i].uuid;
    }
  }

  /** The output parses to the same UUIDs and flags, with the new ranges. */
  lemma RebuiltParses(t: seq<Byte>, p: Parts, nt: seq<Byte>, first: nat, out: seq<Byte>)
    requires Donor(t, p) && Fits(p, nt, first) && WithinAll(t, p) && Filled(t, p, nt, first, out)
    ensures Parse(out) == Ok(NewParts(p, first, |nt|).toc)
  {
    RebuiltStarts(t, p.toc, first, |nt|, out);
    NewTerminated(t, p, |nt|, first);
    ParseExact(out, NewParts(p, first, |nt|).toc);
  }

  // ----- the rebuilt package keeps the payloads -----

  lemma FixedKept(t: seq<Byte>, p: Parts, nt: seq<Byte>, first: nat, out: seq<Byte>, i: nat)
    requires Donor(t, p) && Fits(p, nt, first) && WithinAll(t, p) && Placed(t, p, nt, first, out)
    requires |out| >= first && i < |p.toc.entries| && IsFixed(p.toc.entries[i])
    ensures var e := p.toc.entries[i]; e.off + e.size <= |out| && Payload(out, e) == Payload(t, e)
  {
    var e := p.toc.entries[i];
    forall k | e.off <= k < e.off + e.size ensures out[k] == t[k] {
      assert In(k, e.off, e.size) && InFixed(p.toc.entries, k);
      assert Plain(p, |nt|, first, k);
      assert KeptOrZero(t, p.toc.entries, out, k);
    }
  }

  lemma CertKept(t: seq<Byte>, p: Parts, nt: seq<Byte>, first: nat, out: seq<Byte>, c: nat)
    requires WithinAll(t, p) && Placed(t, p, nt, first, out) && c < CERTS
    ensures var e := p.certs[c].(off := first + CERT_REL[c]);
      e.off + e.size <= |out| && Payload(out, e) == Payload(t, p.certs[c])
  {
    assert Copied(out, first + CERT_REL[c], t, p.certs[c]);
  }

  lemma SealKept(out: seq<Byte>, at: nat, meta: seq<Byte>, n: nat)
    requires at <= |out| && out[at..] == meta + Zeros(n)
    ensures at + |meta| <= |out| && out[at..at + |meta|] == meta
  {
    assert out[at..at + |meta|] == out[at..][..|meta|];
  }

  /** What the payload of an entry is in the rebuilt package. */
  ghost function Kept(t: seq<Byte>, e: Entry, nt: seq<Byte>, body: seq<Byte>, crc: seq<Byte> -> nat,
                      sha: seq<Byte> -> Digest): seq<Byte>
    requires e.off + e.size <= |t|
  {
    if e.uuid == NT_FW_UUID then nt
    else if e.uuid == CHECKSUM_UUID then Meta(body, crc, sha)
    else Payload(t, e)
  }

  /** NT_FW is the new payload, the checksum entry seals what is before it, all others are byte-identical. */
  lemma RebuiltKeeps(t: seq<Byte>, p: Parts, nt: seq<Byte>, first: nat, out: seq<Byte>,
                     crc: seq<Byte> -> nat, sha: seq<Byte> -> Digest, i: nat)
    requires Donor(t, p) && Fits(p, nt, first) && WithinAll(t, p) && Rebuilt(t, p, nt, first, out, crc, sha)
    requires i < |p.toc.entries|
    ensures var e := p.toc.entries[i]; var e' := NewEntry(e, first, |nt|);
      && e'.uuid == e.uuid && e'.flags == e.flags && e'.off + e'.size <= |out|
      && Payload(out, e') == Kept(t, e, nt, out[..first + CHECKSUM_REL], crc, sha)
  {
    var e := p.toc.entries[i];
    KindOf(t, p, i);
    var c := CertOf(e.uuid);
    if e.uuid == NT_FW_UUID {
      assert NewEntry(e, first, |nt|) == p.nt.(size := |nt|);
    } else if c >= 0 {
      assert NewEntry(e, first, |nt|) == p.certs[c].(off := first + CERT_REL[c]);
      CertKept(t, p, nt, first, out, c);
    } else if e.uuid == CHECKSUM_UUID {
      SealKept(out, first + CHECKSUM_REL, Meta(out[..first + CHECKSUM_REL], crc, sha), END_REL - CHECKSUM_REL - 40);
    } else {
      FixedKept(t, p, nt, first, out, i);
    }
  }

  // ----- one package only -----

  lemma SameTable(a: seq<Byte>, b: seq<Byte>, table: seq<Entry>, term: Entry)
    requires |a| >= 16 && |b| >= 16 && a[..16] == b[..16] && Written(a, table, term) && Written(b, table, term)
    ensures forall k :: 0 <= k < TocEnd(|table|) ==> a[k] == b[k]
  {
    forall k | 0 <= k < TocEnd(|table|) ensures a[k] == b[k] {
      if k < 16 {
        assert a[k] == a[..16][k] && b[k] == b[..16][k];
      } else {
        var i := (k - 16) / 40;
        SameEntry(a, b, Pos(i));
        assert a[k] == a[Pos(i)..Pos(i) + 40][k - Pos(i)] && b[k] == b[Pos(i)..Pos(i) + 40][k - Pos(i)];
      }
    }
  }

  lemma SameEntry(a: seq<Byte>, b: seq<Byte>, pos: nat)
    requires pos + 40 <= |a| && pos + 40 <= |b| && EntryAt(a, pos) == EntryAt(b, pos)
    ensures a[pos..pos + 40] == b[pos..pos + 40]
  {
    EntryRoundTrip(a, pos, EntryAt(a, pos));
    EntryRoundTrip(b, pos, EntryAt(a, pos));
  }

  lemma SamePayloads(t: seq<Byte>, p: Parts, nt: seq<Byte>, first: nat, a: seq<Byte>, b: seq<Byte>, k: nat)
    requires WithinAll(t, p) && Placed(t, p, nt, first, a) && Placed(t, p, nt, first, b) && |a| == |b|
    requires TocEnd(|p.toc.entries|) <= k < first + CHECKSUM_REL && k < |a|
    ensures a[k] == b[k]
  {
    if In(k, p.nt.off, |nt|) {
      assert a[k] == a[p.nt.off..p.nt.off + |nt|][k - p.nt.off] && b[k] == b[p.nt.off..p.nt.off + |nt|][k - p.nt.off];
    } else if InCert(p.certs, first, k) {
      var c :| 0 <= c < CERTS && In(k, first + CERT_REL[c], p.certs[c].size);
      var at, size := first + CERT_REL[c], p.certs[c].size;
      assert Copied(a, at, t, p.certs[c]) && Copied(b, at, t, p.certs[c]);
      assert a[k] == a[at..at + size][k - at] && b[k] == b[at..at + size][k - at];
    } else {
      assert KeptOrZero(t, p.toc.entries, a, k) && KeptOrZero(t, p.toc.entries, b, k);
    }
  }

  /** A donor and a payload determine the rebuilt package. */
  lemma RebuiltUnique(t: seq<Byte>, p: Parts, nt: seq<Byte>, first: nat, a: seq<Byte>, b: seq<Byte>,
                      crc: seq<Byte> -> nat, sha: seq<Byte> -> Digest)
    requires WithinAll(t, p) && Rebuilt(t, p, nt, first, a, crc, sha) && Rebuilt(t, p, nt, first, b, crc, sha)
    ensures a == b
  {
    var n := first + CHECKSUM_REL;
    SameTable(a, b, NewEntries(p.toc.entries, first, |nt|), NewTerm(first));
    forall k | 0 <= k < n ensures a[k] == b[k] {
      if k >= TocEnd(|p.toc.entries|) {
        SamePayloads(t, p, nt, first, a, b, k);
      }
    }
    assert a[..n] == b[..n];
    assert a == a[..n] + a[n..] && b == b[..n] + b[n..];
  }

  // ----- rebuilding again -----

  lemma NewTwice(entries: seq<Entry>, first: nat, nt: nat)
    ensures NewEntries(NewEntries(entries, first, nt), first, nt) == NewEntries(entries, first, nt)
  {
    forall i | 0 <= i < |entries| ensures NewEntry(NewEntry(entries[i], first, nt), first, nt) == NewEntry(entries[i], first, nt) {
    }
  }

  lemma FixedNew(entries: seq<Entry>, first: nat, nt: nat, k: int)
    ensures InFixed(NewEntries(entries, first, nt), k) <==> InFixed(entries, k)
  {
    var es := NewEntries(entries, first, nt);
    assert forall i :: 0 <= i < |entries| ==> IsFixed(es[i]) == IsFixed(entries[i]) && (IsFixed(entries[i]) ==> es[i] == entries[i]);
    if InFixed(entries, k) {
      var i :| 0 <= i < |entries| && IsFixed(entries[i]) && In(k, entries[i].off, entries[i].size);
      assert IsFixed(es[i]) && In(k, es[i].off, es[i].size);
    }
  }

  lemma CertMoved(e: Entry, c: nat, first: nat, nt: nat)
    requires c < CERTS && e.uuid == CERT_UUIDS[c]
    ensures NewEntry(e, first, nt) == e.(off := first + CERT_REL[c])
  {
    assert CertOf(e.uuid) == c && e.uuid != NT_FW_UUID;
  }

  lemma CertsMoved(t: seq<Byte>, p: Parts, first: nat, nt: nat)
    requires Donor(t, p)
    ensures |p.certs| == CERTS && CertsFit(NewEntries(p.certs, first, nt))
    ensures forall c :: 0 <= c < CERTS ==> NewEntry(p.certs[c], first, nt) == p.certs[c].(off := first + CERT_REL[c])
  {
    PartsWithin(t, p);
    forall c | 0 <= c < CERTS ensures NewEntry(p.certs[c], first, nt) == p.certs[c].(off := first + CERT_REL[c]) {
      CertMoved(p.certs[c], c, first, nt);
    }
  }

  lemma FixedBounds(t: seq<Byte>, p: Parts, first: nat, nt: nat)
    requires Donor(t, p) && p.nt.off + nt <= first
    ensures var es := NewEntries(p.toc.entries, first, nt);
      forall i :: 0 <= i < |es| && IsFixed(es[i]) ==> TocEnd(|es|) <= es[i].off && es[i].off + es[i].size <= p.nt.off
  {
    var es := NewEntries(p.toc.entries, first, nt);
    forall i | 0 <= i < |es| && IsFixed(es[i]) ensures TocEnd(|es|) <= es[i].off && es[i].off + es[i].size <= p.nt.off {
      NewBounds(t, p, nt, first, i);
    }
  }

  lemma NewDistinct(entries: seq<Entry>, first: nat, nt: nat)
    requires forall i, j :: 0 <= i < j < |entries| ==> entries[i].uuid != entries[j].uuid
    ensures var es := NewEntries(entries, first, nt); forall i, j :: 0 <= i < j < |es| ==> es[i].uuid != es[j].uuid
  {
    var es := NewEntries(entries, first, nt);
    assert forall i :: 0 <= i < |es| ==> es[i].uuid == entries[i].uuid;
  }

  lemma NewShaped(t: seq<Byte>, p: Parts, first: nat, nt: nat)
    requires Donor(t, p) && p.nt.off + nt <= first
    ensures Shaped(NewParts(p, first, nt))
  {
    PartsWithin(t, p);
    CertsMoved(t, p, first, nt);
    FixedBounds(t, p, first, nt);
    NewDistinct(p.toc.entries, first, nt);
  }

  /** The rebuilt package can be rebuilt. */
  lemma RebuiltDonor(t: seq<Byte>, p: Parts, nt: seq<Byte>, first: nat, out: seq<Byte>)
    requires Donor(t, p) && Fits(p, nt, first) && WithinAll(t, p) && Filled(t, p, nt, first, out)
    ensures Donor(out, NewParts(p, first, |nt|))
  {
    RebuiltParses(t, p, nt, first, out);
    PartsNew(p, first, |nt|);
    NewShaped(t, p, first, |nt|);
  }

  /** The certificates stay where they are now. */
  lemma RebuiltLayout(t: seq<Byte>, p: Parts, nt: seq<Byte>, first: nat, force: bool)
    requires Donor(t, p) && Fits(p, nt, first)
    ensures var p' := NewParts(p, first, |nt|);
      |p'.certs| == CERTS && p'.nt.off == p.nt.off && Fits(p', nt, first) && First(p', |nt|, force) == first
  {
    CertsMoved(t, p, first, |nt|);
    PartsWithin(t, p);
  }

  lemma KeptTwice(t: seq<Byte>, p: Parts, nt: seq<Byte>, first: nat, out: seq<Byte>)
    requires Donor(t, p) && WithinAll(t, p) && Placed(t, p, nt, first, out)
    requires var p' := NewParts(p, first, |nt|); WithinAll(out, p') && p'.nt.off == p.nt.off
    ensures var p' := NewParts(p, first, |nt|);
      forall k :: TocEnd(|p'.toc.entries|) <= k < |out| && Plain(p', |nt|, first, k) && k < first + CHECKSUM_REL ==>
        KeptOrZero(out, p'.toc.entries, out, k)
  {
    var p' := NewParts(p, first, |nt|);
    CertsMoved(t, p, first, |nt|);
    forall k | TocEnd(|p'.toc.entries|) <= k < |out| && Plain(p', |nt|, first, k) && k < first + CHECKSUM_REL
      ensures KeptOrZero(out, p'.toc.entries, out, k)
    {
      SamePlain(p, first, |nt|, k);
      FixedNew(p.toc.entries, first, |nt|, k);
      assert KeptOrZero(t, p.toc.entries, out, k);
    }
  }

  lemma SamePlain(p: Parts, first: nat, nt: nat, k: int)
    requires |p.certs| == CERTS && NewParts(p, first, nt).nt.off == p.nt.off
    requires forall c :: 0 <= c < CERTS ==> NewEntry(p.certs[c], first, nt) == p.certs[c].(off := first + CERT_REL[c])
    ensures Plain(NewParts(p, first, nt), nt, first, k) <==> Plain(p, nt, first, k)
  {
    var certs := NewParts(p, first, nt).certs;
    assert forall c :: 0 <= c < CERTS ==> certs[c].size == p.certs[c].size;
    if InCert(p.certs, first, k) {
      var c :| 0 <= c < CERTS && In(k, first + CERT_REL[c], p.certs[c].size);
      assert In(k, first + CERT_REL[c], certs[c].size);
    }
  }

  lemma CopiedTwice(out: seq<Byte>, at: nat, t: seq<Byte>, e: Entry)
    requires e.off + e.size <= |t| && Copied(out, at, t, e)
    ensures at + e.size <= |out| && Copied(out, at, out, e.(off := at))
  {
  }

  lemma PlacedTwice(t: seq<Byte>, p: Parts, nt: seq<Byte>, first: nat, out: seq<Byte>)
    requires Donor(t, p) && WithinAll(t, p) && Placed(t, p, nt, first, out)
    requires var p' := NewParts(p, first, |nt|); WithinAll(out, p') && p'.nt.off == p.nt.off
    ensures Placed(out, NewParts(p, first, |nt|), nt, first, out)
  {
    KeptTwice(t, p, nt, first, out);
    CertsMoved(t, p, first, |nt|);
    var certs := NewParts(p, first, |nt|).certs;
    forall c | 0 <= c < CERTS ensures Copied(out, first + CERT_REL[c], out, certs[c]) {
      CopiedTwice(out, first + CERT_REL[c], t, p.certs[c]);
    }
  }

  /** The rebuilt package is what rebuilding it gives. */
  lemma RebuiltTwice(t: seq<Byte>, p: Parts, nt: seq<Byte>, first: nat, out: seq<Byte>,
                     crc: seq<Byte> -> nat, sha: seq<Byte> -> Digest)
    requires Donor(t, p) && Fits(p, nt, first) && WithinAll(t, p) && Rebuilt(t, p, nt, first, out, crc, sha)
    ensures WithinAll(out, NewParts(p, first, |nt|))
    ensures Rebuilt(out, NewParts(p, first, |nt|), nt, first, out, crc, sha)
  {
    RebuiltDonor(t, p, nt, first, out);
    PartsWithin(out, NewParts(p, first, |nt|));
    RebuiltLayout(t, p, nt, first, false);
    NewTwice(p.toc.entries, first, |nt|);
    PlacedTwice(t, p, nt, first, out);
  }

  /** Rebuilding the output with the same payload changes no byte. */
  lemma RebuildIdempotent(t: seq<Byte>, p: Parts, nt: seq<Byte>, first: nat, out: seq<Byte>, again: seq<Byte>,
                          crc: seq<Byte> -> nat, sha: seq<Byte> -> Digest)
    requires Donor(t, p) && Fits(p, nt, first) && WithinAll(t, p) && Rebuilt(t, p, nt, first, out, crc, sha)
    requires var p' := NewParts(p, first, |nt|); WithinAll(out, p') && Rebuilt(out, p', nt, first, again, crc, sha)
    ensures again == out
  {
    RebuiltTwice(t, p, nt, first, out, crc, sha);
    RebuiltUnique(out, NewParts(p, first, |nt|), nt, first, out, again, crc, sha);
  }
}
