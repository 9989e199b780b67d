/** rebuild() as a whole, and placing its output in the boot partition. */
module FipInstall {
  import opened Bytes
  import opened Wrappers
  import opened FipToc
  import opened FipCompact
  import opened FipPersist
  import opened FipDonor

  const MTD0_SIZE: nat := 0x80000
  const ENV_OFFSET: nat := 0x7c000

  /** What rebuild() checks of its own output. */
  predicate Verified(out: seq<Byte>, nt: seq<Byte>, at: nat, crc: seq<Byte> -> nat, sha: seq<Byte> -> Digest) {
    && Parse(out).Ok? && Parse(out).value.term.off == |out| && at <= |out|
    && var es := Parse(out).value.entries;
       var n, c := Find(es, NT_FW_UUID), Find(es, CHECKSUM_UUID);
       && n.Some? && n.value.off + n.value.size <= |out| && Payload(out, n.value) == nt
       && c.Some? && c.value.off + c.value.size <= |out| && c.value.size >= 8
       && var s := Payload(out, c.value);
          Num(s[0..4]) == at && Num(s[4..8]) == crc(out[..at]) % U32 && s[8..] == sha(out[..at])
  }

  /** What a rebuild of a donor gives: the package, or that it overlaps or is too large. */
  ghost predicate Answers(t: seq<Byte>, p: Parts, nt: seq<Byte>, force: bool, r: Result<seq<Byte>>,
                          crc: seq<Byte> -> nat, sha: seq<Byte> -> Digest)
    requires WithinAll(t, p)
  {
    var first := First(p, |nt|, force);
    if first < p.nt.off + |nt| then r == Err(Overlaps)
    else if FIP_OFFSET + first + END_REL > FIP_LIMIT then r == Err(TooLarge)
    else r.Ok? && Rebuilt(t, p, nt, first, r.value, crc, sha)
  }


  lemma MetaReads(body: seq<Byte>, crc: seq<Byte> -> nat, sha: seq<Byte> -> Digest)
    requires |body| < U32
    ensures var s := Meta(body, crc, sha);
      Num(s[0..4]) == |body| && Num(s[4..8]) == crc(body) % U32 && s[8..] == sha(body)
  {
    var s := Meta(body, crc, sha);
    assert s[0..4] == LE(|body|, 4) && s[4..8] == LE(crc(body) % U32, 4);
    LE4(|body|);
    LE4(crc(body) % U32);
  }

  /** The checks at the end of rebuild() never fail for a donor. */
  lemma RebuiltVerified(t: seq<Byte>, p: Parts, nt: seq<Byte>, first: nat, out: seq<Byte>,
                        crc: seq<Byte> -> nat, sha: seq<Byte> -> Digest)
    requires Donor(t, p) && WithinAll(t, p) && Fits(p, nt, first) && Rebuilt(t, p, nt, first, out, crc, sha)
    ensures Verified(out, nt, first + CHECKSUM_REL, crc, sha)
  {
    RebuiltParses(t, p, nt, first, out);
    MetaReads(out[..first + CHECKSUM_REL], crc, sha);
    EntryRebuilt(t, p, nt, first, out, crc, sha, NT_FW_UUID);
    EntryRebuilt(t, p, nt, first, out, crc, sha, CHECKSUM_UUID);
  }

  lemma EntryRebuilt(t: seq<Byte>, p: Parts, nt: seq<Byte>, first: nat, out: seq<Byte>,
                     crc: seq<Byte> -> nat, sha: seq<Byte> -> Digest, uuid: nat)
    requires Donor(t, p) && WithinAll(t, p) && Fits(p, nt, first) && Rebuilt(t, p, nt, first, out, crc, sha)
    requires uuid == NT_FW_UUID || uuid == CHECKSUM_UUID
    ensures var e := Find(NewEntries(p.toc.entries, first, |nt|), uuid);
      && e.Some? && e.value.off + e.value.size <= |out|
      && Payload(out, e.value) == if uuid == NT_FW_UUID then nt else Meta(out[..first + CHECKSUM_REL], crc, sha)
  {
    FindNew(p.toc.entries, uuid, first, |nt|);
    FindExact(p.toc.entries, uuid);
    var e := Find(p.toc.entries, uuid).value;
    var i :| 0 <= i < |p.toc.entries| && p.toc.entries[i] == e;
    RebuiltKeeps(t, p, nt, first, out, crc, sha, i);
  }

  /** Write the checksum entry behind what it covers. */
  method Seal(out0: seq<Byte>, at: nat, crc: seq<Byte> -> nat, sha: seq<Byte> -> Digest) returns (out: seq<Byte>)
    ensures at + 40 <= |out0| ==>
      |out| == |out0| && out[..at] == out0[..at] && out[at..at + 40] == Meta(out0[..at], crc, sha) && out[at + 40..] == out0[at + 40..]
  {
    var body := if at <= |out0| then out0[..at] else out0;
    var meta := LE(at, 4) + LE(crc(body) % U32, 4) + sha(body);
    out := Overlay(out0, at, meta);
    if at + 40 <= |out0| {
      OverlayAt(out0, at, meta);
    }
  }

  /** Sealing keeps what is filled. */
  lemma SealFilled(t: seq<Byte>, p: Parts, nt: seq<Byte>, first: nat, out0: seq<Byte>, out: seq<Byte>,
                   crc: seq<Byte> -> nat, sha: seq<Byte> -> Digest)
    requires Donor(t, p) && WithinAll(t, p) && Fits(p, nt, first) && Filled(t, p, nt, first, out0)
    requires |out| == |out0| && out[..first + CHECKSUM_REL] == out0[..first + CHECKSUM_REL]
    requires out[first + CHECKSUM_REL..] == Meta(out0[..first + CHECKSUM_REL], crc, sha) + Zeros(END_REL - CHECKSUM_REL - 40)
    ensures Rebuilt(t, p, nt, first, out, crc, sha)
  {
    var n := first + CHECKSUM_REL;
    assert forall k :: 0 <= k < n ==> out[k] == out[..n][k] && out0[k] == out0[..n][k];
    SealedTable(out0, out, n, NewEntries(p.toc.entries, first, |nt|), NewTerm(first));
    assert out[..16] == out0[..16];
    SealedPlaced(t, p, nt, first, out0, out);
  }

  lemma SealedTable(out0: seq<Byte>, out: seq<Byte>, n: nat, table: seq<Entry>, term: Entry)
    requires Written(out0, table, term) && TocEnd(|table|) <= n <= |out| == |out0| && out[..n] == out0[..n]
    ensures Written(out, table, term)
  {
    forall i | 0 <= i <= |table| ensures EntryAt(out, Pos(i)) == EntryAt(out0, Pos(i)) {
      SamePrefixEntry(out, out0, n, Pos(i));
    }
  }

  lemma SealedPlaced(t: seq<Byte>, p: Parts, nt: seq<Byte>, first: nat, out0: seq<Byte>, out: seq<Byte>)
    requires WithinAll(t, p) && CertsFit(p.certs) && Placed(t, p, nt, first, out0) && p.nt.off + |nt| <= first
    requires first + CHECKSUM_REL <= |out| == |out0| && forall k :: 0 <= k < first + CHECKSUM_REL ==> out[k] == out0[k]
    ensures Placed(t, p, nt, first, out)
  {
    assert out[p.nt.off..p.nt.off + |nt|] == out0[p.nt.off..p.nt.off + |nt|];
    forall c | 0 <= c < CERTS ensures Copied(out, first + CERT_REL[c], t, p.certs[c]) {
      var at, size := first + CERT_REL[c], p.certs[c].size;
      assert Copied(out0, at, t, p.certs[c]) && size <= Slot(c) && CERT_REL[c] + Slot(c) <= CHECKSUM_REL;
      assert out[at..at + size] == out0[at..at + size];
    }
    forall k | TocEnd(|p.toc.entries|) <= k < |out| && Plain(p, |nt|, first, k) && k < first + CHECKSUM_REL
      ensures KeptOrZero(t, p.toc.entries, out, k)
    {
      assert KeptOrZero(t, p.toc.entries, out0, k);
    }
  }

  lemma SealTail(out0: seq<Byte>, out: seq<Byte>, at: nat, meta: seq<Byte>, n: nat)
    requires |out| == |out0| == at + |meta| + n && out[at..at + |meta|] == meta && out[at + |meta|..] == out0[at + |meta|..]
    requires Blank(out0, at)
    ensures out[at..] == meta + Zeros(n)
  {
    assert out[at..] == out[at..at + |meta|] + out[at + |meta|..];
    assert out0[at + |meta|..] == Zeros(n);
  }

  /** The bytes of rebuild(), before it checks them. */
  method BuildAt(t: seq<Byte>, p: Parts, nt: seq<Byte>, first: nat, crc: seq<Byte> -> nat, sha: seq<Byte> -> Digest)
    returns (r: Result<seq<Byte>>)
    requires Parse(t) == Ok(p.toc) && PartsOf(p.toc) == Some(p)
    ensures Donor(t, p) && Fits(p, nt, first) ==>
      WithinAll(t, p) && r.Ok? && Rebuilt(t, p, nt, first, r.value, crc, sha)
  {
    r := Fill(t, p, nt, first);
    if r.Err? {
      return;
    }
    var out := Seal(r.value, first + CHECKSUM_REL, crc, sha);
    if Donor(t, p) && Fits(p, nt, first) {
      ghost var n := first + CHECKSUM_REL;
      SealTail(r.value, out, n, Meta(r.value[..n], crc, sha), END_REL - CHECKSUM_REL - 40);
      SealFilled(t, p, nt, first, r.value, out, crc, sha);
    }
    r := Ok(out);
  }

  /** rebuild() from the layout on: build, and check what was built. */
  method RebuildAt(t: seq<Byte>, p: Parts, nt: seq<Byte>, first: nat, crc: seq<Byte> -> nat, sha: seq<Byte> -> Digest)
    returns (r: Result<seq<Byte>>)
    requires Parse(t) == Ok(p.toc) && PartsOf(p.toc) == Some(p)
    ensures r.Ok? ==> Verified(r.value, nt, first + CHECKSUM_REL, crc, sha)
    ensures Donor(t, p) && Fits(p, nt, first) ==>
      WithinAll(t, p) && r.Ok? && Rebuilt(t, p, nt, first, r.value, crc, sha)
  {
    r := BuildAt(t, p, nt, first, crc, sha);
    if Donor(t, p) && Fits(p, nt, first) {
      RebuiltVerified(t, p, nt, first, r.value, crc, sha);
    }
    if r.Ok? && !Verified(r.value, nt, first + CHECKSUM_REL, crc, sha) {
      r := Err(Mismatch);
    }
  }

  /**
   rebuild(). Whatever the template, what it returns has passed its checks; of a donor it returns the
   rebuilt package, unless that overlaps or is too large.
   */
  method Rebuild(t: seq<Byte>, nt: seq<Byte>, force: bool, crc: seq<Byte> -> nat, sha: seq<Byte> -> Digest)
    returns (r: Result<seq<Byte>>)
    ensures r.Ok? ==>
      exists at :: Verified(r.value, nt, at, crc, sha) && FIP_OFFSET + at + END_REL - CHECKSUM_REL <= FIP_LIMIT
    ensures forall p :: Donor(t, p) ==> WithinAll(t, p) && Answers(t, p, nt, force, r, crc, sha)
  {
    var parsed := ParsePersistent(t);
    if parsed.Err? {
      return Err(parsed.error);
    }
    var parts := PartsOf(parsed.value);
    if parts.None? {
      return Err(WrongEntries);
    }
    var p := parts.value;
    PartsWithin(t, p);
    assert forall q :: Donor(t, q) ==> q == p;
    var first := First(p, |nt|, force);
    if first < p.nt.off + |nt| {
      return Err(Overlaps);
    }
    if FIP_OFFSET + first + END_REL > FIP_LIMIT {
      return Err(TooLarge);
    }
    r := RebuildAt(t, p, nt, first, crc, sha);
  }

  /** A rebuild of the output with the same payload gives the same bytes, whichever layouts are forced. */
  method RebuildTwice(t: seq<Byte>, nt: seq<Byte>, force: bool, force2: bool, crc: seq<Byte> -> nat, sha: seq<Byte> -> Digest)
    returns (once: Result<seq<Byte>>, twice: Result<seq<Byte>>)
    ensures (exists p :: Donor(t, p)) && once.Ok? ==> twice == once
  {
    once := Rebuild(t, nt, force, crc, sha);
    twice := once;
    if once.Ok? {
      twice := Rebuild(once.value, nt, force2, crc, sha);
      if p :| Donor(t, p) {
        SameAgain(t, p, nt, force, force2, once.value, twice, crc, sha);
      }
    }
  }

  lemma SameAgain(t: seq<Byte>, p: Parts, nt: seq<Byte>, force: bool, force2: bool, out: seq<Byte>,
                  again: Result<seq<Byte>>, crc: seq<Byte> -> nat, sha: seq<Byte> -> Digest)
    requires Donor(t, p) && WithinAll(t, p) && Answers(t, p, nt, force, Ok(out), crc, sha)
    requires forall q :: Donor(out, q) ==> WithinAll(out, q) && Answers(out, q, nt, force2, again, crc, sha)
    ensures again == Ok(out)
  {
    var first := First(p, |nt|, force);
    var q := NewParts(p, first, |nt|);
    RebuiltDonor(t, p, nt, first, out);
    RebuiltLayout(t, p, nt, first, force2);
    assert Donor(out, q);
    RebuildIdempotent(t, p, nt, first, out, again.value, crc, sha);
  }

  // ----- the boot partition -----

  /** Place a package in the boot partition: all that is before and behind it stays, so the environment too. */
  method InstallMtd0(template: seq<Byte>, fip: seq<Byte>, fipOffset: nat, envOffset: nat) returns (r: Result<seq<Byte>>)
    ensures r.Ok? <==> |template| == MTD0_SIZE && fipOffset + |fip| <= envOffset && |fip| >= 4 && fip[..4] == [0x01, 0x00, 0x64, 0xaa]
    ensures r.Ok? && envOffset <= MTD0_SIZE ==>
      && |r.value| == MTD0_SIZE && r.value[fipOffset..fipOffset + |fip|] == fip
      && r.value[..fipOffset] == template[..fipOffset] && r.value[fipOffset + |fip|..] == template[fipOffset + |fip|..]
  {
    if |template| != MTD0_SIZE {
      return Err(TooSmall);
    }
    if fipOffset + |fip| > envOffset {
      return Err(Overlaps);
    }
    if |fip| < 4 || fip[..4] != [0x01, 0x00, 0x64, 0xaa] {
      return Err(BadHeader);
    }
    var t := Overlay(template, fipOffset, fip);
    if envOffset <= MTD0_SIZE {
      OverlayAt(template, fipOffset, fip);
    }
    return Ok(t);
  }

  lemma MagicBytes(out: seq<Byte>)
    requires |out| >= 4 && Num(out[0..4]) == FIP_MAGIC
    ensures out[..4] == [0x01, 0x00, 0x64, 0xaa]
  {
    Num4(out[0..4]);
    assert LE(FIP_MAGIC, 4) == [0x01, 0x00, 0x64, 0xaa];
  }

  /** A rebuilt package installs: it ends before the environment and starts with the magic number. */
  lemma RebuiltInstalls(t: seq<Byte>, p: Parts, nt: seq<Byte>, force: bool, out: seq<Byte>,
                        crc: seq<Byte> -> nat, sha: seq<Byte> -> Digest)
    requires Donor(t, p) && WithinAll(t, p) && Answers(t, p, nt, force, Ok(out), crc, sha)
    ensures FIP_OFFSET + |out| <= FIP_LIMIT < ENV_OFFSET && |out| >= 4 && out[..4] == [0x01, 0x00, 0x64, 0xaa]
  {
    RebuiltParses(t, p, nt, First(p, |nt|, force), out);
    ParseExact(out, NewParts(p, First(p, |nt|, force), |nt|).toc);
    MagicBytes(out);
  }
}
