/**
 A/B boot metadata (android_ab.c): which slot to boot, the try counters that bring about a
 rollback, and the order in which the primary and the backup copy are written.
 */
module AbSlots {

  const BOOT_CTRL_MAGIC: nat := 0x42414342
  const BOOT_CTRL_VERSION: nat := 1
  const NUM_SLOTS: nat := 2
  const MAX_SLOTS: nat := 4

  const EIO := -5
  const EINVAL := -22
  const ENODATA := -61

  datatype Slot = Slot(priority: nat, tries: nat, successful: bool, corrupted: bool)

  datatype RawBody = Body(suffix: string, magic: nat, version: nat, count: nat, recovery: nat, reserved: nat, slots: seq<Slot>)

  /** struct bootloader_control without its checksum: there is always room for four slots. */
  type Body = b: RawBody | |b.slots| == MAX_SLOTS
    witness Body("", 0, 0, 0, 0, 0, [Slot(0, 0, false, false), Slot(0, 0, false, false), Slot(0, 0, false, false), Slot(0, 0, false, false)])

  type U32 = n: nat | n < 0x1_0000_0000

  datatype Control = Control(body: Body, crc: U32)

  /** The two copies on disk; `hasBackup` is CONFIG_ANDROID_AB_BACKUP_OFFSET != 0. */
  datatype Disk = Disk(primary: Control, backup: Control)

  datatype Config = Config(crc32: Body -> U32, hasBackup: bool)

  predicate Intact(cfg: Config, c: Control) {
    c.crc == cfg.crc32(c.body)
  }

  function Sealed(cfg: Config, b: Body): Control {
    Control(b, cfg.crc32(b))
  }

  // ----- choosing a slot -----

  predicate Bootable(s: Slot) {
    !s.corrupted && (s.tries > 0 || s.successful)
  }

  /** ab_compare_slots(): negative if `a` is better. */
  function Compare(a: Slot, b: Slot): int {
    var bit := (s: Slot) => if s.successful then 1 else 0;
    if a.priority != b.priority then b.priority - a.priority
    else if a.successful != b.successful then bit(b) - bit(a)
    else if a.tries != b.tries then b.tries - a.tries
    else 0
  }

  /** The lexicographic order of (priority, successful, tries). */
  predicate Below(a: Slot, b: Slot) {
    || a.priority < b.priority
    || (a.priority == b.priority && !a.successful && b.successful)
    || (a.priority == b.priority && a.successful == b.successful && a.tries < b.tries)
  }

  /** Slot `k` is the first maximum among the first `n` slots that can be booted, or -1 if none can. */
  ghost predicate FirstBest(slots: seq<Slot>, n: nat, k: int)
    requires n <= |slots|
  {
    if k == -1 then forall j :: 0 <= j < n ==> !Bootable(slots[j])
    else
      && 0 <= k < n && Bootable(slots[k])
      && (forall j :: 0 <= j < k && Bootable(slots[j]) ==> Below(slots[j], slots[k]))
      && (forall j :: k <= j < n && Bootable(slots[j]) ==> !Below(slots[k], slots[j]))
  }

  function Choose(slots: seq<Slot>, n: nat): (k: int)
    requires n <= |slots|
    ensures FirstBest(slots, n, k)
  {
    if n == 0 then -1
    else
      var k := Choose(slots, n - 1);
      if Bootable(slots[n - 1]) && (k < 0 || Compare(slots[n - 1], slots[k]) < 0) then n - 1 else k
  }

  /** There is only one first maximum. */
  lemma FirstBestUnique(slots: seq<Slot>, n: nat, k: int, l: int)
    requires n <= |slots| && FirstBest(slots, n, k) && FirstBest(slots, n, l)
    ensures k == l
  {
  }

  method ChooseSlot(slots: seq<Slot>, n: nat) returns (slot: int)
    requires n <= |slots|
    ensures FirstBest(slots, n, slot)
  {
    slot := -1;
    for i := 0 to n
      invariant FirstBest(slots, i, slot)
    {
      if slots[i].corrupted || (slots[i].tries == 0 && !slots[i].successful) {
        continue;
      }
      if slot < 0 || Compare(slots[i], slots[slot]) < 0 {
        slot := i;
      }
    }
  }

  // ----- one call -----

  /** ab_control_default(): fields that it does not set keep what was read from disk. */
  function Default(b: Body): Body {
    var metadata := Slot(15, 7, false, false);
    Body("_a\0\0", BOOT_CTRL_MAGIC, BOOT_CTRL_VERSION, NUM_SLOTS, b.recovery, 0, [metadata, metadata] + b.slots[NUM_SLOTS..])
  }

  /** The metadata a call works on. */
  function Loaded(cfg: Config, d: Disk): Body {
    if Intact(cfg, d.primary) then d.primary.body
    else if cfg.hasBackup && Intact(cfg, d.backup) then d.backup.body
    else Default(d.primary.body)
  }

  predicate Known(b: Body) {
    b.magic == BOOT_CTRL_MAGIC && b.version <= BOOT_CTRL_VERSION
  }

  function Count(b: Body): (n: nat)
    ensures n <= MAX_SLOTS
  {
    if b.count > MAX_SLOTS then MAX_SLOTS else b.count
  }

  function Choice(b: Body): int {
    Choose(b.slots, Count(b))
  }

  function Suffix(slot: nat): string
    requires slot < MAX_SLOTS
  {
    ['_', 'a' + slot as char, '\0', '\0']
  }

  /** The metadata after a call that works on `b`. */
  function Update(b: Body, decTries: bool): Body {
    var k := Choice(b);
    var b1 := b.(count := Count(b));
    if k < 0 then b1
    else
      var s := b.slots[k];
      var slots := if !s.successful && decTries then b.slots[k := s.(tries := s.tries - 1)] else b.slots;
      b1.(slots := slots, suffix := Suffix(k))
  }

  /**
   What a call changes: the chosen slot loses a try iff tries count and it is not marked successful, the
   suffix names the chosen slot, and a slot count over four is cut. All else stays; without a slot to boot,
   all but the slot count stays.
   */
  lemma UpdateExact(b: Body, decTries: bool)
    ensures var b' := Update(b, decTries);
      var k := Choice(b);
      && b'.magic == b.magic && b'.version == b.version && b'.recovery == b.recovery && b'.reserved == b.reserved
      && b'.count == (if b.count > 4 then 4 else b.count)
      && (forall i :: 0 <= i < 4 && i != k ==> b'.slots[i] == b.slots[i])
      && (if k < 0 then b'.suffix == b.suffix
          else
            && k < 4 && b'.suffix == "_" + ["abcd"[k]] + "\0\0"
            && b'.slots[k].priority == b.slots[k].priority && b'.slots[k].successful == b.slots[k].successful
            && b'.slots[k].corrupted == b.slots[k].corrupted
            && b'.slots[k].tries == b.slots[k].tries - (if decTries && !b.slots[k].successful then 1 else 0))
  {
    var k := Choice(b);
    if k >= 0 {
      assert k == 0 || k == 1 || k == 2 || k == 3;
    }
  }

  /**
   The choice, slot by slot: none iff every counted slot is corrupted, or has no tries and no success. The
   chosen one is not beaten by priority, then success, then tries, and beats all before it.
   */
  lemma ChoiceExact(b: Body)
    ensures var k, n := Choice(b), if b.count > 4 then 4 else b.count;
      && -1 <= k < n
      && (k == -1 <==> forall i :: 0 <= i < n ==> b.slots[i].corrupted || (b.slots[i].tries == 0 && !b.slots[i].successful))
      && (k >= 0 ==> var c := b.slots[k];
          && !c.corrupted && (c.tries > 0 || c.successful)
          && forall i :: 0 <= i < n && i != k && !b.slots[i].corrupted && (b.slots[i].tries > 0 || b.slots[i].successful) ==>
            var s := b.slots[i];
            && s.priority <= c.priority
            && (s.priority == c.priority ==> s.successful ==> c.successful)
            && (s.priority == c.priority && s.successful == c.successful ==> if i < k then s.tries < c.tries else s.tries <= c.tries))
  {
    assert FirstBest(b.slots, Count(b), Choice(b));
  }

  /** A call on a slot that booted well, under its own name, has nothing to write. */
  lemma HealthyStays(b: Body, decTries: bool)
    requires b.count <= 4 && Choice(b) >= 0 && b.slots[Choice(b)].successful && b.suffix == Suffix(Choice(b))
    ensures Update(b, decTries) == b
  {
  }

  /** The defaults give two slots with seven tries each, the first of which is chosen. */
  lemma DefaultBoots(b: Body)
    ensures var d := Default(b);
      && Known(d) && d.count == 2 && Choice(d) == 0 && d.suffix == Suffix(0)
      && (forall i :: 0 <= i < 2 ==> d.slots[i] == Slot(15, 7, false, false))
      && (forall i :: 2 <= i < 4 ==> d.slots[i] == b.slots[i]) && d.recovery == b.recovery
  {
    var d := Default(b);
    assert d.slots[0] == d.slots[1] == Slot(15, 7, false, false);
    assert FirstBest(d.slots, 2, 0);
    FirstBestUnique(d.slots, 2, 0, Choice(d));
  }

  datatype Write = Primary(c: Control) | Backup(c: Control)

  function Writes(cfg: Config, d: Disk, c: Control, store: bool): seq<Write> {
    (if store then [Primary(c)] else []) + (if cfg.hasBackup && d.backup != c then [Backup(c)] else [])
  }

  datatype Plan = Plan(result: int, writes: seq<Write>)

  /** What a call returns, and what it writes in which order, when every write succeeds. */
  function Select(cfg: Config, d: Disk, decTries: bool): Plan {
    var b := Loaded(cfg, d);
    if !Known(b) then Plan(ENODATA, [])
    else
      var b' := Update(b, decTries);
      var store := !Intact(cfg, d.primary) || b' != b;
      var c := if store then Sealed(cfg, b') else d.primary;
      var k := Choice(b);
      Plan(if k < 0 then EINVAL else k, Writes(cfg, d, c, store))
  }

  /** What a call returns and writes, by what it finds on the disk. */
  lemma SelectExact(cfg: Config, d: Disk, decTries: bool)
    ensures var p, b := Select(cfg, d, decTries), Loaded(cfg, d);
      && (b.magic != BOOT_CTRL_MAGIC || b.version > BOOT_CTRL_VERSION ==> p == Plan(ENODATA, []))
      && (b.magic == BOOT_CTRL_MAGIC && b.version <= BOOT_CTRL_VERSION ==>
          && p.result == (if Choice(b) < 0 then EINVAL else Choice(b))
          && (forall w :: w in p.writes && w.Primary? ==> w.c == Sealed(cfg, Update(b, decTries)))
          && ((exists w :: w in p.writes && w.Primary?) <==> d.primary.crc != cfg.crc32(d.primary.body) || Update(b, decTries) != b))
  {
    var p, b := Select(cfg, d, decTries), Loaded(cfg, d);
    if Known(b) {
      var store := !Intact(cfg, d.primary) || Update(b, decTries) != b;
      if store { assert p.writes[0].Primary? && p.writes[0] in p.writes; }
    }
  }

  /** The part of ab_select_slot() that changes the metadata in memory. */
  method UpdateSlots(b0: Body, decTries: bool) returns (slot: int, b: Body, changed: bool)
    ensures slot == Choice(b0) && b == Update(b0, decTries) && changed == (b != b0)
  {
    b, changed := b0, false;
    if b.count > MAX_SLOTS {
      b := b.(count := MAX_SLOTS);
      changed := true;
    }
    slot := ChooseSlot(b.slots, b.count);
    FirstBestUnique(b.slots, b.count, slot, Choice(b0));
    if slot >= 0 && !b.slots[slot].successful {
      if decTries {
        b := b.(slots := b.slots[slot := b.slots[slot].(tries := b.slots[slot].tries - 1)]);
        assert b.slots[slot] != b0.slots[slot];
        changed := true;
      }
    }
    if slot >= 0 {
      var suffix := Suffix(slot);
      if b.suffix != suffix {
        b := b.(suffix := suffix);
        changed := true;
      }
    }
  }

  // ----- writes that fail or are cut off -----

  function Put(d: Disk, w: Write, c: Control): Disk {
    if w.Primary? then d.(primary := c) else d.(backup := c)
  }

  /** The disk when the first `k` writes are made and the next one, if there is one, leaves `torn` instead. */
  function CutAt(d: Disk, writes: seq<Write>, k: nat, torn: Control): Disk
    decreases |writes|
  {
    if writes == [] then d
    else if k == 0 then Put(d, writes[0], torn)
    else CutAt(Put(d, writes[0], writes[0].c), writes[1..], k - 1, torn)
  }

  /** The disk after a cut in the writes of one call. */
  lemma CutWrites(cfg: Config, d: Disk, c: Control, store: bool, k: nat, torn: Control)
    ensures var copy := cfg.hasBackup && d.backup != c;
      CutAt(d, Writes(cfg, d, c, store), k, torn) ==
      if store && k == 0 then d.(primary := torn)
      else
        var d1, k1 := if store then d.(primary := c) else d, if store then k - 1 else k;
        if !copy then d1 else d1.(backup := if k1 == 0 then torn else c)
  {
    var last := if cfg.hasBackup && d.backup != c then [Backup(c)] else [];
    assert Writes(cfg, d, c, true) == [Primary(c)] + last && Writes(cfg, d, c, true)[1..] == last;
    assert Writes(cfg, d, c, false) == last;
    if last != [] { assert last[1..] == []; }
    if store && k > 0 {
      assert CutAt(d, [Primary(c)] + last, k, torn) == CutAt(d.(primary := c), last, k - 1, torn);
    }
  }

  /** The misc partition, with the number of writes that still succeed and what a failed one leaves. */
  class Device {
    var disk: Disk
    var good: nat
    const torn: Control

    constructor (disk: Disk, good: nat, torn: Control)
      ensures this.disk == disk && this.good == good && this.torn == torn
    {
      this.disk, this.good, this.torn := disk, good, torn;
    }

    /** ab_control_store() */
    method Store(w: Write) returns (ret: int)
      modifies this
      ensures ret == if old(good) > 0 then 0 else EIO
      ensures disk == Put(old(disk), w, if old(good) > 0 then w.c else torn)
      ensures good == if old(good) > 0 then old(good) - 1 else 0
    {
      if good == 0 {
        disk := Put(disk, w, torn);
        return EIO;
      }
      good := good - 1;
      disk := Put(disk, w, w.c);
      return 0;
    }

    /** The writes of ab_select_slot(): the primary copy first, then the backup if it differs. */
    method StoreBoth(cfg: Config, abc: Control, storeNeeded: bool) returns (ret: int)
      modifies this
      ensures var writes := Writes(cfg, old(disk), abc, storeNeeded);
        ret == (if old(good) >= |writes| then 0 else EIO) && disk == CutAt(old(disk), writes, old(good), torn)
    {
      var backup := disk.backup;
      CutWrites(cfg, disk, abc, storeNeeded, good, torn);
      ret := 0;
      if storeNeeded {
        ret := Store(Primary(abc));
        if ret < 0 {
          return;
        }
      }
      if cfg.hasBackup {
        if backup != abc {
          ret := Store(Backup(abc));
        }
      }
    }

    /** ab_select_slot() */
    method SelectSlot(cfg: Config, decTries: bool) returns (ret: int)
      modifies this
      ensures var p := Select(cfg, old(disk), decTries);
        && ret == (if old(good) >= |p.writes| then p.result else EIO)
        && disk == CutAt(old(disk), p.writes, old(good), torn)
    {
      var abc, backup := disk.primary, disk.backup;
      var storeNeeded, validBackup := false, false;
      if abc.crc != cfg.crc32(abc.body) {
        if cfg.hasBackup {
          if backup.crc == cfg.crc32(backup.body) {
            validBackup := true;
            abc := backup;
          }
        }
        if !validBackup {
          abc := Sealed(cfg, Default(abc.body));
        }
        storeNeeded := true;
      }
      if abc.body.magic != BOOT_CTRL_MAGIC {
        return ENODATA;
      }
      if abc.body.version > BOOT_CTRL_VERSION {
        return ENODATA;
      }
      var slot, b, changed := UpdateSlots(abc.body, decTries);
      if storeNeeded || changed {
        storeNeeded := true;
        abc := Sealed(cfg, b);
      }
      ret := StoreBoth(cfg, abc, storeNeeded);
      if ret < 0 {
        return;
      }
      if slot < 0 {
        return EINVAL;
      }
      return slot;
    }
  }
}
