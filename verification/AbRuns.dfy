/**
 What runs of ab_select_slot() calls keep: the metadata survives a power cut, and the try counters
 are used up one by one.
 */
module AbRuns {
  import opened Wrappers
  import opened AbSlots

  // ----- complete calls -----

  /** Every copy there is holds `b` with its checksum. */
  predicate Synced(cfg: Config, d: Disk, b: Body) {
    d.primary == Sealed(cfg, b) && (cfg.hasBackup ==> d.backup == Sealed(cfg, b))
  }

  /** The disk after a call none of whose writes fails. */
  function Complete(cfg: Config, d: Disk, decTries: bool): Disk {
    var writes := Select(cfg, d, decTries).writes;
    CutAt(d, writes, |writes|, d.primary)
  }

  lemma UpdateKnown(b: Body, decTries: bool)
    requires Known(b)
    ensures Known(Update(b, decTries))
  {
  }

  /** A complete call leaves all copies equal and intact, whatever the disk held before. */
  lemma CompleteSyncs(cfg: Config, d: Disk, decTries: bool)
    requires Known(Loaded(cfg, d))
    ensures Synced(cfg, Complete(cfg, d, decTries), Update(Loaded(cfg, d), decTries))
  {
    var b := Loaded(cfg, d);
    var store := !Intact(cfg, d.primary) || Update(b, decTries) != b;
    var c := if store then Sealed(cfg, Update(b, decTries)) else d.primary;
    var writes := Writes(cfg, d, c, store);
    CutWrites(cfg, d, c, store, |writes|, d.primary);
  }

  // ----- power cuts -----

  /** The checksum tells a torn copy from the old and the new content of what was being written. */
  predicate Detected(cfg: Config, d: Disk, writes: seq<Write>, k: nat, torn: Control) {
    k < |writes| && Intact(cfg, torn) ==>
      torn == writes[k].c || torn == (if writes[k].Primary? then d.primary else d.backup)
  }

  predicate HasIntact(cfg: Config, d: Disk) {
    Intact(cfg, d.primary) || (cfg.hasBackup && Intact(cfg, d.backup))
  }

  /** Whatever write is cut off, an intact copy is left. */
  ghost predicate Survives(cfg: Config, d: Disk, decTries: bool) {
    var writes := Select(cfg, d, decTries).writes;
    forall k: nat, torn :: Detected(cfg, d, writes, k, torn) ==> HasIntact(cfg, CutAt(d, writes, k, torn))
  }

  /**
   A power cut in a call that starts from equal copies leaves an intact copy, and the next call works
   on exactly the old or the new metadata.
   */
  lemma CutKeepsMetadata(cfg: Config, d: Disk, b: Body, decTries: bool, k: nat, torn: Control)
    requires cfg.hasBackup && Synced(cfg, d, b) && Known(b)
    requires Detected(cfg, d, Select(cfg, d, decTries).writes, k, torn)
    ensures var d' := CutAt(d, Select(cfg, d, decTries).writes, k, torn);
      HasIntact(cfg, d') && Loaded(cfg, d') in {b, Update(b, decTries)}
  {
    var b' := Update(b, decTries);
    CutWrites(cfg, d, if b' != b then Sealed(cfg, b') else d.primary, b' != b, k, torn);
  }

  /**
   A call on a disk with an intact copy survives every cut iff the backup is intact or the call has
   nothing new to write to the primary copy.
   */
  lemma SurvivesIff(cfg: Config, d: Disk, decTries: bool)
    requires cfg.hasBackup && HasIntact(cfg, d) && Known(Loaded(cfg, d))
    ensures var b := Loaded(cfg, d);
      Survives(cfg, d, decTries) <==> Intact(cfg, d.backup) || Update(b, decTries) == b
  {
    var b := Loaded(cfg, d);
    var b' := Update(b, decTries);
    var store := !Intact(cfg, d.primary) || b' != b;
    var c := if store then Sealed(cfg, b') else d.primary;
    var writes := Writes(cfg, d, c, store);
    if Intact(cfg, d.backup) || b' == b {
      forall k: nat, torn | Detected(cfg, d, writes, k, torn)
        ensures HasIntact(cfg, CutAt(d, writes, k, torn))
      {
        CutWrites(cfg, d, c, store, k, torn);
      }
    } else {
      var torn := Spoiled(cfg, b);
      CutWrites(cfg, d, c, store, 0, torn);
      assert Detected(cfg, d, writes, 0, torn);
    }
  }

  /** Whatever write is cut off, the next call works on the old or the new metadata. */
  ghost predicate Continues(cfg: Config, d: Disk, decTries: bool) {
    var writes := Select(cfg, d, decTries).writes;
    forall k: nat, torn :: Detected(cfg, d, writes, k, torn) ==>
      Loaded(cfg, CutAt(d, writes, k, torn)) in {Loaded(cfg, d), Update(Loaded(cfg, d), decTries)}
  }

  /** The backup is intact and holds the old or the new metadata. */
  predicate FreshBackup(cfg: Config, d: Disk, b: Body, b': Body) {
    Intact(cfg, d.backup) && d.backup.body in {b, b'}
  }

  /** A torn copy whose defaults are not `b` or an update of `b`. */
  function Garbage(cfg: Config, b: Body): (c: Control)
    ensures !Intact(cfg, c) && Default(c.body).recovery != b.recovery
  {
    Spoiled(cfg, b.(recovery := b.recovery + 1))
  }

  /**
   The next call works on the old or the new metadata whatever write is cut off, iff the call has nothing
   new to write, or the backup is intact and not older than the metadata of the call.
   */
  lemma ContinuesIff(cfg: Config, d: Disk, decTries: bool)
    requires cfg.hasBackup && HasIntact(cfg, d) && Known(Loaded(cfg, d))
    ensures var b := Loaded(cfg, d);
      var b' := Update(b, decTries);
      && (Continues(cfg, d, decTries) <==> b' == b || FreshBackup(cfg, d, b, b'))
      && (Continues(cfg, d, decTries) ==> Survives(cfg, d, decTries))
  {
    var b := Loaded(cfg, d);
    var b' := Update(b, decTries);
    var store := !Intact(cfg, d.primary) || b' != b;
    var c := if store then Sealed(cfg, b') else d.primary;
    var writes := Writes(cfg, d, c, store);
    SurvivesIff(cfg, d, decTries);
    if b' == b || FreshBackup(cfg, d, b, b') {
      forall k: nat, torn | Detected(cfg, d, writes, k, torn)
        ensures Loaded(cfg, CutAt(d, writes, k, torn)) in {b, b'}
      {
        CutWrites(cfg, d, c, store, k, torn);
      }
    } else {
      var torn := Garbage(cfg, b);
      CutWrites(cfg, d, c, store, 0, torn);
      assert Detected(cfg, d, writes, 0, torn);
    }
  }

  /** A copy whose checksum does not match. */
  function Spoiled(cfg: Config, b: Body): (c: Control)
    ensures !Intact(cfg, c)
  {
    Control(b, (cfg.crc32(b) + 1) % 0x1_0000_0000)
  }

  // ----- runs of boots -----

  /** A call that was cut off in write number `k`. */
  datatype Cut = Cut(decTries: bool, k: nat, torn: Control)

  /** A complete call, perhaps after one that was cut off. */
  datatype Boot = Boot(cut: Option<Cut>, decTries: bool)

  function Interrupted(cfg: Config, d: Disk, cut: Option<Cut>): Disk {
    if cut.None? then d else CutAt(d, Select(cfg, d, cut.value.decTries).writes, cut.value.k, cut.value.torn)
  }

  function Run(cfg: Config, d: Disk, boots: seq<Boot>): Disk
    decreases |boots|
  {
    if boots == [] then d
    else Run(cfg, Complete(cfg, Interrupted(cfg, d, boots[0].cut), boots[0].decTries), boots[1..])
  }

  /** Every cut in the run leaves the old content, the new content, or a copy with a wrong checksum. */
  predicate AllDetected(cfg: Config, d: Disk, boots: seq<Boot>)
    decreases |boots|
  {
    boots != [] ==>
      && (boots[0].cut.Some? ==>
            var cut := boots[0].cut.value; Detected(cfg, d, Select(cfg, d, cut.decTries).writes, cut.k, cut.torn))
      && AllDetected(cfg, Complete(cfg, Interrupted(cfg, d, boots[0].cut), boots[0].decTries), boots[1..])
  }

  /** `b'` comes from `b` by one update for each boot and at most one more for each cut. */
  predicate Descends(b: Body, boots: seq<Boot>, b': Body)
    decreases |boots|
  {
    if boots == [] then b' == b
    else
      || Descends(Update(b, boots[0].decTries), boots[1..], b')
      || (boots[0].cut.Some? && Descends(Update(Update(b, boots[0].cut.value.decTries), boots[0].decTries), boots[1..], b'))
  }

  /** Over any run with at most one cut between complete calls no metadata is lost or made up. */
  lemma {:induction false} RunKeepsMetadata(cfg: Config, d: Disk, b: Body, boots: seq<Boot>)
    requires cfg.hasBackup && Synced(cfg, d, b) && Known(b) && AllDetected(cfg, d, boots)
    ensures var d' := Run(cfg, d, boots);
      Synced(cfg, d', d'.primary.body) && Descends(b, boots, d'.primary.body)
    decreases |boots|
  {
    if boots != [] {
      var cut := boots[0].cut;
      var d1 := Interrupted(cfg, d, cut);
      if cut.Some? {
        CutKeepsMetadata(cfg, d, b, cut.value.decTries, cut.value.k, cut.value.torn);
        UpdateKnown(b, cut.value.decTries);
      }
      CompleteSyncs(cfg, d1, boots[0].decTries);
      UpdateKnown(Loaded(cfg, d1), boots[0].decTries);
      RunKeepsMetadata(cfg, Complete(cfg, d1, boots[0].decTries), Update(Loaded(cfg, d1), boots[0].decTries), boots[1..]);
    }
  }

  /** Two cuts in a row, the first in the backup and the second in the primary copy, lose everything. */
  lemma TwoCutsLoseAll(cfg: Config, d: Disk, b: Body)
    requires cfg.hasBackup && Synced(cfg, d, b) && Known(b)
    requires Update(b, true) != b && Update(Update(b, true), true) != Update(b, true)
    ensures exists first, second: Cut ::
      var d1 := Interrupted(cfg, d, Some(first));
      var d2 := Interrupted(cfg, d1, Some(second));
      && Detected(cfg, d, Select(cfg, d, first.decTries).writes, first.k, first.torn)
      && Detected(cfg, d1, Select(cfg, d1, second.decTries).writes, second.k, second.torn)
      && !HasIntact(cfg, d2)
  {
    var torn := Spoiled(cfg, b);
    var first, second := Cut(true, 1, torn), Cut(true, 0, torn);
    var b1 := Update(b, true);
    CutWrites(cfg, d, Sealed(cfg, b1), true, 1, torn);
    var d1 := Interrupted(cfg, d, Some(first));
    assert d1 == Disk(Sealed(cfg, b1), torn);
    UpdateKnown(b, true);
    CutWrites(cfg, d1, Sealed(cfg, Update(b1, true)), true, 0, torn);
    assert !HasIntact(cfg, Interrupted(cfg, d1, Some(second)));
  }

  // ----- the rollback budget -----

  function Tries(s: Slot): nat {
    if s.corrupted then 0 else s.tries
  }

  function Sum(slots: seq<Slot>, n: nat): nat
    requires n <= |slots|
  {
    if n == 0 then 0 else Sum(slots, n - 1) + Tries(slots[n - 1])
  }

  /** The tries left over all slots that are not corrupted. */
  function Budget(b: Body): nat {
    Sum(b.slots, Count(b))
  }

  predicate NoneSuccessful(b: Body) {
    forall i :: 0 <= i < Count(b) ==> !b.slots[i].successful
  }

  lemma {:induction false} SumZero(slots: seq<Slot>, n: nat)
    requires n <= |slots| && forall i :: 0 <= i < n ==> !slots[i].successful
    ensures Sum(slots, n) == 0 <==> forall i :: 0 <= i < n ==> !Bootable(slots[i])
  {
    if n > 0 { SumZero(slots, n - 1); }
  }

  lemma {:induction false} SumUpdate(slots: seq<Slot>, n: nat, k: nat, s: Slot)
    requires k < |slots| && n <= |slots|
    ensures Sum(slots[k := s], n) == if k < n then Sum(slots, n) - Tries(slots[k]) + Tries(s) else Sum(slots, n)
  {
    if n > 0 { SumUpdate(slots, n - 1, k, s); }
  }

  /** A decrementing call has a slot to return iff there is budget, and then uses up one try. */
  lemma SpendOne(b: Body)
    requires NoneSuccessful(b)
    ensures Choice(b) >= 0 <==> Budget(b) > 0
    ensures NoneSuccessful(Update(b, true))
    ensures Budget(Update(b, true)) == if Budget(b) > 0 then Budget(b) - 1 else 0
  {
    SumZero(b.slots, Count(b));
    var k := Choice(b);
    if k >= 0 { SumUpdate(b.slots, Count(b), k, b.slots[k].(tries := b.slots[k].tries - 1)); }
  }

  /**
   Two cuts in a row, the first between the two copies and the second in the primary copy, bring back
   a try that was spent, although an intact copy is left at every point.
   */
  lemma TwoCutsRollBack(cfg: Config, d: Disk, b: Body)
    requires cfg.hasBackup && Synced(cfg, d, b) && Known(b) && NoneSuccessful(b) && Budget(b) > 1
    ensures exists first, second: Cut ::
      var d1 := Interrupted(cfg, d, Some(first));
      var d2 := Interrupted(cfg, d1, Some(second));
      && Detected(cfg, d, Select(cfg, d, first.decTries).writes, first.k, first.torn)
      && Detected(cfg, d1, Select(cfg, d1, second.decTries).writes, second.k, second.torn)
      && Survives(cfg, d1, second.decTries) && !Continues(cfg, d1, second.decTries)
      && Loaded(cfg, d1) == Update(b, true) && Loaded(cfg, d2) == b && Budget(Loaded(cfg, d1)) < Budget(b)
  {
    var torn := Spoiled(cfg, b);
    var first, second := Cut(true, 1, d.backup), Cut(true, 0, torn);
    var b1 := Update(b, true);
    SpendOne(b);
    SpendOne(b1);
    CutWrites(cfg, d, Sealed(cfg, b1), true, 1, d.backup);
    var d1 := Interrupted(cfg, d, Some(first));
    assert d1 == Disk(Sealed(cfg, b1), Sealed(cfg, b));
    UpdateKnown(b, true);
    ContinuesIff(cfg, d1, true);
    SurvivesIff(cfg, d1, true);
    CutWrites(cfg, d1, Sealed(cfg, Update(b1, true)), true, 0, torn);
    assert Loaded(cfg, Interrupted(cfg, d1, Some(second))) == b;
  }

  /** The disk after `n` complete decrementing calls. */
  function Calls(cfg: Config, d: Disk, n: nat): Disk
    decreases n
  {
    if n == 0 then d else Calls(cfg, Complete(cfg, d, true), n - 1)
  }

  /**
   If no slot is marked successful, exactly as many decrementing calls return a slot as there are
   tries in the budget; every later call returns -EINVAL.
   */
  lemma {:induction false} BudgetExact(cfg: Config, d: Disk, b: Body, n: nat)
    requires Synced(cfg, d, b) && Known(b) && NoneSuccessful(b)
    ensures var r := Select(cfg, Calls(cfg, d, n), true).result;
      if n < Budget(b) then 0 <= r < Count(b) else r == EINVAL
    decreases n
  {
    SpendOne(b);
    if n > 0 {
      CompleteSyncs(cfg, d, true);
      UpdateKnown(b, true);
      BudgetExact(cfg, Complete(cfg, d, true), Update(b, true), n - 1);
    }
  }

  /** A call that does not decrement changes neither the next choice nor the budget. */
  lemma PeekKeeps(cfg: Config, d: Disk, b: Body)
    requires Synced(cfg, d, b) && Known(b)
    ensures var d' := Complete(cfg, d, false);
      var b' := Update(b, false);
      && Synced(cfg, d', b') && Choice(b') == Choice(b) && Budget(b') == Budget(b)
      && Update(b', true) == Update(b, true)
      && forall decTries :: Select(cfg, d', decTries).result == Select(cfg, d, decTries).result
  {
    CompleteSyncs(cfg, d, false);
    UpdateKnown(b, false);
  }
}
