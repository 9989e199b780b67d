/**
 What a bootflow scan has tried so far, and when the next thing to try keeps the order: bootdevs by
 priority, position, partition and bootmeth; global bootmeths once each; a bootdev that was put
 aside for a global bootmeth right after it.
 */
module BootTrace {

  const BOOTDEVP_COUNT: nat := 8
  const MAX_PART_PER_BOOTDEV: nat := 30

  /** A bootdev: its priority and whether it can be probed. */
  datatype Dev = Dev(prio: nat, ok: bool)

  /** The bootmeths: those from `firstGlob` on are global, and may run once their priority is reached. */
  datatype Meths = Meths(num: nat, haveGlobal: bool, firstGlob: nat, prio: seq<nat>)

  ghost predicate Proper(ms: Meths) {
    ms.num > 0 && |ms.prio| == ms.num && (ms.haveGlobal ==> ms.firstGlob < ms.num)
  }

  predicate IsGlobal(ms: Meths, m: int) {
    ms.haveGlobal && ms.firstGlob <= m < ms.num
  }

  datatype Visit =
    | AtDev(prio: nat, dev: nat, part: nat, meth: nat)
    | AtGlobal(meth: nat, pending: int, prio: nat)   // the bootdev put aside, or -1, and the priority reached

  /** Lexicographic order of (priority, bootdev, partition, bootmeth). */
  ghost predicate Less(a: Visit, b: Visit) {
    a.AtDev? && b.AtDev? &&
    (|| a.prio < b.prio
     || (a.prio == b.prio && a.dev < b.dev)
     || (a.prio == b.prio && a.dev == b.dev && a.part < b.part)
     || (a.prio == b.prio && a.dev == b.dev && a.part == b.part && a.meth < b.meth))
  }

  ghost predicate AllBefore(trace: seq<Visit>, v: Visit) {
    forall i :: 0 <= i < |trace| && trace[i].AtDev? ==> Less(trace[i], v)
  }

  /** No bootdev is tried twice with the same partition and bootmeth, and all in ascending order. */
  ghost predicate Ascending(trace: seq<Visit>) {
    forall i, j :: 0 <= i < j < |trace| && trace[i].AtDev? && trace[j].AtDev? ==> Less(trace[i], trace[j])
  }

  /** No global bootmeth is tried twice. */
  ghost predicate GlobalsOnce(trace: seq<Visit>) {
    forall i, j :: 0 <= i < j < |trace| && trace[i].AtGlobal? && trace[j].AtGlobal? ==> trace[i].meth != trace[j].meth
  }

  /** No bootmeth is left for this partition after `m`. */
  ghost predicate IsLast(ms: Meths, m: nat) {
    m + 1 >= ms.num || (ms.haveGlobal && m + 1 >= ms.firstGlob)
  }

  /** A bootdev is started at partition 0 with the first bootmeth. */
  ghost predicate Starts(v: Visit) {
    v.AtDev? ==> v.part == 0 && v.meth == 0
  }

  /**
   On one bootdev the next visit is the next bootmeth, or after the last one the next partition. A
   bootdev is left after its last bootmeth only. A bootdev put aside is what the next visit keeps
   aside, or it is tried, from its start, at the priority that had been reached. No bootdev is tried
   after the highest priority was reached.
   */
  ghost predicate Follows(ms: Meths, a: Visit, b: Visit) {
    if a.AtDev? && b.AtDev? && a.prio == b.prio && a.dev == b.dev then
      if IsLast(ms, a.meth) then b.part == a.part + 1 && b.meth == 0 else b.part == a.part && b.meth == a.meth + 1
    else
      && Starts(b)
      && (a.AtDev? ==> IsLast(ms, a.meth))
      && (a.AtGlobal? && a.pending >= 0 ==> b.prio == a.prio && if b.AtGlobal? then b.pending == a.pending else b.dev == a.pending)
      && (a.AtGlobal? && a.prio == BOOTDEVP_COUNT ==> b.AtGlobal? && b.prio == BOOTDEVP_COUNT)
  }

  /** Every visit follows from the one before it. */
  ghost predicate NoGaps(ms: Meths, trace: seq<Visit>) {
    && (trace != [] ==> Starts(trace[0]))
    && forall i :: 0 <= i < |trace| - 1 ==> Follows(ms, trace[i], trace[i + 1])
  }

  ghost predicate Continues(ms: Meths, trace: seq<Visit>, v: Visit) {
    if trace == [] then Starts(v) else Follows(ms, trace[|trace| - 1], v)
  }

  /** Global bootmeth `m` has been tried. */
  ghost predicate GlobalDone(trace: seq<Visit>, m: int) {
    exists i :: 0 <= i < |trace| && trace[i].AtGlobal? && trace[i].meth == m
  }

  /** Before a bootdev is tried, every global bootmeth whose priority it has reached is. */
  ghost predicate GlobalsFirst(ms: Meths, trace: seq<Visit>)
    requires Proper(ms)
  {
    forall k, m :: 0 <= k < |trace| && trace[k].AtDev? && IsGlobal(ms, m) && ms.prio[m] <= trace[k].prio ==>
      GlobalDone(trace[..k], m)
  }

  /** A global bootmeth waits for its priority; without a bootdev put aside, nothing or everything has been reached. */
  ghost predicate InTime(ms: Meths, v: Visit) {
    v.AtGlobal? ==>
      v.meth < |ms.prio| && ms.prio[v.meth] <= v.prio && (v.pending < 0 ==> v.prio == 0 || v.prio == BOOTDEVP_COUNT)
  }

  /** Every global bootmeth but the very first visit waits for its priority. */
  ghost predicate GlobalsWait(ms: Meths, trace: seq<Visit>) {
    forall i :: 0 < i < |trace| ==> InTime(ms, trace[i])
  }

  ghost predicate DevTried(trace: seq<Visit>, dev: int) {
    exists i :: 0 <= i < |trace| && trace[i].AtDev? && trace[i].dev == dev && trace[i].part == 0 && trace[i].meth == 0
  }

  ghost predicate Orderly(ms: Meths, trace: seq<Visit>)
    requires Proper(ms)
  {
    Ascending(trace) && GlobalsOnce(trace) && NoGaps(ms, trace) && GlobalsFirst(ms, trace) && GlobalsWait(ms, trace)
  }

  /** The next visit may be a bootdev. */
  ghost predicate MayTryDev(ms: Meths, trace: seq<Visit>, v: Visit)
    requires Proper(ms)
  {
    && v.AtDev? && AllBefore(trace, v) && Continues(ms, trace, v)
    && (forall m :: IsGlobal(ms, m) && ms.prio[m] <= v.prio ==> GlobalDone(trace, m))
  }

  ghost predicate MayTryGlobal(ms: Meths, trace: seq<Visit>, v: Visit) {
    v.AtGlobal? && !GlobalDone(trace, v.meth) && Continues(ms, trace, v) && (trace != [] ==> InTime(ms, v))
  }

  lemma OrderlyNext(ms: Meths, trace: seq<Visit>, v: Visit)
    requires Proper(ms) && Orderly(ms, trace) && (MayTryDev(ms, trace, v) || MayTryGlobal(ms, trace, v))
    ensures Orderly(ms, trace + [v])
  {
    var t := trace + [v];
    assert forall k :: 0 <= k < |trace| ==> t[k] == trace[k];
    assert t[|trace|] == v;
    forall k, m | 0 <= k < |t| && t[k].AtDev? && IsGlobal(ms, m) && ms.prio[m] <= t[k].prio
      ensures GlobalDone(t[..k], m)
    {
      assert t[..k] == trace[..k];
      if k == |trace| { assert trace[..k] == trace; }
    }
  }

  lemma DoneGrows(trace: seq<Visit>, v: Visit, m: int)
    ensures GlobalDone(trace + [v], m) <==> GlobalDone(trace, m) || (v.AtGlobal? && v.meth == m)
  {
    var t := trace + [v];
    assert t[|trace|] == v && forall k :: 0 <= k < |trace| ==> t[k] == trace[k];
    if GlobalDone(trace, m) {
      var i :| 0 <= i < |trace| && trace[i].AtGlobal? && trace[i].meth == m;
      assert t[i].AtGlobal? && t[i].meth == m;
    }
  }

  lemma TriedGrows(trace: seq<Visit>, v: Visit, d: int)
    ensures DevTried(trace + [v], d) <==> DevTried(trace, d) || (v.AtDev? && v.dev == d && v.part == 0 && v.meth == 0)
  {
    var t := trace + [v];
    assert t[|trace|] == v && forall k :: 0 <= k < |trace| ==> t[k] == trace[k];
    if DevTried(trace, d) {
      var i :| 0 <= i < |trace| && trace[i].AtDev? && trace[i].dev == d && trace[i].part == 0 && trace[i].meth == 0;
      assert t[i].AtDev? && t[i].dev == d && t[i].part == 0 && t[i].meth == 0;
    }
  }

  // ----- the iterator between visits -----

  /** The fields of struct bootflow_iter that decide what comes next, with the bootdevs bound so far. */
  datatype Snap = Snap(curMethod: nat, doingGlobal: bool, done: set<nat>, dev: int, part: nat, maxPart: nat,
                       curPrio: nat, pending: int, devs: seq<Dev>, bound: seq<nat>, trace: seq<Visit>, aborted: bool)

  /** `j` is at or before position (prio, dev) of the bootdev order. */
  ghost predicate UpTo(devs: seq<Dev>, j: int, prio: nat, dev: int)
    requires 0 <= j < |devs|
  {
    devs[j].prio < prio || (devs[j].prio == prio && j <= dev)
  }

  /** A bootdev that works and was bound before the scan had passed its priority. */
  ghost predicate Due(devs: seq<Dev>, bound: seq<nat>, j: int)
    requires 0 <= j < |devs| == |bound|
  {
    devs[j].ok && bound[j] <= devs[j].prio
  }

  /** Every bootdev that is due up to (prio, dev) has been tried, but for the one put aside. */
  ghost predicate Covered(s: Snap, prio: nat, dev: int, aside: int)
    requires |s.bound| == |s.devs|
  {
    forall j :: 0 <= j < |s.devs| && Due(s.devs, s.bound, j) && UpTo(s.devs, j, prio, dev) ==> DevTried(s.trace, j) || j == aside
  }

  /** What was tried last is done with. */
  ghost predicate Leaves(ms: Meths, trace: seq<Visit>) {
    if trace == [] then !ms.haveGlobal
    else
      var v := trace[|trace| - 1];
      if v.AtDev? then IsLast(ms, v.meth) else v.pending == -1
  }

  ghost predicate Common(ms: Meths, s: Snap) {
    && Proper(ms) && Orderly(ms, s.trace)
    && |s.bound| == |s.devs| && -1 <= s.dev < |s.devs| && -1 <= s.pending < |s.devs|
    && s.curMethod < ms.num && s.curPrio <= BOOTDEVP_COUNT && s.part <= MAX_PART_PER_BOOTDEV && s.maxPart <= MAX_PART_PER_BOOTDEV
    && (forall m :: IsGlobal(ms, m) ==> (m in s.done <==> GlobalDone(s.trace, m)))
    && (ms.haveGlobal && s.trace != [] ==> GlobalDone(s.trace, ms.firstGlob))
  }

  ghost predicate GoodDev(s: Snap, d: int) {
    0 <= d < |s.devs| && s.devs[d].ok && s.devs[d].prio == s.curPrio < BOOTDEVP_COUNT
  }

  /** No global bootmeth before `m` may run now. */
  ghost predicate PassedOver(ms: Meths, s: Snap, m: int)
    requires Proper(ms)
  {
    forall k :: IsGlobal(ms, k) && k < m && ms.prio[k] <= s.curPrio ==> k in s.done
  }

  /** What is put aside during global bootmeths: a bootdev, nothing at the end, or nothing at the start. */
  ghost predicate Aside(s: Snap)
    requires |s.bound| == |s.devs|
  {
    && s.dev == -1 && s.part == 0 && s.maxPart == 0
    && if s.pending >= 0 then
         && GoodDev(s, s.pending) && AllBefore(s.trace, AtDev(s.curPrio, s.pending, 0, 0))
         && Covered(s, s.curPrio, s.pending, s.pending)
       else if s.curPrio == BOOTDEVP_COUNT then s.aborted || Covered(s, BOOTDEVP_COUNT, -1, -1)
       else s.curPrio == 0 && forall i :: 0 <= i < |s.trace| ==> s.trace[i].AtGlobal?
  }

  ghost predicate OnDev(ms: Meths, s: Snap) {
    && Common(ms, s) && !s.doingGlobal && s.pending == -1 && GoodDev(s, s.dev)
    && s.trace != [] && s.trace[|s.trace| - 1] == AtDev(s.curPrio, s.dev, s.part, s.curMethod)
    && Covered(s, s.curPrio, s.dev, -1)
  }

  ghost predicate OnGlobal(ms: Meths, s: Snap) {
    && Common(ms, s) && s.doingGlobal && IsGlobal(ms, s.curMethod) && Aside(s)
    && s.trace != [] && s.trace[|s.trace| - 1] == AtGlobal(s.curMethod, s.pending, s.curPrio)
    && PassedOver(ms, s, s.curMethod + 1)
  }

  ghost predicate ReadyDev(ms: Meths, s: Snap) {
    && Common(ms, s) && !s.doingGlobal && s.pending == -1 && GoodDev(s, s.dev)
    && MayTryDev(ms, s.trace, AtDev(s.curPrio, s.dev, s.part, s.curMethod))
    && Covered(s, s.curPrio, s.dev, if s.part == 0 && s.curMethod == 0 then s.dev else -1)
    && (IsGlobal(ms, s.curMethod) ==> s.curMethod in s.done)
    && (s.trace == [] ==> !ms.haveGlobal)
    && (s.part == 0 && s.curMethod == 0 ==> s.maxPart == 0)
  }

  ghost predicate ReadyGlobal(ms: Meths, s: Snap) {
    && Common(ms, s) && s.doingGlobal && IsGlobal(ms, s.curMethod) && Aside(s)
    && MayTryGlobal(ms, s.trace, AtGlobal(s.curMethod, s.pending, s.curPrio))
    && PassedOver(ms, s, s.curMethod)
    && (s.trace == [] ==> s.curMethod == ms.firstGlob)
  }

  function Recorded(s: Snap): Snap {
    var v := if s.doingGlobal then AtGlobal(s.curMethod, s.pending, s.curPrio)
             else AtDev(s.curPrio, if s.dev >= 0 then s.dev else 0, s.part, s.curMethod);
    s.(done := s.done + {s.curMethod}, trace := s.trace + [v])
  }

  lemma RecordDev(ms: Meths, s: Snap)
    requires ReadyDev(ms, s)
    ensures OnDev(ms, Recorded(s))
  {
    var s' := Recorded(s);
    var v := AtDev(s.curPrio, s.dev, s.part, s.curMethod);
    OrderlyNext(ms, s.trace, v);
    forall m | IsGlobal(ms, m) ensures m in s'.done <==> GlobalDone(s'.trace, m) { DoneGrows(s.trace, v, m); }
    DoneGrows(s.trace, v, ms.firstGlob);
    forall j | 0 <= j < |s.devs| ensures DevTried(s.trace, j) || (j == s.dev && s.part == 0 && s.curMethod == 0) ==> DevTried(s'.trace, j) {
      TriedGrows(s.trace, v, j);
    }
  }

  lemma RecordGlobal(ms: Meths, s: Snap)
    requires ReadyGlobal(ms, s)
    ensures OnGlobal(ms, Recorded(s))
  {
    var s' := Recorded(s);
    var v := AtGlobal(s.curMethod, s.pending, s.curPrio);
    OrderlyNext(ms, s.trace, v);
    forall m | IsGlobal(ms, m) ensures m in s'.done <==> GlobalDone(s'.trace, m) { DoneGrows(s.trace, v, m); }
    DoneGrows(s.trace, v, ms.firstGlob);
    forall j | 0 <= j < |s.devs| ensures DevTried(s.trace, j) ==> DevTried(s'.trace, j) { TriedGrows(s.trace, v, j); }
  }

  ghost predicate On(ms: Meths, s: Snap) {
    if s.doingGlobal then OnGlobal(ms, s) else OnDev(ms, s)
  }

  ghost predicate Ready(ms: Meths, s: Snap) {
    if s.doingGlobal then ReadyGlobal(ms, s) else ReadyDev(ms, s)
  }

  lemma Record(ms: Meths, s: Snap)
    requires Ready(ms, s)
    ensures On(ms, Recorded(s))
  {
    if s.doingGlobal { RecordGlobal(ms, s); } else { RecordDev(ms, s); }
  }

  // ----- what the steps of iter_incr() lead to -----

  /** The next bootmeth or partition of the same bootdev. */
  lemma SameDev(ms: Meths, s: Snap, s': Snap)
    requires OnDev(ms, s) && s' == s.(curMethod := s'.curMethod, part := s'.part)
    requires s'.part <= MAX_PART_PER_BOOTDEV
    requires if IsLast(ms, s.curMethod) then s'.part == s.part + 1 && s'.curMethod == 0
             else s'.part == s.part && s'.curMethod == s.curMethod + 1
    requires IsGlobal(ms, s'.curMethod) ==> s'.curMethod in s.done
    ensures ReadyDev(ms, s')
  {
    var k := |s.trace| - 1;
    forall i | 0 <= i < |s.trace| && s.trace[i].AtDev?
      ensures Less(s.trace[i], AtDev(s'.curPrio, s'.dev, s'.part, s'.curMethod))
    {
      if i < k { assert Less(s.trace[i], s.trace[k]); }
    }
    forall m | IsGlobal(ms, m) && ms.prio[m] <= s.curPrio
      ensures GlobalDone(s.trace, m)
    {
      assert GlobalDone(s.trace[..k], m);
      assert s.trace == s.trace[..k] + [s.trace[k]];
      DoneGrows(s.trace[..k], s.trace[k], m);
    }
  }

  /** The next global bootmeth of the same pass. */
  lemma SamePass(ms: Meths, s: Snap, m: nat)
    requires OnGlobal(ms, s) && s.curMethod < m && IsGlobal(ms, m) && m !in s.done
    requires PassedOver(ms, s, m) && ms.prio[m] <= s.curPrio
    ensures ReadyGlobal(ms, s.(curMethod := m))
  {
  }

  /** A pass is over and a bootdev was put aside. */
  lemma TakePending(ms: Meths, s: Snap)
    requires OnGlobal(ms, s) && s.pending >= 0 && PassedOver(ms, s, ms.num)
    ensures ReadyDev(ms, s.(doingGlobal := false, pending := -1, dev := s.pending, curMethod := 0))
  {
  }

  // ----- the next bootdev -----

  /** Bootdevs may have been bound since, but none that was due before `prio` was passed. */
  ghost predicate Grown(devs: seq<Dev>, bound: seq<nat>, devs': seq<Dev>, bound': seq<nat>, prio: nat) {
    && |devs| == |bound| && |devs'| == |bound'| && devs <= devs' && bound <= bound'
    && forall j :: |devs| <= j < |devs'| ==> bound'[j] > prio
  }

  /** Of the bootdevs after (p0, d0) and up to (p1, d1), only `d1` is due. */
  ghost predicate NoneBetween(devs: seq<Dev>, bound: seq<nat>, p0: nat, d0: int, p1: nat, d1: int)
    requires |devs| == |bound|
  {
    forall j :: 0 <= j < |devs| && Due(devs, bound, j) && !UpTo(devs, j, p0, d0) && UpTo(devs, j, p1, d1) ==> j == d1
  }

  lemma SamePrioClear(devs: seq<Dev>, bound: seq<nat>, p0: nat, d0: int, p: nat, d1: int, d: int)
    requires |devs| == |bound| && NoneBetween(devs, bound, p0, d0, p, d1) && d1 < d < |devs|
    requires 0 <= d1 < |devs| && !UpTo(devs, d1, p0, d0) ==> !Due(devs, bound, d1)
    requires forall j :: d1 < j < d ==> 0 <= j && devs[j].prio != p
    ensures NoneBetween(devs, bound, p0, d0, p, d)
  {
  }

  lemma NextPrioClear(devs: seq<Dev>, bound: seq<nat>, p0: nat, d0: int, p: nat, d1: int)
    requires |devs| == |bound| && NoneBetween(devs, bound, p0, d0, p, d1) && -1 <= d1 < |devs|
    requires 0 <= d1 && !UpTo(devs, d1, p0, d0) ==> !Due(devs, bound, d1)
    requires forall j :: d1 < j < |devs| ==> devs[j].prio != p
    ensures NoneBetween(devs, bound, p0, d0, p + 1, -1)
  {
  }

  lemma Bound(devs: seq<Dev>, bound: seq<nat>, devs': seq<Dev>, bound': seq<nat>, p0: nat, d0: int, p: nat)
    requires |devs| == |bound| && |devs'| == |bound'| && devs <= devs' && bound <= bound'
    requires forall j :: |devs| <= j < |devs'| ==> bound'[j] == p
    requires NoneBetween(devs, bound, p0, d0, p, -1)
    ensures NoneBetween(devs', bound', p0, d0, p, -1)
  {
    forall j | 0 <= j < |devs'| && Due(devs', bound', j) && !UpTo(devs', j, p0, d0)
      ensures !UpTo(devs', j, p, -1)
    {
      if j < |devs| {
        assert Due(devs, bound, j) && !UpTo(devs, j, p0, d0);
      }
    }
  }

  /** The last visit does not rule out a bootdev. */
  ghost predicate MoreDevs(trace: seq<Visit>) {
    trace != [] && trace[|trace| - 1].AtGlobal? ==> trace[|trace| - 1].prio != BOOTDEVP_COUNT
  }

  /** The scan has done everything up to (curPrio, d) and is between visits. */
  ghost predicate Between(ms: Meths, s: Snap, d: int) {
    && Common(ms, s) && !s.doingGlobal && s.pending == -1 && s.part == 0 && s.maxPart == 0
    && s.curPrio < BOOTDEVP_COUNT && Covered(s, s.curPrio, d, -1)
    && (forall i :: 0 <= i < |s.trace| && s.trace[i].AtDev? ==>
          s.trace[i].prio < s.curPrio || (s.trace[i].prio == s.curPrio && s.trace[i].dev <= d))
    && Leaves(ms, s.trace) && MoreDevs(s.trace)
  }

  /** The scan has moved on to bootdev `d` and has not tried it yet. */
  ghost predicate Landed(ms: Meths, s: Snap, d: int) {
    && Common(ms, s) && !s.doingGlobal && s.pending == -1 && s.part == 0 && s.maxPart == 0
    && GoodDev(s, d) && AllBefore(s.trace, AtDev(s.curPrio, d, 0, 0)) && Covered(s, s.curPrio, d, d)
    && Leaves(ms, s.trace) && MoreDevs(s.trace)
  }

  /** No bootdev is left. */
  ghost predicate Exhausted(ms: Meths, s: Snap) {
    && Common(ms, s) && !s.doingGlobal && s.pending == -1 && s.part == 0 && s.maxPart == 0 && s.dev == -1
    && s.curPrio == BOOTDEVP_COUNT && (s.aborted || Covered(s, BOOTDEVP_COUNT, -1, -1))
    && Leaves(ms, s.trace)
  }

  lemma LeaveDev(ms: Meths, s: Snap)
    requires OnDev(ms, s) && IsLast(ms, s.curMethod)
    ensures Between(ms, s.(part := 0, maxPart := 0, curMethod := 0), s.dev)
  {
    var k := |s.trace| - 1;
    forall i | 0 <= i < |s.trace| && s.trace[i].AtDev?
      ensures s.trace[i].prio < s.curPrio || (s.trace[i].prio == s.curPrio && s.trace[i].dev <= s.dev)
    {
      if i < k { assert Less(s.trace[i], s.trace[k]); }
    }
  }

  lemma LeaveFirstPass(ms: Meths, s: Snap)
    requires OnGlobal(ms, s) && s.pending == -1 && s.curPrio != BOOTDEVP_COUNT
    ensures Between(ms, s.(doingGlobal := false, part := 0, maxPart := 0, curMethod := 0), -1)
  {
  }

  lemma Land(ms: Meths, s: Snap, d0: int, s': Snap, d: int)
    requires Between(ms, s, d0)
    requires s' == s.(curPrio := s'.curPrio, devs := s'.devs, bound := s'.bound)
    requires Grown(s.devs, s.bound, s'.devs, s'.bound, s.curPrio)
    requires NoneBetween(s'.devs, s'.bound, s.curPrio, d0, s'.curPrio, d)
    requires GoodDev(s', d) && (s.curPrio < s'.curPrio || (s.curPrio == s'.curPrio && d0 < d))
    ensures Landed(ms, s', d)
  {
    forall j | 0 <= j < |s'.devs| && Due(s'.devs, s'.bound, j) && UpTo(s'.devs, j, s'.curPrio, d)
      ensures DevTried(s.trace, j) || j == d
    {
      if UpTo(s'.devs, j, s.curPrio, d0) {
        assert j < |s.devs| && Due(s.devs, s.bound, j) && UpTo(s.devs, j, s.curPrio, d0);
      }
    }
  }

  lemma Exhaust(ms: Meths, s: Snap, d0: int, s': Snap)
    requires Between(ms, s, d0)
    requires s' == s.(curPrio := BOOTDEVP_COUNT, dev := -1, devs := s'.devs, bound := s'.bound, aborted := s'.aborted)
    requires Grown(s.devs, s.bound, s'.devs, s'.bound, s.curPrio)
    requires s'.aborted || NoneBetween(s'.devs, s'.bound, s.curPrio, d0, BOOTDEVP_COUNT, -1)
    ensures Exhausted(ms, s')
  {
    if !s'.aborted {
      forall j | 0 <= j < |s'.devs| && Due(s'.devs, s'.bound, j) && UpTo(s'.devs, j, BOOTDEVP_COUNT, -1)
        ensures DevTried(s.trace, j)
      {
        if UpTo(s'.devs, j, s.curPrio, d0) {
          assert j < |s.devs| && Due(s.devs, s.bound, j) && UpTo(s.devs, j, s.curPrio, d0);
        }
      }
    }
  }

  lemma LandGlobal(ms: Meths, s: Snap, d: int, m: nat)
    requires Landed(ms, s, d) && IsGlobal(ms, m) && m !in s.done && PassedOver(ms, s, m) && ms.prio[m] <= s.curPrio
    ensures ReadyGlobal(ms, s.(doingGlobal := true, dev := -1, pending := d, curMethod := m))
  {
  }

  lemma LandDev(ms: Meths, s: Snap, d: int)
    requires Landed(ms, s, d) && PassedOver(ms, s, ms.num)
    ensures ReadyDev(ms, s.(dev := d, curMethod := 0))
  {
  }

  lemma LastGlobals(ms: Meths, s: Snap, m: nat)
    requires Exhausted(ms, s) && IsGlobal(ms, m) && m !in s.done && PassedOver(ms, s, m) && ms.prio[m] <= s.curPrio
    ensures ReadyGlobal(ms, s.(doingGlobal := true, dev := -1, curMethod := m))
  {
  }

  // ----- the start of a scan -----

  ghost predicate Blank(s: Snap) {
    && s.done == {} && s.dev == -1 && s.part == 0 && s.maxPart == 0 && s.curPrio == 0 && s.pending == -1
    && s.trace == [] && |s.bound| == |s.devs|
  }

  lemma BeginGlobal(ms: Meths, s: Snap)
    requires Proper(ms) && Blank(s) && ms.haveGlobal && s.doingGlobal && s.curMethod == ms.firstGlob
    ensures Ready(ms, s)
  {
  }

  lemma BeginDev(ms: Meths, s: Snap)
    requires Proper(ms) && Blank(s) && !ms.haveGlobal && !s.doingGlobal && s.curMethod == 0
    ensures Between(ms, s, -1)
  {
  }

  // ----- the end of a scan -----

  /**
   Every bootdev that was due has been tried unless a hunter failed, and so has every global bootmeth. The
   last visit is done with: no bootdev is still put aside, and the last bootdev was left after its last bootmeth.
   */
  ghost predicate Finished(ms: Meths, s: Snap) {
    && Proper(ms) && Orderly(ms, s.trace) && |s.bound| == |s.devs| && Leaves(ms, s.trace)
    && (s.aborted || Covered(s, BOOTDEVP_COUNT, -1, -1))
    && (forall m :: IsGlobal(ms, m) && ms.prio[m] <= BOOTDEVP_COUNT ==> GlobalDone(s.trace, m))
  }

  /** Some visit has this bootdev, partition and bootmeth. */
  ghost predicate Visited(trace: seq<Visit>, prio: nat, dev: nat, part: nat, meth: nat) {
    exists i :: 0 <= i < |trace| && trace[i] == AtDev(prio, dev, part, meth)
  }

  /** On the way to a visit all earlier bootmeths of its partition were tried, and all earlier partitions. */
  lemma {:induction false} TriedBefore(ms: Meths, trace: seq<Visit>, i: nat, part: nat, m: nat)
    requires NoGaps(ms, trace) && i < |trace| && trace[i].AtDev?
    requires var v := trace[i]; (part == v.part && m <= v.meth) || (part < v.part && m == 0)
    ensures Visited(trace, trace[i].prio, trace[i].dev, part, m)
    decreases i
  {
    var v := trace[i];
    if v != AtDev(v.prio, v.dev, part, m) {
      assert v.part > 0 || v.meth > 0;
      assert i > 0 && Follows(ms, trace[i - 1], trace[i]);
      TriedBefore(ms, trace, i - 1, part, m);
    }
  }

  lemma {:induction false} TriedAfter(ms: Meths, trace: seq<Visit>, i: nat, m: nat)
    requires Proper(ms) && NoGaps(ms, trace) && Leaves(ms, trace) && i < |trace| && trace[i].AtDev?
    requires trace[i].meth <= m < ms.num && !IsGlobal(ms, m)
    ensures Visited(trace, trace[i].prio, trace[i].dev, trace[i].part, m)
    decreases |trace| - i
  {
    if trace[i].meth < m {
      assert !IsLast(ms, trace[i].meth);
      assert i + 1 < |trace| && Follows(ms, trace[i], trace[i + 1]);
      TriedAfter(ms, trace, i + 1, m);
    }
  }

  /** A finished scan has tried every bootmeth that is not global on every partition it came to. */
  lemma MethodsTried(ms: Meths, s: Snap, i: nat, m: nat)
    requires Finished(ms, s) && i < |s.trace| && s.trace[i].AtDev? && m < ms.num && !IsGlobal(ms, m)
    ensures Visited(s.trace, s.trace[i].prio, s.trace[i].dev, s.trace[i].part, m)
  {
    if m <= s.trace[i].meth {
      TriedBefore(ms, s.trace, i, s.trace[i].part, m);
    } else {
      TriedAfter(ms, s.trace, i, m);
    }
  }

  /** A finished scan has tried every bootmeth that is not global on every bootdev that was due, unless a hunter failed. */
  lemma DevicesTried(ms: Meths, s: Snap, d: nat, m: nat)
    requires Finished(ms, s) && !s.aborted && m < ms.num && !IsGlobal(ms, m)
    requires d < |s.devs| && s.devs[d].ok && s.bound[d] <= s.devs[d].prio < 8
    ensures exists prio :: Visited(s.trace, prio, d, 0, m)
  {
    assert Due(s.devs, s.bound, d) && UpTo(s.devs, d, BOOTDEVP_COUNT, -1);
    var i :| 0 <= i < |s.trace| && s.trace[i].AtDev? && s.trace[i].dev == d && s.trace[i].part == 0 && s.trace[i].meth == 0;
    MethodsTried(ms, s, i, m);
  }

  lemma FinishNoGlobals(ms: Meths, s: Snap)
    requires Exhausted(ms, s) && PassedOver(ms, s, ms.num)
    ensures Finished(ms, s)
  {
  }

  lemma FinishGlobals(ms: Meths, s: Snap)
    requires OnGlobal(ms, s) && s.pending == -1 && s.curPrio == BOOTDEVP_COUNT && PassedOver(ms, s, ms.num)
    ensures Finished(ms, s)
  {
  }

  // ----- a scan ends -----

  ghost function GlobalsLeft(ms: Meths, s: Snap): nat {
    |set m | 0 <= m < ms.num && IsGlobal(ms, m) && m !in s.done|
  }

  ghost function PriosLeft(s: Snap): nat {
    if s.doingGlobal && s.pending < 0 then BOOTDEVP_COUNT + 2
    else if s.curPrio <= BOOTDEVP_COUNT then BOOTDEVP_COUNT + 1 - s.curPrio else 0
  }

  ghost function DevsLeft(s: Snap): nat {
    var d := if s.doingGlobal then s.pending else s.dev;
    if d <= |s.devs| then |s.devs| - d else 0
  }

  ghost function PartsLeft(s: Snap): nat {
    if s.doingGlobal then MAX_PART_PER_BOOTDEV + 1
    else if s.part <= MAX_PART_PER_BOOTDEV then MAX_PART_PER_BOOTDEV - s.part else 0
  }

  ghost function MethodsLeft(ms: Meths, s: Snap): nat {
    if s.curMethod <= ms.num then ms.num - s.curMethod else 0
  }

  ghost predicate Shrinks(ms: Meths, s: Snap, s': Snap) {
    || GlobalsLeft(ms, s') < GlobalsLeft(ms, s)
    || (GlobalsLeft(ms, s') == GlobalsLeft(ms, s) &&
        (|| PriosLeft(s') < PriosLeft(s)
         || (PriosLeft(s') == PriosLeft(s) &&
             (|| DevsLeft(s') < DevsLeft(s)
              || (DevsLeft(s') == DevsLeft(s) &&
                  (|| PartsLeft(s') < PartsLeft(s)
                   || (PartsLeft(s') == PartsLeft(s) && MethodsLeft(ms, s') < MethodsLeft(ms, s))))))))
  }

  /** `s'` is `s` or has less left. */
  ghost predicate NotAfter(ms: Meths, s: Snap, s': Snap) {
    s' == s || Shrinks(ms, s, s')
  }

  lemma ShrinksOn(ms: Meths, s: Snap, s': Snap, s'': Snap)
    requires NotAfter(ms, s, s') && Shrinks(ms, s', s'')
    ensures Shrinks(ms, s, s'')
  {
  }

  /** The next visit is a global bootmeth that was not tried yet. */
  lemma ShrinksGlobal(ms: Meths, s: Snap, s': Snap)
    requires s.done == s'.done && IsGlobal(ms, s'.curMethod) && s'.curMethod !in s.done
    ensures Shrinks(ms, s, Recorded(s'))
  {
    FewerGlobals(ms, s, Recorded(s'));
  }

  /** The position is within the limits. */
  ghost predicate Placed(ms: Meths, s: Snap) {
    && s.curMethod < ms.num && s.curPrio <= BOOTDEVP_COUNT && s.part <= MAX_PART_PER_BOOTDEV
    && -1 <= s.dev < |s.devs| && -1 <= s.pending < |s.devs|
  }

  /** The next visit is a bootdev. */
  lemma ShrinksDev(ms: Meths, s: Snap, s': Snap)
    requires Placed(ms, s) && Ready(ms, s') && !s'.doingGlobal && s.done == s'.done
    requires
      || (s.doingGlobal && s.pending < 0)
      || (s.doingGlobal && s'.dev == s.pending && s'.curPrio == s.curPrio && s'.devs == s.devs)
      || (!s.doingGlobal && s.curPrio < s'.curPrio)
      || (!s.doingGlobal && s.curPrio == s'.curPrio && s'.devs == s.devs &&
          (|| s.dev < s'.dev
           || (s.dev == s'.dev && s.part < s'.part)
           || (s.dev == s'.dev && s.part == s'.part && s.curMethod < s'.curMethod)))
    ensures Shrinks(ms, s, Recorded(s'))
  {
    FewerGlobals(ms, s, Recorded(s'));
  }

  /** `s'` is what the iterator is at when it has moved on from `s`. */
  ghost predicate MovesOn(ms: Meths, s: Snap, s': Snap) {
    Ready(ms, s') && Shrinks(ms, s, Recorded(s'))
  }

  /** `s'` is not at the bootdev of `s` any more. */
  ghost predicate OnLater(s: Snap, s': Snap) {
    s'.doingGlobal || s.curPrio < s'.curPrio || (s.curPrio == s'.curPrio && s.dev < s'.dev)
  }

  /**
   After the last bootmeth of a partition comes the next partition, exactly when the limit allows it and
   no error forbids it. The limit is kept on one bootdev.
   */
  ghost predicate Chosen(ms: Meths, noMoreParts: bool, s: Snap, s': Snap) {
    && (!s.doingGlobal && IsLast(ms, s.curMethod) ==>
          if !noMoreParts && s.part + 1 <= s.maxPart then s' == s.(curMethod := 0, part := s.part + 1) else OnLater(s, s'))
    && (!s'.doingGlobal && !(s'.part == 0 && s'.curMethod == 0) ==> !s.doingGlobal && s'.maxPart == s.maxPart)
  }

  lemma MoveMethod(ms: Meths, s: Snap, s': Snap)
    requires On(ms, s) && s' == s.(curMethod := s'.curMethod) && s.curMethod < s'.curMethod < ms.num
    requires s.doingGlobal ==> s'.curMethod !in s.done && PassedOver(ms, s, s'.curMethod)
    requires s.doingGlobal ==> ms.prio[s'.curMethod] <= s.curPrio
    requires !s.doingGlobal ==>
      !IsLast(ms, s.curMethod) && s'.curMethod == s.curMethod + 1 && !IsGlobal(ms, s'.curMethod)
    ensures MovesOn(ms, s, s')
  {
    if s.doingGlobal {
      SamePass(ms, s, s'.curMethod);
      ShrinksGlobal(ms, s, s');
    } else {
      SameDev(ms, s, s');
      ShrinksDev(ms, s, s');
    }
  }

  lemma MovePart(ms: Meths, s: Snap, s': Snap)
    requires OnDev(ms, s) && IsLast(ms, s.curMethod)
    requires s' == s.(curMethod := 0, part := s.part + 1) && s'.part <= s.maxPart
    ensures MovesOn(ms, s, s')
  {
    SameDev(ms, s, s');
    ShrinksDev(ms, s, s');
  }

  lemma MovePending(ms: Meths, s: Snap, s': Snap)
    requires OnGlobal(ms, s) && s.pending >= 0 && PassedOver(ms, s, ms.num)
    requires s' == s.(doingGlobal := false, pending := -1, dev := s.pending, curMethod := 0)
    ensures MovesOn(ms, s, s')
  {
    TakePending(ms, s);
    ShrinksDev(ms, s, s');
  }

  /** The iterator has left `s`; a next bootdev or a global bootmeth is found after it. */
  lemma MoveDev(ms: Meths, s: Snap, s': Snap)
    requires Placed(ms, s) && (s.doingGlobal ==> s.pending == -1) && Ready(ms, s') && s'.done == s.done
    requires s'.doingGlobal ==> s'.curMethod !in s.done
    requires !s'.doingGlobal && !s.doingGlobal ==>
      s.curPrio < s'.curPrio || (s.curPrio == s'.curPrio && s'.devs == s.devs && s.dev < s'.dev)
    ensures MovesOn(ms, s, s')
  {
    if s'.doingGlobal { ShrinksGlobal(ms, s, s'); } else { ShrinksDev(ms, s, s'); }
  }

  /** A new partition limit changes nothing. */
  lemma ShrinksLimit(ms: Meths, s: Snap, s': Snap, maxPart: nat)
    requires Shrinks(ms, s, s')
    ensures Shrinks(ms, s, s'.(maxPart := maxPart))
  {
    assert s'.(maxPart := maxPart).done == s'.done;
  }

  lemma FewerGlobals(ms: Meths, s: Snap, s': Snap)
    requires s.done <= s'.done
    ensures GlobalsLeft(ms, s') <= GlobalsLeft(ms, s)
    ensures forall m :: IsGlobal(ms, m) && 0 <= m && m !in s.done && m in s'.done ==>
      GlobalsLeft(ms, s') < GlobalsLeft(ms, s)
  {
    var a := set m | 0 <= m < ms.num && IsGlobal(ms, m) && m !in s.done;
    var b := set m | 0 <= m < ms.num && IsGlobal(ms, m) && m !in s'.done;
    SubsetSize(b, a);
    forall m | IsGlobal(ms, m) && 0 <= m && m !in s.done && m in s'.done
      ensures |b| < |a|
    {
      SubsetSize(b, a - {m});
    }
  }

  lemma {:induction false} SubsetSize<T>(b: set<T>, a: set<T>)
    requires b <= a
    ensures |b| <= |a|
    decreases b
  {
    if |b| > 0 {
      var x :| x in b;
      SubsetSize(b - {x}, a - {x});
    }
  }
}
