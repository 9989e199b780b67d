/**
 The bootflow iterator (bootflow.c, bootdev-uclass.c): bootflow_scan_first() and
 bootflow_scan_next() try every bootmeth on every partition of every bootdev, with global bootmeths
 in between.
 */
module BootScan {
  import opened BootTrace

  const ENOENT := -2
  const ENODEV := -19
  const ENOSYS := -38
  const ESHUTDOWN := -108
  const BF_NO_MORE_PARTS := ESHUTDOWN
  const BF_NO_MORE_DEVICES := ENODEV

  const BOOTDEVP_1_PRE_SCAN: nat := 1

  const MAX_BOOTFLOWS: nat := 1000

  /** A hunter, the bootdevs it binds and what it returns. */
  datatype Hunter = Hunter(prio: nat, finds: seq<Dev>, result: int)

  /** What a partition check learns about the number of partitions. */
  datatype Limit = Keep | PartOneMissing | Many

  /** What trying a bootmeth returns. */
  datatype Answer = Answer(ret: int, limit: Limit)

  /** The partition limit after a check of partition `part`. */
  function PartLimit(limit: Limit, part: nat, maxPart: nat): nat {
    match limit
    case Keep => maxPart
    case PartOneMissing => if part == 1 then 3 else maxPart
    case Many => MAX_PART_PER_BOOTDEV
  }

  /** Running the hunter fails. */
  predicate Fails(h: Hunter) {
    h.result != 0 && h.result != ENOENT
  }

  /** The error of the last of the first `n` hunters that is due at the priority and fails, or 0. */
  function HuntError(hunters: seq<Hunter>, used: set<nat>, prio: nat, n: nat): int
    requires n <= |hunters|
  {
    if n == 0 then 0
    else if hunters[n - 1].prio == prio && n - 1 !in used && Fails(hunters[n - 1]) then hunters[n - 1].result
    else HuntError(hunters, used, prio, n - 1)
  }

  /** What the first `n` hunters bind at the priority. */
  function HuntFinds(hunters: seq<Hunter>, used: set<nat>, prio: nat, n: nat): seq<Dev>
    requires n <= |hunters|
  {
    if n == 0 then []
    else
      HuntFinds(hunters, used, prio, n - 1) +
      if hunters[n - 1].prio == prio && n - 1 !in used then hunters[n - 1].finds else []
  }

  predicate AnyFails(hunters: seq<Hunter>) {
    hunters != [] && (Fails(hunters[0]) || AnyFails(hunters[1..]))
  }

  lemma {:induction false} SomeFails(hunters: seq<Hunter>, i: nat)
    requires i < |hunters| && Fails(hunters[i])
    ensures AnyFails(hunters)
  {
    if i > 0 { SomeFails(hunters[1..], i - 1); }
  }

  /** A hunter of the priority fails with this error. */
  ghost predicate HunterFails(hunters: seq<Hunter>, prio: nat, ret: int) {
    exists i :: 0 <= i < |hunters| && hunters[i].prio == prio && Fails(hunters[i]) && hunters[i].result == ret
  }

  lemma {:induction false} HuntErrorFails(hunters: seq<Hunter>, used: set<nat>, prio: nat, n: nat)
    requires n <= |hunters| && HuntError(hunters, used, prio, n) != 0
    ensures HunterFails(hunters, prio, HuntError(hunters, used, prio, n)) && AnyFails(hunters)
  {
    if hunters[n - 1].prio == prio && n - 1 !in used && Fails(hunters[n - 1]) {
      SomeFails(hunters, n - 1);
    } else {
      HuntErrorFails(hunters, used, prio, n - 1);
    }
  }

  /** The hunters of a priority have been run. */
  ghost predicate Hunted(hunters: seq<Hunter>, used: set<nat>, prio: nat) {
    forall i :: 0 <= i < |hunters| && hunters[i].prio == prio ==> i in used
  }

  /** The hunters of the priorities after `p0` and up to `p1` have been run. */
  ghost predicate HuntedUpTo(hunters: seq<Hunter>, used: set<nat>, p0: nat, p1: nat) {
    forall p :: p0 < p <= p1 ==> Hunted(hunters, used, p)
  }

  lemma HuntedNext(hunters: seq<Hunter>, used: set<nat>, used': set<nat>, p0: nat, p1: nat)
    requires HuntedUpTo(hunters, used, p0, p1) && used <= used' && Hunted(hunters, used', p1 + 1)
    ensures HuntedUpTo(hunters, used', p0, p1 + 1)
  {
    forall p | p0 < p <= p1 + 1 ensures Hunted(hunters, used', p) {
      assert p <= p1 ==> Hunted(hunters, used, p);
    }
  }

  class Iter {
    const ms: Meths
    const hunters: seq<Hunter>
    const hunt: bool   // BOOTFLOWIF_HUNT
    const all: bool    // BOOTFLOWIF_ALL
    const answer: seq<Visit> -> Answer

    var curMethod: nat
    var doingGlobal: bool
    var methodsDone: set<nat>
    var dev: int       // position in the bootdev uclass, -1 for NULL
    var part: nat
    var maxPart: nat
    var curPrio: nat
    var pending: int   // pending_bootdev, -1 for NULL
    var err: int
    var huntersUsed: set<nat>
    var devs: seq<Dev> // the bootdev uclass
    var trace: seq<Visit>

    ghost var bound: seq<nat>   // the priority that was reached when each bootdev was bound
    ghost var aborted: bool     // a hunter failed

    constructor (ms: Meths, hunters: seq<Hunter>, hunt: bool, all: bool, answer: seq<Visit> -> Answer, devs: seq<Dev>)
      ensures this.ms == ms && this.hunters == hunters && this.hunt == hunt && this.all == all && this.answer == answer
      ensures this.devs == devs && huntersUsed == {}
    {
      this.ms, this.hunters, this.hunt, this.all, this.answer, this.devs := ms, hunters, hunt, all, answer, devs;
      huntersUsed := {};
    }

    ghost function Now(): Snap
      reads this`curMethod, this`doingGlobal, this`methodsDone, this`dev, this`part, this`maxPart, this`curPrio,
            this`pending, this`devs, this`bound, this`trace, this`aborted
    {
      Snap(curMethod, doingGlobal, methodsDone, dev, part, maxPart, curPrio, pending, devs, bound, trace, aborted)
    }

    /** Hunting is on and some hunter fails. */
    ghost predicate CanFail() {
      hunt && AnyFails(hunters)
    }

    // ----- bootdev-uclass.c -----

    /** bootdev_hunt_drv() */
    method HuntDrv(i: nat) returns (ret: int)
      requires i < |hunters| && |devs| == |bound|
      modifies this`devs, this`bound, this`huntersUsed
      ensures old(bound) <= bound && |devs| == |bound|
      ensures forall j :: |old(devs)| <= j < |devs| ==> bound[j] == curPrio
      ensures devs == old(devs) + if i in old(huntersUsed) then [] else hunters[i].finds
      ensures ret == if i in old(huntersUsed) || hunters[i].result == ENOENT then 0 else hunters[i].result
      ensures huntersUsed == old(huntersUsed) + if ret == 0 then {i} else {}
    {
      if i !in huntersUsed {
        devs := devs + hunters[i].finds;
        ghost var prio := curPrio;
        bound := bound + seq(|hunters[i].finds|, k => prio);
        if hunters[i].result != 0 && hunters[i].result != ENOENT {
          return hunters[i].result;
        }
        huntersUsed := huntersUsed + {i};
      }
      return 0;
    }

    /** bootdev_hunt_prio() */
    method HuntPrio(prio: nat) returns (result: int)
      requires |devs| == |bound|
      modifies this`devs, this`bound, this`huntersUsed
      ensures old(devs) <= devs && old(bound) <= bound && |devs| == |bound|
      ensures forall j :: |old(devs)| <= j < |devs| ==> bound[j] == curPrio
      ensures old(huntersUsed) <= huntersUsed && (result == 0 ==> Hunted(hunters, huntersUsed, prio))
      ensures result == HuntError(hunters, old(huntersUsed), prio, |hunters|)
      ensures devs == old(devs) + HuntFinds(hunters, old(huntersUsed), prio, |hunters|)
      ensures forall k: nat :: k in huntersUsed <==>
        k in old(huntersUsed) || (k < |hunters| && hunters[k].prio == prio && !Fails(hunters[k]))
    {
      result := 0;
      for i := 0 to |hunters|
        invariant old(devs) <= devs && old(bound) <= bound && |devs| == |bound|
        invariant forall j :: |old(devs)| <= j < |devs| ==> bound[j] == curPrio
        invariant result == HuntError(hunters, old(huntersUsed), prio, i)
        invariant devs == old(devs) + HuntFinds(hunters, old(huntersUsed), prio, i)
        invariant forall k: nat :: k in huntersUsed <==>
          k in old(huntersUsed) || (k < i && hunters[k].prio == prio && !Fails(hunters[k]))
        invariant result == 0 ==> forall k :: 0 <= k < i && hunters[k].prio == prio ==> k in huntersUsed
      {
        if hunters[i].prio != prio {
          continue;
        }
        var ret := HuntDrv(i);
        if ret != 0 && ret != ENOENT {
          result := ret;
        }
      }
    }

    /** The next bootdev after `d` that has the current priority, or -1. */
    method NextAtPrio(d: int) returns (d': int)
      requires -1 <= d < |devs|
      ensures d' == -1 || (d < d' < |devs| && devs[d'].prio == curPrio)
      ensures forall j :: d < j < (if d' == -1 then |devs| else d') ==> devs[j].prio != curPrio
    {
      d' := if d + 1 < |devs| then d + 1 else -1;
      while d' != -1 && devs[d'].prio != curPrio
        invariant d' == -1 || d < d' < |devs|
        invariant forall j :: d < j < (if d' == -1 then |devs| else d') ==> devs[j].prio != curPrio
        decreases if d' == -1 then 0 else |devs| - d'
      {
        d' := if d' + 1 < |devs| then d' + 1 else -1;
      }
    }

    /** Move to the next priority and hunt for its bootdevs. */
    method RaisePrio() returns (ret: int)
      requires |devs| == |bound| && curPrio < BOOTDEVP_COUNT
      modifies this`curPrio, this`devs, this`bound, this`huntersUsed, this`aborted
      ensures aborted ==> old(aborted) || CanFail()
      ensures curPrio == old(curPrio) + 1 && old(devs) <= devs && old(bound) <= bound && |devs| == |bound|
      ensures forall j :: |old(devs)| <= j < |devs| ==> bound[j] == curPrio
      ensures old(huntersUsed) <= huntersUsed
      ensures ret == 0 ==> curPrio < BOOTDEVP_COUNT && aborted == old(aborted) && (hunt ==> Hunted(hunters, huntersUsed, curPrio))
      ensures ret != 0 ==>
        if curPrio < BOOTDEVP_COUNT then aborted && HunterFails(hunters, curPrio, ret)
        else ret == ENODEV && devs == old(devs) && bound == old(bound)
    {
      curPrio := curPrio + 1;
      if curPrio == BOOTDEVP_COUNT {
        return ENODEV;
      }
      ret := 0;
      if hunt {
        ret := HuntPrio(curPrio);
        if ret != 0 {
          HuntErrorFails(hunters, old(huntersUsed), curPrio, |hunters|);
          aborted := true;
        }
      }
    }

    /** bootdev_next_prio() */
    method NextPrio(d0: int) returns (ret: int, d: int)
      requires |devs| == |bound| && -1 <= d0 < |devs| && curPrio < BOOTDEVP_COUNT
      requires d0 >= 0 ==> devs[d0].prio == curPrio
      modifies this`curPrio, this`devs, this`bound, this`huntersUsed, this`aborted
      ensures aborted ==> old(aborted) || CanFail()
      ensures Grown(old(devs), old(bound), devs, bound, old(curPrio)) && old(curPrio) <= curPrio <= BOOTDEVP_COUNT
      ensures curPrio == old(curPrio) ==> devs == old(devs)
      ensures ret == 0 ==>
        && GoodDev(Now(), d) && (old(curPrio) < curPrio || d0 < d) && aborted == old(aborted)
        && NoneBetween(devs, bound, old(curPrio), d0, curPrio, d)
      ensures ret != 0 ==>
        if curPrio < BOOTDEVP_COUNT then aborted && HunterFails(hunters, curPrio, ret)
        else ret == ENODEV && NoneBetween(devs, bound, old(curPrio), d0, BOOTDEVP_COUNT, -1)
      ensures ret == 0 && hunt ==> HuntedUpTo(hunters, huntersUsed, old(curPrio), curPrio)
      ensures old(huntersUsed) <= huntersUsed
    {
      ret, d := 0, d0;
      var found := false;
      while !found
        invariant old(curPrio) <= curPrio < BOOTDEVP_COUNT && -1 <= d < |devs|
        invariant Grown(old(devs), old(bound), devs, bound, old(curPrio))
        invariant curPrio == old(curPrio) ==> devs == old(devs) && d0 <= d
        invariant found ==> GoodDev(Now(), d) && (old(curPrio) < curPrio || d0 < d)
        invariant NoneBetween(devs, bound, old(curPrio), d0, curPrio, d)
        invariant !found && d >= 0 && !UpTo(devs, d, old(curPrio), d0) ==> !Due(devs, bound, d)
        invariant ret == 0 && aborted == old(aborted) && old(huntersUsed) <= huntersUsed
        invariant hunt ==> HuntedUpTo(hunters, huntersUsed, old(curPrio), curPrio)
        decreases !found, BOOTDEVP_COUNT - curPrio, |devs| - d
      {
        ghost var d1 := d;
        d := NextAtPrio(d);
        if d == -1 {
          NextPrioClear(devs, bound, old(curPrio), d0, curPrio, d1);
          ghost var devs1, bound1, used1, prio1 := devs, bound, huntersUsed, curPrio;
          ret := RaisePrio();
          if ret != 0 {
            return;
          }
          Bound(devs1, bound1, devs, bound, old(curPrio), d0, curPrio);
          if hunt { HuntedNext(hunters, used1, huntersUsed, old(curPrio), prio1); }
        } else {
          SamePrioClear(devs, bound, old(curPrio), d0, curPrio, d1, d);
          if devs[d].ok {
            found := true;
          }
        }
      }
    }

    /** bootdev_setup_iter() without a label, and without an order of bootdevs */
    method SetupIter() returns (ret: int, d: int)
      requires Between(ms, Now(), -1) && dev == -1 && curPrio == 0
      modifies this`curPrio, this`devs, this`bound, this`huntersUsed, this`aborted
      ensures aborted ==> old(aborted) || CanFail()
      ensures curPrio <= BOOTDEVP_COUNT
      ensures ret == 0 ==> Landed(ms, Now(), d)
      ensures ret == 0 && hunt ==>
        HuntedUpTo(hunters, huntersUsed, 0, curPrio) && Hunted(hunters, huntersUsed, BOOTDEVP_1_PRE_SCAN)
      ensures ret != 0 ==> Exhausted(ms, Now().(curPrio := BOOTDEVP_COUNT))
    {
      if hunt {
        ret := HuntPrio(BOOTDEVP_1_PRE_SCAN);
        if ret != 0 {
          HuntErrorFails(hunters, old(huntersUsed), BOOTDEVP_1_PRE_SCAN, |hunters|);
          aborted, d := true, -1;
          return;
        }
      }
      ghost var s := Now();
      assert Between(ms, s, -1);
      ret, d := NextPrio(-1);
      if ret != 0 {
        Exhaust(ms, s, -1, Now().(curPrio := BOOTDEVP_COUNT));
        return ENOENT, -1;
      }
      Land(ms, s, -1, Now(), d);
    }

    // ----- bootflow.c -----

    /** bootmeth_glob_allowed() */
    predicate GlobAllowed(m: nat)
      requires Proper(ms) && m < ms.num
      reads this
    {
      !(m in methodsDone || ms.prio[m] > curPrio)
    }

    /** next_glob_bootmeth() */
    method NextGlob() returns (ret: int)
      requires Proper(ms)
      modifies this`curMethod, this`doingGlobal, this`dev
      ensures ret == 0 ==>
        && doingGlobal && dev == -1 && IsGlobal(ms, curMethod) && curMethod !in methodsDone
        && PassedOver(ms, Now(), curMethod) && ms.prio[curMethod] <= curPrio
      ensures ret != 0 ==> ret == ENOENT && Now() == old(Now()) && PassedOver(ms, Now(), ms.num)
    {
      if ms.haveGlobal {
        for i := ms.firstGlob to ms.num
          invariant Now() == old(Now()) && PassedOver(ms, Now(), i)
        {
          if GlobAllowed(i) {
            curMethod, doingGlobal, dev := i, true, -1;
            return 0;
          }
        }
      }
      return ENOENT;
    }

    /** prepare_bootdev(). The bootdev was probed before, so probing it again succeeds. */
    method PrepareBootdev(d: nat, checkGlobal: bool)
      requires Proper(ms)
      modifies this`curMethod, this`doingGlobal, this`dev, this`pending
      ensures
        || (Now() == old(Now()).(dev := d) && (checkGlobal ==> PassedOver(ms, old(Now()), ms.num)))
        || (checkGlobal && Now() == old(Now()).(doingGlobal := true, dev := -1, pending := d, curMethod := curMethod) &&
            IsGlobal(ms, curMethod) && curMethod !in methodsDone && PassedOver(ms, old(Now()), curMethod) &&
            ms.prio[curMethod] <= curPrio)
    {
      if checkGlobal {
        var ret := NextGlob();
        if ret == 0 {
          pending := d;
          return;
        }
      }
      dev := d;
    }

    /** The loop of iter_incr(): the next bootmeth, if one is left. */
    method NextMethod() returns (found: bool)
      requires On(ms, Now())
      modifies this`curMethod
      ensures found ==> old(curMethod) < curMethod < ms.num
      ensures doingGlobal && found ==>
        curMethod !in methodsDone && PassedOver(ms, old(Now()), curMethod) && ms.prio[curMethod] <= curPrio
      ensures doingGlobal && !found ==> PassedOver(ms, old(Now()), ms.num)
      ensures !doingGlobal ==> found == !IsLast(ms, old(curMethod))
      ensures !doingGlobal && found ==> curMethod == old(curMethod) + 1 && !IsGlobal(ms, curMethod)
    {
      curMethod := curMethod + 1;
      while curMethod < ms.num
        invariant old(curMethod) < curMethod <= ms.num
        invariant doingGlobal ==> PassedOver(ms, old(Now()), curMethod)
        invariant !doingGlobal ==> curMethod == old(curMethod) + 1
      {
        if doingGlobal {
          if GlobAllowed(curMethod) {
            return true;
          }
          curMethod := curMethod + 1;
        } else {
          return !(ms.haveGlobal && curMethod >= ms.firstGlob);
        }
      }
      return false;
    }

    /** Prepare a bootdev that was selected. */
    method UseBootdev(d: nat, ghost s0: Snap)
      requires Landed(ms, Now(), d) && curMethod == 0
      requires Placed(ms, s0) && (s0.doingGlobal ==> s0.pending == -1) && s0.done == methodsDone
      requires !s0.doingGlobal ==> s0.curPrio < curPrio || (s0.curPrio == curPrio && s0.devs == devs && s0.dev < d)
      modifies this`curMethod, this`doingGlobal, this`dev, this`pending
      ensures MovesOn(ms, s0, Now()) && (doingGlobal || (dev == d && curMethod == 0))
    {
      ghost var s := Now();
      PrepareBootdev(d, true);
      if doingGlobal { LandGlobal(ms, s, d, curMethod); } else { LandDev(ms, s, d); }
      MoveDev(ms, s0, Now());
    }

    /** No bootdev was selected: global bootmeths with any priority are allowed. */
    method UseGlobals(ghost s0: Snap) returns (ret: int)
      requires Exhausted(ms, Now().(curPrio := BOOTDEVP_COUNT, dev := -1))
      requires Placed(ms, s0) && (s0.doingGlobal ==> s0.pending == -1) && s0.done == methodsDone
      modifies this`curMethod, this`doingGlobal, this`dev, this`curPrio
      ensures ret == 0 ==> MovesOn(ms, s0, Now()) && doingGlobal
      ensures ret != 0 ==> ret == BF_NO_MORE_DEVICES && Finished(ms, Now())
    {
      dev, curPrio := -1, BOOTDEVP_COUNT;
      ghost var s := Now();
      ret := NextGlob();
      if ret == 0 {
        LastGlobals(ms, s, curMethod);
        MoveDev(ms, s0, Now());
      } else {
        FinishNoGlobals(ms, s);
        ret := BF_NO_MORE_DEVICES;
      }
    }

    /** The next bootdev of the priority order. */
    method FindBootdev(incDev: bool) returns (ret: int, d: int)
      requires Between(ms, Now(), dev) && (if incDev then GoodDev(Now(), dev) else dev == -1 && curPrio == 0)
      modifies this`curPrio, this`devs, this`bound, this`huntersUsed, this`aborted
      ensures aborted ==> old(aborted) || CanFail()
      ensures ret == 0 ==> Landed(ms, Now(), d)
      ensures ret == 0 && incDev ==>
        old(curPrio) < curPrio || (old(curPrio) == curPrio && devs == old(devs) && dev < d)
      ensures ret != 0 ==> Exhausted(ms, Now().(curPrio := BOOTDEVP_COUNT, dev := -1))
    {
      ghost var s := Now();
      if !incDev {
        ret, d := SetupIter();
      } else {
        ret, d := NextPrio(dev);
        if ret == 0 {
          Land(ms, s, s.dev, Now(), d);
        } else {
          Exhaust(ms, s, s.dev, Now().(curPrio := BOOTDEVP_COUNT, dev := -1));
        }
      }
    }

    /** The end of iter_incr(): select the next bootdev, or else the global bootmeths that are left. */
    method NextBootdev(incDev: bool, ghost s: Snap) returns (ret: int)
      requires Between(ms, Now(), dev) && (if incDev then GoodDev(Now(), dev) else dev == -1 && curPrio == 0)
      requires Placed(ms, s) && s.doingGlobal == !incDev && (s.doingGlobal ==> s.pending == -1)
      requires curMethod == 0 && s.done == methodsDone && s.dev == dev && s.curPrio == curPrio && s.devs == devs
      modifies this`curMethod, this`doingGlobal, this`dev, this`pending, this`curPrio, this`devs, this`bound,
               this`huntersUsed, this`aborted
      ensures aborted ==> old(aborted) || CanFail()
      ensures ret == 0 ==> MovesOn(ms, s, Now()) && (doingGlobal || curMethod == 0) && (!s.doingGlobal ==> OnLater(s, Now()))
      ensures ret != 0 ==> ret == BF_NO_MORE_DEVICES && Finished(ms, Now())
    {
      var d;
      ret, d := FindBootdev(incDev);
      if ret == 0 {
        UseBootdev(d, s);
      } else {
        ret := UseGlobals(s);
      }
    }

    /** No partition is left: start at the first one of the next bootdev. */
    method LeaveBootdev(incDev: bool, ghost s: Snap) returns (ret: int)
      requires On(ms, s) && s.doingGlobal == !incDev
      requires if s.doingGlobal then s.pending == -1 && s.curPrio != BOOTDEVP_COUNT else IsLast(ms, s.curMethod)
      requires Now() == s.(curMethod := 0, doingGlobal := false, part := part)
      modifies this`curMethod, this`doingGlobal, this`dev, this`pending, this`curPrio, this`devs, this`bound,
               this`huntersUsed, this`aborted, this`part, this`maxPart
      ensures aborted ==> old(aborted) || CanFail()
      ensures ret == 0 ==> MovesOn(ms, s, Now()) && (doingGlobal || (part == 0 && curMethod == 0))
      ensures ret == 0 && !s.doingGlobal ==> OnLater(s, Now())
      ensures ret != 0 ==> ret == BF_NO_MORE_DEVICES && Finished(ms, Now())
    {
      part, maxPart := 0, 0;
      if s.doingGlobal { LeaveFirstPass(ms, s); } else { LeaveDev(ms, s); }
      ret := NextBootdev(incDev, s);
    }

    /** The bootdev has a further partition to try. */
    ghost predicate MorePartsAt(s: Snap)
      reads this`err
    {
      !s.doingGlobal && err != BF_NO_MORE_PARTS && s.part + 1 <= s.maxPart
    }

    /** The middle of iter_incr(): no bootmeth is left for this partition. */
    method NextPart(incDev: bool, ghost s: Snap) returns (ret: int)
      requires On(ms, s) && s.doingGlobal == !incDev
      requires if s.doingGlobal then s.pending == -1 && s.curPrio != BOOTDEVP_COUNT else IsLast(ms, s.curMethod)
      requires Now() == s.(curMethod := curMethod, doingGlobal := false)
      modifies this`curMethod, this`doingGlobal, this`dev, this`pending, this`curPrio, this`devs, this`bound,
               this`huntersUsed, this`aborted, this`part, this`maxPart
      ensures aborted ==> old(aborted) || CanFail()
      ensures ret == 0 ==> MovesOn(ms, s, Now()) && Chosen(ms, err == BF_NO_MORE_PARTS, s, Now())
      ensures ret != 0 ==> ret == BF_NO_MORE_DEVICES && Finished(ms, Now()) && !MorePartsAt(s)
    {
      curMethod := 0;
      if err != BF_NO_MORE_PARTS {
        part := part + 1;
        if part <= maxPart {
          MovePart(ms, s, Now());
          return 0;
        }
      }
      ret := LeaveBootdev(incDev, s);
    }

    /** iter_incr() after its loop */
    method NextItem(ghost s: Snap) returns (ret: int)
      requires On(ms, s) && Now() == s.(curMethod := curMethod)
      requires if s.doingGlobal then PassedOver(ms, s, ms.num) else IsLast(ms, s.curMethod)
      modifies this`curMethod, this`doingGlobal, this`dev, this`pending, this`curPrio, this`devs, this`bound,
               this`huntersUsed, this`aborted, this`part, this`maxPart
      ensures aborted ==> old(aborted) || CanFail()
      ensures ret == 0 ==> MovesOn(ms, s, Now()) && Chosen(ms, err == BF_NO_MORE_PARTS, s, Now())
      ensures ret != 0 ==> ret == BF_NO_MORE_DEVICES && Finished(ms, Now()) && !MorePartsAt(s)
    {
      var incDev := true;
      if doingGlobal {
        doingGlobal := false;
        if pending >= 0 {
          var d := pending;
          pending := -1;
          PrepareBootdev(d, false);
          curMethod := 0;
          MovePending(ms, s, Now());
          return 0;
        }
        if curPrio == BOOTDEVP_COUNT {
          FinishGlobals(ms, s);
          return BF_NO_MORE_DEVICES;
        }
        // nothing was put aside: the first bootdev is still to come
        incDev := false;
      }
      ret := NextPart(incDev, s);
    }

    /** iter_incr() */
    method IterIncr() returns (ret: int)
      requires On(ms, Now())
      modifies this`curMethod, this`doingGlobal, this`dev, this`pending, this`curPrio, this`devs, this`bound,
               this`huntersUsed, this`aborted, this`part, this`maxPart
      ensures aborted ==> old(aborted) || CanFail()
      ensures ret == 0 ==> MovesOn(ms, old(Now()), Now()) && err != BF_NO_MORE_DEVICES
      ensures ret == 0 ==> Chosen(ms, err == BF_NO_MORE_PARTS, old(Now()), Now())
      ensures ret != 0 ==>
        ret == BF_NO_MORE_DEVICES && (err == BF_NO_MORE_DEVICES || (Finished(ms, Now()) && !MorePartsAt(old(Now()))))
    {
      ghost var s := Now();
      if err == BF_NO_MORE_DEVICES {
        return BF_NO_MORE_DEVICES;
      }
      var found := NextMethod();
      if found {
        MoveMethod(ms, s, Now());
        return 0;
      }
      ret := NextItem(s);
    }

    /** What both scan functions do before a check. The trace is kept for the proof. */
    method Visit()
      requires Ready(ms, Now())
      modifies this`methodsDone, this`trace
      ensures Now() == Recorded(old(Now())) && On(ms, Now())
    {
      Record(ms, Now());
      var v := if doingGlobal then AtGlobal(curMethod, pending, curPrio) else AtDev(curPrio, dev, part, curMethod);
      methodsDone, trace := methodsDone + {curMethod}, trace + [v];
    }

    /** What a check of the last visit of `t` returns; bootdev_find_in_blk() limits the partitions. */
    ghost function Outcome(t: seq<Visit>): int
      requires t != []
    {
      var v := t[|t| - 1];
      if v.AtDev? && v.part >= MAX_PART_PER_BOOTDEV then ESHUTDOWN else answer(t).ret
    }

    /** A check that ends a call: a bootflow, or with BOOTFLOWIF_ALL also most errors. */
    predicate Reported(ret: int) {
      ret == 0 || (all && ret != BF_NO_MORE_PARTS && ret != ENOSYS)
    }

    /** How many of the visits of `t` end a call. */
    ghost function Reports(t: seq<Visit>): nat {
      if t == [] then 0 else Reports(t[..|t| - 1]) + if Reported(Outcome(t)) then 1 else 0
    }

    /** The partition limit of the bootdev after the checks of `t`: 0, and then what each check makes of it. */
    ghost function LimitAfter(t: seq<Visit>): nat {
      if t == [] || t[|t| - 1].AtGlobal? then 0
      else
        var v := t[|t| - 1];
        var before := if v.part == 0 && v.meth == 0 then 0 else LimitAfter(t[..|t| - 1]);
        CheckLimit(t, v.part, before)
    }

    /** The limit after a check of partition `part`, the last visit of `t`. */
    ghost function CheckLimit(t: seq<Visit>, part: nat, before: nat): nat {
      if part >= MAX_PART_PER_BOOTDEV then before else PartLimit(answer(t).limit, part, before)
    }

    /** The error kept after the checks of `t`: the last one, but bootflow_scan_first() keeps none that it returns. */
    ghost function ErrAfter(t: seq<Visit>): int {
      if t == [] then 0
      else if Outcome(t) == 0 || (|t| == 1 && Reported(Outcome(t))) then ErrAfter(t[..|t| - 1])
      else Outcome(t)
    }

    /** The last visit of `t` is at a bootdev that has a further partition to try. */
    ghost predicate MoreParts(t: seq<Visit>) {
      && t != [] && t[|t| - 1].AtDev?
      && ErrAfter(t) != BF_NO_MORE_PARTS && t[|t| - 1].part + 1 <= LimitAfter(t)
    }

    /** After the last bootmeth of a partition, `v` stays at the bootdev exactly when there is a further partition. */
    ghost predicate Stays(t: seq<Visit>, v: Visit) {
      t != [] && t[|t| - 1].AtDev? && IsLast(ms, t[|t| - 1].meth) ==>
        (MoreParts(t) <==> v.AtDev? && v.prio == t[|t| - 1].prio && v.dev == t[|t| - 1].dev)
    }

    /** A bootdev is left exactly when it has no further partition. */
    ghost predicate PartsTaken(t: seq<Visit>) {
      t == [] || (PartsTaken(t[..|t| - 1]) && Stays(t[..|t| - 1], t[|t| - 1]))
    }

    /** This holds at every visit. */
    lemma {:induction false} PartsTakenAt(t: seq<Visit>, i: nat)
      requires PartsTaken(t) && i < |t|
      ensures Stays(t[..i], t[i])
      ensures i > 0 && t[i - 1].AtDev? && IsLast(ms, t[i - 1].meth) ==>
        var v, w := t[i - 1], t[i];
        (w.AtDev? && w.prio == v.prio && w.dev == v.dev <==> ErrAfter(t[..i]) != -108 && v.part < LimitAfter(t[..i]))
      decreases |t|
    {
      var front := t[..|t| - 1];
      if i < |front| {
        PartsTakenAt(front, i);
        assert front[..i] == t[..i];
      }
    }

    lemma PartsNext(s: Snap, s': Snap, err: int)
      requires On(ms, s) && Ready(ms, s') && s'.trace == s.trace
      requires Chosen(ms, err == BF_NO_MORE_PARTS, s, s') && KeptAt(s.trace, err, s.maxPart)
      ensures var t := Recorded(s').trace;
        PartsTaken(t) && LimitAfter(t) == if s'.doingGlobal then s'.maxPart else CheckLimit(t, s'.part, s'.maxPart)
    {
      var t := Recorded(s').trace;
      assert t[..|t| - 1] == s.trace;
    }

    lemma PartsFirst(s': Snap)
      requires Ready(ms, s') && s'.trace == []
      ensures var t := Recorded(s').trace;
        PartsTaken(t) && LimitAfter(t) == if s'.doingGlobal then s'.maxPart else CheckLimit(t, s'.part, s'.maxPart)
    {
      var t := Recorded(s').trace;
      assert t[..|t| - 1] == [];
      assert PartsTaken([]) && Stays([], t[|t| - 1]);
    }

    /** bootflow_check(), with what it does to max_part on a block device */
    method Check() returns (ret: int)
      requires On(ms, Now())
      modifies this`maxPart
      ensures On(ms, Now()) && ret == Outcome(trace)
      ensures maxPart == if doingGlobal then old(maxPart) else CheckLimit(trace, part, old(maxPart))
    {
      var a := answer(trace);
      if doingGlobal {
        return a.ret;
      }
      if part >= MAX_PART_PER_BOOTDEV {
        return ESHUTDOWN;
      }
      if a.limit == Many {
        maxPart := MAX_PART_PER_BOOTDEV;
      } else if a.limit == PartOneMissing && part == 1 {
        maxPart := 3;
      }
      return a.ret;
    }

    /** Visit and check. */
    method Try() returns (ret: int)
      requires Ready(ms, Now())
      modifies this`methodsDone, this`trace, this`maxPart
      ensures On(ms, Now()) && ret == Outcome(trace)
      ensures Now() == Recorded(old(Now())).(maxPart := maxPart)
      ensures maxPart == if doingGlobal then old(maxPart) else CheckLimit(trace, part, old(maxPart))
    {
      Visit();
      ret := Check();
    }

    /** The last check said that there are no more bootdevs. */
    ghost predicate GaveUpAt(t: seq<Visit>) {
      t != [] && Outcome(t) == BF_NO_MORE_DEVICES
    }

    ghost predicate GaveUp()
      reads this`trace
    {
      GaveUpAt(trace)
    }

    /** Limit and error are those of the checks so far, and no partition was left out or added. */
    ghost predicate KeptAt(t: seq<Visit>, err: int, maxPart: nat) {
      && err == ErrAfter(t) && (err == BF_NO_MORE_DEVICES ==> GaveUpAt(t))
      && maxPart == LimitAfter(t) && PartsTaken(t)
    }

    ghost predicate Kept()
      reads this`err, this`maxPart, this`trace
    {
      KeptAt(trace, err, maxPart)
    }

    /** Everything that was due has been tried, and the last bootdev has no further partition. */
    ghost predicate OverAt(s: Snap) {
      Finished(ms, s) && !MoreParts(s.trace)
    }

    /** Between two calls: something was tried last, or the scan is over. */
    ghost predicate StandingAt(s: Snap, moved: bool, ret: int) {
      && Proper(ms) && Orderly(ms, s.trace) && PartsTaken(s.trace)
      && if moved then On(ms, s) && ret == Outcome(s.trace) && s.maxPart == LimitAfter(s.trace)
         else ret == BF_NO_MORE_DEVICES && (GaveUpAt(s.trace) || OverAt(s))
    }

    lemma StandsAfter(s: Snap, s': Snap, ret: int)
      requires Ready(ms, s) && On(ms, s') && s' == Recorded(s).(maxPart := s'.maxPart) && ret == Outcome(s'.trace)
      requires s'.maxPart == LimitAfter(s'.trace) && PartsTaken(s'.trace)
      ensures StandingAt(s', true, ret)
    {
    }

    lemma StandsOver(s: Snap, s': Snap, err: int)
      requires On(ms, s) && KeptAt(s.trace, err, s.maxPart) && s'.trace == s.trace
      requires err == BF_NO_MORE_DEVICES || (Finished(ms, s') && !(!s.doingGlobal && err != BF_NO_MORE_PARTS && s.part + 1 <= s.maxPart))
      ensures StandingAt(s', false, BF_NO_MORE_DEVICES)
    {
    }

    /** The check of what the iterator has moved on to from `s`. */
    method TryNext(ghost s: Snap) returns (ret: int)
      requires On(ms, s) && MovesOn(ms, s, Now()) && s.trace == trace
      requires Chosen(ms, err == BF_NO_MORE_PARTS, s, Now()) && KeptAt(trace, err, s.maxPart)
      modifies this`methodsDone, this`trace, this`maxPart
      ensures StandingAt(Now(), true, ret) && Shrinks(ms, s, Now()) && |trace| > 0 && trace[..|trace| - 1] == old(trace)
    {
      ghost var s' := Now();
      PartsNext(s, s', err);
      ret := Try();
      StandsAfter(s', Now(), ret);
      ShrinksLimit(ms, s, Recorded(s'), maxPart);
    }

    /** iter_incr(), between two checks. */
    method MoveOn() returns (ret: int)
      requires On(ms, Now()) && Kept()
      modifies this
      ensures err == old(err) && trace == old(trace) && (aborted ==> old(aborted) || CanFail())
      ensures if ret == 0 then MovesOn(ms, old(Now()), Now()) && Chosen(ms, err == BF_NO_MORE_PARTS, old(Now()), Now())
              else ret == BF_NO_MORE_DEVICES && StandingAt(Now(), false, ret)
      ensures ret == 0 ==> err != BF_NO_MORE_DEVICES
    {
      ghost var s := Now();
      ret := IterIncr();
      if ret != 0 {
        StandsOver(s, Now(), err);
      }
    }

    /** One turn of the loop of bootflow_scan_next(): move on and check. */
    method Turn() returns (ret: int, moved: bool)
      requires On(ms, Now()) && Kept()
      modifies this
      ensures err == old(err) && (aborted ==> old(aborted) || CanFail())
      ensures StandingAt(Now(), moved, ret) && (moved ==> Shrinks(ms, old(Now()), Now()))
      ensures if moved then |trace| > 0 && trace[..|trace| - 1] == old(trace) else trace == old(trace)
      ensures moved ==> err != BF_NO_MORE_DEVICES && old(trace) != []
    {
      ghost var s := Now();
      ret := MoveOn();
      moved := ret == 0;
      if moved {
        ret := TryNext(s);
      }
    }

    /** A turn, with the error kept; `more` if another turn follows. */
    method TurnKept() returns (ret: int, more: bool, ghost moved: bool)
      requires On(ms, Now()) && Kept()
      modifies this
      ensures StandingAt(Now(), moved, ret) && (moved ==> Shrinks(ms, old(Now()), Now()))
      ensures more == (moved && !Reported(ret)) && (moved ==> Kept())
      ensures Reports(trace) == Reports(old(trace)) + if moved && !more then 1 else 0
      ensures aborted ==> old(aborted) || CanFail()
      ensures !moved ==> trace == old(trace)
    {
      var on;
      ret, on := Turn();
      moved, more := on, false;
      ghost var s := Now();
      if on { Checked(trace, old(trace)); }
      if !on || ret == 0 {
        return;
      }
      err := ret;
      assert Now() == s;
      more := ret == BF_NO_MORE_PARTS || ret == ENOSYS || !all;
    }

    /** bootflow_scan_next() */
    method ScanNext() returns (ret: int, ghost moved: bool)
      requires On(ms, Now()) && Kept()
      modifies this
      ensures StandingAt(Now(), moved, ret) && (moved ==> Reported(ret) && Shrinks(ms, old(Now()), Now()) && Kept())
      ensures ret == 0 || ret == -19 || (all && ret != -108 && ret != -38)
      ensures Reports(trace) == Reports(old(trace)) + if moved then 1 else 0
      ensures aborted ==> old(aborted) || CanFail()
      ensures !moved && all && GaveUp() ==> trace == old(trace)
    {
      ghost var s0, aborted0 := Now(), aborted;
      while true
        invariant On(ms, Now()) && Kept() && NotAfter(ms, s0, Now())
        invariant Reports(trace) == Reports(s0.trace) && (aborted ==> aborted0 || CanFail())
        invariant all && GaveUp() ==> trace == s0.trace
        decreases GlobalsLeft(ms, Now()), PriosLeft(Now()), DevsLeft(Now()), PartsLeft(Now()), MethodsLeft(ms, Now())
      {
        ghost var s := Now();
        var more;
        ret, more, moved := TurnKept();
        if moved { ShrinksOn(ms, s0, s, Now()); }
        if !more {
          return;
        }
      }
    }

    method FirstBootdev() returns (ret: int)
      requires Between(ms, Now(), -1) && dev == -1 && curPrio == 0 && curMethod == 0 && !ms.haveGlobal
      modifies this`curPrio, this`devs, this`bound, this`huntersUsed, this`aborted, this`dev
      ensures aborted ==> old(aborted) || CanFail()
      ensures ret == 0 ==> Ready(ms, Now())
      ensures ret != 0 ==> Finished(ms, Now())
    {
      var d;
      ret, d := SetupIter();
      if ret == 0 {
        ghost var s := Now();
        dev := d;
        LandDev(ms, s, d);
      } else {
        FinishNoGlobals(ms, Now().(curPrio := BOOTDEVP_COUNT));
      }
    }

    method ClearPosition()
      modifies this`curMethod, this`doingGlobal, this`methodsDone, this`dev, this`part, this`maxPart, this`curPrio
      ensures Now() == old(Now()).(curMethod := 0, doingGlobal := false, done := {}, dev := -1, part := 0, maxPart := 0,
                                   curPrio := 0)
    {
      curMethod := 0;
      doingGlobal := false;
      methodsDone := {};
      dev := -1;
      part := 0;
      maxPart := 0;
      curPrio := 0;
    }

    /** bootflow_iter_init() */
    method Clear()
      modifies this
      ensures Now() == Snap(0, false, {}, -1, 0, 0, 0, -1, old(devs), seq(|old(devs)|, k => 0), [], false)
      ensures err == 0 && huntersUsed == old(huntersUsed)
    {
      ClearPosition();
      pending := -1;
      err := 0;
      trace := [];
      aborted := false;
      bound := seq(|devs|, k => 0);
    }

    /** The choice of the first thing to try: the first global bootmeth, or else a bootdev. */
    method Init() returns (ret: int)
      requires Proper(ms)
      modifies this
      ensures err == 0 && trace == [] && (aborted ==> CanFail())
      ensures ret == 0 ==> Ready(ms, Now())
      ensures ret != 0 ==> Finished(ms, Now())
    {
      Clear();
      if ms.haveGlobal {
        curMethod, doingGlobal := ms.firstGlob, true;
        BeginGlobal(ms, Now());
        return 0;
      }
      BeginDev(ms, Now());
      ret := FirstBootdev();
    }

    /** The first check, with its error kept unless it is returned; `more` if the scan goes on. */
    method TryFirst() returns (ret: int, more: bool)
      requires Ready(ms, Now()) && trace == [] && err == 0
      modifies this`methodsDone, this`trace, this`maxPart, this`err
      ensures StandingAt(Now(), true, ret) && Kept() && more == !Reported(ret) && Reports(trace) == if more then 0 else 1
    {
      ghost var s := Now();
      PartsFirst(s);
      ret := Try();
      StandsAfter(s, Now(), ret);
      FirstChecked(trace);
      ghost var s' := Now();
      more := ret != 0 && !(ret != BF_NO_MORE_PARTS && ret != ENOSYS && all);
      if more {
        err := ret;
        assert Now() == s';
      }
    }

    lemma Checked(t: seq<Visit>, front: seq<Visit>)
      requires front != [] && |t| > 0 && t[..|t| - 1] == front
      ensures ErrAfter(t) == if Outcome(t) == 0 then ErrAfter(front) else Outcome(t)
      ensures Reports(t) == Reports(front) + if Reported(Outcome(t)) then 1 else 0
    {
    }

    lemma FirstChecked(t: seq<Visit>)
      requires |t| == 1
      ensures ErrAfter(t) == (if Reported(Outcome(t)) then 0 else Outcome(t)) && Reports(t) == if Reported(Outcome(t)) then 1 else 0
    {
      assert t[..0] == [];
    }

    /** bootflow_scan_first() without a device and a label */
    method ScanFirst() returns (ret: int, ghost moved: bool)
      requires |ms.prio| == ms.num && (ms.haveGlobal ==> ms.firstGlob < ms.num)
      modifies this
      ensures ms.num == 0 ==> ret == ENODEV && !moved && unchanged(this)
      ensures ms.num > 0 ==> StandingAt(Now(), moved, ret) && (moved ==> Reported(ret) && Kept())
      ensures ms.num > 0 ==> Reports(trace) == if moved then 1 else 0
      ensures ms.num > 0 ==> (!moved && all ==> !GaveUp()) && (aborted ==> CanFail())
    {
      if ms.num == 0 {
        return ENODEV, false;
      }
      ret := Init();
      if ret != 0 {
        return ENODEV, false;
      }
      var more;
      ret, more := TryFirst();
      moved := true;
      if more {
        ret, moved := ScanNext();
      }
    }

    /** `count` calls have returned something, not counting a last one that returned -ENODEV. */
    ghost predicate Counted(count: nat)
      reads this
    {
      Reports(trace) == count + if all && GaveUp() then 1 else 0
    }

    /** A scan that is over, after `count` calls that returned something. */
    ghost predicate Whole(count: nat)
      requires Proper(ms)
      reads this
    {
      && Orderly(ms, trace) && PartsTaken(trace) && (GaveUp() || OverAt(Now())) && (aborted ==> CanFail())
      && Counted(count)
    }

    /**
     A whole scan: call until -ENODEV. It ends after finitely many calls, whatever the checks return.
     What was tried is in order and nothing is left out, unless a hunter fails or a check says that
     there are no more bootdevs; and every check that ends a call was given to the caller once.
     */
    method ScanWhole() returns (count: nat)
      requires |ms.prio| == ms.num && (ms.haveGlobal ==> ms.firstGlob < ms.num)
      modifies this
      ensures ms.num == 0 ==> count == 0 && unchanged(this)
      ensures ms.num > 0 ==> Whole(count)
    {
      var ret;
      ghost var moved;
      ret, moved := ScanFirst();
      count := 0;
      if ms.num == 0 {
        return;
      }
      while ret != ENODEV
        invariant StandingAt(Now(), moved, ret) && Reports(trace) == count + if moved then 1 else 0
        invariant (!moved && all ==> !GaveUp()) && (moved ==> Reported(ret) && Kept()) && (aborted ==> CanFail())
        decreases moved, GlobalsLeft(ms, Now()), PriosLeft(Now()), DevsLeft(Now()), PartsLeft(Now()), MethodsLeft(ms, Now())
      {
        ret, moved := ScanNext();
        count := count + 1;
      }
    }

    /**
     The loop of the bootflow scan command: a whole scan, unless it has to stop at the limit. Then the
     calls so far were still in order, and every check that ended a call was taken once.
     */
    method ScanAll() returns (count: nat)
      requires Proper(ms)
      modifies this
      ensures Orderly(ms, trace) && PartsTaken(trace)
      ensures count <= MAX_BOOTFLOWS && count <= Reports(trace) <= count + 1
      ensures count < MAX_BOOTFLOWS ==> Whole(count)
    {
      var ret;
      ghost var moved;
      ret, moved := ScanFirst();
      count := 0;
      while count < MAX_BOOTFLOWS && ret != ENODEV
        invariant count <= MAX_BOOTFLOWS && StandingAt(Now(), moved, ret) && Reports(trace) == count + if moved then 1 else 0
        invariant (!moved && all ==> !GaveUp()) && (moved ==> Reported(ret) && Kept()) && (aborted ==> CanFail())
      {
        ret, moved := ScanNext();
        count := count + 1;
      }
    }
  }
}
