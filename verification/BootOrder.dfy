/**
 The order of the bootmeths (bootmeth-uclass.c): the normal ones by sequence number, then the global
 ones, so that a scan knows where the global ones begin.
 */
module BootOrder {
  import opened Wrappers
  import opened BootTrace

  const EPERM := -1
  const ENOENT := -2
  const ENOSPC := -28

  const BOOTMETH_MAX_COUNT: nat := 32

  /** A bootmeth as a driver declares it, and what probing it returns. */
  datatype Decl = Decl(global: bool, globPrio: nat, probe: int)

  /** uclass_get_device_by_seq(), which probes what it finds */
  function BySeq(decls: seq<Option<Decl>>, i: nat): Option<Decl> {
    if i < |decls| && decls[i].Some? && decls[i].value.probe == 0 then decls[i] else None
  }

  predicate IsKind(d: Option<Decl>, global: bool) {
    d.Some? && d.value.global == global
  }

  /** The sequence numbers below `n` of the normal or of the global bootmeths. */
  function Picked(decls: seq<Option<Decl>>, n: nat, global: bool): seq<nat> {
    if n == 0 then []
    else Picked(decls, n - 1, global) + if IsKind(BySeq(decls, n - 1), global) then [n - 1] else []
  }

  /** `r` holds each bootmeth of the kind below `n` once, in ascending order, and nothing else. */
  ghost predicate Exact(decls: seq<Option<Decl>>, n: nat, global: bool, r: seq<nat>) {
    && (forall i :: 0 <= i < |r| ==> r[i] < n && IsKind(BySeq(decls, r[i]), global))
    && (forall i, j :: 0 <= i < j < |r| ==> r[i] < r[j])
    && (forall k :: 0 <= k < n && IsKind(BySeq(decls, k), global) ==> k in r)
  }

  lemma ExactAppend(decls: seq<Option<Decl>>, n: nat, global: bool, r: seq<nat>)
    requires Exact(decls, n, global, r) && IsKind(BySeq(decls, n), global)
    ensures Exact(decls, n + 1, global, r + [n])
  {
    var r' := r + [n];
    assert forall i :: 0 <= i < |r| ==> r'[i] == r[i];
    assert r'[|r|] == n;
    forall k | 0 <= k < n && IsKind(BySeq(decls, k), global) ensures k in r' {
      var i :| 0 <= i < |r| && r[i] == k;
      assert r'[i] == k;
    }
  }

  /** Each bootmeth of the kind is there once, in ascending order, and nothing else. */
  lemma {:induction false} PickedExact(decls: seq<Option<Decl>>, n: nat, global: bool)
    ensures Exact(decls, n, global, Picked(decls, n, global))
  {
    if n == 0 {
    } else {
      PickedExact(decls, n - 1, global);
      var r := Picked(decls, n - 1, global);
      if IsKind(BySeq(decls, n - 1), global) {
        ExactAppend(decls, n - 1, global, r);
      } else {
        assert Picked(decls, n, global) == r;
      }
    }
  }

  /** How many bootmeths have a sequence number below `n`, also those that cannot be probed. */
  function Total(decls: seq<Option<Decl>>, n: nat): nat {
    if n == 0 then 0
    else Total(decls, n - 1) + if n <= |decls| && decls[n - 1].Some? then 1 else 0
  }

  /** uclass_id_count() */
  function Count(decls: seq<Option<Decl>>): nat {
    Total(decls, |decls|)
  }

  /** The sequence numbers below this one are looked at. */
  function Window(decls: seq<Option<Decl>>): nat {
    20 + Count(decls) * 2
  }

  lemma {:induction false} TotalPicked(decls: seq<Option<Decl>>, n: nat)
    ensures |Picked(decls, n, false)| + |Picked(decls, n, true)| <= Total(decls, n) <= Count(decls)
  {
    if n == 0 {
    } else {
      TotalPicked(decls, n - 1);
      TotalMonotone(decls, n);
    }
  }

  lemma {:induction false} TotalMonotone(decls: seq<Option<Decl>>, n: nat)
    ensures Total(decls, n) <= Count(decls)
    decreases if n <= |decls| then |decls| - n else n
  {
    if n < |decls| {
      TotalMonotone(decls, n + 1);
    } else if n > |decls| {
      TotalMonotone(decls, n - 1);
    }
  }

  lemma {:induction false} PickedPrefix(decls: seq<Option<Decl>>, i: nat, n: nat, global: bool)
    requires i <= n
    ensures Picked(decls, i, global) <= Picked(decls, n, global)
    decreases n - i
  {
    if i < n {
      PickedPrefix(decls, i + 1, n, global);
    }
  }

  method Number(decls: seq<Option<Decl>>) returns (count: nat)
    ensures count == Count(decls)
  {
    count := 0;
    for i := 0 to |decls|
      invariant count == Total(decls, i)
    {
      if decls[i].Some? {
        count := count + 1;
      }
    }
  }

  /** One pass of bootmeth_setup_iter_order(): add the bootmeths of one kind to the order. */
  method Pass(decls: seq<Option<Decl>>, global: bool, order: array<nat>, from: nat) returns (upto: nat)
    requires order.Length == Count(decls) && from + |Picked(decls, Window(decls), global)| <= order.Length
    modifies order
    ensures upto == from + |Picked(decls, Window(decls), global)|
    ensures order[..from] == old(order[..from])
    ensures order[from..upto] == Picked(decls, Window(decls), global)
  {
    var count := order.Length;
    upto := from;
    var i := 0;
    while upto < count && i < 20 + count * 2
      invariant i <= 20 + count * 2 && from <= upto <= count
      invariant forall j :: 0 <= j < from ==> order[j] == old(order[j])
      invariant order[from..upto] == Picked(decls, i, global)
    {
      if IsKind(BySeq(decls, i), global) {
        order[upto] := i;
        upto := upto + 1;
      }
      i := i + 1;
    }
    PickedPrefix(decls, i, Window(decls), global);
  }

  /** The normal bootmeths, then the global ones unless they are skipped. */
  function Order(decls: seq<Option<Decl>>, includeGlobal: bool): seq<nat> {
    Picked(decls, Window(decls), false) + if includeGlobal then Picked(decls, Window(decls), true) else []
  }

  /** What a scan is told about the order. */
  function Describe(decls: seq<Option<Decl>>, order: seq<nat>, firstGlob: nat, includeGlobal: bool): Meths {
    Meths(|order|, includeGlobal && firstGlob != |order|, firstGlob,
          seq(|order|, m requires 0 <= m < |order| =>
            var d := BySeq(decls, order[m]); if d.Some? then d.value.globPrio else 0))
  }

  /** The bootmeths from `firstGlob` on are the global ones, as the scan expects. */
  lemma OrderSplit(decls: seq<Option<Decl>>, includeGlobal: bool)
    requires Order(decls, includeGlobal) != []
    ensures var order := Order(decls, includeGlobal);
      var ms := Describe(decls, order, |Picked(decls, Window(decls), false)|, includeGlobal);
      && Proper(ms)
      && forall m :: 0 <= m < ms.num ==> IsKind(BySeq(decls, order[m]), IsGlobal(ms, m))
  {
    PickedExact(decls, Window(decls), false);
    PickedExact(decls, Window(decls), true);
  }

  /** bootmeth_setup_iter_order() without a configured order */
  method SetupOrder(decls: seq<Option<Decl>>, includeGlobal: bool) returns (ret: int, order: seq<nat>, ms: Meths)
    ensures order == Order(decls, includeGlobal)
    ensures ret == if order == [] then ENOENT else if |order| > BOOTMETH_MAX_COUNT then ENOSPC else 0
    ensures ms == Describe(decls, order, |Picked(decls, Window(decls), false)|, includeGlobal)
  {
    var count := Number(decls);
    TotalPicked(decls, Window(decls));
    var a := new nat[count];
    var upto := Pass(decls, false, a, 0);
    var firstGlob := upto;
    if includeGlobal {
      upto := Pass(decls, true, a, firstGlob);
      assert a[..upto] == a[..firstGlob] + a[firstGlob..upto];
    }
    order := a[..upto];
    ms := Describe(decls, order, firstGlob, includeGlobal);
    if upto == 0 {
      return ENOENT, order, ms;
    }
    if upto > BOOTMETH_MAX_COUNT {
      return ENOSPC, order, ms;
    }
    ret := 0;
  }

  // ----- a configured order -----

  /** The position of the first bootmeth that cannot be probed or is global, or the length. */
  function Stops(chosen: seq<Decl>, i: nat): (k: nat)
    requires i <= |chosen|
    ensures i <= k <= |chosen|
    ensures forall j :: i <= j < k ==> chosen[j].probe == 0 && !chosen[j].global
    ensures k < |chosen| ==> chosen[k].probe != 0 || chosen[k].global
    decreases |chosen| - i
  {
    if i == |chosen| || chosen[i].probe != 0 || chosen[i].global then i else Stops(chosen, i + 1)
  }

  /** What a scan is told about a configured order whose first global bootmeth is at `firstGlob`. */
  function DescribeChosen(chosen: seq<Decl>, firstGlob: nat): Meths {
    Meths(|chosen|, firstGlob != |chosen|, firstGlob,
          seq(|chosen|, m requires 0 <= m < |chosen| => chosen[m].globPrio))
  }

  /** bootmeth_setup_iter_order() with a configured order */
  method ConfiguredOrder(chosen: seq<Decl>, includeGlobal: bool) returns (ret: int, ms: Meths)
    requires chosen != []
    ensures var k := Stops(chosen, 0);
      && ms == DescribeChosen(chosen, k)
      && ret ==
         if !includeGlobal then EPERM
         else if k < |chosen| && chosen[k].probe != 0 then chosen[k].probe
         else if |chosen| > BOOTMETH_MAX_COUNT then ENOSPC else 0
  {
    ms := DescribeChosen(chosen, Stops(chosen, 0));
    if !includeGlobal {
      return EPERM, ms;
    }
    var i := 0;
    while i < |chosen|
      invariant i <= |chosen| && Stops(chosen, 0) == Stops(chosen, i)
    {
      if chosen[i].probe != 0 {
        return chosen[i].probe, ms;
      }
      if chosen[i].global {
        break;
      }
      i := i + 1;
    }
    ms := DescribeChosen(chosen, i);
    if |chosen| > BOOTMETH_MAX_COUNT {
      return ENOSPC, ms;
    }
    ret := 0;
  }

  /**
   The bootmeths that the scan takes for global ones are the global ones exactly when the configured order
   lists none that is not global after one that is.
   */
  lemma ConfiguredSplitIff(chosen: seq<Decl>)
    requires chosen != [] && var k := Stops(chosen, 0); k < |chosen| ==> chosen[k].probe == 0
    ensures var ms := DescribeChosen(chosen, Stops(chosen, 0));
      && Proper(ms)
      && ((forall m :: 0 <= m < ms.num ==> (chosen[m].global <==> IsGlobal(ms, m))) <==>
          (forall i, j :: 0 <= i < j < |chosen| && chosen[i].global ==> chosen[j].global))
  {
    var k := Stops(chosen, 0);
    var ms := DescribeChosen(chosen, k);
    if forall m :: 0 <= m < ms.num ==> (chosen[m].global <==> IsGlobal(ms, m)) {
      forall i, j | 0 <= i < j < |chosen| && chosen[i].global ensures chosen[j].global {
        assert IsGlobal(ms, i) && IsGlobal(ms, j);
      }
    }
  }
}
