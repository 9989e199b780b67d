/** Menu settings in the bits of the RTC's CMOS memory (cedit.c): each menu has a field of bits. */
module Cmos {
  import opened Wrappers

  const ENOENT := -2
  const E2BIG := -7
  const EINVAL := -22

  const MAX_BITS: nat := 2048
  const MAX_BYTES: nat := 256

  /** A menu item. One without a value stands for its position. */
  datatype Item = Item(id: int, value: Option<int>)

  datatype Menu = Menu(items: seq<Item>, start: nat, length: nat, cur: int)

  // ----- bits of a byte -----

  function Mask(b: nat): bv8
    requires b < 8
  {
    match b
    case 0 => 1
    case 1 => 2
    case 2 => 4
    case 3 => 8
    case 4 => 16
    case 5 => 32
    case 6 => 64
    case _ => 128
  }

  predicate IsSet(x: bv8, b: nat)
    requires b < 8
  {
    x & Mask(b) != 0
  }

  lemma SetOne(x: bv8, b: nat, c: nat)
    requires b < 8 && c < 8
    ensures IsSet(x | Mask(b), c) <==> b == c || IsSet(x, c)
  {
  }

  lemma NoneSet(x: bv8, b: nat)
    requires b < 8
    ensures x == 0 ==> !IsSet(x, b)
  {
  }

  predicate Bit(a: seq<bv8>, n: nat)
    requires |a| == MAX_BYTES && n < MAX_BITS
  {
    IsSet(a[n / 8], n % 8)
  }

  lemma MaskIs(x: bv8, b: nat)
    requires b < 8
    ensures IsSet(x, b) <==> (x >> b) & 1 == 1
  {
  }

  /** Bit `n` of the RTC is bit `n % 8`, counted from the lowest, of byte `n / 8`. */
  lemma BitIs(a: seq<bv8>, n: nat)
    requires |a| == MAX_BYTES && n < MAX_BITS
    ensures Bit(a, n) <==> (a[n / 8] >> (n % 8)) & 1 == 1
  {
    MaskIs(a[n / 8], n % 8);
  }

  lemma SetBit(a: seq<bv8>, n: nat, m: nat)
    requires |a| == MAX_BYTES && n < MAX_BITS && m < MAX_BITS
    ensures Bit(a[n / 8 := a[n / 8] | Mask(n % 8)], m) <==> n == m || Bit(a, m)
  {
    if n / 8 == m / 8 {
      SetOne(a[n / 8], n % 8, m % 8);
    }
  }

  /** The bits that are set. */
  ghost function On(a: seq<bv8>): set<int>
    requires |a| == MAX_BYTES
  {
    set n | 0 <= n < MAX_BITS && Bit(a, n)
  }

  lemma OnSet(a: seq<bv8>, n: nat)
    requires |a| == MAX_BYTES && n < MAX_BITS
    ensures On(a[n / 8 := a[n / 8] | Mask(n % 8)]) == On(a) + {n}
  {
    var b := a[n / 8 := a[n / 8] | Mask(n % 8)];
    forall m | 0 <= m < MAX_BITS ensures m in On(b) <==> m in On(a) + {n} {
      SetBit(a, n, m);
    }
  }

  // ----- bits of a number -----

  function Pow2(n: nat): (p: nat)
    ensures p > 0
  {
    if n == 0 then 1 else 2 * Pow2(n - 1)
  }

  /** Bit `i` of a number; a shift to the right halves and rounds down. */
  predicate Nth(v: int, i: nat)
    decreases i
  {
    if i == 0 then v % 2 == 1 else Nth(v / 2, i - 1)
  }

  function Shifted(v: int, i: nat): int {
    if i == 0 then v else Shifted(v, i - 1) / 2
  }

  lemma {:induction false} NthShifted(v: int, i: nat, k: nat)
    ensures Nth(v, i + k) == Nth(Shifted(v, i), k)
  {
    if i == 0 {
    } else {
      NthShifted(v, i - 1, k + 1);
      assert Nth(Shifted(v, i - 1), k + 1) == Nth(Shifted(v, i - 1) / 2, k);
    }
  }

  /** The number that the low `n` bits spell. */
  function Low(v: int, n: nat): nat {
    if n == 0 then 0 else Low(v, n - 1) + if Nth(v, n - 1) then Pow2(n - 1) else 0
  }

  lemma {:induction false} LowHalf(v: int, n: nat)
    requires n > 0
    ensures Low(v, n) == v % 2 + 2 * Low(v / 2, n - 1)
  {
    if n == 1 {
      assert Low(v, 0) == 0 && Low(v / 2, 0) == 0;
    } else {
      LowHalf(v, n - 1);
      assert Nth(v, n - 1) == Nth(v / 2, n - 2);
    }
  }

  lemma {:induction false} LowWhole(v: int, n: nat)
    requires 0 <= v < Pow2(n)
    ensures Low(v, n) == v
  {
    if n == 0 {
    } else {
      LowHalf(v, n);
      LowWhole(v / 2, n - 1);
    }
  }

  // ----- menus -----

  /** What an item stands for. */
  function Value(items: seq<Item>, i: nat): int
    requires i < |items|
  {
    if items[i].value.Some? then items[i].value.value else i
  }

  /** The position of the selected item, or the number of items. */
  function Selected(m: Menu, i: nat): (k: nat)
    requires i <= |m.items|
    ensures i <= k <= |m.items|
    decreases |m.items| - i
  {
    if i == |m.items| then i else if m.items[i].id == m.cur then i else Selected(m, i + 1)
  }

  /** Item `i` is the first one with the ID. */
  predicate FirstWith(items: seq<Item>, id: int, i: nat)
    requires i < |items|
  {
    items[i].id == id && forall j :: 0 <= j < i ==> items[j].id != id
  }

  /** get_cur_menuitem_val(): the value of the selected item, or its position if it has none */
  method CurrentValue(m: Menu) returns (ret: int, val: int)
    ensures ret == 0 <==> Selected(m, 0) < |m.items|
    ensures ret == 0 ==> val == Value(m.items, Selected(m, 0))
    ensures if forall i :: 0 <= i < |m.items| ==> m.items[i].id != m.cur then ret == -2 else ret == 0
    ensures forall i :: 0 <= i < |m.items| && FirstWith(m.items, m.cur, i) ==>
      val == if m.items[i].value.Some? then m.items[i].value.value else i
  {
    for i := 0 to |m.items|
      invariant Selected(m, 0) == Selected(m, i) && forall j :: 0 <= j < i ==> m.items[j].id != m.cur
    {
      if m.items[i].id == m.cur {
        return 0, if m.items[i].value.None? then i else m.items[i].value.value;
      }
    }
    return ENOENT, 0;
  }

  /** The position of the first item that stands for a value, or the number of items. */
  function Found(items: seq<Item>, val: int, i: nat): (k: nat)
    requires i <= |items|
    ensures i <= k <= |items| && (k < |items| ==> Value(items, k) == val)
    ensures forall j :: i <= j < k ==> Value(items, j) != val
    decreases |items| - i
  {
    if i == |items| then i else if Value(items, i) == val then i else Found(items, val, i + 1)
  }

  /** scene_menuitem_find_val() */
  method FindValue(items: seq<Item>, val: int) returns (k: nat)
    ensures k == Found(items, val, 0)
    ensures k <= |items| && (k < |items| ==> val == if items[k].value.Some? then items[k].value.value else k)
    ensures forall i :: 0 <= i < k ==> val != if items[i].value.Some? then items[i].value.value else i
  {
    k := 0;
    while k < |items|
      invariant k <= |items| && Found(items, val, 0) == Found(items, val, k)
      invariant forall i :: 0 <= i < k ==> val != if items[i].value.Some? then items[i].value.value else i
    {
      if if items[k].value.None? then val == k else items[k].value.value == val {
        return;
      }
      k := k + 1;
    }
  }

  // ----- writing -----

  /** What writing a menu returns. */
  function Writes(m: Menu): int {
    if Selected(m, 0) == |m.items| then ENOENT
    else if m.length == 0 then EINVAL
    else if m.start + m.length > MAX_BITS then E2BIG
    else 0
  }

  function Range(start: nat, length: nat): set<int> {
    if length == 0 then {} else Range(start, length - 1) + {start + length - 1}
  }

  /** The bits of a field that holds `val`. */
  function Field(start: nat, length: nat, val: int): set<int> {
    if length == 0 then {}
    else Field(start, length - 1, val) + if Nth(val, length - 1) then {start + length - 1} else {}
  }

  lemma {:induction false} InField(start: nat, length: nat, val: int, n: int)
    ensures n in Range(start, length) <==> start <= n < start + length
    ensures n in Field(start, length, val) <==> start <= n < start + length && Nth(val, n - start)
  {
    if length == 0 {
    } else {
      InField(start, length - 1, val, n);
    }
  }

  /** The field of `i` bits is in `mask`, and its value in `value`; set bits stay set. */
  ghost predicate Laid(mask: seq<bv8>, value: seq<bv8>, mask0: seq<bv8>, value0: seq<bv8>, start: nat, i: nat,
                       val: int) {
    && |mask| == |value| == |mask0| == |value0| == MAX_BYTES
    && On(mask) == On(mask0) + Range(start, i) && On(value) == On(value0) + Field(start, i, val)
  }

  lemma LaidNext(mask: seq<bv8>, value: seq<bv8>, mask0: seq<bv8>, value0: seq<bv8>, start: nat, i: nat, val: int,
                 mask': seq<bv8>, value': seq<bv8>)
    requires start + i < MAX_BITS && Laid(mask, value, mask0, value0, start, i, val)
    requires |mask'| == |value'| == MAX_BYTES && On(mask') == On(mask) + {start + i}
    requires On(value') == On(value) + if Nth(val, i) then {start + i} else {}
    ensures Laid(mask', value', mask0, value0, start, i + 1, val)
  {
  }

  /** a[CMOS_BYTE(n)] |= BIT(CMOS_BIT(n)) */
  method OrBit(a: array<bv8>, n: nat)
    requires a.Length == MAX_BYTES && n < MAX_BITS
    modifies a
    ensures On(a[..]) == old(On(a[..])) + {n}
  {
    OnSet(a[..], n);
    a[n / 8] := a[n / 8] | Mask(n % 8);
    assert a[..] == old(a[..])[n / 8 := old(a[..])[n / 8] | Mask(n % 8)];
  }

  /** The loop of h_write_settings_cmos(). */
  method WriteField(start: nat, length: nat, val0: int, mask: array<bv8>, value: array<bv8>)
    requires mask.Length == value.Length == MAX_BYTES && mask != value && start + length <= MAX_BITS
    modifies mask, value
    ensures Laid(mask[..], value[..], old(mask[..]), old(value[..]), start, length, val0)
  {
    var val := val0;
    ghost var mask0, value0 := mask[..], value[..];
    for i := 0 to length
      invariant val == Shifted(val0, i)
      invariant Laid(mask[..], value[..], mask0, value0, start, i, val0)
    {
      ghost var mask1, value1 := mask[..], value[..];
      OrBit(mask, start + i);
      NthShifted(val0, i, 0);
      if val % 2 == 1 {
        OrBit(value, start + i);
      }
      LaidNext(mask1, value1, mask0, value0, start, i, val0, mask[..], value[..]);
      val := val / 2;
    }
  }

  /** h_write_settings_cmos() */
  method WriteMenu(m: Menu, mask: array<bv8>, value: array<bv8>) returns (ret: int)
    requires mask.Length == value.Length == MAX_BYTES && mask != value
    modifies mask, value
    ensures ret == Writes(m) && ret in {0, -2, -22, -7}
    ensures ret == -2 <==> forall i :: 0 <= i < |m.items| ==> m.items[i].id != m.cur
    ensures ret != -2 ==> (ret == -22 <==> m.length == 0)
    ensures ret == -7 ==> m.start + m.length > 2048
    ensures ret == 0 ==> 0 < m.length && m.start + m.length <= 2048
    ensures ret == 0 ==>
      Laid(mask[..], value[..], old(mask[..]), old(value[..]), m.start, m.length, Value(m.items, Selected(m, 0)))
  {
    var val;
    ret, val := CurrentValue(m);
    if ret < 0 {
      return;
    }
    if m.length == 0 {
      return EINVAL;
    }
    if m.start + m.length > MAX_BITS {
      return E2BIG;
    }
    WriteField(m.start, m.length, val, mask, value);
  }

  /** The value that a menu is set to. */
  function Setting(m: Menu): int {
    if Selected(m, 0) < |m.items| then Value(m.items, Selected(m, 0)) else 0
  }

  /** The first error of the first `n` menus, or 0. */
  function FirstError(menus: seq<Menu>, n: nat): int
    requires n <= |menus|
  {
    if n == 0 then 0 else if FirstError(menus, n - 1) != 0 then FirstError(menus, n - 1) else Writes(menus[n - 1])
  }

  function Ranges(menus: seq<Menu>): set<int> {
    if menus == [] then {} else Ranges(menus[..|menus| - 1]) + Range(menus[|menus| - 1].start, menus[|menus| - 1].length)
  }

  function Fields(menus: seq<Menu>): set<int> {
    if menus == [] then {}
    else
      var m := menus[|menus| - 1];
      Fields(menus[..|menus| - 1]) + Field(m.start, m.length, Setting(m))
  }

  lemma {:induction false} NoneOn(a: seq<bv8>)
    requires |a| == MAX_BYTES && forall i :: 0 <= i < MAX_BYTES ==> a[i] == 0
    ensures On(a) == {}
  {
    forall n | 0 <= n < MAX_BITS ensures !Bit(a, n) {
      NoneSet(a[n / 8], n % 8);
    }
  }

  /** Lay out the fields of all menus. */
  method WriteMenus(menus: seq<Menu>) returns (ret: int, mask: array<bv8>, value: array<bv8>)
    ensures fresh(mask) && fresh(value) && mask.Length == value.Length == MAX_BYTES
    ensures ret == FirstError(menus, |menus|)
    ensures ret == 0 ==> On(mask[..]) == Ranges(menus) && On(value[..]) == Fields(menus)
  {
    mask := new bv8[MAX_BYTES](i => 0);
    value := new bv8[MAX_BYTES](i => 0);
    NoneOn(mask[..]);
    NoneOn(value[..]);
    ret := 0;
    var i := 0;
    while i < |menus| && ret == 0
      invariant i <= |menus| && ret == FirstError(menus, i)
      invariant ret == 0 ==> On(mask[..]) == Ranges(menus[..i]) && On(value[..]) == Fields(menus[..i])
      invariant fresh(mask) && fresh(value) && mask != value && mask.Length == value.Length == MAX_BYTES
    {
      ret := WriteMenu(menus[i], mask, value);
      assert menus[..i + 1][..i] == menus[..i];
      i := i + 1;
    }
    FirstErrorStays(menus, i);
    assert menus[..|menus|] == menus;
  }

  lemma {:induction false} FirstErrorStays(menus: seq<Menu>, i: nat)
    requires i <= |menus| && (i == |menus| || FirstError(menus, i) != 0)
    ensures FirstError(menus, |menus|) == FirstError(menus, i)
    decreases |menus| - i
  {
    if i < |menus| {
      FirstErrorStays(menus, i + 1);
    }
  }

  lemma SomeSet(x: bv8)
    requires x != 0
    ensures exists b: nat :: b < 8 && IsSet(x, b)
  {
    assert IsSet(x, 0) || IsSet(x, 1) || IsSet(x, 2) || IsSet(x, 3) || IsSet(x, 4) || IsSet(x, 5) || IsSet(x, 6) || IsSet(x, 7);
  }

  /** Byte `k` holds a bit of a field. */
  ghost predicate Touched(menus: seq<Menu>, k: nat) {
    exists n :: n in Ranges(menus) && n / 8 == k
  }

  /**
   What writing the menus makes of the RTC bytes: in a byte that holds a bit of a field, exactly the bits of
   the settings are set, so that its bits outside of all fields are cleared; every other byte stays.
   */
  ghost predicate Written(menus: seq<Menu>, was: seq<bv8>, rtc: seq<bv8>) {
    && |was| == |rtc| == MAX_BYTES
    && (forall n :: 0 <= n < MAX_BITS && Touched(menus, n / 8) ==> (n in On(rtc) <==> n in Fields(menus)))
    && (forall k :: 0 <= k < MAX_BYTES && !Touched(menus, k) ==> rtc[k] == was[k])
  }

  lemma MaskTouched(mask: seq<bv8>, menus: seq<Menu>, k: nat)
    requires |mask| == MAX_BYTES && On(mask) == Ranges(menus) && k < MAX_BYTES
    ensures mask[k] != 0 <==> Touched(menus, k)
  {
    if mask[k] != 0 {
      SomeSet(mask[k]);
      var b: nat :| b < 8 && IsSet(mask[k], b);
      var n := 8 * k + b;
      assert n / 8 == k && n % 8 == b;
      assert n in On(mask);
    } else if n :| n in Ranges(menus) && n / 8 == k {
      NoneSet(mask[k], n % 8);
    }
  }

  lemma MaskedWritten(menus: seq<Menu>, mask: seq<bv8>, value: seq<bv8>, was: seq<bv8>, rtc: seq<bv8>)
    requires |mask| == |value| == |was| == |rtc| == MAX_BYTES
    requires On(mask) == Ranges(menus) && On(value) == Fields(menus)
    requires forall k :: 0 <= k < MAX_BYTES ==> rtc[k] == if mask[k] != 0 then value[k] else was[k]
    ensures Written(menus, was, rtc)
  {
    forall k | 0 <= k < MAX_BYTES ensures mask[k] != 0 <==> Touched(menus, k) {
      MaskTouched(mask, menus, k);
    }
    forall n | 0 <= n < MAX_BITS && Touched(menus, n / 8) ensures n in On(rtc) <==> n in Fields(menus) {
      assert rtc[n / 8] == value[n / 8];
    }
  }

  // ----- reading -----

  /** The number in a field of the RTC bytes. */
  function Gather(rtc: seq<bv8>, start: nat, length: nat): nat
    requires |rtc| == MAX_BYTES && start + length <= MAX_BITS
  {
    if length == 0 then 0
    else Gather(rtc, start, length - 1) + if Bit(rtc, start + length - 1) then Pow2(length - 1) else 0
  }

  /** What reading a menu returns. */
  function Reads(m: Menu, rtc: seq<bv8>): int
    requires |rtc| == MAX_BYTES
  {
    if m.length == 0 then EINVAL
    else if m.start + m.length > MAX_BITS then E2BIG
    else if Found(m.items, Gather(rtc, m.start, m.length), 0) == |m.items| then ENOENT
    else 0
  }

  /** The menu after a successful read. */
  function Restored(m: Menu, rtc: seq<bv8>): Menu
    requires |rtc| == MAX_BYTES && Reads(m, rtc) == 0
  {
    m.(cur := m.items[Found(m.items, Gather(rtc, m.start, m.length), 0)].id)
  }

  /** A byte that was read is kept. */
  ghost predicate Cached(mask: seq<bv8>, value: seq<bv8>, rtc: seq<bv8>) {
    && |mask| == |value| == |rtc| == MAX_BYTES
    && forall i :: 0 <= i < MAX_BYTES && mask[i] != 0 ==> value[i] == rtc[i]
  }

  /** Read one bit, and its byte if that was not read yet. */
  method ReadBit(n: nat, mask: array<bv8>, value: array<bv8>, rtc: array<bv8>) returns (b: bool)
    requires n < MAX_BITS && mask != value && mask != rtc && value != rtc && Cached(mask[..], value[..], rtc[..])
    modifies mask, value
    ensures Cached(mask[..], value[..], rtc[..]) && b == Bit(rtc[..], n)
  {
    var k := n / 8;
    if mask[k] == 0 {
      value[k] := rtc[k];
      mask[k] := 0xff;
    }
    b := IsSet(value[k], n % 8);
  }

  /** The loop of h_read_settings_cmos(). */
  method ReadField(start: nat, length: nat, mask: array<bv8>, value: array<bv8>, rtc: array<bv8>) returns (val: nat)
    requires mask != value && mask != rtc && value != rtc && Cached(mask[..], value[..], rtc[..])
    requires start + length <= MAX_BITS
    modifies mask, value
    ensures Cached(mask[..], value[..], rtc[..]) && val == Gather(rtc[..], start, length)
  {
    val := 0;
    ghost var bytes := rtc[..];
    for i := 0 to length
      invariant rtc[..] == bytes && Cached(mask[..], value[..], rtc[..]) && val == Gather(bytes, start, i)
    {
      var b := ReadBit(start + i, mask, value, rtc);
      if b {
        val := val + Pow2(i);   // bit i is not set yet
      }
    }
  }

  /** h_read_settings_cmos() */
  method ReadMenu(m: Menu, mask: array<bv8>, value: array<bv8>, rtc: array<bv8>) returns (ret: int, m': Menu)
    requires mask != value && mask != rtc && value != rtc && Cached(mask[..], value[..], rtc[..])
    modifies mask, value
    ensures Cached(mask[..], value[..], rtc[..]) && ret == Reads(m, rtc[..])
    ensures m' == if ret == 0 then Restored(m, rtc[..]) else m
  {
    m' := m;
    if m.length == 0 {
      return EINVAL, m;
    }
    if m.start + m.length > MAX_BITS {
      return E2BIG, m;
    }
    var val := ReadField(m.start, m.length, mask, value, rtc);
    var k := FindValue(m.items, val);
    if k == |m.items| {
      return ENOENT, m;
    }
    return 0, m.(cur := m.items[k].id);
  }

  /** The menus after a read: up to the first that cannot be read, they are restored. */
  ghost predicate ReadBack(menus: seq<Menu>, menus': seq<Menu>, rtc: seq<bv8>, n: nat)
    requires |rtc| == MAX_BYTES
  {
    && |menus| == |menus'| && n <= |menus|
    && (forall i :: 0 <= i < n ==> Reads(menus[i], rtc) == 0 && menus'[i] == Restored(menus[i], rtc))
    && (forall i :: n <= i < |menus| ==> menus'[i] == menus[i])
  }

  lemma ReadBackNext(menus: seq<Menu>, now: seq<Menu>, rtc: seq<bv8>, n: nat, m: Menu)
    requires |rtc| == MAX_BYTES && ReadBack(menus, now, rtc, n) && n < |menus|
    requires Reads(menus[n], rtc) == 0 && m == Restored(menus[n], rtc)
    ensures ReadBack(menus, now[n := m], rtc, n + 1)
  {
  }

  // ----- writing and reading back -----

  ghost predicate Disjoint(menus: seq<Menu>) {
    forall i, j :: 0 <= i < j < |menus| ==>
      menus[i].start + menus[i].length <= menus[j].start || menus[j].start + menus[j].length <= menus[i].start
  }

  /** Distinct values that fit the field, with one selected. */
  ghost predicate Settable(m: Menu) {
    && Writes(m) == 0
    && (forall i, j :: 0 <= i < j < |m.items| ==> Value(m.items, i) != Value(m.items, j))
    && (forall i :: 0 <= i < |m.items| ==> 0 <= Value(m.items, i) < Pow2(m.length))
  }

  /** The same menu with possibly another selection. */
  ghost predicate SameMenu(a: Menu, b: Menu) {
    a.items == b.items && a.start == b.start && a.length == b.length
  }

  lemma {:induction false} OnlyField(menus: seq<Menu>, i: nat, n: int)
    requires i < |menus| && Disjoint(menus) && menus[i].start <= n < menus[i].start + menus[i].length
    ensures n in Ranges(menus)
    ensures n in Fields(menus) <==> Nth(Setting(menus[i]), n - menus[i].start)
    decreases |menus|
  {
    var k := |menus| - 1;
    var m := menus[k];
    InField(m.start, m.length, Setting(m), n);
    if i < k {
      OnlyField(menus[..k], i, n);
    } else {
      NoField(menus[..k], n);
    }
  }

  lemma {:induction false} NoField(menus: seq<Menu>, n: int)
    requires forall i :: 0 <= i < |menus| ==> !(menus[i].start <= n < menus[i].start + menus[i].length)
    ensures n !in Ranges(menus) && n !in Fields(menus)
    decreases |menus|
  {
    if menus != [] {
      var m := menus[|menus| - 1];
      NoField(menus[..|menus| - 1], n);
      InField(m.start, m.length, Setting(m), n);
    }
  }

  lemma {:induction false} GatherField(rtc: seq<bv8>, start: nat, length: nat, val: int)
    requires |rtc| == MAX_BYTES && start + length <= MAX_BITS
    requires forall n :: start <= n < start + length ==> (n in On(rtc) <==> Nth(val, n - start))
    ensures Gather(rtc, start, length) == Low(val, length)
  {
    if length == 0 {
    } else {
      GatherField(rtc, start, length - 1, val);
      var n := start + length - 1;
      assert n in On(rtc) <==> Nth(val, n - start);
    }
  }

  lemma FoundSelected(m: Menu)
    requires Settable(m)
    ensures Found(m.items, Setting(m), 0) == Selected(m, 0) < |m.items|
  {
    var k, s := Found(m.items, Setting(m), 0), Selected(m, 0);
    assert Value(m.items, s) == Setting(m);
    assert k <= s && Value(m.items, k) == Value(m.items, s);
  }

  lemma {:induction false} SelectedIs(m: Menu, i: nat)
    requires i <= |m.items|
    ensures Selected(m, i) < |m.items| ==> m.items[Selected(m, i)].id == m.cur
    decreases |m.items| - i
  {
    if i < |m.items| {
      SelectedIs(m, i + 1);
    }
  }

  /** The RTC bytes hold the fields of the menus. */
  ghost predicate Stored(menus: seq<Menu>, rtc: seq<bv8>) {
    |rtc| == MAX_BYTES && forall n :: n in Ranges(menus) ==> (n in On(rtc) <==> n in Fields(menus))
  }

  lemma WrittenStored(menus: seq<Menu>, was: seq<bv8>, rtc: seq<bv8>)
    requires Written(menus, was, rtc) && forall n :: n in Ranges(menus) ==> 0 <= n < MAX_BITS
    ensures Stored(menus, rtc)
  {
    forall n | n in Ranges(menus) ensures n in On(rtc) <==> n in Fields(menus) {
      assert Touched(menus, n / 8);
    }
  }

  lemma StoredValue(menus: seq<Menu>, rtc: seq<bv8>, i: nat)
    requires Stored(menus, rtc) && Disjoint(menus) && i < |menus| && Settable(menus[i])
    ensures Gather(rtc, menus[i].start, menus[i].length) == Setting(menus[i])
  {
    var m := menus[i];
    forall n | m.start <= n < m.start + m.length ensures n in On(rtc) <==> Nth(Setting(m), n - m.start) {
      OnlyField(menus, i, n);
    }
    GatherField(rtc, m.start, m.length, Setting(m));
    LowWhole(Setting(m), m.length);
  }

  /** What was written for one menu is read back, whatever was selected since. */
  lemma MenuRoundTrip(menus: seq<Menu>, rtc: seq<bv8>, i: nat, other: Menu)
    requires Stored(menus, rtc) && Disjoint(menus) && i < |menus| && Settable(menus[i]) && SameMenu(menus[i], other)
    ensures Reads(other, rtc) == 0 && Restored(other, rtc) == menus[i]
  {
    StoredValue(menus, rtc, i);
    FoundSelected(menus[i]);
    SelectedIs(menus[i], 0);
  }

  ghost predicate SameMenus(a: seq<Menu>, b: seq<Menu>) {
    |a| == |b| && forall i :: 0 <= i < |a| ==> SameMenu(a[i], b[i])
  }

  ghost predicate AllSettable(menus: seq<Menu>) {
    Disjoint(menus) && forall i :: 0 <= i < |menus| ==> Settable(menus[i])
  }

  lemma AllRoundTrip(menus: seq<Menu>, rtc: seq<bv8>, others: seq<Menu>, others': seq<Menu>, n: nat)
    requires Stored(menus, rtc) && AllSettable(menus) && SameMenus(menus, others) && ReadBack(others, others', rtc, n)
    requires n < |others| ==> Reads(others[n], rtc) != 0
    ensures n == |others| && others' == menus
  {
    forall i | 0 <= i < |menus| ensures Reads(others[i], rtc) == 0 && Restored(others[i], rtc) == menus[i] {
      MenuRoundTrip(menus, rtc, i, others[i]);
    }
  }

  lemma {:induction false} NoError(menus: seq<Menu>, n: nat)
    requires n <= |menus| && forall i :: 0 <= i < |menus| ==> Writes(menus[i]) == 0
    ensures FirstError(menus, n) == 0
  {
    if n > 0 {
      NoError(menus, n - 1);
    }
  }

  /** The configuration editor: its menus can be written to the RTC and read from it. */
  class Editor {
    var menus: seq<Menu>

    constructor (menus: seq<Menu>)
      ensures this.menus == menus
    {
      this.menus := menus;
    }

    /** cedit_write_settings_cmos(), where the RTC takes every byte */
    method WriteSettings(rtc: array<bv8>) returns (ret: int)
      requires rtc.Length == MAX_BYTES
      modifies rtc
      ensures ret == FirstError(menus, |menus|)
      ensures if ret == 0 then Written(menus, old(rtc[..]), rtc[..]) && Stored(menus, rtc[..]) else rtc[..] == old(rtc[..])
    {
      var mask, value;
      ret, mask, value := WriteMenus(menus);
      if ret != 0 {
        return;
      }
      ghost var was := rtc[..];
      for i := 0 to MAX_BYTES
        invariant mask.Length == value.Length == MAX_BYTES && mask != rtc && value != rtc
        invariant On(mask[..]) == Ranges(menus) && On(value[..]) == Fields(menus)
        invariant forall k :: 0 <= k < i ==> rtc[k] == if mask[k] != 0 then value[k] else was[k]
        invariant forall k :: i <= k < MAX_BYTES ==> rtc[k] == was[k]
      {
        if mask[i] != 0 {
          rtc[i] := value[i];
        }
      }
      MaskedWritten(menus, mask[..], value[..], was, rtc[..]);
      WrittenStored(menus, was, rtc[..]);
    }

    /** cedit_read_settings_cmos(), where the RTC gives every byte */
    method ReadSettings(rtc: array<bv8>) returns (ret: int, ghost n: nat)
      requires rtc.Length == MAX_BYTES
      modifies this
      ensures ReadBack(old(menus), menus, rtc[..], n)
      ensures if n == |menus| then ret == 0 else ret == Reads(old(menus)[n], rtc[..]) != 0
    {
      var mask := new bv8[MAX_BYTES](i => 0);
      var value := new bv8[MAX_BYTES](i => 0);
      ghost var was := menus;
      n := 0;
      ret := 0;
      var i := 0;
      while i < |menus|
        invariant n == i <= |menus| && ret == 0 && fresh(mask) && fresh(value) && mask != value
        invariant Cached(mask[..], value[..], rtc[..]) && ReadBack(was, menus, rtc[..], i)
      {
        var m;
        ret, m := ReadMenu(menus[i], mask, value, rtc);
        if ret != 0 {
          return;
        }
        ReadBackNext(was, menus, rtc[..], i, m);
        menus := menus[i := m];
        n := n + 1;
        i := i + 1;
      }
    }
  }

  /**
   Writing all settings and reading them back restores the selection of every menu, whatever the menus
   are set to when they are read, and also where fields share or cross bytes.
   */
  method RoundTrip(from: Editor, to: Editor, rtc: array<bv8>) returns (wrote: int, read: int)
    requires from != to && rtc.Length == MAX_BYTES && AllSettable(from.menus) && SameMenus(from.menus, to.menus)
    modifies rtc, to
    ensures wrote == read == 0 && to.menus == from.menus
  {
    NoError(from.menus, |from.menus|);
    wrote := from.WriteSettings(rtc);
    ghost var others := to.menus;
    ghost var n;
    read, n := to.ReadSettings(rtc);
    AllRoundTrip(from.menus, rtc[..], others, to.menus, n);
  }
}
