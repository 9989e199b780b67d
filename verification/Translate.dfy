/** Translation of a bus address to a CPU address (fdt_support.c), one bus after the other. */
module Translate {
  import opened Wrappers

  const U32: nat := 0x1_0000_0000
  const U64: nat := 0x1_0000_0000_0000_0000
  const BAD_ADDR: nat := 0xffff_ffff_ffff_ffff
  const MAX_ADDR_CELLS: nat := 4

  type Cell = x: int | 0 <= x < 0x1_0000_0000

  /** A "ranges" property: its cells, and how many bytes follow the last whole cell. */
  datatype Ranges = Ranges(cells: seq<Cell>, spare: nat)

  /** A bus on the way to the root: #address-cells, #size-cells and "ranges". */
  datatype Bus = Bus(na: nat, ns: nat, ranges: Option<Ranges>)

  /** OF_CHECK_COUNTS() */
  predicate Counts(b: Bus) {
    0 < b.na <= MAX_ADDR_CELLS && b.ns > 0
  }

  /** The number that the cells spell, the first one highest. */
  function Spelled(cells: seq<Cell>): nat {
    if cells == [] then 0 else Spelled(cells[..|cells| - 1]) * U32 + cells[|cells| - 1]
  }

  /** What fits in 64 bits of it. */
  function Number(cells: seq<Cell>): (r: nat)
    ensures r < U64
  {
    Spelled(cells) % U64
  }

  lemma ShiftLow(n: nat, c: Cell)
    ensures n % U64 % U32 * U32 + c == (n * U32 + c) % U64
  {
    var m := n % U64;
    Remainder(n * U32 + c, n / U64 * U32 + m / U32, m % U32 * U32 + c);
  }

  lemma Remainder(n: nat, q: nat, r: nat)
    requires r < U64 && n == q * U64 + r
    ensures n % U64 == r
  {
  }

  /** A shift by 32 of a 64-bit number keeps its low 32 bits. */
  lemma NumberShift(cells: seq<Cell>)
    requires cells != []
    ensures Number(cells) == Number(cells[..|cells| - 1]) % U32 * U32 + cells[|cells| - 1]
  {
    ShiftLow(Spelled(cells[..|cells| - 1]), cells[|cells| - 1]);
  }

  /** fdt_read_number(): however many cells there are, it keeps their number modulo 2^64 */
  method ReadNumber(cells: seq<Cell>) returns (r: nat)
    ensures r == Number(cells)
  {
    r := 0;
    for i := 0 to |cells|
      invariant r == Number(cells[..i])
    {
      assert cells[..i + 1][..i] == cells[..i];
      NumberShift(cells[..i + 1]);
      r := r % U32 * U32 + cells[i];
    }
    assert cells[..|cells|] == cells;
  }

  // ----- the specification -----

  function EntrySize(na: nat, ns: nat, pna: nat): nat {
    na + pna + ns
  }

  /** The offset of an address in the child range of an entry, or BAD_ADDR. */
  function Map(da: nat, entry: seq<Cell>, na: nat, ns: nat, pna: nat): (r: nat)
    requires da < U64 && |entry| >= EntrySize(na, ns, pna)
    ensures r == BAD_ADDR <==> !(Number(entry[..na]) <= da < (Number(entry[..na]) + Number(entry[na + pna..na + pna + ns])) % U64)
  {
    var cp := Number(entry[..na]);
    var s := Number(entry[na + pna..na + pna + ns]);
    if da < cp || da >= (cp + s) % U64 then BAD_ADDR else da - cp
  }

  /** The first entry from cell `i` on that maps the address. */
  function Hit(da: nat, cells: seq<Cell>, i: nat, na: nat, ns: nat, pna: nat): (k: Option<nat>)
    requires da < U64 && na > 0
    ensures k.Some? ==> k.value + EntrySize(na, ns, pna) <= |cells|
    decreases |cells| - i
  {
    if i + EntrySize(na, ns, pna) > |cells| then None
    else if Map(da, cells[i..], na, ns, pna) != BAD_ADDR then Some(i)
    else Hit(da, cells, i + EntrySize(na, ns, pna), na, ns, pna)
  }

  /** A number in the cells of a bus: one cell has 32 bits, more have 64. */
  function Fit(x: nat, cells: nat): nat {
    if cells == 1 then x % 0x1_0000_0000 else x % 0x1_0000_0000_0000_0000
  }

  /** Addresses on a bus with `na` cells. */
  function Limit(na: nat): nat {
    if na == 1 then U32 else U64
  }

  /** The bus has no "ranges" property, or an empty one: addresses are the same on its parent. */
  predicate Direct(bus: Bus) {
    bus.ranges.None? || (bus.ranges.value.cells == [] && bus.ranges.value.spare == 0)
  }

  /** Where a child address goes: the start of its range on the parent bus, and its offset in it. */
  datatype Place = Place(base: nat, offset: nat)

  /** The child start, the size and the parent start of an entry of a "ranges" property. */
  datatype Range = Range(child: nat, size: nat, parent: nat)

  /** The entry that starts at cell `i`. */
  function EntryAt(cells: seq<Cell>, i: nat, na: nat, ns: nat, pna: nat): Range
    requires i + na + pna + ns <= |cells|
  {
    Range(Number(cells[i..i + na]), Number(cells[i + na + pna..i + na + pna + ns]), Number(cells[i + na..i + na + pna]))
  }

  /** The place by the first matching entry, or the same address where there are no ranges. */
  function Placed(da: nat, bus: Bus, pna: nat): (p: Option<Place>)
    requires da < U64 && bus.na > 0
    ensures p.Some? ==> p.value.base < U64 && p.value.offset < U64
  {
    if Direct(bus) then Some(Place(0, da))
    else
      var cells := bus.ranges.value.cells;
      var k := Hit(da, cells, 0, bus.na, bus.ns, pna);
      if k.None? then None
      else Some(Place(EntryAt(cells, k.value, bus.na, bus.ns, pna).parent, Map(da, cells[k.value..], bus.na, bus.ns, pna)))
  }

  /** One level up, in the cells of the parent bus. */
  function Up(da: nat, bus: Bus, pna: nat): Option<nat>
    requires da < U64 && bus.na > 0
  {
    var p := Placed(da, bus, pna);
    if p.None? then None else Some(Fit(p.value.base + p.value.offset, pna))
  }

  /** The address at the root, level by level from bus `i` on. */
  function Walk(buses: seq<Bus>, i: nat, da: nat): (r: nat)
    requires i < |buses| && da < U64 && Counts(buses[i])
    ensures r < U64
    decreases |buses| - i
  {
    if i + 1 == |buses| then da
    else if !Counts(buses[i + 1]) then BAD_ADDR
    else
      var up := Up(da, buses[i], buses[i + 1].na);
      if up.None? then BAD_ADDR else Walk(buses, i + 1, up.value)
  }

  // ----- the levels one by one -----

  /** There is a whole entry at cell `i` with the address in its child range. The end of the range wraps in 64 bits. */
  ghost predicate InRangeAt(da: nat, cells: seq<Cell>, i: nat, na: nat, ns: nat, pna: nat) {
    && i + na + pna + ns <= |cells|
    && var r := EntryAt(cells, i, na, ns, pna); r.child <= da < (r.child + r.size) % 0x1_0000_0000_0000_0000
  }

  /** The cell at which entry number `k` starts. */
  function StartOf(k: nat, size: nat): nat {
    k * size
  }

  /** Entry number `k` has the address in its child range. */
  ghost predicate InRange(da: nat, cells: seq<Cell>, k: nat, na: nat, ns: nat, pna: nat) {
    InRangeAt(da, cells, StartOf(k, na + pna + ns), na, ns, pna)
  }

  /** Entry number `k` is the first one that has the address in its child range. */
  ghost predicate FirstInRange(da: nat, cells: seq<Cell>, k: nat, na: nat, ns: nat, pna: nat) {
    InRange(da, cells, k, na, ns, pna) && forall j: nat :: j < k ==> !InRange(da, cells, j, na, ns, pna)
  }

  lemma MapsInRange(da: nat, cells: seq<Cell>, i: nat, na: nat, ns: nat, pna: nat)
    requires i + EntrySize(na, ns, pna) <= |cells| && da < U64
    ensures var m, r := Map(da, cells[i..], na, ns, pna), EntryAt(cells, i, na, ns, pna);
      if InRangeAt(da, cells, i, na, ns, pna) then m == da - r.child && m != BAD_ADDR else m == BAD_ADDR
  {
    assert cells[i..][..na] == cells[i..i + na];
    assert cells[i..][na + pna..na + pna + ns] == cells[i + na + pna..i + na + pna + ns];
  }

  /** The entry that is used is the first one that has the address in its range; if none is, there is none. */
  lemma {:induction false} HitExact(da: nat, cells: seq<Cell>, k: nat, i: nat, na: nat, ns: nat, pna: nat) returns (hit: nat)
    requires da < U64 && na > 0 && i == StartOf(k, na + pna + ns)
    requires forall j: nat :: j < k ==> !InRange(da, cells, j, na, ns, pna)
    ensures var h := Hit(da, cells, i, na, ns, pna);
      if h.None? then forall j: nat :: !InRange(da, cells, j, na, ns, pna)
      else h.value == StartOf(hit, na + pna + ns) && FirstInRange(da, cells, hit, na, ns, pna)
    decreases |cells| - i
  {
    hit := k;
    var size := na + pna + ns;
    if i + size <= |cells| {
      MapsInRange(da, cells, i, na, ns, pna);
      if Map(da, cells[i..], na, ns, pna) == BAD_ADDR {
        assert StartOf(k + 1, size) == i + size;
        hit := HitExact(da, cells, k + 1, i + size, na, ns, pna);
      }
    } else {
      forall j: nat ensures !InRange(da, cells, j, na, ns, pna) {
        if j >= k { NoEntry(|cells|, k, j, size); }
      }
    }
  }

  lemma NoEntry(len: nat, k: nat, j: nat, size: nat)
    requires StartOf(k, size) + size > len && j >= k
    ensures StartOf(j, size) + size > len
  {
    assert j * size == k * size + (j - k) * size;
  }

  /** `up` is as far behind the parent start of the entry at cell `i` as `da` is behind its child start. */
  ghost predicate ByEntryAt(da: nat, cells: seq<Cell>, i: nat, na: nat, ns: nat, pna: nat, up: nat) {
    && InRangeAt(da, cells, i, na, ns, pna)
    && var r := EntryAt(cells, i, na, ns, pna); up == Fit(r.parent + (da - r.child), pna)
  }

  /** `up` is the address by entry number `k`, the first that has `da` in its range. */
  ghost predicate ByEntry(da: nat, bus: Bus, pna: nat, k: nat, up: nat) {
    && bus.ranges.Some? && FirstInRange(da, bus.ranges.value.cells, k, bus.na, bus.ns, pna)
    && ByEntryAt(da, bus.ranges.value.cells, StartOf(k, bus.na + pna + bus.ns), bus.na, bus.ns, pna, up)
  }

  /** `up` is the address on the parent bus: by the first entry that has `da` in its range, or the same one. */
  ghost predicate OneUp(da: nat, bus: Bus, pna: nat, up: nat) {
    if Direct(bus) then up == Fit(da, pna) else exists k: nat :: ByEntry(da, bus, pna, k, up)
  }

  /** There are ranges, and none has the address. */
  ghost predicate NoWayUp(da: nat, bus: Bus, pna: nat) {
    !Direct(bus) && forall k: nat :: !InRange(da, bus.ranges.value.cells, k, bus.na, bus.ns, pna)
  }

  lemma UpPlaced(da: nat, bus: Bus, pna: nat, base: nat, offset: nat)
    requires da < U64 && bus.na > 0 && Placed(da, bus, pna) == Some(Place(base, offset))
    ensures Up(da, bus, pna) == Some(Fit(base + offset, pna))
  {
  }

  lemma PlacedNone(da: nat, bus: Bus, pna: nat)
    requires da < U64 && bus.na > 0 && !Direct(bus) && Hit(da, bus.ranges.value.cells, 0, bus.na, bus.ns, pna).None?
    ensures Placed(da, bus, pna).None?
  {
  }

  lemma PlacedAt(da: nat, bus: Bus, pna: nat, cells: seq<Cell>, i: nat, offset: nat)
    requires da < U64 && bus.na > 0 && !Direct(bus) && cells == bus.ranges.value.cells
    requires Hit(da, cells, 0, bus.na, bus.ns, pna) == Some(i) && Map(da, cells[i..], bus.na, bus.ns, pna) == offset
    ensures i + bus.na + pna + bus.ns <= |cells|
    ensures Placed(da, bus, pna) == Some(Place(EntryAt(cells, i, bus.na, bus.ns, pna).parent, offset))
  {
  }

  lemma UpAt(da: nat, bus: Bus, pna: nat, cells: seq<Cell>, i: nat, offset: nat)
    requires da < U64 && bus.na > 0 && !Direct(bus) && cells == bus.ranges.value.cells
    requires Hit(da, cells, 0, bus.na, bus.ns, pna) == Some(i) && Map(da, cells[i..], bus.na, bus.ns, pna) == offset
    ensures i + bus.na + pna + bus.ns <= |cells|
    ensures Up(da, bus, pna) == Some(Fit(EntryAt(cells, i, bus.na, bus.ns, pna).parent + offset, pna))
  {
    PlacedAt(da, bus, pna, cells, i, offset);
    UpPlaced(da, bus, pna, EntryAt(cells, i, bus.na, bus.ns, pna).parent, offset);
  }

  lemma UpByEntry(da: nat, bus: Bus, pna: nat, cells: seq<Cell>, i: nat)
    requires da < U64 && bus.na > 0 && !Direct(bus) && cells == bus.ranges.value.cells
    requires Hit(da, cells, 0, bus.na, bus.ns, pna) == Some(i) && InRangeAt(da, cells, i, bus.na, bus.ns, pna)
    ensures Up(da, bus, pna).Some? && ByEntryAt(da, cells, i, bus.na, bus.ns, pna, Up(da, bus, pna).value)
  {
    MapsInRange(da, cells, i, bus.na, bus.ns, pna);
    UpAt(da, bus, pna, cells, i, da - EntryAt(cells, i, bus.na, bus.ns, pna).child);
  }

  lemma UpNone(da: nat, bus: Bus, pna: nat)
    requires da < U64 && bus.na > 0
    ensures Up(da, bus, pna).None? <==> !Direct(bus) && Hit(da, bus.ranges.value.cells, 0, bus.na, bus.ns, pna).None?
  {
  }

  lemma UpRanges(da: nat, bus: Bus, pna: nat, cells: seq<Cell>, k: nat, i: nat)
    requires da < U64 && bus.na > 0 && !Direct(bus) && cells == bus.ranges.value.cells
    requires Hit(da, cells, 0, bus.na, bus.ns, pna) == Some(i) && i == StartOf(k, bus.na + pna + bus.ns)
    requires FirstInRange(da, cells, k, bus.na, bus.ns, pna)
    ensures Up(da, bus, pna).Some? && ByEntry(da, bus, pna, k, Up(da, bus, pna).value)
  {
    assert InRange(da, cells, k, bus.na, bus.ns, pna);
    UpByEntry(da, bus, pna, cells, i);
  }

  lemma UpExact(da: nat, bus: Bus, pna: nat)
    requires da < U64 && bus.na > 0
    ensures var up := Up(da, bus, pna); if up.None? then NoWayUp(da, bus, pna) else OneUp(da, bus, pna, up.value)
  {
    UpNone(da, bus, pna);
    if Direct(bus) {
      UpPlaced(da, bus, pna, 0, da);
    } else {
      var cells := bus.ranges.value.cells;
      var hit := Hit(da, cells, 0, bus.na, bus.ns, pna);
      var k := HitExact(da, cells, 0, 0, bus.na, bus.ns, pna);
      if hit.Some? {
        UpRanges(da, bus, pna, cells, k, hit.value);
      }
    }
  }

  /** `a` holds the address on each bus from number `i` on, as far as it gets. */
  ghost predicate Climbs(buses: seq<Bus>, i: nat, a: seq<nat>)
    decreases |a|
  {
    && a != [] && i < |buses|
    && (|a| > 1 ==>
          && i + 1 < |buses| && Counts(buses[i + 1]) && OneUp(a[0], buses[i], buses[i + 1].na, a[1])
          && Climbs(buses, i + 1, a[1..]))
  }

  /** At its last address it is at the root, or the next bus has bad counts or no range for that address. */
  ghost predicate Arrives(buses: seq<Bus>, top: nat, last: nat, result: nat)
    requires top < |buses|
  {
    if top + 1 == |buses| then result == last
    else result == BAD_ADDR && (!Counts(buses[top + 1]) || NoWayUp(last, buses[top], buses[top + 1].na))
  }

  lemma ClimbsOne(buses: seq<Bus>, i: nat, da: nat, up: nat, rest: seq<nat>)
    requires i + 1 < |buses| && Counts(buses[i + 1]) && OneUp(da, buses[i], buses[i + 1].na, up)
    requires Climbs(buses, i + 1, rest) && rest[0] == up
    ensures Climbs(buses, i, [da] + rest)
  {
    assert ([da] + rest)[1..] == rest;
  }

  lemma WalkUp(buses: seq<Bus>, i: nat, da: nat, up: Option<nat>)
    requires i + 1 < |buses| && da < U64 && Counts(buses[i]) && Counts(buses[i + 1])
    requires up == Up(da, buses[i], buses[i + 1].na)
    ensures up.Some? ==> up.value < U64
    ensures Walk(buses, i, da) == if up.None? then BAD_ADDR else Walk(buses, i + 1, up.value)
  {
  }

  lemma StopsHere(buses: seq<Bus>, i: nat, da: nat)
    requires i < |buses| && da < U64 && Counts(buses[i])
    requires i + 1 < |buses| && Counts(buses[i + 1]) ==> Up(da, buses[i], buses[i + 1].na).None?
    ensures Climbs(buses, i, [da]) && Arrives(buses, i, da, Walk(buses, i, da))
  {
    if i + 1 < |buses| && Counts(buses[i + 1]) { UpExact(da, buses[i], buses[i + 1].na); }
  }

  lemma GoesUp(buses: seq<Bus>, i: nat, da: nat, up: nat, rest: seq<nat>)
    requires i + 1 < |buses| && da < U64 && Counts(buses[i]) && Counts(buses[i + 1])
    requires Up(da, buses[i], buses[i + 1].na) == Some(up) && Climbs(buses, i + 1, rest) && rest[0] == up
    ensures Climbs(buses, i, [da] + rest)
  {
    UpExact(da, buses[i], buses[i + 1].na);
    ClimbsOne(buses, i, da, up, rest);
  }

  /** The walk climbs as far as it can. */
  lemma {:induction false} WalkClimbs(buses: seq<Bus>, i: nat, da: nat) returns (a: seq<nat>, top: nat, last: nat)
    requires i < |buses| && da < U64 && Counts(buses[i])
    ensures Climbs(buses, i, a) && a[0] == da && top == i + |a| - 1 < |buses| && last == a[|a| - 1]
    ensures Arrives(buses, top, last, Walk(buses, i, da))
    decreases |buses| - i
  {
    if i + 1 < |buses| && Counts(buses[i + 1]) && Up(da, buses[i], buses[i + 1].na).Some? {
      var up := Up(da, buses[i], buses[i + 1].na);
      WalkUp(buses, i, da, up);
      var rest;
      rest, top, last := WalkClimbs(buses, i + 1, up.value);
      GoesUp(buses, i, da, up.value, rest);
      a := [da] + rest;
    } else {
      StopsHere(buses, i, da);
      a, top, last := [da], i, da;
    }
  }

  // ----- in place -----

  lemma LowHalf(x: nat)
    ensures x % U64 % U32 == x % U32
  {
    var q, r := x / U64, x % U64;
    assert x == q * U32 * U32 + r;
    assert x - r / U32 * U32 - r % U32 == q * U32 * U32;
    assert x == (q * U32 + r / U32) * U32 + r % U32;
    Remainder32(x, q * U32 + r / U32, r % U32);
  }

  lemma Remainder32(n: nat, q: nat, r: nat)
    requires r < U32 && n == q * U32 + r
    ensures n % U32 == r
  {
  }

  lemma CutTwice(x: nat, pna: nat)
    ensures x % U64 % Limit(pna) == Fit(x, pna)
  {
    LowHalf(x);
  }

  /** The cells of a number on a bus with `na` cells. */
  function Cells(a: nat, na: nat): (s: seq<Cell>)
    requires a < U64 && na > 0
    ensures |s| == na
  {
    if na == 1 then [a % U32] else seq(na - 2, k => 0) + [a / U32, a % U32]
  }

  lemma {:induction false} ZeroCells(n: nat)
    ensures Number(seq(n, k => 0)) == 0
  {
    if n > 0 {
      ZeroCells(n - 1);
      NumberShift(seq(n, k => 0));
      assert seq(n, k => 0)[..n - 1] == seq(n - 1, k => 0);
    }
  }

  lemma CellsNumber(a: nat, na: nat)
    requires a < U64 && na > 0
    ensures Number(Cells(a, na)) == a % Limit(na)
  {
    var s := Cells(a, na);
    NumberShift(s);
    if na == 1 {
      assert s[..0] == [];
    } else {
      var zeros := seq(na - 2, k => 0);
      ZeroCells(na - 2);
      assert s[..na - 1] == zeros + [a / U32] && (zeros + [a / U32])[..na - 2] == zeros;
      NumberShift(zeros + [a / U32]);
    }
  }

  /** of_bus_default_translate() */
  method AddOffset(addr: array<Cell>, offset: nat, na: nat)
    requires addr.Length == MAX_ADDR_CELLS && 0 < na <= MAX_ADDR_CELLS && offset < U64
    modifies addr
    ensures Number(addr[..na]) == Fit(old(Number(addr[..na])) + offset, na)
  {
    var a := ReadNumber(addr[..na]);
    CutTwice(a + offset, na);
    forall k | 0 <= k < na { addr[k] := 0; }
    a := (a + offset) % U64;
    if na > 1 {
      addr[na - 2] := a / U32;
    }
    addr[na - 1] := a % U32;
    assert addr[..na] == Cells(a, na);
    CellsNumber(a, na);
  }

  /** of_bus_default_map() */
  method MapEntry(addr: array<Cell>, entry: seq<Cell>, na: nat, ns: nat, pna: nat) returns (offset: nat)
    requires addr.Length == MAX_ADDR_CELLS && na <= MAX_ADDR_CELLS && |entry| >= EntrySize(na, ns, pna)
    ensures offset == Map(Number(addr[..na]), entry, na, ns, pna)
  {
    var cp := ReadNumber(entry[..na]);
    var s := ReadNumber(entry[na + pna..na + pna + ns]);
    var da := ReadNumber(addr[..na]);
    if da < cp || da >= (cp + s) % U64 {
      return BAD_ADDR;
    }
    return da - cp;
  }

  /** The loop of of_translate_one(): the first entry that maps the address. */
  method WalkRanges(addr: array<Cell>, cells: seq<Cell>, na: nat, ns: nat, pna: nat) returns (offset: nat, at: nat)
    requires addr.Length == MAX_ADDR_CELLS && 0 < na <= MAX_ADDR_CELLS
    ensures var hit := Hit(Number(addr[..na]), cells, 0, na, ns, pna);
      if offset == BAD_ADDR then hit.None?
      else hit == Some(at) && offset == Map(Number(addr[..na]), cells[at..], na, ns, pna)
  {
    offset, at := BAD_ADDR, 0;
    while at + EntrySize(na, ns, pna) <= |cells|
      invariant at <= |cells| && offset == BAD_ADDR
      invariant Hit(Number(addr[..na]), cells, 0, na, ns, pna) == Hit(Number(addr[..na]), cells, at, na, ns, pna)
    {
      offset := MapEntry(addr, cells[at..], na, ns, pna);
      if offset != BAD_ADDR {
        return;
      }
      at := at + EntrySize(na, ns, pna);
    }
  }

  /** memset() and memcpy() of whole cells */
  method Load(addr: array<Cell>, s: seq<Cell>)
    requires |s| <= addr.Length
    modifies addr
    ensures addr[..|s|] == s
  {
    forall k | 0 <= k < |s| { addr[k] := s[k]; }
  }

  /** of_translate_one() without ranges: the same address. */
  method PlaceSame(addr: array<Cell>, na: nat, pna: nat) returns (offset: nat)
    requires addr.Length == MAX_ADDR_CELLS && na <= MAX_ADDR_CELLS && pna <= MAX_ADDR_CELLS
    modifies addr
    ensures offset == old(Number(addr[..na])) && Number(addr[..pna]) == 0
  {
    offset := ReadNumber(addr[..na]);
    ZeroCells(pna);
    Load(addr, seq(pna, k => 0));
  }

  /** of_translate_one() with ranges: the start of the range is in `addr`. */
  method PlaceInRanges(addr: array<Cell>, bus: Bus, pna: nat) returns (offset: nat)
    requires addr.Length == MAX_ADDR_CELLS && 0 < bus.na <= MAX_ADDR_CELLS && pna <= MAX_ADDR_CELLS && !Direct(bus)
    modifies addr
    ensures old(Placed(Number(addr[..bus.na]), bus, pna)) ==
      if offset == BAD_ADDR then None else Some(Place(Number(addr[..pna]), offset))
  {
    ghost var da := Number(addr[..bus.na]);
    var cells := bus.ranges.value.cells;
    var at;
    offset, at := WalkRanges(addr, cells, bus.na, bus.ns, pna);
    if offset == BAD_ADDR {
      PlacedNone(da, bus, pna);
      return;
    }
    PlacedAt(da, bus, pna, cells, at, offset);
    Load(addr, cells[at + bus.na..at + bus.na + pna]);
  }

  /** of_translate_one() up to its last step: the start of the range is in `addr`. */
  method FindPlace(addr: array<Cell>, bus: Bus, pna: nat) returns (failed: bool, offset: nat)
    requires addr.Length == MAX_ADDR_CELLS && Counts(bus) && 0 < pna <= MAX_ADDR_CELLS
    modifies addr
    ensures var p := old(Placed(Number(addr[..bus.na]), bus, pna));
      if failed then p.None? else p == Some(Place(Number(addr[..pna]), offset))
  {
    if !Direct(bus) {
      offset := PlaceInRanges(addr, bus, pna);
      failed := offset == BAD_ADDR;
    } else {
      offset := PlaceSame(addr, bus.na, pna);
      failed := false;
    }
  }

  /** of_translate_one() */
  method TranslateOne(addr: array<Cell>, bus: Bus, pna: nat) returns (failed: bool)
    requires addr.Length == MAX_ADDR_CELLS && Counts(bus) && 0 < pna <= MAX_ADDR_CELLS
    modifies addr
    ensures var up := old(Up(Number(addr[..bus.na]), bus, pna));
      if failed then up.None? else up == Some(Number(addr[..pna]))
  {
    var offset;
    failed, offset := FindPlace(addr, bus, pna);
    if !failed {
      AddOffset(addr, offset, pna);
    }
  }

  /** __of_translate_address() for the buses from the parent of a device to the root */
  method WalkBuses(buses: seq<Bus>, inAddr: seq<Cell>) returns (result: nat)
    requires buses != [] && Counts(buses[0]) ==> |inAddr| >= buses[0].na
    ensures result ==
      if buses == [] || !Counts(buses[0]) then BAD_ADDR else Walk(buses, 0, Number(inAddr[..buses[0].na]))
  {
    if buses == [] || !Counts(buses[0]) {
      return BAD_ADDR;
    }
    var addr := new Cell[MAX_ADDR_CELLS](k => 0);
    var na := buses[0].na;
    Load(addr, inAddr[..na]);
    var i := 0;
    while i + 1 < |buses|
      invariant i < |buses| && Counts(buses[i]) && na == buses[i].na
      invariant Walk(buses, 0, Number(inAddr[..buses[0].na])) == Walk(buses, i, Number(addr[..na]))
    {
      if !Counts(buses[i + 1]) {
        return BAD_ADDR;
      }
      var failed := TranslateOne(addr, buses[i], buses[i + 1].na);
      if failed {
        return BAD_ADDR;
      }
      na := buses[i + 1].na;
      i := i + 1;
    }
    result := ReadNumber(addr[..na]);
  }

  /**
   Translation to the root: the number in the cells, then on each bus the address that the first matching
   entry of "ranges" gives, up to the root; or BAD_ADDR at the first bus with bad counts or no such entry.
   */
  method TranslateAddress(buses: seq<Bus>, inAddr: seq<Cell>) returns (result: nat, ghost a: seq<nat>)
    requires buses != [] && Counts(buses[0]) ==> |inAddr| >= buses[0].na
    ensures buses == [] || !Counts(buses[0]) ==> result == BAD_ADDR
    ensures buses != [] && Counts(buses[0]) ==>
      && Climbs(buses, 0, a) && |a| <= |buses| && a[0] == Number(inAddr[..buses[0].na])
      && Arrives(buses, |a| - 1, a[|a| - 1], result)
  {
    result := WalkBuses(buses, inAddr);
    a := [];
    if buses != [] && Counts(buses[0]) {
      ghost var top, last;
      a, top, last := WalkClimbs(buses, 0, Number(inAddr[..buses[0].na]));
    }
  }

  // ----- distances -----

  /** Two addresses that hit the same entry, or none is needed. */
  ghost predicate SameEntry(v: nat, w: nat, bus: Bus, pna: nat)
    requires v < U64 && w < U64 && bus.na > 0
  {
    !Direct(bus) ==>
      var cells := bus.ranges.value.cells;
      Hit(v, cells, 0, bus.na, bus.ns, pna).Some? &&
      Hit(v, cells, 0, bus.na, bus.ns, pna) == Hit(w, cells, 0, bus.na, bus.ns, pna)
  }

  /** The sum fits the cells of the parent bus. */
  ghost predicate Fits(v: nat, bus: Bus, pna: nat)
    requires v < U64 && bus.na > 0
  {
    var p := Placed(v, bus, pna);
    p.Some? && p.value.base + p.value.offset < Limit(pna)
  }

  /** The same entries at every level, without overflow. */
  ghost predicate Together(buses: seq<Bus>, i: nat, v: nat, w: nat)
    requires i < |buses| && v < U64 && w < U64 && Counts(buses[i])
    decreases |buses| - i
  {
    i + 1 == |buses| ||
    (&& Counts(buses[i + 1]) && SameEntry(v, w, buses[i], buses[i + 1].na)
     && Fits(v, buses[i], buses[i + 1].na) && Fits(w, buses[i], buses[i + 1].na)
     && Together(buses, i + 1, Up(v, buses[i], buses[i + 1].na).value, Up(w, buses[i], buses[i + 1].na).value))
  }

  lemma Wraps(x: nat, pna: nat)
    ensures Fit(x, pna) == x <==> x < Limit(pna)
  {
  }

  /** The parent address is the start of the range plus the offset, exactly when that fits. */
  lemma UpFits(v: nat, bus: Bus, pna: nat)
    requires v < U64 && bus.na > 0 && Placed(v, bus, pna).Some?
    ensures Fits(v, bus, pna) <==> Up(v, bus, pna) == Some(Placed(v, bus, pna).value.base + Placed(v, bus, pna).value.offset)
  {
    var p := Placed(v, bus, pna).value;
    Wraps(p.base + p.offset, pna);
  }

  lemma PlacedTogether(v: nat, w: nat, bus: Bus, pna: nat)
    requires v < U64 && w < U64 && bus.na > 0 && SameEntry(v, w, bus, pna)
    ensures var p, q := Placed(v, bus, pna), Placed(w, bus, pna);
      p.Some? && q.Some? && p.value.base == q.value.base && p.value.offset - q.value.offset == v - w
  {
    if !Direct(bus) {
      HitMaps(v, bus.ranges.value.cells, 0, bus.na, bus.ns, pna);
      HitMaps(w, bus.ranges.value.cells, 0, bus.na, bus.ns, pna);
    }
  }

  lemma UpTogether(v: nat, w: nat, bus: Bus, pna: nat)
    requires v < U64 && w < U64 && bus.na > 0 && SameEntry(v, w, bus, pna) && Fits(v, bus, pna) && Fits(w, bus, pna)
    ensures Up(v, bus, pna).value - Up(w, bus, pna).value == v - w
  {
    UpFits(v, bus, pna);
    UpFits(w, bus, pna);
    PlacedTogether(v, w, bus, pna);
  }

  lemma {:induction false} HitMaps(da: nat, cells: seq<Cell>, i: nat, na: nat, ns: nat, pna: nat)
    requires da < U64 && na > 0 && Hit(da, cells, i, na, ns, pna).Some?
    ensures var k := Hit(da, cells, i, na, ns, pna).value;
      Map(da, cells[k..], na, ns, pna) == da - Number(cells[k..][..na])
    decreases |cells| - i
  {
    if Map(da, cells[i..], na, ns, pna) == BAD_ADDR {
      HitMaps(da, cells, i + EntrySize(na, ns, pna), na, ns, pna);
    }
  }

  /** Two addresses keep their distance through any number of levels. */
  lemma {:induction false} WalkTogether(buses: seq<Bus>, i: nat, v: nat, w: nat)
    requires i < |buses| && v < U64 && w < U64 && Counts(buses[i]) && Together(buses, i, v, w)
    ensures Walk(buses, i, v) - Walk(buses, i, w) == v - w
    decreases |buses| - i
  {
    if i + 1 < |buses| {
      UpTogether(v, w, buses[i], buses[i + 1].na);
      WalkTogether(buses, i + 1, Up(v, buses[i], buses[i + 1].na).value, Up(w, buses[i], buses[i + 1].na).value);
    }
  }
}
