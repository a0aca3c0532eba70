/** The property names of utils/battery_data.js, kept apart so that their distinctness is proved on its own. */
module BatteryKeys {
  import opened JsString

  /** The record's own properties, in the order `getSnapshot` lists them. */
  const Keys: seq<string> := [
    "totalVoltage", "voltageDiff", "ycbh", "lowestString", "minVoltage", "highestString",
    "maxVoltage", "current", "ratio", "capacity", "totalCapacity", "cycleCapacity",
    "averageVoltage", "power", "mosTemperature", "balanceTemperature", "temperatures",
    "chip1Temperature", "chip2Temperature", "gzys", "voltages", "chargingStatus",
    "dischargingStatus", "balancingStatus", "balanceStatus", "totalStrings"
  ]

  /** Distinctness, split by the position of the first name compared. */
  lemma KeysDistinctFrom(lo: nat, hi: nat)
    requires hi <= lo + 4
    ensures forall i, j :: lo <= i < hi && i < j < |Keys| ==> Keys[i] != Keys[j]
  {
  }

  lemma KeysDistinct()
    ensures Distinct(Keys)
  {
    KeysDistinctFrom(0, 4);
    KeysDistinctFrom(4, 8);
    KeysDistinctFrom(8, 12);
    KeysDistinctFrom(12, 16);
    KeysDistinctFrom(16, 20);
    KeysDistinctFrom(20, 24);
    KeysDistinctFrom(24, 26);
  }
}

/**
 * utils/battery_data.js: the telemetry record shared by the session engine. Its properties are
 * assigned in place; `getSnapshot` copies them into a plain object.
 */
module BatteryDataModel {
  import opened Options
  import opened JsString
  import opened BatteryKeys

  /** A property value, tagged with the shape the record gives that property. */
  datatype Value =
    | Number(x: real)
    | Integer(n: int)
    | Flag(b: Option<bool>)
    | Numbers(xs: seq<real>)
    | Bytes(bs: seq<nat>)

  /** Which of the shapes a value has. */
  function Shape(v: Value): nat {
    match v
    case Number(_) => 0
    case Integer(_) => 1
    case Flag(_) => 2
    case Numbers(_) => 3
    case Bytes(_) => 4
  }


  /**
   * The record's abstract value: the values of its properties, in `Keys` order. A status flag is
   * `None` when it holds `undefined`.
   */
  type Record = seq<Value>

  /** `new Array(n).fill(0)` */
  function Zeros(n: nat): (z: seq<real>)
    ensures |z| == n && forall i :: 0 <= i < n ==> z[i] == 0.0
  {
    seq(n, _ => 0.0)
  }

  function ZeroBytes(n: nat): (z: seq<nat>)
    ensures |z| == n && forall i :: 0 <= i < n ==> z[i] == 0
  {
    seq(n, _ => 0)
  }

  /** The values the constructor and `reset` assign. */
  const Defaults: Record := [
    Number(0.0), Number(0.0), Number(0.0), Integer(0), Number(0.0), Integer(0), Number(0.0),
    Number(0.0), Number(0.0), Number(0.0), Number(0.0), Number(0.0), Number(0.0), Number(0.0),
    Number(0.0), Number(0.0), Numbers([0.0, 0.0, 0.0, 0.0]), Number(0.0), Number(0.0), Integer(0),
    Numbers(Zeros(252)), Flag(Some(false)), Flag(Some(false)), Flag(Some(false)),
    Bytes(ZeroBytes(42)), Integer(252)
  ]

  /** The shape of each property, in `Keys` order. */
  const Shapes: seq<nat> := [
    0, 0, 0, 1, 0, 1, 0, 0, 0, 0, 0, 0, 0, 0, 0, 0, 3, 0, 0, 1, 3, 2, 2, 2, 4, 1
  ]

  /** A record whose every property has its declared shape. */
  predicate WellShaped(r: Record) {
    |r| == |Keys| && |Shapes| == |Keys| && forall i :: 0 <= i < |r| ==> Shape(r[i]) == Shapes[i]
  }

  /** `hasOwnProperty(key)`: the position of the property a key names. */
  function FieldOf(key: string): (i: Option<nat>)
    ensures i.Some? ==> i.value < |Keys| && Keys[i.value] == key
    ensures i.None? <==> key !in Keys
  {
    FindIndex(Keys, key)
  }

  /** A value may be stored under `key` if it has the property's shape; any name the record lacks takes anything. */
  predicate Fits(key: string, v: Value) {
    |Shapes| == |Keys| && (FieldOf(key).Some? ==> Shape(v) == Shapes[FieldOf(key).value])
  }

  /** `if (this.hasOwnProperty(key)) this[key] = value` */
  function SetKey(r: Record, key: string, v: Value): (r': Record)
    requires |r| == |Keys|
    ensures |r'| == |r|
    ensures FieldOf(key).None? ==> r' == r
    ensures FieldOf(key).Some? ==> r'[FieldOf(key).value] == v
    ensures forall i :: 0 <= i < |r| && Some(i) != FieldOf(key) ==> r'[i] == r[i]
  {
    match FieldOf(key)
    case None => r
    case Some(i) => r[i := v]
  }

  lemma ShapesCount()
    ensures |Shapes| == |Keys|
  {
  }

  /** Every property's own name finds it. */
  lemma FieldOfKey(i: nat)
    requires i < |Keys|
    ensures FieldOf(Keys[i]) == Some(i)
  {
    KeysDistinct();
    FindIndexDistinct(Keys, i);
  }

  /** The guarded assignment loop of `updateMultiple` and `restoreFromSnapshot`, entry by entry. */
  function ApplyAll(r: Record, entries: seq<(string, Value)>): (r': Record)
    requires |r| == |Keys|
    ensures |r'| == |r|
    decreases |entries|
  {
    if entries == [] then r
    else
      var last := entries[|entries| - 1];
      SetKey(ApplyAll(r, entries[..|entries| - 1]), last.0, last.1)
  }

  /** The value of the last entry named `key`, if any. */
  function LastFor(entries: seq<(string, Value)>, key: string): Option<Value>
    decreases |entries|
  {
    if entries == [] then None
    else if entries[|entries| - 1].0 == key then Some(entries[|entries| - 1].1)
    else LastFor(entries[..|entries| - 1], key)
  }

  /** A name finds exactly the property it is the name of. */
  lemma FieldOfIs(key: string, i: nat)
    requires i < |Keys|
    ensures FieldOf(key) == Some(i) <==> key == Keys[i]
  {
    FieldOfKey(i);
  }

  /** After the loop, a property holds the value of the last entry naming it, or its old value. */
  lemma {:induction false} ApplyAllAt(r: Record, entries: seq<(string, Value)>, i: nat)
    requires |r| == |Keys| && i < |r|
    ensures ApplyAll(r, entries)[i] == LastFor(entries, Keys[i]).GetOr(r[i])
    decreases |entries|
  {
    if entries != [] {
      FieldOfIs(entries[|entries| - 1].0, i);
      ApplyAllAt(r, entries[..|entries| - 1], i);
    }
  }

  /** Entries with names the record does not have change nothing. */
  lemma {:induction false} ApplyAllUnknown(r: Record, entries: seq<(string, Value)>)
    requires |r| == |Keys|
    requires forall j :: 0 <= j < |entries| ==> entries[j].0 !in Keys
    ensures ApplyAll(r, entries) == r
    decreases |entries|
  {
    if entries != [] {
      var init := entries[..|entries| - 1];
      assert forall j :: 0 <= j < |init| ==> init[j] == entries[j];
      ApplyAllUnknown(r, init);
    }
  }

  /** Applying entries whose values fit keeps every property's shape. */
  lemma {:induction false} ApplyAllShaped(r: Record, entries: seq<(string, Value)>)
    requires WellShaped(r)
    requires forall j :: 0 <= j < |entries| ==> Fits(entries[j].0, entries[j].1)
    ensures WellShaped(ApplyAll(r, entries))
    decreases |entries|
  {
    if entries != [] {
      var init := entries[..|entries| - 1];
      assert forall j :: 0 <= j < |init| ==> init[j] == entries[j];
      ApplyAllShaped(r, init);
    }
  }

  /** `getSnapshot()`: a plain object with every property, as its entries in `Object.entries` order. */
  function Entries(r: Record): (e: seq<(string, Value)>)
    requires |r| == |Keys|
    ensures |e| == |Keys|
    ensures forall i :: 0 <= i < |e| ==> e[i] == (Keys[i], r[i])
  {
    seq(|Keys|, i requires 0 <= i < |Keys| => (Keys[i], r[i]))
  }

  /** In entries named by distinct names, the last entry with a given name is the only one. */
  lemma {:induction false} LastForDistinct(e: seq<(string, Value)>, i: nat)
    requires i < |e| && forall j, k :: 0 <= j < k < |e| ==> e[j].0 != e[k].0
    ensures LastFor(e, e[i].0) == Some(e[i].1)
    decreases |e|
  {
    if i < |e| - 1 {
      var init := e[..|e| - 1];
      assert forall j :: 0 <= j < |init| ==> init[j] == e[j];
      LastForDistinct(init, i);
    }
  }

  /** A snapshot names each property once. */
  lemma EntriesNamesDistinct(r: Record)
    requires |r| == |Keys|
    ensures forall j, k :: 0 <= j < k < |Entries(r)| ==> Entries(r)[j].0 != Entries(r)[k].0
  {
    KeysDistinct();
  }

  /** Restoring from a snapshot brings back every property of the snapshot, whatever the record held. */
  lemma RestoreSnapshot(current: Record, saved: Record)
    requires |current| == |Keys| && |saved| == |Keys|
    ensures ApplyAll(current, Entries(saved)) == saved
  {
    var e := Entries(saved);
    EntriesNamesDistinct(saved);
    var r := ApplyAll(current, e);
    forall i | 0 <= i < |r| ensures r[i] == saved[i] {
      LastForDistinct(e, i);
      ApplyAllAt(current, e, i);
    }
  }

  /** A record built from the properties' own values has every property's shape. */
  lemma DefaultsShaped()
    ensures WellShaped(Defaults)
  {
  }

  /** `2 ** k` */
  function Pow2(k: nat): (p: nat)
    ensures p >= 1
  {
    if k == 0 then 1 else 2 * Pow2(k - 1)
  }

  /** `(byte >> bit) & 1` is 1 (for a byte, which fits the 32-bit shift). */
  predicate BitSet(b: nat, bit: nat) {
    (b / Pow2(bit)) % 2 == 1
  }

  /** String `n` (1-based) is reported as balancing: bit `(n-1) % 8` of byte `(n-1) / 8` is set and `n <= 24`. */
  predicate Balancing(bs: seq<nat>, n: nat) {
    1 <= n <= 24 && n <= 8 * |bs| && BitSet(bs[(n - 1) / 8], (n - 1) % 8)
  }

  /** The balancing strings among `1..m`, in increasing order. */
  function BalancingUpTo(bs: seq<nat>, m: nat): seq<nat> {
    if m == 0 then [] else BalancingUpTo(bs, m - 1) + (if Balancing(bs, m) then [m] else [])
  }

  /** `getBalancingStrings` reports exactly the strings whose bit is set, up to string 24. */
  lemma {:induction false} BalancingUpToMembers(bs: seq<nat>, m: nat, n: nat)
    ensures n in BalancingUpTo(bs, m) <==> 1 <= n <= m && Balancing(bs, n)
  {
    if m > 0 {
      BalancingUpToMembers(bs, m - 1, n);
    }
  }

  /** ... in strictly increasing order, each one at most `m`. */
  lemma {:induction false} BalancingUpToSorted(bs: seq<nat>, m: nat)
    ensures forall i :: 0 <= i < |BalancingUpTo(bs, m)| ==> 1 <= BalancingUpTo(bs, m)[i] <= m
    ensures forall i, j :: 0 <= i < j < |BalancingUpTo(bs, m)| ==> BalancingUpTo(bs, m)[i] < BalancingUpTo(bs, m)[j]
  {
    if m > 0 {
      BalancingUpToSorted(bs, m - 1);
    }
  }

  /** At most 24 strings are reported, whatever the length of the status bytes. */
  lemma {:induction false} BalancingUpToBound(bs: seq<nat>, m: nat)
    ensures |BalancingUpTo(bs, m)| <= if m < 24 then m else 24
  {
    if m > 0 {
      BalancingUpToBound(bs, m - 1);
      if m > 24 {
        assert !Balancing(bs, m);
      }
    }
  }

  /**
   * Eight strings per status byte: bit 6 of the first byte is string 7. (The comment beside the
   * 42-byte array speaks of six strings per byte; the loop reads eight.)
   */
  lemma BalancingEightPerByte()
    ensures BalancingUpTo([64], 8) == [7]
  {
    assert Pow2(6) == 64;
    assert BalancingUpTo([64], 6) == [];
  }

  /** A set bit beyond string 24 is dropped: bit 0 of the fourth byte would be string 25. */
  lemma BalancingBeyondTwentyFour(bs: seq<nat>)
    requires |bs| == 4 && bs[0] == 0 && bs[1] == 0 && bs[2] == 0 && bs[3] % 2 == 1
    ensures BalancingUpTo(bs, 32) == []
  {
    var r := BalancingUpTo(bs, 32);
    if r != [] {
      var n := r[0];
      assert n in r;
      BalancingUpToMembers(bs, 32, n);
      ZeroByteBits(bs[(n - 1) / 8], (n - 1) % 8);
      assert false;
    }
  }

  lemma ZeroByteBits(b: nat, bit: nat)
    requires b == 0
    ensures !BitSet(b, bit)
  {
  }

  /** Assigning inside one part of a concatenation. */
  lemma UpdateLeft(b: seq<Value>, c: seq<Value>, j: nat, v: Value)
    requires j < |b|
    ensures b[j := v] + c == (b + c)[j := v]
  {
  }

  lemma UpdateRight(a: seq<Value>, s: seq<Value>, k: nat, v: Value)
    requires k < |s|
    ensures a + s[k := v] == (a + s)[|a| + k := v]
  {
  }

  /** The defaults, group by group. */
  lemma DefaultsGrouped()
    ensures Defaults == [Number(0.0), Number(0.0), Number(0.0)] + ([Integer(0), Number(0.0), Integer(0), Number(0.0)] + ([Number(0.0), Number(0.0), Number(0.0), Number(0.0), Number(0.0), Number(0.0)] + ([Number(0.0), Number(0.0), Number(0.0), Numbers([0.0, 0.0, 0.0, 0.0]), Number(0.0), Number(0.0)] + ([Integer(0), Numbers(Zeros(252)), Flag(Some(false)), Flag(Some(false)), Flag(Some(false))] + [Bytes(ZeroBytes(42)), Integer(252)]))))
  {
  }

  /** One assignment, seen on the whole record and on the group holding the property. */
  lemma Splice(g0: seq<Value>, g1: seq<Value>, g2: seq<Value>, g3: seq<Value>, g4: seq<Value>, g5: seq<Value>, h0: seq<Value>, h1: seq<Value>, h2: seq<Value>, h3: seq<Value>, h4: seq<Value>, h5: seq<Value>, i: nat, v: Value)
    requires |g0| == 3 && |g1| == 4 && |g2| == 6 && |g3| == 6 && |g4| == 5 && |g5| == 2
    requires i < 26
    requires h0 == (if 0 <= i < 3 then g0[i - 0 := v] else g0) && h1 == (if 3 <= i < 7 then g1[i - 3 := v] else g1) && h2 == (if 7 <= i < 13 then g2[i - 7 := v] else g2) && h3 == (if 13 <= i < 19 then g3[i - 13 := v] else g3) && h4 == (if 19 <= i < 24 then g4[i - 19 := v] else g4) && h5 == (if 24 <= i < 26 then g5[i - 24 := v] else g5)
    ensures h0 + (h1 + (h2 + (h3 + (h4 + h5)))) == (g0 + (g1 + (g2 + (g3 + (g4 + g5)))))[i := v]
  {
    if i < 3 {
      UpdateLeft(g0, g1 + (g2 + (g3 + (g4 + g5))), i, v);
    } else if i < 7 {
      UpdateLeft(g1, g2 + (g3 + (g4 + g5)), i - 3, v);
      UpdateRight(g0, g1 + (g2 + (g3 + (g4 + g5))), i - 3, v);
    } else if i < 13 {
      UpdateLeft(g2, g3 + (g4 + g5), i - 7, v);
      UpdateRight(g1, g2 + (g3 + (g4 + g5)), i - 7, v);
      UpdateRight(g0, g1 + (g2 + (g3 + (g4 + g5))), i - 3, v);
    } else if i < 19 {
      UpdateLeft(g3, g4 + g5, i - 13, v);
      UpdateRight(g2, g3 + (g4 + g5), i - 13, v);
      UpdateRight(g1, g2 + (g3 + (g4 + g5)), i - 7, v);
      UpdateRight(g0, g1 + (g2 + (g3 + (g4 + g5))), i - 3, v);
    } else if i < 24 {
      UpdateLeft(g4, g5, i - 19, v);
      UpdateRight(g3, g4 + g5, i - 19, v);
      UpdateRight(g2, g3 + (g4 + g5), i - 13, v);
      UpdateRight(g1, g2 + (g3 + (g4 + g5)), i - 7, v);
      UpdateRight(g0, g1 + (g2 + (g3 + (g4 + g5))), i - 3, v);
    } else {
      UpdateRight(g4, g5, i - 24, v);
      UpdateRight(g3, g4 + g5, i - 19, v);
      UpdateRight(g2, g3 + (g4 + g5), i - 13, v);
      UpdateRight(g1, g2 + (g3 + (g4 + g5)), i - 7, v);
      UpdateRight(g0, g1 + (g2 + (g3 + (g4 + g5))), i - 3, v);
    }
  }

  /** The record object. `updates` counts the `update()` notifications sent to the registered callback. */
  class BatteryData {
    var totalVoltage: real
    var voltageDiff: real
    var ycbh: real
    var lowestString: int
    var minVoltage: real
    var highestString: int
    var maxVoltage: real
    var current: real
    var ratio: real
    var capacity: real
    var totalCapacity: real
    var cycleCapacity: real
    var averageVoltage: real
    var power: real
    var mosTemperature: real
    var balanceTemperature: real
    var temperatures: seq<real>
    var chip1Temperature: real
    var chip2Temperature: real
    var gzys: int
    var voltages: seq<real>
    var chargingStatus: Option<bool>
    var dischargingStatus: Option<bool>
    var balancingStatus: Option<bool>
    var balanceStatus: seq<nat>
    var totalStrings: int
    var updates: nat

    /** The voltage readings. */
    function VoltageGroup(): (g: seq<Value>)
      reads this`totalVoltage, this`voltageDiff, this`ycbh
      ensures |g| == 3
    {
      [Number(totalVoltage), Number(voltageDiff), Number(ycbh)]
    }

    /** The extreme cells. */
    function StringGroup(): (g: seq<Value>)
      reads this`lowestString, this`minVoltage, this`highestString, this`maxVoltage
      ensures |g| == 4
    {
      [Integer(lowestString), Number(minVoltage), Integer(highestString), Number(maxVoltage)]
    }

    /** The current and capacity. */
    function CurrentGroup(): (g: seq<Value>)
      reads this`current, this`ratio, this`capacity, this`totalCapacity, this`cycleCapacity, this`averageVoltage
      ensures |g| == 6
    {
      [Number(current), Number(ratio), Number(capacity), Number(totalCapacity), Number(cycleCapacity), Number(averageVoltage)]
    }

    /** The power and temperatures. */
    function TemperatureGroup(): (g: seq<Value>)
      reads this`power, this`mosTemperature, this`balanceTemperature, this`temperatures, this`chip1Temperature, this`chip2Temperature
      ensures |g| == 6
    {
      [Number(power), Number(mosTemperature), Number(balanceTemperature), Numbers(temperatures), Number(chip1Temperature), Number(chip2Temperature)]
    }

    /** The fault countdown, cell voltages and switch states. */
    function StatusGroup(): (g: seq<Value>)
      reads this`gzys, this`voltages, this`chargingStatus, this`dischargingStatus, this`balancingStatus
      ensures |g| == 5
    {
      [Integer(gzys), Numbers(voltages), Flag(chargingStatus), Flag(dischargingStatus), Flag(balancingStatus)]
    }

    /** The balancing bytes and string count. */
    function BalanceGroup(): (g: seq<Value>)
      reads this`balanceStatus, this`totalStrings
      ensures |g| == 2
    {
      [Bytes(balanceStatus), Integer(totalStrings)]
    }

    /** The record's properties, in `Keys` order. */
    function Record(): (r: Record)
      reads this
      ensures |r| == 26
      ensures r[16].Numbers? && r[20].Numbers? && r[24].Bytes?
    {
      VoltageGroup() + (StringGroup() + (CurrentGroup() + (TemperatureGroup() + (StatusGroup() + BalanceGroup()))))
    }

    /** Whatever the properties hold, the record is well shaped. */
    lemma RecordShaped()
      ensures WellShaped(Record())
    {
    }

    /** The list, count and countdown properties sit at their places in the record. */
    lemma FieldsInRecord()
      ensures Record()[16] == Numbers(temperatures) && Record()[19] == Integer(gzys) && Record()[20] == Numbers(voltages)
      ensures Record()[24] == Bytes(balanceStatus) && Record()[25] == Integer(totalStrings)
    {
    }

    constructor()
      ensures Record() == Defaults && updates == 0
    {
      totalVoltage := 0.0;
      voltageDiff := 0.0;
      ycbh := 0.0;
      lowestString := 0;
      minVoltage := 0.0;
      highestString := 0;
      maxVoltage := 0.0;
      current := 0.0;
      ratio := 0.0;
      capacity := 0.0;
      totalCapacity := 0.0;
      cycleCapacity := 0.0;
      averageVoltage := 0.0;
      power := 0.0;
      mosTemperature := 0.0;
      balanceTemperature := 0.0;
      temperatures := [0.0, 0.0, 0.0, 0.0];
      chip1Temperature := 0.0;
      chip2Temperature := 0.0;
      gzys := 0;
      voltages := Zeros(252);
      chargingStatus := Some(false);
      dischargingStatus := Some(false);
      balancingStatus := Some(false);
      balanceStatus := ZeroBytes(42);
      totalStrings := 252;
      updates := 0;
    }

    /** `this[Keys[0 + j]] = v`, for a property of this group. */
    method AssignVoltageGroup(j: nat, v: Value)
      requires j < 3 && |Shapes| == 26 && Shape(v) == Shapes[j]
      modifies this`totalVoltage, this`voltageDiff, this`ycbh
      ensures Record() == old(Record())[j := v]
    {
      ghost var g0, g1, g2, g3, g4, g5 := VoltageGroup(), StringGroup(), CurrentGroup(), TemperatureGroup(), StatusGroup(), BalanceGroup();
      if j == 0 {
        totalVoltage := v.x;
      } else if j == 1 {
        voltageDiff := v.x;
      } else {
        ycbh := v.x;
      }
      Splice(g0, g1, g2, g3, g4, g5, VoltageGroup(), StringGroup(), CurrentGroup(), TemperatureGroup(), StatusGroup(), BalanceGroup(), j, v);
    }

    method ResetVoltageGroup()
      modifies this`totalVoltage, this`voltageDiff, this`ycbh
      ensures totalVoltage == 0.0 && voltageDiff == 0.0 && ycbh == 0.0
    {
      totalVoltage := 0.0;
      voltageDiff := 0.0;
      ycbh := 0.0;
    }

    /** `this[Keys[3 + j]] = v`, for a property of this group. */
    method AssignStringGroup(j: nat, v: Value)
      requires j < 4 && |Shapes| == 26 && Shape(v) == Shapes[3 + j]
      modifies this`lowestString, this`minVoltage, this`highestString, this`maxVoltage
      ensures Record() == old(Record())[3 + j := v]
    {
      ghost var g0, g1, g2, g3, g4, g5 := VoltageGroup(), StringGroup(), CurrentGroup(), TemperatureGroup(), StatusGroup(), BalanceGroup();
      if j == 0 {
        lowestString := v.n;
      } else if j == 1 {
        minVoltage := v.x;
      } else if j == 2 {
        highestString := v.n;
      } else {
        maxVoltage := v.x;
      }
      Splice(g0, g1, g2, g3, g4, g5, VoltageGroup(), StringGroup(), CurrentGroup(), TemperatureGroup(), StatusGroup(), BalanceGroup(), 3 + j, v);
    }

    method ResetStringGroup()
      modifies this`lowestString, this`minVoltage, this`highestString, this`maxVoltage
      ensures lowestString == 0 && minVoltage == 0.0 && highestString == 0 && maxVoltage == 0.0
    {
      lowestString := 0;
      minVoltage := 0.0;
      highestString := 0;
      maxVoltage := 0.0;
    }

    /** `this[Keys[7 + j]] = v`, for a property of this group. */
    method AssignCurrentGroup(j: nat, v: Value)
      requires j < 6 && |Shapes| == 26 && Shape(v) == Shapes[7 + j]
      modifies this`current, this`ratio, this`capacity, this`totalCapacity, this`cycleCapacity, this`averageVoltage
      ensures Record() == old(Record())[7 + j := v]
    {
      ghost var g0, g1, g2, g3, g4, g5 := VoltageGroup(), StringGroup(), CurrentGroup(), TemperatureGroup(), StatusGroup(), BalanceGroup();
      if j == 0 {
        current := v.x;
      } else if j == 1 {
        ratio := v.x;
      } else if j == 2 {
        capacity := v.x;
      } else if j == 3 {
        totalCapacity := v.x;
      } else if j == 4 {
        cycleCapacity := v.x;
      } else {
        averageVoltage := v.x;
      }
      Splice(g0, g1, g2, g3, g4, g5, VoltageGroup(), StringGroup(), CurrentGroup(), TemperatureGroup(), StatusGroup(), BalanceGroup(), 7 + j, v);
    }

    method ResetCurrentGroup()
      modifies this`current, this`ratio, this`capacity, this`totalCapacity, this`cycleCapacity, this`averageVoltage
      ensures current == 0.0 && ratio == 0.0 && capacity == 0.0 && totalCapacity == 0.0 && cycleCapacity == 0.0 && averageVoltage == 0.0
    {
      current := 0.0;
      ratio := 0.0;
      capacity := 0.0;
      totalCapacity := 0.0;
      cycleCapacity := 0.0;
      averageVoltage := 0.0;
    }

    /** `this[Keys[13 + j]] = v`, for a property of this group. */
    method AssignTemperatureGroup(j: nat, v: Value)
      requires j < 6 && |Shapes| == 26 && Shape(v) == Shapes[13 + j]
      modifies this`power, this`mosTemperature, this`balanceTemperature, this`temperatures, this`chip1Temperature, this`chip2Temperature
      ensures Record() == old(Record())[13 + j := v]
    {
      ghost var g0, g1, g2, g3, g4, g5 := VoltageGroup(), StringGroup(), CurrentGroup(), TemperatureGroup(), StatusGroup(), BalanceGroup();
      if j == 0 {
        power := v.x;
      } else if j == 1 {
        mosTemperature := v.x;
      } else if j == 2 {
        balanceTemperature := v.x;
      } else if j == 3 {
        temperatures := v.xs;
      } else if j == 4 {
        chip1Temperature := v.x;
      } else {
        chip2Temperature := v.x;
      }
      Splice(g0, g1, g2, g3, g4, g5, VoltageGroup(), StringGroup(), CurrentGroup(), TemperatureGroup(), StatusGroup(), BalanceGroup(), 13 + j, v);
    }

    method ResetTemperatureGroup()
      modifies this`power, this`mosTemperature, this`balanceTemperature, this`temperatures, this`chip1Temperature, this`chip2Temperature
      ensures power == 0.0 && mosTemperature == 0.0 && balanceTemperature == 0.0 && temperatures == [0.0, 0.0, 0.0, 0.0] && chip1Temperature == 0.0 && chip2Temperature == 0.0
    {
      power := 0.0;
      mosTemperature := 0.0;
      balanceTemperature := 0.0;
      temperatures := [0.0, 0.0, 0.0, 0.0];
      chip1Temperature := 0.0;
      chip2Temperature := 0.0;
    }

    /** `this[Keys[19 + j]] = v`, for a property of this group. */
    method AssignStatusGroup(j: nat, v: Value)
      requires j < 5 && |Shapes| == 26 && Shape(v) == Shapes[19 + j]
      modifies this`gzys, this`voltages, this`chargingStatus, this`dischargingStatus, this`balancingStatus
      ensures Record() == old(Record())[19 + j := v]
    {
      ghost var g0, g1, g2, g3, g4, g5 := VoltageGroup(), StringGroup(), CurrentGroup(), TemperatureGroup(), StatusGroup(), BalanceGroup();
      if j == 0 {
        gzys := v.n;
      } else if j == 1 {
        voltages := v.xs;
      } else if j == 2 {
        chargingStatus := v.b;
      } else if j == 3 {
        dischargingStatus := v.b;
      } else {
        balancingStatus := v.b;
      }
      Splice(g0, g1, g2, g3, g4, g5, VoltageGroup(), StringGroup(), CurrentGroup(), TemperatureGroup(), StatusGroup(), BalanceGroup(), 19 + j, v);
    }

    method ResetStatusGroup()
      modifies this`gzys, this`voltages, this`chargingStatus, this`dischargingStatus, this`balancingStatus
      ensures gzys == 0 && voltages == Zeros(252) && chargingStatus == Some(false) && dischargingStatus == Some(false) && balancingStatus == Some(false)
    {
      gzys := 0;
      voltages := Zeros(252);
      chargingStatus := Some(false);
      dischargingStatus := Some(false);
      balancingStatus := Some(false);
    }

    /** `this[Keys[24 + j]] = v`, for a property of this group. */
    method AssignBalanceGroup(j: nat, v: Value)
      requires j < 2 && |Shapes| == 26 && Shape(v) == Shapes[24 + j]
      modifies this`balanceStatus, this`totalStrings
      ensures Record() == old(Record())[24 + j := v]
    {
      ghost var g0, g1, g2, g3, g4, g5 := VoltageGroup(), StringGroup(), CurrentGroup(), TemperatureGroup(), StatusGroup(), BalanceGroup();
      if j == 0 {
        balanceStatus := v.bs;
      } else {
        totalStrings := v.n;
      }
      Splice(g0, g1, g2, g3, g4, g5, VoltageGroup(), StringGroup(), CurrentGroup(), TemperatureGroup(), StatusGroup(), BalanceGroup(), 24 + j, v);
    }

    method ResetBalanceGroup()
      modifies this`balanceStatus, this`totalStrings
      ensures balanceStatus == ZeroBytes(42) && totalStrings == 252
    {
      balanceStatus := ZeroBytes(42);
      totalStrings := 252;
    }

    /** `this[Keys[i]] = v` */
    method Assign(i: nat, v: Value)
      requires i < 26 && |Shapes| == 26 && Shape(v) == Shapes[i]
      modifies this
      ensures Record() == old(Record())[i := v] && updates == old(updates)
    {
      if i < 3 {
        AssignVoltageGroup(i, v);
      } else if i < 7 {
        AssignStringGroup(i - 3, v);
      } else if i < 13 {
        AssignCurrentGroup(i - 7, v);
      } else if i < 19 {
        AssignTemperatureGroup(i - 13, v);
      } else if i < 24 {
        AssignStatusGroup(i - 19, v);
      } else {
        AssignBalanceGroup(i - 24, v);
      }
    }

    /** `if (this.hasOwnProperty(key)) this[key] = value` */
    method SetProperty(key: string, v: Value)
      requires Fits(key, v)
      modifies this
      ensures Record() == SetKey(old(Record()), key, v) && updates == old(updates)
    {
      match FieldOf(key) {
        case None =>
        case Some(i) => Assign(i, v);
      }
    }

    /** `updateProperty(key, value)`: assigns an own property and notifies; any other name is ignored. */
    method UpdateProperty(key: string, v: Value)
      requires Fits(key, v)
      modifies this
      ensures Record() == SetKey(old(Record()), key, v)
      ensures updates == if key in Keys then old(updates) + 1 else old(updates)
    {
      SetProperty(key, v);
      if key in Keys {
        updates := updates + 1;
      }
    }

    /** The loop shared by `updateMultiple` and `restoreFromSnapshot`. */
    method AssignAll(entries: seq<(string, Value)>)
      requires forall j :: 0 <= j < |entries| ==> Fits(entries[j].0, entries[j].1)
      modifies this
      ensures Record() == ApplyAll(old(Record()), entries) && updates == old(updates)
    {
      ghost var start := Record();
      var k := 0;
      while k < |entries|
        invariant k <= |entries|
        invariant Record() == ApplyAll(start, entries[..k]) && updates == old(updates)
      {
        var (key, v) := entries[k];
        SetProperty(key, v);
        assert entries[..k + 1][..k] == entries[..k];
        k := k + 1;
      }
      assert entries[..k] == entries;
    }

    /** `updateMultiple(updates)`: every own property named, the last entry winning, then one notification. */
    method UpdateMultiple(entries: seq<(string, Value)>)
      requires forall j :: 0 <= j < |entries| ==> Fits(entries[j].0, entries[j].1)
      modifies this
      ensures Record() == ApplyAll(old(Record()), entries) && updates == old(updates) + 1
    {
      AssignAll(entries);
      updates := updates + 1;
    }

    /** `restoreFromSnapshot(snapshot)`: as `updateMultiple`, without a notification. */
    method RestoreFromSnapshot(snapshot: seq<(string, Value)>)
      requires forall j :: 0 <= j < |snapshot| ==> Fits(snapshot[j].0, snapshot[j].1)
      modifies this
      ensures Record() == ApplyAll(old(Record()), snapshot) && updates == old(updates)
    {
      AssignAll(snapshot);
    }

    /** `reset()`: every property back to its constructor value, with no notification. */
    method Reset()
      modifies this
      ensures Record() == Defaults && updates == old(updates)
    {
      ResetReadings();
      ResetStates();
      RecordAtDefaults();
    }

    /** The voltage, cell and current readings of `reset()`. */
    method ResetReadings()
      modifies this`totalVoltage, this`voltageDiff, this`ycbh, this`lowestString, this`minVoltage, this`highestString, this`maxVoltage, this`current, this`ratio, this`capacity, this`totalCapacity, this`cycleCapacity, this`averageVoltage
      ensures totalVoltage == 0.0 && voltageDiff == 0.0 && ycbh == 0.0 && lowestString == 0 && minVoltage == 0.0 && highestString == 0 && maxVoltage == 0.0 && current == 0.0 && ratio == 0.0 && capacity == 0.0 && totalCapacity == 0.0 && cycleCapacity == 0.0 && averageVoltage == 0.0
    {
      ResetVoltageGroup();
      ResetStringGroup();
      ResetCurrentGroup();
    }

    /** The temperatures, states and balancing bytes of `reset()`. */
    method ResetStates()
      modifies this`power, this`mosTemperature, this`balanceTemperature, this`temperatures, this`chip1Temperature, this`chip2Temperature, this`gzys, this`voltages, this`chargingStatus, this`dischargingStatus, this`balancingStatus, this`balanceStatus, this`totalStrings
      ensures power == 0.0 && mosTemperature == 0.0 && balanceTemperature == 0.0 && temperatures == [0.0, 0.0, 0.0, 0.0] && chip1Temperature == 0.0 && chip2Temperature == 0.0 && gzys == 0 && voltages == Zeros(252) && chargingStatus == Some(false) && dischargingStatus == Some(false) && balancingStatus == Some(false) && balanceStatus == ZeroBytes(42) && totalStrings == 252
    {
      ResetTemperatureGroup();
      ResetStatusGroup();
      ResetBalanceGroup();
    }

    /** The record is at its defaults when every group is. */
    lemma RecordAtDefaults()
      requires totalVoltage == 0.0 && voltageDiff == 0.0 && ycbh == 0.0 && lowestString == 0 && minVoltage == 0.0 && highestString == 0 && maxVoltage == 0.0 && current == 0.0 && ratio == 0.0 && capacity == 0.0 && totalCapacity == 0.0 && cycleCapacity == 0.0 && averageVoltage == 0.0 && power == 0.0 && mosTemperature == 0.0 && balanceTemperature == 0.0 && temperatures == [0.0, 0.0, 0.0, 0.0] && chip1Temperature == 0.0 && chip2Temperature == 0.0 && gzys == 0 && voltages == Zeros(252) && chargingStatus == Some(false) && dischargingStatus == Some(false) && balancingStatus == Some(false) && balanceStatus == ZeroBytes(42) && totalStrings == 252
      ensures Record() == Defaults
    {
      DefaultsGrouped();
    }

    /** `getSnapshot()`: a copy of every property, as the entries of a plain object. */
    function GetSnapshot(): (snapshot: seq<(string, Value)>)
      reads this
      ensures |snapshot| == |Keys|
      ensures forall j :: 0 <= j < |snapshot| ==> snapshot[j] == (Keys[j], Record()[j]) && Fits(Keys[j], snapshot[j].1)
    {
      RecordShaped();
      forall j | 0 <= j < |Keys| ensures FieldOf(Keys[j]) == Some(j) {
        FieldOfKey(j);
      }
      Entries(Record())
    }

    /** Restoring the snapshot onto any record, as `restoreFromSnapshot` does, brings back the current one. */
    lemma SnapshotRestores(other: Record)
      requires |other| == |Keys|
      ensures ApplyAll(other, GetSnapshot()) == Record()
    {
      RestoreSnapshot(other, Record());
    }

    /** `showYCBHAlert()`: the cell-voltage spread exceeds a configured, positive protection threshold. */
    function ShowYcbhAlert(): (alert: bool)
      reads this
      ensures alert <==> 0.0 < ycbh < voltageDiff
    {
      voltageDiff > 0.0 && ycbh > 0.0 && voltageDiff > ycbh
    }

    /** `getBalancingStrings()`: walks every bit of every status byte. */
    method GetBalancingStrings() returns (strings: seq<nat>)
      ensures strings == BalancingUpTo(balanceStatus, 8 * |balanceStatus|)
    {
      strings := [];
      var byteIndex := 0;
      while byteIndex < |balanceStatus|
        invariant byteIndex <= |balanceStatus|
        invariant strings == BalancingUpTo(balanceStatus, 8 * byteIndex)
      {
        var b := balanceStatus[byteIndex];
        var bitIndex := 0;
        while bitIndex < 8
          invariant bitIndex <= 8
          invariant strings == BalancingUpTo(balanceStatus, 8 * byteIndex + bitIndex)
        {
          var stringIndex := byteIndex * 8 + (bitIndex + 1);
          assert (stringIndex - 1) / 8 == byteIndex && (stringIndex - 1) % 8 == bitIndex;
          if (b / Pow2(bitIndex)) % 2 == 1 && stringIndex <= 24 {
            strings := strings + [stringIndex];
          }
          bitIndex := bitIndex + 1;
        }
        byteIndex := byteIndex + 1;
      }
    }
  }
}
