/**
 * utils/app_constants.js: the table from a parameter's logical name to the command the battery
 * board uses for it, the reverse lookup, and the parameter units.
 */
module AppConstants {
  import opened Options
  import opened JsString

  /**
   * A static object literal of string properties: its property names in declaration order and,
   * at the same positions, their values.
   */
  datatype Table = Table(names: seq<string>, values: seq<string>) {
    ghost predicate Valid() { |names| == |values| }
  }

  /** `parameterCommandMap`: logical parameter name to board command. */
  const CommandNames: seq<string> := [
    "series_number_setting", "over_voltage_protection", "over_voltage_recovery",
    "under_voltage_recovery", "under_voltage_protection", "probe_high_temp", "probe_recovery_temp",
    "mos_high_temp", "mos_recovery_temp", "balance_voltage_diff", "balance_temperature",
    "battery_capacity", "voltage_diff_balance", "balance_start", "current_limit", "fault_delay",
    "over_current_protection", "charging_over_current", "voltage_diff_protection",
    "current_limit_debounce", "short_circuit_delay", "balance_frequency", "rename_device"
  ]

  const Commands: seq<string> := [
    "CS", "gybh", "gyhf", "qyhf", "qybh", "usergw", "userhf", "mosgw", "moshf", "jhyc", "jhwd",
    "dcrl", "ycjh", "jhqd", "dljd", "gzys", "glbh", "cdgl", "ycbh", "dlxd", "dlys", "jhpl", ""
  ]

  const ParameterCommandMap: Table := Table(CommandNames, Commands)

  const Celsius: string := [0x2103 as char]

  /** `parameterUnitMap`: logical parameter name to display unit. */
  const UnitNames: seq<string> := [
    "series_number_setting", "over_voltage_protection", "over_voltage_recovery",
    "under_voltage_protection", "under_voltage_recovery", "probe_high_temp", "probe_recovery_temp",
    "mos_high_temp", "mos_recovery_temp", "balance_voltage_diff", "balance_temperature",
    "balance_frequency", "battery_capacity", "voltage_diff_balance", "balance_start",
    "current_limit", "fault_delay", "over_current_protection", "charging_over_current",
    "voltage_diff_protection", "current_limit_debounce", "short_circuit_delay", "rename_device"
  ]

  const Units: seq<string> := [
    "S", "V", "V", "V", "V", Celsius, Celsius, Celsius, Celsius, "V", Celsius, "ms", "Ah", "V",
    "V", "A", "s", "A", "A", "V", "A", "us", ""
  ]

  const ParameterUnitMap: Table := Table(UnitNames, Units)

  /** Property access `obj[key]` on an own property; `None` is `undefined`. */
  function Get(t: Table, key: string): (r: Option<string>)
    requires t.Valid()
    ensures r.None? <==> key !in t.names
    ensures r.Some? ==> exists i :: 0 <= i < |t.names| && t.names[i] == key && t.values[i] == r.value
  {
    match FindIndex(t.names, key)
    case None => None
    case Some(i) => Some(t.values[i])
  }

  /** The logical name `getKeyFromCommandMap` finds for a command: the first one mapped to it. */
  function KeyOf(command: string): (r: Option<string>)
    ensures r.None? <==> command !in Commands
    ensures r.Some? ==> exists i :: 0 <= i < |CommandNames| && CommandNames[i] == r.value && Commands[i] == command
  {
    Get(Table(Commands, CommandNames), command)
  }

  /** `getKeyFromCommandMap(value)`: scans the entries in order and returns at the first match. */
  method GetKeyFromCommandMap(value: string) returns (key: Option<string>)
    ensures key == KeyOf(value)
  {
    var i := 0;
    while i < |Commands|
      invariant 0 <= i <= |Commands|
      invariant forall j :: 0 <= j < i ==> Commands[j] != value
    {
      if Commands[i] == value {
        FindIndexFirst(Commands, value, i);
        return Some(CommandNames[i]);
      }
      i := i + 1;
    }
    return None;
  }

  /** No two parameters share a command, and no parameter is listed twice. */
  lemma CommandMapDistinct()
    ensures |CommandNames| == |Commands|
    ensures Distinct(Commands) && Distinct(CommandNames)
  {
    CommandsApart0();
    CommandsApart1();
    CommandsApart01();
    CommandNamesApart0();
    CommandNamesApart1();
    CommandNamesApart2();
    CommandNamesApart01();
    CommandNamesApart02();
    CommandNamesApart12();
  }

  // The blocks of `CommandMapDistinct`, each checked on its own.
  lemma CommandsApart0() ensures Apart(Commands, 0, 12, 0, 12) { }
  lemma CommandsApart1() ensures Apart(Commands, 12, 23, 12, 23) { }
  lemma CommandsApart01() ensures Apart(Commands, 0, 12, 12, 23) { }
  lemma CommandNamesApart0() ensures Apart(CommandNames, 0, 8, 0, 8) { }
  lemma CommandNamesApart1() ensures Apart(CommandNames, 8, 16, 8, 16) { }
  lemma CommandNamesApart2() ensures Apart(CommandNames, 16, 23, 16, 23) { }
  lemma CommandNamesApart01() ensures Apart(CommandNames, 0, 8, 8, 16) { }
  lemma CommandNamesApart02() ensures Apart(CommandNames, 0, 8, 16, 23) { }
  lemma CommandNamesApart12() ensures Apart(CommandNames, 8, 16, 16, 23) { }

  /** No two entries at positions `lo1 <= i < hi1` and `lo2 <= j < hi2`, `i < j`, are equal. */
  predicate Apart(s: seq<string>, lo1: nat, hi1: nat, lo2: nat, hi2: nat) {
    forall i, j :: lo1 <= i < hi1 && lo2 <= j < hi2 && i < j < |s| ==> s[i] != s[j]
  }

  /** The reverse lookup inverts the table: every parameter is found again from its command. */
  lemma KeyOfCommandOf(i: nat)
    requires i < |CommandNames|
    ensures Get(ParameterCommandMap, CommandNames[i]) == Some(Commands[i])
    ensures KeyOf(Commands[i]) == Some(CommandNames[i])
  {
    CommandMapDistinct();
    FindIndexDistinct(CommandNames, i);
    FindIndexDistinct(Commands, i);
  }

  /**
   * `setCommandMap(commandValue, newMap, newValue)`: a fresh map equal to the input, with the
   * parameter that owns the command (if any) set to the new value. The input is a value and is
   * therefore never changed.
   */
  function SetCommandMap(command: string, m: map<string, string>, newValue: string): (r: map<string, string>)
    ensures forall k :: k in r <==> k in m || KeyOf(command) == Some(k)
    ensures forall k :: k in r ==> r[k] == if KeyOf(command) == Some(k) then newValue else m[k]
  {
    SetOwner(m, KeyOf(command), newValue)
  }

  /** The map with the owning parameter, if there is one, set to the new value. */
  function SetOwner(m: map<string, string>, owner: Option<string>, newValue: string): (r: map<string, string>)
    ensures forall k :: k in r <==> k in m || owner == Some(k)
    ensures forall k :: k in r ==> r[k] == if owner == Some(k) then newValue else m[k]
  {
    match owner
    case Some(key) => m[key := newValue]
    case None => m
  }

  /** A command the table does not list leaves the map as it was. */
  lemma SetCommandMapUnknown(command: string, m: map<string, string>, newValue: string)
    requires command !in Commands
    ensures SetCommandMap(command, m, newValue) == m
  {
  }

  /** No command of the table has three letters, and none of four letters has `q` second. */
  lemma NotACommand(c: string)
    requires |c| == 3 || (|c| == 4 && c[1] == 'q')
    ensures c !in Commands
  {
  }

  /** `dqdl` and `ver` are reported by the board but are not in the table. */
  lemma UnlistedCommands(c: string, m: map<string, string>, newValue: string)
    requires c == "dqdl" || c == "ver"
    ensures SetCommandMap(c, m, newValue) == m
  {
    NotACommand(c);
    SetCommandMapUnknown(c, m, newValue);
  }

  /** `getUnitFromUnitMap(key)`: `parameterUnitMap[key] || null`. */
  function GetUnitFromUnitMap(key: string): (r: Option<string>)
    ensures r.Some? ==> r.value != "" && Get(ParameterUnitMap, key) == r
    ensures r.None? <==> Get(ParameterUnitMap, key) in {None, Some("")}
  {
    match Get(ParameterUnitMap, key)
    case Some(u) => if u == "" then None else Some(u)
    case None => None
  }

  /** Where each parameter of the command table sits in the unit table. */
  const UnitPosition: seq<nat> := [0, 1, 2, 4, 3, 5, 6, 7, 8, 9, 10, 12, 13, 14, 15, 16, 17, 18, 19, 20, 21, 11, 22]

  /** The unit table lists the same parameters as the command table, in another order: the first half. */
  lemma UnitNamesMatchLow()
    ensures |UnitPosition| == |CommandNames| && |UnitNames| == |Units|
    ensures forall i :: 0 <= i < 12 ==> UnitPosition[i] < |UnitNames| && UnitNames[UnitPosition[i]] == CommandNames[i]
  {
  }

  /** The same for the second half. */
  lemma UnitNamesMatchHigh()
    ensures forall i :: 12 <= i < |UnitPosition| ==> UnitPosition[i] < |UnitNames| && UnitNames[UnitPosition[i]] == CommandNames[i]
  {
  }

  /** A parameter has a unit exactly when it has a command. */
  lemma UnitsMatchCommands()
    ensures forall i :: 0 <= i < |UnitPosition| ==> UnitPosition[i] < |Units| && (Units[UnitPosition[i]] != "" <==> Commands[i] != "")
  {
  }

  /** No parameter is listed twice in the unit table. */
  lemma UnitNamesDistinct()
    ensures Distinct(UnitNames)
  {
    UnitNamesApart0();
    UnitNamesApart1();
    UnitNamesApart2();
    UnitNamesApart01();
    UnitNamesApart02();
    UnitNamesApart12();
  }

  // The blocks of `UnitNamesDistinct`, each checked on its own.
  lemma UnitNamesApart0() ensures Apart(UnitNames, 0, 8, 0, 8) { }
  lemma UnitNamesApart1() ensures Apart(UnitNames, 8, 16, 8, 16) { }
  lemma UnitNamesApart2() ensures Apart(UnitNames, 16, 23, 16, 23) { }
  lemma UnitNamesApart01() ensures Apart(UnitNames, 0, 8, 8, 16) { }
  lemma UnitNamesApart02() ensures Apart(UnitNames, 0, 8, 16, 23) { }
  lemma UnitNamesApart12() ensures Apart(UnitNames, 8, 16, 16, 23) { }

  /** Every parameter with a command also has a unit, except the device name, which has neither. */
  lemma UnitsCoverCommands(i: nat)
    requires i < |CommandNames|
    ensures GetUnitFromUnitMap(CommandNames[i]).Some? <==> Commands[i] != ""
  {
    UnitNamesMatchLow();
    UnitNamesMatchHigh();
    UnitsMatchCommands();
    UnitNamesDistinct();
    FindIndexDistinct(UnitNames, UnitPosition[i]);
  }
}
