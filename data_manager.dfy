/**
 * utils/bluetoothDataManager.js: the second, simpler decoder. `parseBatteryData` turns a
 * notification into lines (`parseDataArray`), and each line into a status change, a telemetry
 * reading (`parseLine`, `updateBatteryData`) and, for `key=value` lines, a parameter setting
 * (`handleParameterSetting`). The manager keeps the telemetry object and the connection fields.
 */
module DataManager {
  import opened Options
  import opened JsString
  import opened ByteCodec
  import BleProtocol

  // ---------------------------------------------------------------------------------------------
  // State

  /** The `batteryData` object literal; `totalStrings` and `ycbh` are absent until first set. */
  datatype Telemetry = Telemetry(
    chargingStatus: bool, dischargingStatus: bool, balancingStatus: bool,
    totalVoltage: real, voltageDiff: real, lowestString: int, highestString: int,
    minVoltage: real, maxVoltage: real, averageVoltage: real,
    current: real, power: real, ratio: real, capacity: real, totalCapacity: real,
    mosTemperature: real, balanceTemperature: real, chip1Temperature: real, chip2Temperature: real,
    balanceStatus: seq<nat>, voltages: seq<real>, temperatures: seq<real>,
    stringDrop: int, dataQuality: string, totalStrings: Option<int>, ycbh: Option<real>)

  const InitialTelemetry: Telemetry := Telemetry(
    false, false, false,
    0.0, 0.0, 0, 0, 0.0, 0.0, 0.0,
    0.0, 0.0, 0.0, 0.0, 0.0,
    0.0, 0.0, 0.0, 0.0,
    [], [], [],
    0, "normal", None, None)

  /** Everything the decoder reads or writes on the manager. */
  datatype ManagerState = ManagerState(
    data: Telemetry, versionName: string, cdCloseStatusText: string, fdCloseStatusText: string,
    isConnected: bool, deviceId: Option<string>, serviceId: Option<string>,
    characteristicId: Option<string>)

  const InitialState: ManagerState := ManagerState(InitialTelemetry, "", "", "", false, None, None, None)

  /** The two `passwordResponse` strings. */
  const Success: string := "SUCCESS"
  const Failure: string := "FAILURE"

  /** The setting name `CS` is stored under ("string count setting"). */
  const StringCountLabel: string := [0x4E32 as char, 0x6570 as char, 0x8BBE as char, 0x7F6E as char]

  /** The setting keys `handleParameterSetting` records under their own name. */
  const SettingKeys: seq<string> := [
    "gybh", "gyhf", "qyhf", "qybh", "usergw", "userhf", "mosgw", "moshf", "jhyc", "jhwd", "dcrl",
    "ycjh", "jhqd", "gzys", "glbh", "cdgl", "ycbh", "ver", "dljd", "dlxd", "dlys", "jhpl"
  ]

  // ---------------------------------------------------------------------------------------------
  // `parseLine`

  /** `parseLine`: split at the first `:`, otherwise at the first `=`, and trim both sides; None is null. */
  function ParseLine(item: string): (r: Option<(string, string)>)
    ensures r.None? <==> ':' !in item && '=' !in item
    ensures r.Some? ==> NoSpaceAtEnds(r.value.0) && NoSpaceAtEnds(r.value.1)
    ensures r.Some? ==> |r.value.0| + |r.value.1| < |item|
  {
    match IndexOfChar(item, ':')
    case Some(i) => Some((Trim(item[..i]), Trim(item[i + 1..])))
    case None =>
      match IndexOfChar(item, '=')
      case Some(i) => Some((Trim(item[..i]), Trim(item[i + 1..])))
      case None => None
  }

  /** A separator after a prefix free of it is the first one. */
  lemma FirstSeparator(prefix: string, c: char, rest: string)
    requires c !in prefix
    ensures IndexOfChar(prefix + [c] + rest, c) == Some(|prefix|)
  {
    var s := prefix + [c] + rest;
    assert s[|prefix|] == c;
    assert forall k :: 0 <= k < |prefix| ==> s[k] == prefix[k];
    assert forall m :: |prefix| < m <= |s| ==> s[..m][|prefix|] == c;
  }

  /** `parseLine` inverts writing `key:value`, for a trimmed key without a colon and a trimmed value. */
  lemma ParseLineColon(key: string, value: string)
    requires ':' !in key && NoSpaceAtEnds(key) && NoSpaceAtEnds(value)
    ensures ParseLine(key + ":" + value) == Some((key, value))
  {
    var item := key + ":" + value;
    FirstSeparator(key, ':', value);
    assert item[..|key|] == key;
    assert item[|key| + 1..] == value;
    TrimOfTrimmed(key);
    TrimOfTrimmed(value);
  }

  /** `parseLine` inverts writing `key=value` when neither side holds a colon and the key holds no `=`. */
  lemma ParseLineEquals(key: string, value: string)
    requires ':' !in key && ':' !in value && '=' !in key
    requires NoSpaceAtEnds(key) && NoSpaceAtEnds(value)
    ensures ParseLine(key + "=" + value) == Some((key, value))
  {
    var item := key + "=" + value;
    assert ':' !in item by {
      forall k | 0 <= k < |item| ensures item[k] != ':' {
        if k < |key| { assert item[k] == key[k]; }
        else if k > |key| { assert item[k] == value[k - |key| - 1]; }
      }
    }
    FirstSeparator(key, '=', value);
    assert item[..|key|] == key;
    assert item[|key| + 1..] == value;
    TrimOfTrimmed(key);
    TrimOfTrimmed(value);
  }

  // ---------------------------------------------------------------------------------------------
  // `parseDataArray`

  /** A non-empty string without white space at either end. */
  predicate Clean(s: string) {
    s != "" && NoSpaceAtEnds(s)
  }

  /** The first pass of `parseDataArray`: the lines pushed so far and the pending `currentLine`. */
  datatype Stage = Stage(processed: seq<string>, current: string)

  predicate StageClean(st: Stage) {
    (forall k :: 0 <= k < |st.processed| ==> Clean(st.processed[k])) &&
    (st.current == "" || Clean(st.current))
  }

  /** The pushed lines with a pending line, if any, pushed after them. */
  function Flushed(st: Stage): seq<string> {
    if st.current != "" then st.processed + [st.current] else st.processed
  }

  /**
   * One line of the first pass: blank lines are skipped; a line with a colon flushes the pending
   * line and is pushed, or becomes pending when its first colon is its last character; a line
   * without a colon completes the pending line or is pushed on its own.
   */
  function CollectStep(st: Stage, raw: string): (r: Stage)
    ensures |r.processed| <= |st.processed| + 2
  {
    var line := Trim(raw);
    if line == "" then st
    else
      match IndexOfChar(line, ':')
      case Some(colon) =>
        if colon < |line| - 1 then Stage(Flushed(st) + [line], "") else Stage(Flushed(st), line)
      case None =>
        if st.current != "" then Stage(st.processed + [st.current + line], "")
        else Stage(st.processed + [line], "")
  }

  /** The first pass over all lines. */
  function Collect(lines: seq<string>): (r: Stage)
    ensures |r.processed| <= 2 * |lines|
  {
    if lines == [] then Stage([], "")
    else CollectStep(Collect(lines[..|lines| - 1]), lines[|lines| - 1])
  }

  /** One step of the first pass keeps every pushed and pending line clean. */
  lemma CollectStepClean(st: Stage, raw: string)
    requires StageClean(st)
    ensures StageClean(CollectStep(st, raw))
  {
    var line := Trim(raw);
    if line != "" && ':' !in line && st.current != "" {
      var joined := st.current + line;
      assert joined[0] == st.current[0];
      assert joined[|joined| - 1] == line[|line| - 1];
    }
  }

  /** The first pass pushes only clean lines and leaves a clean or empty pending line. */
  lemma {:induction false} CollectClean(lines: seq<string>)
    ensures StageClean(Collect(lines))
  {
    if lines != [] {
      CollectClean(lines[..|lines| - 1]);
      CollectStepClean(Collect(lines[..|lines| - 1]), lines[|lines| - 1]);
    }
  }

  /** A colon-free, non-blank line: what the second pass takes as the value of a bare key. */
  predicate IsValue(line: string) {
    var t := Trim(line);
    t != "" && ':' !in t
  }

  /** Index of the first value line at or after `k`. */
  function FirstValue(ps: seq<string>, k: nat): (r: Option<nat>)
    ensures r.Some? ==> k <= r.value < |ps| && IsValue(ps[r.value])
    ensures r.Some? ==> forall m :: k <= m < r.value ==> !IsValue(ps[m])
    ensures r.None? ==> forall m :: k <= m < |ps| ==> !IsValue(ps[m])
    decreases |ps| - k
  {
    if k >= |ps| then None
    else if IsValue(ps[k]) then Some(k)
    else FirstValue(ps, k + 1)
  }

  /** Every line is empty or clean. */
  predicate EmptyOrClean(ps: seq<string>) {
    forall k :: 0 <= k < |ps| ==> ps[k] == "" || Clean(ps[k])
  }

  /**
   * The second pass from position `i`: a line ending in a colon takes the next value line (which
   * is blanked so that it is not emitted again), other non-empty lines are kept.
   */
  function Merge(ps: seq<string>, i: nat): seq<string>
    decreases |ps| - i
  {
    if i >= |ps| then []
    else if EndsWith(ps[i], ":") then
      match FirstValue(ps, i + 1)
      case Some(j) => [ps[i] + Trim(ps[j])] + Merge(ps[j := ""], i + 1)
      case None => [ps[i]] + Merge(ps, i + 1)
    else if ps[i] != "" then [ps[i]] + Merge(ps, i + 1)
    else Merge(ps, i + 1)
  }

  /** The second pass turns lines that are empty or clean into clean items. */
  lemma {:induction false} MergeClean(ps: seq<string>, i: nat)
    requires EmptyOrClean(ps)
    ensures forall k :: 0 <= k < |Merge(ps, i)| ==> Clean(Merge(ps, i)[k])
    decreases |ps| - i
  {
    if i < |ps| {
      if EndsWith(ps[i], ":") {
        match FirstValue(ps, i + 1)
        case Some(j) =>
          var value := Trim(ps[j]);
          assert Clean(ps[i] + value) by {
            assert (ps[i] + value)[0] == ps[i][0];
            assert (ps[i] + value)[|ps[i] + value| - 1] == value[|value| - 1];
          }
          assert EmptyOrClean(ps[j := ""]);
          MergeClean(ps[j := ""], i + 1);
        case None =>
          MergeClean(ps, i + 1);
      } else {
        MergeClean(ps, i + 1);
      }
    }
  }

  /** What `parseDataArray` returns for a text. */
  function DataArray(raw: string): seq<string> {
    BleProtocol.NonBlank(Merge(Collect(Split(raw, '\n')).processed, 0))
  }

  /** `parseDataArray`: the two passes, then the items that are not blank. */
  method ParseDataArray(raw: string) returns (items: seq<string>)
    ensures items == DataArray(raw)
  {
    var lines := Split(raw, '\n');
    var processed := CollectLines(lines);
    var merged := MergeLines(processed);
    items := BleProtocol.NonBlank(merged);
  }

  /** The first loop of `parseDataArray`; the pending line left at the end is dropped. */
  method CollectLines(lines: seq<string>) returns (processed: seq<string>)
    ensures processed == Collect(lines).processed
  {
    processed := [];
    var current := "";
    var i := 0;
    while i < |lines|
      invariant 0 <= i <= |lines|
      invariant Stage(processed, current) == Collect(lines[..i])
    {
      var line := Trim(lines[i]);
      if line != "" {
        match IndexOfChar(line, ':')
        case Some(colon) =>
          if current != "" {
            processed := processed + [current];
            current := "";
          }
          if colon < |line| - 1 {
            processed := processed + [line];
          } else {
            current := line;
          }
        case None =>
          if current != "" {
            current := current + line;
            processed := processed + [current];
            current := "";
          } else {
            processed := processed + [line];
          }
      }
      assert lines[..i + 1][..i] == lines[..i];
      i := i + 1;
    }
    assert lines[..|lines|] == lines;
  }

  /** The second loop of `parseDataArray`, which blanks each value line it takes. */
  method MergeLines(processed: seq<string>) returns (out: seq<string>)
    ensures out == Merge(processed, 0)
  {
    out := [];
    var ps := processed;
    var i := 0;
    while i < |ps|
      invariant 0 <= i <= |ps| == |processed|
      invariant out + Merge(ps, i) == Merge(processed, 0)
    {
      var line := ps[i];
      if EndsWith(line, ":") {
        var value := "";
        var found := FindValue(ps, i + 1);
        if found.Some? {
          value := Trim(ps[found.value]);
          ps := ps[found.value := ""];
        } else {
          assert line + value == line;
        }
        out := out + [line + value];
      } else if line != "" {
        out := out + [line];
      }
      i := i + 1;
    }
  }

  /** The inner loop of the second pass: the first value line from `from` on. */
  method FindValue(ps: seq<string>, from: nat) returns (found: Option<nat>)
    ensures found == FirstValue(ps, from)
  {
    var j := from;
    while j < |ps|
      invariant from <= j && (from <= |ps| ==> j <= |ps|)
      invariant FirstValue(ps, from) == FirstValue(ps, j)
      decreases |ps| - j
    {
      var next := Trim(ps[j]);
      if next != "" && ':' !in next {
        return Some(j);
      }
      j := j + 1;
    }
    return None;
  }

  /** Every item `parseDataArray` returns is non-empty and trimmed. */
  lemma DataArrayClean(raw: string)
    ensures forall k :: 0 <= k < |DataArray(raw)| ==> Clean(DataArray(raw)[k])
  {
    var ps := Collect(Split(raw, '\n')).processed;
    var merged := Merge(ps, 0);
    CollectClean(Split(raw, '\n'));
    assert EmptyOrClean(ps);
    MergeClean(ps, 0);
    BleProtocol.NonBlankKeeps(merged);
  }

  /** A line with no colon before its last character, a colon. */
  predicate BareKey(line: string) {
    Clean(line) && IndexOfChar(line, ':') == Some(|line| - 1)
  }

  /** A bare key line followed by a value line yields one item, the two joined, whatever came before. */
  lemma KeyLineMerged(st: Stage, key: string, value: string)
    requires BareKey(key) && Clean(value) && ':' !in value
    ensures CollectStep(CollectStep(st, key), value) == Stage(Flushed(st) + [key + value], "")
  {
    TrimOfTrimmed(key);
    TrimOfTrimmed(value);
  }

  /** A bare key on the last line stays pending, and the pending line is not part of the result. */
  lemma TrailingKeyPending(lines: seq<string>, key: string)
    requires BareKey(key)
    ensures Collect(lines + [key]) == Stage(Flushed(Collect(lines)), key)
  {
    assert (lines + [key])[..|lines|] == lines;
    TrimOfTrimmed(key);
  }

  /** Two lines without a line break split into themselves. */
  lemma SplitTwoLines(first: string, second: string)
    requires '\n' !in first && '\n' !in second
    ensures Split(first + "\n" + second, '\n') == [first, second]
  {
    var text := first + "\n" + second;
    FirstSeparator(first, '\n', second);
    assert text[..|first|] == first && text[|first| + 1..] == second;
    SplitAbsent(second, '\n');
  }

  /** The first pass over two lines is two steps from the empty stage. */
  lemma CollectTwo(first: string, second: string)
    ensures Collect([first, second]) == CollectStep(CollectStep(Stage([], ""), first), second)
  {
    assert [first, second][..1] == [first];
    assert [first][..0] == [];
    assert Collect([first]) == CollectStep(Collect([]), first);
  }

  /** A single clean line that does not end in a colon passes the second pass and the filter. */
  lemma SingleItem(line: string)
    requires Clean(line) && !EndsWith(line, ":")
    ensures BleProtocol.NonBlank(Merge([line], 0)) == [line]
  {
    assert Merge([line], 0) == [line] + Merge([line], 1);
    TrimOfTrimmed(line);
    BleProtocol.NonBlankCons(line, []);
  }

  /** The two lines `key:` and `value` come out as the single item `key:value`. */
  lemma DataArrayKeyValue(key: string, value: string)
    requires BareKey(key) && Clean(value) && ':' !in value && '\n' !in key && '\n' !in value
    ensures DataArray(key + "\n" + value) == [key + value]
  {
    SplitTwoLines(key, value);
    CollectTwo(key, value);
    KeyLineMerged(Stage([], ""), key, value);
    var joined := key + value;
    assert [] + [joined] == [joined];
    assert Clean(joined) && !EndsWith(joined, ":") by {
      assert joined[0] == key[0];
      assert joined[|joined| - 1] == value[|value| - 1];
    }
    SingleItem(joined);
  }

  /** A text holding only a bare key produces no item at all. */
  lemma DataArrayKeyOnly(key: string)
    requires BareKey(key) && '\n' !in key
    ensures DataArray(key) == []
  {
    SplitAbsent(key, '\n');
    TrailingKeyPending([], key);
    assert [] + [key] == [key];
  }

  // ---------------------------------------------------------------------------------------------
  // `updateStatus`, `updateBatteryData`, `handleParameterSetting`

  /** The telemetry with each provided flag set; None is an absent or null flag. */
  function WithStatus(t: Telemetry, charging: Option<bool>, discharging: Option<bool>, balancing: Option<bool>): Telemetry {
    t.(chargingStatus := charging.GetOr(t.chargingStatus),
       dischargingStatus := discharging.GetOr(t.dischargingStatus),
       balancingStatus := balancing.GetOr(t.balancingStatus))
  }

  /** Setting the same flags twice is setting them once, and setting none changes nothing. */
  lemma WithStatusIdempotent(t: Telemetry, charging: Option<bool>, discharging: Option<bool>, balancing: Option<bool>)
    ensures WithStatus(WithStatus(t, charging, discharging, balancing), charging, discharging, balancing)
            == WithStatus(t, charging, discharging, balancing)
    ensures WithStatus(t, None, None, None) == t
  {
  }

  /** The padding `while` loop and the store that follows it. */
  method PadAndSet(s: seq<real>, index: int, x: real) returns (r: seq<real>)
    ensures r == BleProtocol.SetCell(s, index, x)
  {
    r := s;
    while |r| < index
      invariant |s| <= |r| <= (if index > |s| then index else |s|)
      invariant forall k :: 0 <= k < |r| ==> r[k] == if k < |s| then s[k] else 0.0
      decreases index - |r|
    {
      r := r + [0.0];
    }
    if index >= 1 {
      r := r[index - 1 := x];
      assert forall k :: 0 <= k < |r| ==> r[k] == BleProtocol.SetCell(s, index, x)[k];
    } else {
      assert r == s;
    }
  }

  /** The copy loops of the `jhzt` case: the char codes of `value` over the first balance bytes. */
  method CopyBalanceBytes(bs: seq<nat>, value: string) returns (r: seq<nat>)
    ensures r == BleProtocol.Overlay(bs, value)
  {
    var n := if |value| < |bs| then |value| else |bs|;
    var bytes: seq<nat> := [];
    var i := 0;
    while i < n
      invariant 0 <= i <= n && |bytes| == i
      invariant forall k :: 0 <= k < i ==> bytes[k] == value[k] as nat
    {
      bytes := bytes + [value[i] as nat];
      i := i + 1;
    }
    r := bs;
    i := 0;
    while i < |bytes|
      invariant 0 <= i <= |bytes| && |r| == |bs|
      invariant forall k :: 0 <= k < |r| ==> r[k] == if k < i then value[k] as nat else bs[k]
    {
      r := r[i := bytes[i]];
      i := i + 1;
    }
    assert forall k :: 0 <= k < |r| ==> r[k] == BleProtocol.Overlay(bs, value)[k];
  }

  /** The balance array starts empty and nothing makes it longer, so the `jhzt` copy never changes it. */
  lemma CopyIntoEmpty(value: string)
    ensures BleProtocol.Overlay([], value) == []
  {
  }

  /** `updateBatteryData(key, value)` on the telemetry. */
  function Updated(t: Telemetry, key: string, value: string): (r: Telemetry)
    ensures r.totalStrings == t.totalStrings && r.ycbh == t.ycbh && r.dataQuality == t.dataQuality
    ensures r.chargingStatus == t.chargingStatus && r.dischargingStatus == t.dischargingStatus
    ensures r.balancingStatus == (key == "jhzt" || t.balancingStatus)
    ensures |r.balanceStatus| == |t.balanceStatus|
  {
    if key == "dc" then t.(stringDrop := ParseIntOrZero(value))
    else if key == "zdy" then t.(totalVoltage := ParseFloatOrZero(value))
    else if key == "yc" then t.(voltageDiff := ParseFloatOrZero(value))
    else if key == "zd" then t.(lowestString := ParseIntOrZero(value))
    else if key == "min" then t.(minVoltage := ParseFloatOrZero(value))
    else if key == "zg" then t.(highestString := ParseIntOrZero(value))
    else if key == "max" then t.(maxVoltage := ParseFloatOrZero(value))
    else if key == "dl" then t.(current := ParseFloatOrZero(value))
    else if key == "gl" then t.(power := ParseFloatOrZero(value))
    else if key == "bl" then t.(ratio := ParseFloatOrZero(value))
    else if key == "rl" then t.(capacity := ParseFloatOrZero(value))
    else if key == "zx" then t.(totalCapacity := ParseFloatOrZero(value))
    else if key == "pj" then t.(averageVoltage := ParseFloatOrZero(value))
    else if key == "moswd" then t.(mosTemperature := ParseFloatOrZero(value))
    else if key == "jhwd" then t.(balanceTemperature := ParseFloatOrZero(value))
    else if key == "xpwd1" then t.(chip1Temperature := ParseFloatOrZero(value))
    else if key == "xpwd2" then t.(chip2Temperature := ParseFloatOrZero(value))
    else if key == "jhzt" then
      var u := WithStatus(t, None, None, Some(true));
      if |value| >= 4 then u.(balanceStatus := BleProtocol.Overlay(u.balanceStatus, value)) else u
    else CellUpdate(t, key, value)
  }

  /** The `default` branch: `u<N>` stores temperature N, a numeric key stores cell voltage N. */
  function CellUpdate(t: Telemetry, key: string, value: string): Telemetry {
    if StartsWith(key, "u") then
      match ParseInt(key[1..])
      case Some(index) => t.(temperatures := BleProtocol.SetCell(t.temperatures, index, ParseFloatOrZero(value)))
      case None => t
    else
      match ParseInt(key)
      case Some(index) => t.(voltages := BleProtocol.SetCell(t.voltages, index, ParseFloatOrZero(value)))
      case None => t
  }

  /** The keys the switch of `updateBatteryData` names. */
  predicate NamedKey(key: string) {
    key == "dc" || key == "zdy" || key == "yc" || key == "zd" || key == "min" || key == "zg" ||
    key == "max" || key == "dl" || key == "gl" || key == "bl" || key == "rl" || key == "zx" ||
    key == "pj" || key == "moswd" || key == "jhwd" || key == "xpwd1" || key == "xpwd2" || key == "jhzt"
  }

  /** Every named key starts with a lower-case letter other than `u`. */
  lemma NamedKeyLetter(key: string)
    ensures NamedKey(key) ==> |key| > 0 && 'a' <= key[0] <= 'z' && key[0] != 'u'
  {
  }

  /** A key starting with `u` or a digit is none of the named cases and reaches the `default` branch. */
  lemma CellKeyIsDefault(t: Telemetry, key: string, value: string)
    requires |key| > 0 && (key[0] == 'u' || IsDigit(key[0]))
    ensures Updated(t, key, value) == CellUpdate(t, key, value)
  {
    NamedKeyLetter(key);
    assert !NamedKey(key);
  }

  /** `uN:v` with N at least 1 stores v as temperature N, padding with zeros, and leaves the voltages alone. */
  lemma TemperatureReading(t: Telemetry, key: string, value: string, n: int)
    requires StartsWith(key, "u") && ParseInt(key[1..]) == Some(n) && n >= 1
    ensures |Updated(t, key, value).temperatures| == if n > |t.temperatures| then n else |t.temperatures|
    ensures Updated(t, key, value).temperatures[n - 1] == ParseFloatOrZero(value)
    ensures Updated(t, key, value).voltages == t.voltages
  {
    assert key[0] == 'u' by { assert key[..1][0] == key[0]; }
    CellKeyIsDefault(t, key, value);
  }

  /** `N:v` with N at least 1 stores v as cell voltage N, padding with zeros, and leaves the temperatures alone. */
  lemma VoltageReading(t: Telemetry, key: string, value: string, n: int)
    requires |key| > 0 && IsDigit(key[0]) && ParseInt(key) == Some(n) && n >= 1
    ensures |Updated(t, key, value).voltages| == if n > |t.voltages| then n else |t.voltages|
    ensures Updated(t, key, value).voltages[n - 1] == ParseFloatOrZero(value)
    ensures Updated(t, key, value).temperatures == t.temperatures
  {
    assert !StartsWith(key, "u") by { assert key[..1][0] == key[0]; }
    CellKeyIsDefault(t, key, value);
  }

  /** A probe number below 1 changes no element: the store lands at a negative position. */
  lemma NonPositiveProbeIgnored(t: Telemetry, key: string, value: string, n: int)
    requires StartsWith(key, "u") && ParseInt(key[1..]) == Some(n) && n <= 0
    ensures Updated(t, key, value) == t
  {
    assert key[0] == 'u' by { assert key[..1][0] == key[0]; }
    CellKeyIsDefault(t, key, value);
  }

  /** A cell number below 1 changes no element either. */
  lemma NonPositiveCellIgnored(t: Telemetry, key: string, value: string, n: int)
    requires |key| > 0 && IsDigit(key[0]) && ParseInt(key) == Some(n) && n <= 0
    ensures Updated(t, key, value) == t
  {
    assert !StartsWith(key, "u") by { assert key[..1][0] == key[0]; }
    CellKeyIsDefault(t, key, value);
  }

  /** The name `handleParameterSetting` records a setting under, or None for an unknown key. */
  function SettingName(key: string): (r: Option<string>)
    ensures r.Some? <==> key == "CS" || key in SettingKeys
  {
    if key == "CS" then Some(StringCountLabel)
    else if key in SettingKeys then Some(key)
    else None
  }

  /** The `newValues` object after `handleParameterSetting`. */
  function Recorded(newValues: map<string, string>, key: string, value: string): (r: map<string, string>)
    ensures r.Keys == newValues.Keys + (if SettingName(key).Some? then {SettingName(key).value} else {})
  {
    match SettingName(key)
    case Some(name) => newValues[name := value]
    case None => newValues
  }

  /** The effect of `handleParameterSetting(key, value, ...)` on the manager. */
  function Setting(s: ManagerState, key: string, value: string): (r: ManagerState)
    ensures r.data.totalStrings.Some? ==> 0 <= r.data.totalStrings.value <= 252 || r.data.totalStrings == s.data.totalStrings
    ensures r.data.(totalStrings := s.data.totalStrings, ycbh := s.data.ycbh) == s.data
    ensures r.(data := s.data, versionName := s.versionName) == s
  {
    if key == "CS" then s.(data := s.data.(totalStrings := Some(BleProtocol.ClampStrings(ParseIntOrZero(value)))))
    else if key == "ycbh" then s.(data := s.data.(ycbh := Some(ParseFloatOrZero(value))))
    else if key == "ver" then s.(versionName := value)
    else s
  }

  // ---------------------------------------------------------------------------------------------
  // `parseBatteryData`: one item

  /** The status and reading part of one item: everything before the `=` split. */
  function Reading(s: ManagerState, item: string): (r: ManagerState)
    ensures r.data.totalStrings == s.data.totalStrings && r.data.ycbh == s.data.ycbh
    ensures r.versionName == s.versionName
    ensures |r.data.balanceStatus| == |s.data.balanceStatus|
  {
    if Contains(item, "cdopen") then
      s.(data := WithStatus(s.data, Some(true), None, None), cdCloseStatusText := "")
    else if Contains(item, "cdclose") then
      s.(data := WithStatus(s.data, Some(false), None, None))
    else if Contains(item, "fdopen") then
      s.(data := WithStatus(s.data, None, Some(true), None), fdCloseStatusText := "")
    else if Contains(item, "fdclose") then
      s.(data := WithStatus(s.data, None, Some(false), None))
    else if item == "jhstop" then
      s.(data := WithStatus(s.data, None, None, Some(false)))
    else
      match ParseLine(item)
      case Some(kv) => s.(data := Updated(s.data, kv.0, kv.1))
      case None => s
  }

  /** One item of the loop of `parseBatteryData`. */
  function ItemStep(s: ManagerState, item: string): ManagerState {
    if item == Success || item == Failure || item == "RES" then s
    else
      var s1 := Reading(s, item);
      var parts := Split(item, '=');
      if |parts| == 2 then Setting(s1, Trim(parts[0]), Trim(parts[1])) else s1
  }

  /** The loop of `parseBatteryData` over all items. */
  function Items(s: ManagerState, items: seq<string>): ManagerState {
    if items == [] then s else ItemStep(Items(s, items[..|items| - 1]), items[|items| - 1])
  }

  /** Password answers and the restart acknowledgement are consumed and change nothing. */
  lemma AnswersConsumed(s: ManagerState, item: string)
    requires item == Success || item == Failure || item == "RES"
    ensures ItemStep(s, item) == s
  {
  }

  /** A text no longer than a different pattern does not contain it. */
  lemma NotContained(s: string, p: string)
    requires |s| <= |p| && s != p
    ensures !Contains(s, p)
  {
    assert s[0..|s|] == s;
  }

  /** The exact item `jhstop` clears the balancing flag and nothing else. */
  lemma JhstopClearsBalancing(s: ManagerState)
    ensures ItemStep(s, "jhstop") == s.(data := s.data.(balancingStatus := false))
  {
    var item := "jhstop";
    NotContained(item, "cdopen");
    NotContained(item, "cdclose");
    NotContained(item, "fdopen");
    NotContained(item, "fdclose");
    SplitAbsent(item, '=');
  }

  /** `key=value` with neither side holding `=` splits into exactly those two parts. */
  lemma SplitPair(key: string, v: string)
    requires '=' !in key && '=' !in v
    ensures Split(key + "=" + v, '=') == [key, v]
  {
    var item := key + "=" + v;
    FirstSeparator(key, '=', v);
    assert item[..|key|] == key && item[|key| + 1..] == v;
    SplitAbsent(v, '=');
  }

  /** An item whose `=`-split has exactly two parts reaches the setter with both parts trimmed. */
  lemma SettingItem(s: ManagerState, item: string, key: string, v: string)
    requires Split(item, '=') == [key, v]
    ensures ItemStep(s, item) == Setting(Reading(s, item), Trim(key), Trim(v))
  {
    SplitAbsent(Success, '=');
    SplitAbsent(Failure, '=');
    SplitAbsent("RES", '=');
  }

  /** `CS=v` sets the string count to parseInt(v) kept within [0, 252], 0 when v is not a number. */
  lemma StringCountSetting(s: ManagerState, item: string, key: string, v: string)
    requires Split(item, '=') == [key, v] && Trim(key) == "CS"
    ensures ItemStep(s, item).data.totalStrings == Some(BleProtocol.ClampStrings(ParseIntOrZero(Trim(v))))
  {
    SettingItem(s, item, key, v);
  }

  /** A string count that is not a number reads as 0. */
  lemma StringCountNotANumber(s: ManagerState, item: string, key: string, v: string)
    requires Split(item, '=') == [key, v] && Trim(key) == "CS" && ParseInt(Trim(v)).None?
    ensures ItemStep(s, item).data.totalStrings == Some(0)
  {
    StringCountSetting(s, item, key, v);
  }

  /** `ver=v` records v, trimmed, as the version name. */
  lemma VersionSetting(s: ManagerState, item: string, key: string, v: string)
    requires Split(item, '=') == [key, v] && Trim(key) == "ver"
    ensures ItemStep(s, item).versionName == Trim(v)
  {
    SettingItem(s, item, key, v);
  }

  /** The balance array never grows: starting empty, it is still empty after any items. */
  lemma {:induction false} BalanceStatusStaysEmpty(s: ManagerState, items: seq<string>)
    requires s.data.balanceStatus == []
    ensures Items(s, items).data.balanceStatus == []
  {
    if items != [] {
      var before := Items(s, items[..|items| - 1]);
      BalanceStatusStaysEmpty(s, items[..|items| - 1]);
      var item := items[|items| - 1];
      if !(item == Success || item == Failure || item == "RES") {
        assert |Reading(before, item).data.balanceStatus| == 0;
      }
    }
  }

  // ---------------------------------------------------------------------------------------------
  // The manager

  class BluetoothDataManager {
    var deviceId: Option<string>
    var serviceId: Option<string>
    var characteristicId: Option<string>
    var isConnected: bool
    var versionName: string
    var cdCloseStatusText: string
    var fdCloseStatusText: string
    var batteryData: Telemetry

    function State(): ManagerState
      reads this
    {
      ManagerState(batteryData, versionName, cdCloseStatusText, fdCloseStatusText,
                   isConnected, deviceId, serviceId, characteristicId)
    }

    constructor()
      ensures State() == InitialState
    {
      deviceId, serviceId, characteristicId := None, None, None;
      isConnected := false;
      versionName := "";
      fdCloseStatusText, cdCloseStatusText := "", "";
      batteryData := InitialTelemetry;
    }

    /** `updateStatus`: sets the provided flags; the result says whether listeners are notified. */
    method UpdateStatus(charging: Option<bool>, discharging: Option<bool>, balancing: Option<bool>)
      returns (hasChanges: bool)
      modifies this
      ensures State() == old(State()).(data := WithStatus(old(batteryData), charging, discharging, balancing))
      ensures hasChanges <==> charging.Some? || discharging.Some? || balancing.Some?
    {
      hasChanges := false;
      if charging.Some? {
        batteryData := batteryData.(chargingStatus := charging.value);
        hasChanges := true;
      }
      if discharging.Some? {
        batteryData := batteryData.(dischargingStatus := discharging.value);
        hasChanges := true;
      }
      if balancing.Some? {
        batteryData := batteryData.(balancingStatus := balancing.value);
        hasChanges := true;
      }
    }

    /** `clearCdDeviceStatus` */
    method ClearCdDeviceStatus()
      modifies this
      ensures State() == old(State()).(cdCloseStatusText := "")
    {
      cdCloseStatusText := "";
    }

    /** `clearFdDeviceStatus` */
    method ClearFdDeviceStatus()
      modifies this
      ensures State() == old(State()).(fdCloseStatusText := "")
    {
      fdCloseStatusText := "";
    }

    /** `updateBatteryData` */
    method UpdateBatteryData(key: string, value: string)
      modifies this
      ensures State() == old(State()).(data := Updated(old(batteryData), key, value))
    {
      if key == "dc" {
        batteryData := batteryData.(stringDrop := ParseIntOrZero(value));
      } else if key == "zdy" {
        batteryData := batteryData.(totalVoltage := ParseFloatOrZero(value));
      } else if key == "yc" {
        batteryData := batteryData.(voltageDiff := ParseFloatOrZero(value));
      } else if key == "zd" {
        batteryData := batteryData.(lowestString := ParseIntOrZero(value));
      } else if key == "min" {
        batteryData := batteryData.(minVoltage := ParseFloatOrZero(value));
      } else if key == "zg" {
        batteryData := batteryData.(highestString := ParseIntOrZero(value));
      } else if key == "max" {
        batteryData := batteryData.(maxVoltage := ParseFloatOrZero(value));
      } else if key == "dl" {
        batteryData := batteryData.(current := ParseFloatOrZero(value));
      } else if key == "gl" {
        batteryData := batteryData.(power := ParseFloatOrZero(value));
      } else if key == "bl" {
        batteryData := batteryData.(ratio := ParseFloatOrZero(value));
      } else if key == "rl" {
        batteryData := batteryData.(capacity := ParseFloatOrZero(value));
      } else if key == "zx" {
        batteryData := batteryData.(totalCapacity := ParseFloatOrZero(value));
      } else if key == "pj" {
        batteryData := batteryData.(averageVoltage := ParseFloatOrZero(value));
      } else if key == "moswd" {
        batteryData := batteryData.(mosTemperature := ParseFloatOrZero(value));
      } else if key == "jhwd" {
        batteryData := batteryData.(balanceTemperature := ParseFloatOrZero(value));
      } else if key == "xpwd1" {
        batteryData := batteryData.(chip1Temperature := ParseFloatOrZero(value));
      } else if key == "xpwd2" {
        batteryData := batteryData.(chip2Temperature := ParseFloatOrZero(value));
      } else if key == "jhzt" {
        var notified := UpdateStatus(None, None, Some(true));
        if |value| >= 4 {
          var bs := CopyBalanceBytes(batteryData.balanceStatus, value);
          batteryData := batteryData.(balanceStatus := bs);
        }
      } else if StartsWith(key, "u") {
        var index := ParseInt(key[1..]);
        if index.Some? {
          var temps := PadAndSet(batteryData.temperatures, index.value, ParseFloatOrZero(value));
          batteryData := batteryData.(temperatures := temps);
        }
      } else if ParseInt(key).Some? {
        var index := ParseInt(key).value;
        var volts := PadAndSet(batteryData.voltages, index, ParseFloatOrZero(value));
        batteryData := batteryData.(voltages := volts);
      }
    }

    /** `handleParameterSetting`: returns the caller's `newValues` with the setting recorded. */
    method HandleParameterSetting(key: string, value: string, newValues: map<string, string>)
      returns (values: map<string, string>)
      modifies this
      ensures State() == Setting(old(State()), key, value)
      ensures values == Recorded(newValues, key, value)
    {
      values := newValues;
      if key == "CS" {
        values := values[StringCountLabel := value];
        batteryData := batteryData.(totalStrings := Some(BleProtocol.ClampStrings(ParseIntOrZero(value))));
      } else if key == "ycbh" {
        values := values[key := value];
        batteryData := batteryData.(ycbh := Some(ParseFloatOrZero(value)));
      } else if key == "ver" {
        values := values[key := value];
        versionName := value;
      } else if key in SettingKeys {
        values := values[key := value];
      }
    }

    /** The status and reading part of one item of `parseBatteryData`. */
    method ApplyReading(item: string)
      modifies this
      ensures State() == Reading(old(State()), item)
    {
      if Contains(item, "cdopen") {
        var notified := UpdateStatus(Some(true), None, None);
        ClearCdDeviceStatus();
      } else if Contains(item, "cdclose") {
        var notified := UpdateStatus(Some(false), None, None);
      } else if Contains(item, "fdopen") {
        var notified := UpdateStatus(None, Some(true), None);
        ClearFdDeviceStatus();
      } else if Contains(item, "fdclose") {
        var notified := UpdateStatus(None, Some(false), None);
      } else if item == "jhstop" {
        var notified := UpdateStatus(None, None, Some(false));
      } else if StartsWith(item, "jhzt") {
        var parsed := ParseLine(item);
        if parsed.Some? {
          UpdateBatteryData(parsed.value.0, parsed.value.1);
        }
      } else {
        var parsed := ParseLine(item);
        if parsed.Some? {
          UpdateBatteryData(parsed.value.0, parsed.value.1);
        }
      }
    }

    /** One item of the loop of `parseBatteryData`. */
    method ProcessItem(item: string, newValues: map<string, string>) returns (values: map<string, string>)
      modifies this
      ensures State() == ItemStep(old(State()), item)
    {
      values := newValues;
      if item == Success || item == Failure {
        return;
      } else if item == "RES" {
        return;
      }
      ApplyReading(item);
      var parts := Split(item, '=');
      if |parts| == 2 {
        values := HandleParameterSetting(Trim(parts[0]), Trim(parts[1]), values);
      }
    }

    /** `parseBatteryData`: None (null) for a blank notification, otherwise the updated telemetry. */
    method ParseBatteryData(data: seq<Byte>) returns (r: Option<Telemetry>)
      modifies this
      ensures Trim(DecodeBytes(data)) == "" ==> r == None && State() == old(State())
      ensures Trim(DecodeBytes(data)) != "" ==>
                State() == Items(old(State()), DataArray(DecodeBytes(data))) && r == Some(batteryData)
    {
      var rawString := DecodeBytes(data);
      if Trim(rawString) == "" {
        return None;
      }
      var dataArray := ParseDataArray(rawString);
      ProcessItems(dataArray);
      return Some(batteryData);
    }

    /** The loop of `parseBatteryData`; the `newValues` object it fills is local and discarded. */
    method ProcessItems(dataArray: seq<string>)
      modifies this
      ensures State() == Items(old(State()), dataArray)
    {
      var newValues: map<string, string> := map[];
      var i := 0;
      while i < |dataArray|
        invariant 0 <= i <= |dataArray|
        invariant State() == Items(old(State()), dataArray[..i])
      {
        newValues := ProcessItem(dataArray[i], newValues);
        assert dataArray[..i + 1][..i] == dataArray[..i];
        i := i + 1;
      }
      assert dataArray[..|dataArray|] == dataArray;
    }

    /** `disconnect`: closing the link itself is transport; the fields are cleared. */
    method Disconnect()
      modifies this
      ensures State() == old(State()).(isConnected := false, deviceId := None, serviceId := None, characteristicId := None)
    {
      isConnected := false;
      deviceId := None;
      serviceId := None;
      characteristicId := None;
    }
  }
}
