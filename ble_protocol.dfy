/**
 * The pure rules of the session engine's receive side (utils/batteryManager.js, `BLEManager`):
 * line reassembly, token dispatch, the telemetry and parameter setters, the fault decoder, the
 * password state machine, the fault-delay countdown and the six-strings-per-byte balancing map.
 * The `BleManager` class performs these step by step on its fields; the functions here say what
 * each step computes.
 */
module BleProtocol {
  import opened Options
  import opened JsString
  import opened BatteryKeys
  import opened BatteryDataModel
  import AppConstants
  import CommonEnum
  import I18n

  // ---------------------------------------------------------------------------------------------
  // Positions of the record's properties (`Keys` order)

  const TotalVoltage: nat := 0
  const VoltageDiff: nat := 1
  const Ycbh: nat := 2
  const Temperatures: nat := 16
  const Gzys: nat := 19
  const Voltages: nat := 20
  const ChargingStatus: nat := 21
  const DischargingStatus: nat := 22
  const BalancingStatus: nat := 23
  const BalanceStatus: nat := 24
  const TotalStrings: nat := 25

  /** The lists and bytes `_updateBatteryData` reads have their shapes. */
  predicate Readable(r: Record) {
    |r| == 26 && r[Temperatures].Numbers? && r[Voltages].Numbers? && r[BalanceStatus].Bytes?
  }

  /** Every well-shaped record is readable. */
  lemma ShapedReadable(r: Record)
    requires WellShaped(r)
    ensures Readable(r)
  {
    assert |Keys| == 26;
    assert Shape(r[Temperatures]) == 3 && Shape(r[Voltages]) == 3 && Shape(r[BalanceStatus]) == 4;
  }

  /** The positions above are the properties of those names. */
  lemma PositionNames()
    ensures Keys[Ycbh] == "ycbh" && Keys[Temperatures] == "temperatures" && Keys[Gzys] == "gzys"
    ensures Keys[Voltages] == "voltages" && Keys[ChargingStatus] == "chargingStatus"
    ensures Keys[DischargingStatus] == "dischargingStatus" && Keys[BalancingStatus] == "balancingStatus"
    ensures Keys[BalanceStatus] == "balanceStatus" && Keys[TotalStrings] == "totalStrings"
  {
  }

  // ---------------------------------------------------------------------------------------------
  // `_handleReceivedData` and the flush timer: line reassembly

  /** The parts whose trimmed text is not empty, in order. */
  function NonBlank(parts: seq<string>): (r: seq<string>)
    ensures |r| <= |parts|
  {
    if parts == [] then []
    else (if Trim(parts[0]) != "" then [parts[0]] else []) + NonBlank(parts[1..])
  }

  /** Exactly the parts that are not blank survive: each survivor is one of the parts, and no non-blank part is lost. */
  lemma {:induction false} NonBlankKeeps(parts: seq<string>)
    ensures forall i :: 0 <= i < |NonBlank(parts)| ==> Trim(NonBlank(parts)[i]) != "" && NonBlank(parts)[i] in parts
    ensures forall p :: p in parts && Trim(p) != "" ==> p in NonBlank(parts)
  {
    if parts != [] {
      NonBlankKeeps(parts[1..]);
      var head := if Trim(parts[0]) != "" then [parts[0]] else [];
      assert NonBlank(parts) == head + NonBlank(parts[1..]);
      forall p | p in parts && Trim(p) != "" ensures p in NonBlank(parts) {
        if p != parts[0] {
          assert p in parts[1..];
        }
      }
    }
  }

  /** What one notification does to the receive buffer: the lines it hands on, the new buffer, and whether the flush timer is pending. */
  datatype Delivery = Delivery(lines: seq<string>, buffer: string, flushArmed: bool)

  /**
   * `_handleReceivedData`: the decoded chunk is appended; with a newline present every segment
   * but the last is handed on when it is not blank, and the last segment is either handed on
   * (buffer ended with a newline) or kept and the flush timer restarted; without a newline the
   * timer is restarted. A timer already pending stays so when the buffer ends with a newline.
   */
  function Receive(buffer: string, chunk: string, flushArmed: bool): (d: Delivery)
    ensures '\n' !in buffer + chunk ==> d == Delivery([], buffer + chunk, true)
  {
    var b := buffer + chunk;
    if '\n' !in b then Delivery([], b, true) else Deliver(b, flushArmed)
  }

  /** The newline branch of `Receive`, on the buffer with the chunk appended. */
  function Deliver(b: string, flushArmed: bool): (d: Delivery)
    requires '\n' in b
  {
      var parts := Split(b, '\n');
      var last := parts[|parts| - 1];
      var complete := NonBlank(parts[..|parts| - 1]);
      if EndsWith(b, "\n") then
        Delivery(complete + (if Trim(last) != "" then [last] else []), "", flushArmed)
      else
        Delivery(complete, last, true)
  }

  /** A string that ends with the separator splits into parts whose last one is empty. */
  lemma {:induction false} SplitLastEmpty(s: string, sep: char)
    requires |s| > 0 && s[|s| - 1] == sep
    ensures Split(s, sep)[|Split(s, sep)| - 1] == ""
    decreases |s|
  {
    var i := IndexOfChar(s, sep).value;
    if i + 1 < |s| {
      assert s[i + 1..][|s[i + 1..]| - 1] == sep;
      SplitLastEmpty(s[i + 1..], sep);
    }
  }

  /** Joining a sequence of parts, with the last part split off. */
  lemma {:induction false} JoinSnoc(parts: seq<string>, sep: char)
    requires |parts| >= 2
    ensures Join(parts, sep) == Join(parts[..|parts| - 1], sep) + [sep] + parts[|parts| - 1]
    decreases |parts|
  {
    if |parts| > 2 {
      JoinSnoc(parts[1..], sep);
      assert parts[1..][..|parts| - 2] == parts[..|parts| - 1][1..];
    }
  }

  /** Data holding a newline splits into at least two segments. */
  lemma SplitsInTwo(b: string)
    requires '\n' in b
    ensures |Split(b, '\n')| >= 2
  {
    SplitJoin(b, '\n');
    var i :| 0 <= i < |b| && b[i] == '\n';
    CountPositive(b, '\n', i);
  }

  /**
   * Every newline-separated segment but the last is handed on, in order, when it is not blank;
   * the buffer is emptied when the data ended with a newline and keeps the last segment otherwise.
   */
  lemma ReceiveSegments(buffer: string, chunk: string, flushArmed: bool)
    requires '\n' in buffer + chunk
    ensures |Split(buffer + chunk, '\n')| >= 2
    ensures var b := buffer + chunk;
      var parts := Split(b, '\n');
      var d := Receive(buffer, chunk, flushArmed);
      d.lines == NonBlank(parts[..|parts| - 1]) &&
      (EndsWith(b, "\n") ==> d.buffer == "" && d.flushArmed == flushArmed) &&
      (!EndsWith(b, "\n") ==> d.buffer == parts[|parts| - 1] && d.flushArmed)
  {
    var b := buffer + chunk;
    SplitsInTwo(b);
    var parts := Split(b, '\n');
    var complete := NonBlank(parts[..|parts| - 1]);
    if EndsWith(b, "\n") {
      assert b[|b| - 1] == '\n' by { assert b[|b| - 1..] == "\n"; }
      SplitLastEmpty(b, '\n');
      assert Trim(parts[|parts| - 1]) == "";
      assert Receive(buffer, chunk, flushArmed) == Delivery(complete + [], "", flushArmed);
      assert complete + [] == complete;
    } else {
      assert Receive(buffer, chunk, flushArmed) == Delivery(complete, parts[|parts| - 1], true);
    }
  }

  /**
   * Nothing is lost: the segments handed on or skipped, each followed by its newline, then the
   * new buffer, give back the whole data.
   */
  lemma ReceiveLossless(buffer: string, chunk: string, flushArmed: bool)
    requires '\n' in buffer + chunk
    ensures |Split(buffer + chunk, '\n')| >= 2
    ensures var parts := Split(buffer + chunk, '\n');
      Join(parts[..|parts| - 1], '\n') + "\n" + Receive(buffer, chunk, flushArmed).buffer == buffer + chunk
  {
    SplitOffLast(buffer + chunk);
    ReceiveKeepsLast(buffer, chunk, flushArmed);
  }

  /** The segments before the last, joined and followed by a newline, then the last segment, give back the data. */
  lemma SplitOffLast(b: string)
    requires '\n' in b
    ensures |Split(b, '\n')| >= 2
    ensures var parts := Split(b, '\n'); Join(parts[..|parts| - 1], '\n') + "\n" + parts[|parts| - 1] == b
  {
    SplitsInTwo(b);
    SplitJoin(b, '\n');
    JoinSnoc(Split(b, '\n'), '\n');
    assert "\n" == ['\n'];
  }

  /** The new buffer is always the last segment: when the data ended with a newline, that segment is empty. */
  lemma ReceiveKeepsLast(buffer: string, chunk: string, flushArmed: bool)
    requires '\n' in buffer + chunk
    ensures |Split(buffer + chunk, '\n')| >= 2
    ensures Receive(buffer, chunk, flushArmed).buffer == Split(buffer + chunk, '\n')[|Split(buffer + chunk, '\n')| - 1]
  {
    var b := buffer + chunk;
    ReceiveSegments(buffer, chunk, flushArmed);
    if EndsWith(b, "\n") {
      assert b[|b| - 1] == '\n' by { assert b[|b| - 1..] == "\n"; }
      SplitLastEmpty(b, '\n');
    }
  }

  /** Dropping blank parts distributes over concatenation. */
  lemma {:induction false} NonBlankAppend(a: seq<string>, b: seq<string>)
    ensures NonBlank(a + b) == NonBlank(a) + NonBlank(b)
    decreases |a|
  {
    if a != [] {
      var x, rest := a[0], a[1..];
      assert a == [x] + rest;
      assert a + b == [x] + (rest + b);
      NonBlankCons(x, rest + b);
      NonBlankCons(x, rest);
      NonBlankAppend(rest, b);
    } else {
      assert a + b == b;
    }
  }

  /** The first part survives exactly when it is not blank. */
  lemma NonBlankCons(x: string, rest: seq<string>)
    ensures NonBlank([x] + rest) == (if Trim(x) != "" then [x] else []) + NonBlank(rest)
  {
    assert ([x] + rest)[1..] == rest;
  }

  /** A string holding the separator counts at least one. */
  lemma {:induction false} CountPositive(s: string, c: char, i: nat)
    requires i < |s| && s[i] == c
    ensures Count(s, c) >= 1
    decreases |s|
  {
    if i > 0 {
      CountPositive(s[1..], c, i - 1);
    }
  }

  // ---------------------------------------------------------------------------------------------
  // `_processReceivedData`: tokens

  /** The tokens of a line: trimmed, split on single spaces, empty pieces dropped. */
  function Tokens(line: string): (r: seq<string>)
    ensures forall i :: 0 <= i < |r| ==> r[i] != "" && ' ' !in r[i]
  {
    NonEmpty(Split(Trim(line), ' '))
  }

  /** `filter(item => item.length > 0)` */
  function NonEmpty(parts: seq<string>): (r: seq<string>)
    ensures |r| <= |parts|
    ensures forall i :: 0 <= i < |r| ==> r[i] != "" && r[i] in parts
    ensures forall p :: p in parts && p != "" ==> p in r
  {
    if parts == [] then []
    else (if parts[0] != "" then [parts[0]] else []) + NonEmpty(parts[1..])
  }

  /** `_parseLine`: a key and a value around the only `:`, otherwise around the only `=`, both trimmed. */
  function ParseLine(item: string): Option<(string, string)> {
    var colon := Split(item, ':');
    if |colon| == 2 then Some((Trim(colon[0]), Trim(colon[1])))
    else
      var equal := Split(item, '=');
      if |equal| == 2 then Some((Trim(equal[0]), Trim(equal[1]))) else None
  }

  /** Splitting at a separator that occurs once gives the text before and after it. */
  lemma SplitOnce(s: string, sep: char)
    requires Count(s, sep) == 1
    ensures IndexOfChar(s, sep).Some?
    ensures var i := IndexOfChar(s, sep).value; Split(s, sep) == [s[..i], s[i + 1..]]
  {
    SplitJoin(s, sep);
    var i := IndexOfChar(s, sep).value;
    CountSplit(s, sep, i);
    CountZeroAbsent(s[i + 1..], sep);
    SplitAbsent(s[i + 1..], sep);
  }

  /** A string in which a character counts zero times does not hold it. */
  lemma {:induction false} CountZeroAbsent(s: string, c: char)
    requires Count(s, c) == 0
    ensures c !in s
    decreases |s|
  {
    if s != [] {
      CountZeroAbsent(s[1..], c);
      assert s == [s[0]] + s[1..];
    }
  }

  /**
   * `_parseLine` accepts exactly the items with one `:`, or else one `=`; the key and the value
   * are the trimmed text on either side of that character.
   */
  lemma ParseLineSpec(item: string)
    ensures ParseLine(item).Some? <==> Count(item, ':') == 1 || Count(item, '=') == 1
    ensures Count(item, ':') == 1 ==> IndexOfChar(item, ':').Some? && var i := IndexOfChar(item, ':').value;
      ParseLine(item) == Some((Trim(item[..i]), Trim(item[i + 1..])))
    ensures Count(item, ':') != 1 && Count(item, '=') == 1 ==> IndexOfChar(item, '=').Some? && var i := IndexOfChar(item, '=').value;
      ParseLine(item) == Some((Trim(item[..i]), Trim(item[i + 1..])))
  {
    SplitJoin(item, ':');
    SplitJoin(item, '=');
    if Count(item, ':') == 1 {
      SplitOnce(item, ':');
    } else if Count(item, '=') == 1 {
      SplitOnce(item, '=');
    }
  }

  // ---------------------------------------------------------------------------------------------
  // `_updateBatteryData`

  /**
   * The telemetry keys of the switch that store a single reading, and the property each sets:
   * `zd` and `zg` (the lowest and highest cell) are read with `parseInt`, the others with
   * `parseFloat`.
   */
  function ReadingField(key: string): (f: Option<nat>)
    ensures f.Some? ==> f.value < 26 && f.value !in {Temperatures, Gzys, Voltages, ChargingStatus, DischargingStatus, BalancingStatus, BalanceStatus, TotalStrings}
    ensures f.Some? ==> (Shapes[f.value] == 1 <==> key in {"zd", "zg"})
  {
    if key == "zdy" then Some(0)
    else if key == "yc" then Some(1)
    else if key == "zd" then Some(3)
    else if key == "min" then Some(4)
    else if key == "zg" then Some(5)
    else if key == "max" then Some(6)
    else if key == "dl" then Some(7)
    else if key == "gl" then Some(13)
    else if key == "bl" then Some(8)
    else if key == "rl" then Some(9)
    else if key == "zx" then Some(10)
    else if key == "pj" then Some(12)
    else if key == "moswd" then Some(14)
    else if key == "jhwd" then Some(15)
    else if key == "xpwd1" then Some(17)
    else if key == "xpwd2" then Some(18)
    else None
  }

  /** The reading stored for a single-reading key: `parseInt(v) || 0` or `parseFloat(v) || 0.0`. */
  function Reading(key: string, value: string): Value {
    if key == "zd" || key == "zg" then Integer(ParseIntOrZero(value)) else Number(ParseFloatOrZero(value))
  }

  /** `while (xs.length < n) xs.push(0.0)` */
  function Padded(xs: seq<real>, n: int): (ys: seq<real>)
    ensures |ys| == if |xs| < n then n else |xs|
    ensures ys[..|xs|] == xs
    ensures forall i :: |xs| <= i < |ys| ==> ys[i] == 0.0
  {
    if |xs| < n then xs + Zeros(n - |xs|) else xs
  }

  /**
   * Padding followed by `xs[n - 1] = x`: the list grows with zeros to at least `n` cells and cell
   * `n - 1` holds `x`; every other cell keeps its value. An index below one names no cell (the
   * assignment goes to a non-index property of the array), so the list is then unchanged.
   */
  function SetCell(xs: seq<real>, n: int, x: real): (ys: seq<real>)
    ensures n < 1 ==> ys == xs
    ensures n >= 1 ==> |ys| == (if |xs| < n then n else |xs|) && ys[n - 1] == x
    ensures n >= 1 ==> forall i :: 0 <= i < |ys| && i != n - 1 ==> ys[i] == if i < |xs| then xs[i] else 0.0
  {
    var p := Padded(xs, n);
    if n >= 1 then
      assert forall i :: 0 <= i < |xs| ==> p[i] == p[..|xs|][i];
      p[n - 1 := x]
    else p
  }

  /** `jhzt`: the first `min(|value|, |bs|)` status bytes take the value's character codes. */
  function Overlay(bs: seq<nat>, value: string): (r: seq<nat>)
    ensures |r| == |bs|
    ensures forall i :: 0 <= i < |r| ==> r[i] == if i < |value| then value[i] as nat else bs[i]
  {
    seq(|bs|, i requires 0 <= i < |bs| => if i < |value| then value[i] as nat else bs[i])
  }

  /** Which property a `u<N>` or bare numeric key writes, with the index and the reading, if any. */
  function CellTarget(key: string, value: string): (t: Option<(nat, int, real)>)
    ensures t.Some? ==> t.value.0 == if StartsWith(key, "u") && |key| > 1 then Temperatures else Voltages
  {
    if StartsWith(key, "u") && |key| > 1 then
      match (ParseInt(key[1..]), ParseFloat(value))
      case (Some(n), Some(x)) => Some((Temperatures, n, x))
      case _ => None
    else
      match (ParseInt(key), ParseFloat(value))
      case (Some(n), Some(x)) => Some((Voltages, n, x))
      case _ => None
  }

  /** `_updateBatteryData(key, value)`: the record after one key/value pair. */
  function UpdateBatteryData(r: Record, key: string, value: string): (r': Record)
    requires Readable(r)
    ensures Readable(r')
  {
    match ReadingField(key)
    case Some(f) => r[f := Reading(key, value)]
    case None =>
      if key == "jhzt" then
        var r1 := r[BalancingStatus := Flag(Some(true))];
        if |value| >= 4 then r1[BalanceStatus := Bytes(Overlay(r[BalanceStatus].bs, value))] else r1
      else
        match CellTarget(key, value)
        case Some((f, n, x)) => r[f := Numbers(SetCell(r[f].xs, n, x))]
        case None => r
  }

  /** The properties `_updateBatteryData` may write for a key. */
  function Written(key: string): set<nat> {
    match ReadingField(key)
    case Some(f) => {f}
    case None =>
      if key == "jhzt" then {BalancingStatus, BalanceStatus}
      else if StartsWith(key, "u") && |key| > 1 then {Temperatures}
      else {Voltages}
  }

  /** One key/value pair changes at most the properties its key names, and nothing else. */
  lemma UpdateWritesOnlyItsField(r: Record, key: string, value: string)
    requires Readable(r)
    ensures forall i :: 0 <= i < |r| && i !in Written(key) ==> UpdateBatteryData(r, key, value)[i] == r[i]
  {
  }

  /** A single-reading key stores a value of the property's own shape, and changes no other property. */
  lemma ReadingUpdate(r: Record, key: string, value: string)
    requires Readable(r) && ReadingField(key).Some?
    ensures UpdateBatteryData(r, key, value) == r[ReadingField(key).value := Reading(key, value)]
    ensures Shape(Reading(key, value)) == Shapes[ReadingField(key).value]
  {
  }

  /** `jhzt` raises the balancing flag and, for a value of four characters or more, overlays the status bytes. */
  lemma BalanceUpdate(r: Record, value: string)
    requires Readable(r)
    ensures var r1 := r[BalancingStatus := Flag(Some(true))];
      UpdateBatteryData(r, "jhzt", value) == if |value| >= 4 then r1[BalanceStatus := Bytes(Overlay(r[BalanceStatus].bs, value))] else r1
  {
  }

  /**
   * A `u<N>` key writes the temperature list and a numeric key the voltage list, through
   * `SetCell`: padded with zeros to N cells, cell N-1 set, every other cell kept, and no change
   * at all for an index below one. Nothing else in the record changes.
   */
  lemma CellUpdate(r: Record, key: string, value: string)
    requires Readable(r) && CellTarget(key, value).Some?
    ensures var (f, n, x) := CellTarget(key, value).value;
      UpdateBatteryData(r, key, value) == r[f := Numbers(SetCell(r[f].xs, n, x))]
  {
    CellKeysAreNotReadings(key, value);
  }

  /** A key that names no reading, is not `jhzt` and names no cell changes nothing. */
  lemma NoCellTarget(r: Record, key: string, value: string)
    requires Readable(r) && ReadingField(key).None? && key != "jhzt" && CellTarget(key, value).None?
    ensures UpdateBatteryData(r, key, value) == r
  {
  }

  /** A key that starts with a lower-case letter is not a number. */
  lemma LetterStartNotNumber(key: string)
    requires |key| > 0 && 'a' <= key[0] <= 'z'
    ensures ParseInt(key).None?
  {
    assert LeadingSpaces(key) == 0;
    assert TrimStart(key) == key;
    assert DigitRun(key, false) == 0;
  }

  /** The single-reading keys and `jhzt` never reach the `u<N>` or numeric branch. */
  lemma CellKeysAreNotReadings(key: string, value: string)
    ensures CellTarget(key, value).Some? ==> ReadingField(key).None? && key != "jhzt"
  {
    if ReadingField(key).Some? || key == "jhzt" {
      if ReadingField(key).Some? {
        ReadingKeyLetter(key);
      }
      LetterNotCell(key, value);
    }
  }

  /** A key starting with a lower-case letter other than `u` names no cell. */
  lemma LetterNotCell(key: string, value: string)
    requires |key| > 0 && 'a' <= key[0] <= 'z' && key[0] != 'u'
    ensures CellTarget(key, value).None?
  {
    assert !StartsWith(key, "u") by {
      assert key[..1][0] == key[0];
    }
    LetterStartNotNumber(key);
  }

  /** Every single-reading key starts with a lower-case letter other than `u`. */
  lemma ReadingKeyLetter(key: string)
    requires ReadingField(key).Some?
    ensures |key| > 0 && 'a' <= key[0] <= 'z' && key[0] != 'u'
  {
  }

  // ---------------------------------------------------------------------------------------------
  // `_updateStatus`

  /**
   * `_updateStatus({...})`: every flag that is not `null` is assigned, and a flag the caller did
   * not pass is `undefined` (None), which is not `null`; so all three flags are written.
   */
  function StatusRecord(r: Record, charging: Option<bool>, discharging: Option<bool>, balancing: Option<bool>): (r': Record)
    requires Readable(r)
    ensures Readable(r')
    ensures r'[ChargingStatus] == Flag(charging) && r'[DischargingStatus] == Flag(discharging) && r'[BalancingStatus] == Flag(balancing)
    ensures forall i :: 0 <= i < |r| && i !in {ChargingStatus, DischargingStatus, BalancingStatus} ==> r'[i] == r[i]
  {
    r[ChargingStatus := Flag(charging)][DischargingStatus := Flag(discharging)][BalancingStatus := Flag(balancing)]
  }

  /** The entries `_updateStatus` hands to `updateMultiple`. */
  function StatusEntries(charging: Option<bool>, discharging: Option<bool>, balancing: Option<bool>): seq<(string, Value)> {
    [(Keys[ChargingStatus], Flag(charging)), (Keys[DischargingStatus], Flag(discharging)), (Keys[BalancingStatus], Flag(balancing))]
  }

  /** The three status properties hold flags. */
  lemma FlagShape(i: nat)
    requires ChargingStatus <= i <= BalancingStatus
    ensures Shapes[i] == 2
  {
  }

  /** A flag fits a status property. */
  lemma FlagFits(i: nat, v: Option<bool>)
    requires ChargingStatus <= i <= BalancingStatus
    ensures Fits(Keys[i], Flag(v))
  {
    FieldOfKey(i);
    FlagShape(i);
    ShapesCount();
  }

  /** Setting a status property by its name sets it at its position. */
  lemma SetFlag(r: Record, i: nat, v: Option<bool>)
    requires ChargingStatus <= i <= BalancingStatus && |r| == |Keys|
    ensures SetKey(r, Keys[i], Flag(v)) == r[i := Flag(v)]
  {
    FieldOfKey(i);
  }

  /** One more entry is one more assignment, after the earlier ones. */
  lemma ApplyStep(r: Record, entries: seq<(string, Value)>, x: (string, Value))
    requires |r| == |Keys|
    ensures ApplyAll(r, entries + [x]) == SetKey(ApplyAll(r, entries), x.0, x.1)
  {
    assert (entries + [x])[..|entries|] == entries;
  }

  lemma ApplyOne(r: Record, x: (string, Value))
    requires |r| == |Keys|
    ensures ApplyAll(r, [x]) == SetKey(r, x.0, x.1)
  {
    ApplyStep(r, [], x);
    assert [] + [x] == [x];
  }

  lemma ApplyTwo(r: Record, x: (string, Value), y: (string, Value))
    requires |r| == |Keys|
    ensures ApplyAll(r, [x, y]) == SetKey(ApplyAll(r, [x]), y.0, y.1)
  {
    ApplyStep(r, [x], y);
    assert [x] + [y] == [x, y];
  }

  lemma ApplyThreeStep(r: Record, x: (string, Value), y: (string, Value), z: (string, Value))
    requires |r| == |Keys|
    ensures ApplyAll(r, [x, y, z]) == SetKey(ApplyAll(r, [x, y]), z.0, z.1)
  {
    ApplyStep(r, [x, y], z);
    assert [x, y] + [z] == [x, y, z];
  }

  /** The assignment loop over three entries. */
  lemma ApplyThree(r: Record, x: (string, Value), y: (string, Value), z: (string, Value))
    requires |r| == |Keys|
    ensures ApplyAll(r, [x, y, z]) == SetKey(SetKey(SetKey(r, x.0, x.1), y.0, y.1), z.0, z.1)
  {
    ApplyOne(r, x);
    ApplyTwo(r, x, y);
    ApplyThreeStep(r, x, y, z);
  }

  /** Each entry handed to `updateMultiple` names a flag property and holds a flag. */
  lemma StatusEntriesFit(charging: Option<bool>, discharging: Option<bool>, balancing: Option<bool>)
    ensures forall j :: 0 <= j < |StatusEntries(charging, discharging, balancing)| ==>
      Fits(StatusEntries(charging, discharging, balancing)[j].0, StatusEntries(charging, discharging, balancing)[j].1)
  {
    var e := StatusEntries(charging, discharging, balancing);
    forall j | 0 <= j < |e| ensures Fits(e[j].0, e[j].1) {
      var i := ChargingStatus + j;
      assert e[j] == (Keys[i], Flag(e[j].1.b));
      FlagFits(i, e[j].1.b);
    }
  }

  /** `updateMultiple` with the three entries writes the three flags and nothing else. */
  lemma StatusEntriesApplied(r: Record, charging: Option<bool>, discharging: Option<bool>, balancing: Option<bool>)
    requires |r| == |Keys|
    ensures ApplyAll(r, StatusEntries(charging, discharging, balancing)) ==
      r[ChargingStatus := Flag(charging)][DischargingStatus := Flag(discharging)][BalancingStatus := Flag(balancing)]
  {
    var r1 := r[ChargingStatus := Flag(charging)];
    var r2 := r1[DischargingStatus := Flag(discharging)];
    SetFlag(r, ChargingStatus, charging);
    SetFlag(r1, DischargingStatus, discharging);
    SetFlag(r2, BalancingStatus, balancing);
    ApplyThree(r, (Keys[ChargingStatus], Flag(charging)), (Keys[DischargingStatus], Flag(discharging)), (Keys[BalancingStatus], Flag(balancing)));
  }

  /** Writing back a value a sequence already holds leaves it as it is. */
  lemma UpdateSame(r: Record, i: nat)
    requires i < |r|
    ensures r[i := r[i]] == r
  {
  }

  /** A value of a property's shape fits under that property's name. */
  lemma FitsAt(i: nat, v: Value)
    requires i < |Keys| && |Shapes| == |Keys| && Shape(v) == Shapes[i]
    ensures Fits(Keys[i], v)
  {
    FieldOfKey(i);
  }

  /** Setting a property by its name sets it at its position. */
  lemma SetAt(r: Record, i: nat, v: Value)
    requires i < |Keys| && |r| == |Keys|
    ensures SetKey(r, Keys[i], v) == r[i := v]
  {
    FieldOfKey(i);
  }

  /** Storing the same value twice is storing it once. */
  lemma UpdateTwice(r: Record, i: nat, v: Value)
    requires i < |r|
    ensures r[i := v][i := v] == r[i := v]
  {
  }

  /** `updateMultiple` with the flags the record already holds changes nothing. */
  lemma StatusSettled(r: Record, charging: Option<bool>, discharging: Option<bool>, balancing: Option<bool>)
    requires |r| == |Keys|
    requires r[ChargingStatus] == Flag(charging) && r[DischargingStatus] == Flag(discharging) && r[BalancingStatus] == Flag(balancing)
    ensures ApplyAll(r, StatusEntries(charging, discharging, balancing)) == r
  {
    StatusEntriesApplied(r, charging, discharging, balancing);
    UpdateSame(r, ChargingStatus);
    UpdateSame(r, DischargingStatus);
    UpdateSame(r, BalancingStatus);
  }

  /** Reporting one switch clears the other two: `cdopen` leaves the discharge and balancing flags undefined. */
  lemma StatusClobbers(r: Record)
    requires Readable(r) && r[DischargingStatus] == Flag(Some(true))
    ensures StatusRecord(r, Some(true), None, None)[DischargingStatus] == Flag(None)
    ensures StatusRecord(r, Some(true), None, None)[BalancingStatus] == Flag(None)
  {
  }

  // ---------------------------------------------------------------------------------------------
  // `_handleCdCloseStatus` / `_handleFdCloseStatus`: the fault byte

  /** The order in which the fault bits are checked, and the message key of each. */
  const FaultBitOrder: seq<nat> := [7, 0, 1, 2, 3, 4, 6, 5]
  const FaultNames: seq<string> := [
    "short_circuit_protection", "single_under_voltage", "manual_close", "mos_high_temp",
    "probe_high_temp", "string_drop", "over_current_protection", "delay_recovery"
  ]

  /** The first-match chain on `code & 0x80`, `0x01`, `0x02`, `0x04`, `0x08`, `0x10`, `0x40`, `0x20`. */
  function FaultKey(code: nat): string {
    if BitSet(code, 7) then "short_circuit_protection"
    else if BitSet(code, 0) then "single_under_voltage"
    else if BitSet(code, 1) then "manual_close"
    else if BitSet(code, 2) then "mos_high_temp"
    else if BitSet(code, 3) then "probe_high_temp"
    else if BitSet(code, 4) then "string_drop"
    else if BitSet(code, 6) then "over_current_protection"
    else if BitSet(code, 5) then "delay_recovery"
    else ""
  }

  /** Reference definition: the first position, from `k` on, of the checking order whose bit is set in `code`. */
  function FirstSet(code: nat, k: nat): (r: Option<nat>)
    requires k <= |FaultBitOrder|
    ensures r.Some? ==> k <= r.value < |FaultBitOrder| && BitSet(code, FaultBitOrder[r.value])
    ensures r.Some? ==> forall j :: k <= j < r.value ==> !BitSet(code, FaultBitOrder[j])
    ensures r.None? ==> forall j :: k <= j < |FaultBitOrder| ==> !BitSet(code, FaultBitOrder[j])
    decreases |FaultBitOrder| - k
  {
    if k == |FaultBitOrder| then None
    else if BitSet(code, FaultBitOrder[k]) then Some(k)
    else FirstSet(code, k + 1)
  }

  /** The chain reports the name of the first bit, in the checking order, that is set; "" when none of the eight is. */
  lemma FaultKeyFirstMatch(code: nat)
    ensures FirstSet(code, 0).Some? ==> FaultKey(code) == FaultNames[FirstSet(code, 0).value]
    ensures FirstSet(code, 0).None? ==> FaultKey(code) == ""
  {
    assert FirstSet(code, 8) == None;
    assert FirstSet(code, 7) == if BitSet(code, 5) then Some(7) else None;
    assert FirstSet(code, 6) == if BitSet(code, 6) then Some(6) else FirstSet(code, 7);
    assert FirstSet(code, 5) == if BitSet(code, 4) then Some(5) else FirstSet(code, 6);
    assert FirstSet(code, 4) == if BitSet(code, 3) then Some(4) else FirstSet(code, 5);
    assert FirstSet(code, 3) == if BitSet(code, 2) then Some(3) else FirstSet(code, 4);
    assert FirstSet(code, 2) == if BitSet(code, 1) then Some(2) else FirstSet(code, 3);
    assert FirstSet(code, 1) == if BitSet(code, 0) then Some(1) else FirstSet(code, 2);
  }

  /** Under-voltage masks string drop: a byte with both 0x01 and 0x10 set (and not 0x80) reports under-voltage. */
  lemma UnderVoltageMasksStringDrop()
    ensures FaultKey(0x11) == "single_under_voltage"
    ensures FaultKey(0x10) == "string_drop"
  {
    assert Pow2(7) == 128 && Pow2(4) == 16;
    assert BitSet(0x10, 4) && !BitSet(0x10, 0) && !BitSet(0x10, 1) && !BitSet(0x10, 2) && !BitSet(0x10, 3);
  }

  /**
   * `t(key) || fallback` for the fault's key, or "" when no bit is set. `t` returns its key when
   * the language pack has no text, so the literal fallbacks are never used.
   */
  function FaultText(messages: I18n.Pack, code: nat): (text: string)
    ensures text == "" <==> FaultKey(code) == ""
  {
    var key := FaultKey(code);
    if key == "" then "" else I18n.Translate(messages, key, [])
  }

  /** What a close-status handler does with a token. */
  datatype FaultReport =
    | NotAFault              // no prefix, or nothing after it once trailing space is removed
    | Report(text: string)   // the status text is set
    | Aborted(delay: int)    // `gzys` is set, then the call to the timer method throws

  /**
   * `_handleCdCloseStatus` / `_handleFdCloseStatus`: trailing white space is removed; the
   * character after the 7-letter prefix is the fault code; a positive delay number after it sets
   * `gzys` and calls `startGZYSTimer`, a method the class does not define (it defines
   * `startGzysTimer`), so that call throws and the status text is never set.
   */
  function CloseStatus(item: string, prefix: string, messages: I18n.Pack): (f: FaultReport)
    requires |prefix| == 7
    ensures f.Aborted? ==> f.delay > 0
    ensures f.Report? ==> |TrimEnd(item)| > 7 && f.text == FaultText(messages, TrimEnd(item)[7] as nat)
    ensures f.NotAFault? <==> !StartsWith(TrimEnd(item), prefix) || |TrimEnd(item)| <= 7
  {
    var s := TrimEnd(item);
    if !StartsWith(s, prefix) || |s| <= 7 then NotAFault
    else
      var text := FaultText(messages, s[7] as nat);
      if |s| > 8 && ParseIntOrZero(s[8..]) > 0 then Aborted(ParseIntOrZero(s[8..]))
      else Report(text)
  }

  /** A delayed fault is never shown: `cdclose` + code 0x01 + "30" aborts with a 30 second delay. */
  lemma DelayedFaultAborts(messages: I18n.Pack)
    ensures CloseStatus("cdclose" + [1 as char] + "30", "cdclose", messages) == Aborted(30)
  {
    var item := "cdclose" + [1 as char] + "30";
    assert TrailingSpaces(item) == 0;
    assert TrimEnd(item) == item;
    assert item[8..] == "30";
    ParseThirty();
  }

  /** `parseInt("30")` */
  lemma ParseThirty()
    ensures ParseInt("30") == Some(30)
  {
    var s := "30";
    assert LeadingSpaces(s) == 0;
    assert TrimStart(s) == s;
    assert s[1..] == "0";
    assert DigitRun(s[1..], false) == 1;
    assert DigitRun(s, false) == 2;
    assert s[..2] == s && s[..1] == "3";
    assert DigitsValue("3", 10) == 3 by {
      assert "3"[..0] == "";
    }
    assert DigitsValue(s, 10) == 30;
  }

  // ---------------------------------------------------------------------------------------------
  // `_handleParameterSetting`

  /** The keys the parameter switch handles, in its case order. */
  const HandledParameters: seq<string> := [
    "CS", "gybh", "gyhf", "qyhf", "qybh", "usergw", "userhf", "mosgw", "moshf", "jhyc", "jhwd",
    "dcrl", "ycjh", "jhqd", "dqdl", "gzys", "glbh", "cdgl", "ycbh", "ver", "dljd", "dlxd", "dlys", "jhpl"
  ]

  /** The state the parameter switch changes. */
  datatype Settings = Settings(params: map<string, string>, version: string, record: Record)

  /** `Math.max(0, Math.min(252, n))` */
  function ClampStrings(n: int): (c: int)
    ensures 0 <= c <= 252
    ensures 0 <= n <= 252 ==> c == n
  {
    if n < 0 then 0 else if n > 252 then 252 else n
  }

  /**
   * `_handleParameterSetting(key, value)`: a handled key stores the value in the parameter map
   * through `setCommandMap`; `CS` also sets the string count, `ycbh` the protection threshold and
   * `ver` the version name. Any other key changes nothing.
   */
  function SetParameter(st: Settings, key: string, value: string): (r: Settings)
    requires Readable(st.record)
    ensures Readable(r.record)
    ensures key !in HandledParameters ==> r == st
    ensures key in HandledParameters ==> r.params == AppConstants.SetCommandMap(key, st.params, value)
    ensures key !in {"CS", "ycbh"} ==> r.record == st.record
    ensures key != "ver" ==> r.version == st.version
  {
    if key !in HandledParameters then st
    else
      var params := AppConstants.SetCommandMap(key, st.params, value);
      if key == "CS" then st.(params := params, record := st.record[TotalStrings := Integer(ClampStrings(ParseIntOrZero(value)))])
      else if key == "ycbh" then st.(params := params, record := st.record[Ycbh := Number(ParseFloatOrZero(value))])
      else if key == "ver" then st.(params := params, version := value)
      else st.(params := params)
  }

  /** Every command of the parameter table is handled by the switch. */
  lemma TableCommandHandled(i: nat)
    requires i < |AppConstants.Commands| - 1
    ensures AppConstants.Commands[i] in HandledParameters
  {
    var c := AppConstants.Commands;
    if i < 14 || 15 <= i < 19 {
      assert HandledParameters[i] == c[i];
    } else if i == 14 {
      assert HandledParameters[20] == c[i];
    } else {
      assert HandledParameters[i + 2] == c[i];
    }
  }

  /** `CS=v` sets the string count to `parseInt(v)` clamped to [0, 252], 0 when v is not a number. */
  lemma StringCountClamped(st: Settings, value: string)
    requires Readable(st.record)
    ensures var n := SetParameter(st, "CS", value).record[TotalStrings].n;
      0 <= n <= 252 &&
      (ParseInt(value).None? ==> n == 0) &&
      (ParseInt(value).Some? && 0 <= ParseInt(value).value <= 252 ==> n == ParseInt(value).value)
  {
  }

  /** A table command stores its value under its parameter name, and nothing else in the map changes. */
  lemma TableCommandStored(st: Settings, i: nat, value: string)
    requires Readable(st.record) && i < |AppConstants.Commands| - 1
    ensures var p := SetParameter(st, AppConstants.Commands[i], value).params;
      p == st.params[AppConstants.CommandNames[i] := value]
  {
    AppConstants.KeyOfCommandOf(i);
    TableCommandHandled(i);
  }

  /** `ver` is handled but not in the table: the map stays as it was and the version name is set. */
  lemma VerSetsVersion(st: Settings, value: string)
    requires Readable(st.record)
    ensures SetParameter(st, "ver", value) == st.(version := value)
  {
    AppConstants.UnlistedCommands("ver", st.params, value);
  }

  /** `dqdl` is handled but not in the table: nothing changes. */
  lemma DqdlChangesNothing(st: Settings, value: string)
    requires Readable(st.record)
    ensures SetParameter(st, "dqdl", value) == st
  {
    AppConstants.UnlistedCommands("dqdl", st.params, value);
  }

  // ---------------------------------------------------------------------------------------------
  // Password state machine

  /**
   * The password fields: `_passwordVerified`, `_firstPasswordVerified`, `_lastError`, whether the
   * 240-second expiry timer is pending, `verifiedPassword` and `lastVerifyPassword`.
   */
  datatype Password = Password(
    verified: bool,
    firstVerified: bool,
    lastError: Option<string>,
    timerArmed: bool,
    verifiedPassword: Option<string>,
    lastVerifyPassword: string)

  /** The constructor's values. */
  const InitialPassword: Password := Password(false, false, None, false, None, "")

  /**
   * `verifyPassword(password)`: nothing when both flags are set; otherwise the password is
   * remembered and its frame is handed to `sendCommand`.
   */
  function VerifyPassword(p: Password, password: string): (r: (Password, Option<string>))
    ensures p.firstVerified && p.verified ==> r == (p, None)
    ensures !(p.firstVerified && p.verified) ==>
      r.0 == p.(lastVerifyPassword := password) && r.1 == Some(CommonEnum.PasswordFrame(password))
  {
    if p.firstVerified && p.verified then (p, None)
    else (p.(lastVerifyPassword := password), Some(CommonEnum.PasswordPrefix + password + CommonEnum.PasswordSuffix))
  }

  /**
   * `_handlePasswordResponse(response)`: before the first response has been seen, any response
   * only resubmits the last password and marks the first response as seen; afterwards `pd1`
   * verifies (once) and `pd0` un-verifies.
   */
  function PasswordResponse(p: Password, response: string, messages: I18n.Pack): (r: (Password, Option<string>)) {
    if p.firstVerified then
      if response == CommonEnum.Success then
        if !p.verified then
          (p.(lastError := None, verified := true, verifiedPassword := Some(p.lastVerifyPassword), timerArmed := true), None)
        else (p, None)
      else if response == CommonEnum.Failure then
        (p.(verified := false, lastError := Some(I18n.Translate(messages, "password_error", [])), verifiedPassword := None), None)
      else (p, None)
    else
      var (p1, command) := VerifyPassword(p, p.lastVerifyPassword);
      (p1.(firstVerified := true), command)
  }

  /** The expiry timer fires: the password is no longer verified. */
  function PasswordExpired(p: Password): (r: Password)
    requires p.timerArmed
    ensures !r.verified && !r.timerArmed
    ensures r.(verified := p.verified, timerArmed := true) == p
  {
    p.(verified := false, timerArmed := false)
  }

  /** `guardPasswordVerified()` */
  predicate Guard(p: Password) {
    p.verified
  }

  /** The first response of either kind only resubmits the last password and marks the first response as seen. */
  lemma FirstResponseResubmits(p: Password, response: string, messages: I18n.Pack)
    requires !p.firstVerified
    ensures var (q, command) := PasswordResponse(p, response, messages);
      q.firstVerified && q.verified == p.verified && q.verifiedPassword == p.verifiedPassword &&
      command == Some(CommonEnum.PasswordFrame(p.lastVerifyPassword))
  {
  }

  /** A later `pd1` while unverified verifies the last password submitted and arms the expiry timer. */
  lemma SuccessVerifies(p: Password, messages: I18n.Pack)
    requires p.firstVerified && !p.verified
    ensures var (q, command) := PasswordResponse(p, "pd1", messages);
      q.verified && q.verifiedPassword == Some(p.lastVerifyPassword) && q.lastError == None && q.timerArmed &&
      command == None && Guard(q)
  {
  }

  /** A later `pd0` clears the verified flag and the verified password, and records the error. */
  lemma FailureClears(p: Password, messages: I18n.Pack)
    requires p.firstVerified
    ensures var (q, command) := PasswordResponse(p, "pd0", messages);
      !q.verified && q.verifiedPassword == None && q.lastError.Some? && command == None && !Guard(q)
  {
    CommonEnum.SuccessFailureExclusive("pd0");
  }

  /**
   * The whole exchange from a fresh session: submitting a password and receiving `pd1` twice
   * (the first one is only answered by a resubmission) leaves that password verified; the same
   * frame is sent twice.
   */
  lemma VerifyThenTwoSuccesses(password: string, messages: I18n.Pack)
    ensures var (p1, c1) := VerifyPassword(InitialPassword, password);
      var (p2, c2) := PasswordResponse(p1, "pd1", messages);
      var (p3, c3) := PasswordResponse(p2, "pd1", messages);
      c1 == c2 == Some(CommonEnum.PasswordFrame(password)) && c3 == None &&
      !Guard(p2) && Guard(p3) && p3.verifiedPassword == Some(password)
  {
  }

  /** A first `pd0` is taken for a `pd1` prompt: it resubmits and leaves the session unverified but not in error. */
  lemma FirstFailureNotReported(password: string, messages: I18n.Pack)
    ensures var (p1, _) := VerifyPassword(InitialPassword, password);
      var (p2, c2) := PasswordResponse(p1, "pd0", messages);
      p2.lastError == None && !p2.verified && c2 == Some(CommonEnum.PasswordFrame(password))
  {
  }

  /** `disconnect()`: both flags cleared, the expiry timer stopped and the last error cleared. */
  function PasswordOnDisconnect(p: Password): (r: Password)
    ensures !r.verified && !r.firstVerified && !r.timerArmed && r.lastError == None
    ensures r.verifiedPassword == p.verifiedPassword && r.lastVerifyPassword == p.lastVerifyPassword
  {
    p.(verified := false, firstVerified := false, timerArmed := false, lastError := None)
  }

  /** `_handleDeviceDisconnection()`: verified cleared and the timer stopped; the first-response flag is kept. */
  function PasswordOnDeviceLost(p: Password): (r: Password)
    ensures !r.verified && !r.timerArmed && r.firstVerified == p.firstVerified
    ensures r.lastError == p.lastError && r.verifiedPassword == p.verifiedPassword && r.lastVerifyPassword == p.lastVerifyPassword
  {
    p.(verified := false, timerArmed := false)
  }

  /**
   * After `disconnect` the next response is again only answered by a resubmission; after the
   * device drops the link on its own, a `pd1` verifies at once.
   */
  lemma ReconnectDiffers(p: Password, messages: I18n.Pack)
    requires p.firstVerified
    ensures !PasswordResponse(PasswordOnDisconnect(p), "pd1", messages).0.verified
    ensures PasswordResponse(PasswordOnDisconnect(p), "pd1", messages).1.Some?
    ensures PasswordResponse(PasswordOnDeviceLost(p), "pd1", messages).0.verified
  {
  }

  // ---------------------------------------------------------------------------------------------
  // Token dispatch

  /** What a line can change. `sent` lists the commands handed to `sendCommand`, oldest first. */
  datatype Session = Session(
    record: Record,
    updates: nat,
    params: map<string, string>,
    version: string,
    cdText: string,
    fdText: string,
    password: Password,
    sent: seq<string>)

  /** A session whose record is well shaped. */
  predicate Shaped(s: Session) {
    Readable(s.record)
  }

  /** `_updateStatus`, which ends in one `updateMultiple` call (one update). */
  function SetStatus(s: Session, charging: Option<bool>, discharging: Option<bool>, balancing: Option<bool>): (r: Session)
    requires Shaped(s)
    ensures Shaped(r)
  {
    s.(record := StatusRecord(s.record, charging, discharging, balancing), updates := s.updates + 1)
  }

  /** The close-status handler applied to a session; false when it threw. */
  function ApplyClose(s: Session, item: string, charge: bool, messages: I18n.Pack): (r: (Session, bool))
    requires Shaped(s)
    ensures Shaped(r.0)
  {
    match CloseStatus(item, if charge then "cdclose" else "fdclose", messages)
    case NotAFault => (s, true)
    case Report(text) => (if charge then s.(cdText := text) else s.(fdText := text), true)
    case Aborted(delay) => (s.(record := s.record[Gzys := Integer(delay)]), false)
  }

  /** `cdopen` (charge) or `fdopen`: the switch is on and its fault text is cleared. */
  function Opened(s: Session, charge: bool): (r: Session)
    requires Shaped(s)
    ensures Shaped(r)
  {
    if charge then SetStatus(s, Some(true), None, None).(cdText := "")
    else SetStatus(s, None, Some(true), None).(fdText := "")
  }

  /** `cdclose` (charge) or `fdclose`: the switch is off, and a token longer than the marker carries a fault. */
  function Closed(s: Session, item: string, charge: bool, messages: I18n.Pack): (r: (Session, bool))
    requires Shaped(s)
    ensures Shaped(r.0)
  {
    var s1 := if charge then SetStatus(s, Some(false), None, None) else SetStatus(s, None, Some(false), None);
    if StartsWith(item, if charge then "cdclose" else "fdclose") && |item| > 7 then ApplyClose(s1, item, charge, messages)
    else (s1, true)
  }

  /** The status markers and the key/value update of one token; false when the handler threw. */
  function Marker(s: Session, item: string, messages: I18n.Pack): (r: (Session, bool))
    requires Shaped(s)
    ensures Shaped(r.0)
  {
    if Contains(item, "cdopen") then (Opened(s, true), true)
    else if Contains(item, "cdclose") then Closed(s, item, true, messages)
    else DischargeMarker(s, item, messages)
  }

  /** The markers after the charging ones. */
  function DischargeMarker(s: Session, item: string, messages: I18n.Pack): (r: (Session, bool))
    requires Shaped(s)
    ensures Shaped(r.0)
  {
    if Contains(item, "fdopen") then (Opened(s, false), true)
    else if Contains(item, "fdclose") then Closed(s, item, false, messages)
    else (BalanceOrReading(s, item), true)
  }

  /** `jhstop`, or else the key/value update. */
  function BalanceOrReading(s: Session, item: string): (r: Session)
    requires Shaped(s)
    ensures Shaped(r)
  {
    if Contains(item, "jhstop") then SetStatus(s, None, None, Some(false))
    else
      match ParseLine(item)
      case Some((key, value)) => s.(record := UpdateBatteryData(s.record, key, value))
      case None => s
  }

  /** The `=` rule: a token that splits into exactly two parts at `=` goes, trimmed, to the parameter setter. */
  function Assignment(s: Session, item: string): (r: Session)
    requires Shaped(s)
    ensures Shaped(r)
  {
    var parts := Split(item, '=');
    if |parts| == 2 then Assigned(s, Trim(parts[0]), Trim(parts[1])) else s
  }

  /** The parameter switch applied to a session. */
  function Assigned(s: Session, key: string, value: string): (r: Session)
    requires Shaped(s)
    ensures Shaped(r)
  {
    var st := SetParameter(Settings(s.params, s.version, s.record), key, value);
    s.(params := st.params, version := st.version, record := st.record)
  }

  /**
   * One token of `_processReceivedData`: a password response goes to the password machine, `RES`
   * only shows a message, anything else goes through the markers and then the `=` rule. The
   * flag is false when a handler threw, which ends the line.
   */
  function ProcessItem(s: Session, item: string, messages: I18n.Pack): (r: (Session, bool))
    requires Shaped(s)
    ensures Shaped(r.0)
    ensures item == "pd1" || item == "pd0" || item == "RES" ==> r.1 && r.0.record == s.record && r.0.params == s.params
  {
    if item == CommonEnum.Success || item == CommonEnum.Failure then
      var (p, command) := PasswordResponse(s.password, item, messages);
      (s.(password := p, sent := s.sent + (if command.Some? then [command.value] else [])), true)
    else if item == "RES" then (s, true)
    else
      var (s1, ok) := Marker(s, item, messages);
      if ok then (Assignment(s1, item), true) else (s1, false)
  }

  /** The tokens of a line, first to last; a token whose handler threw ends the line. */
  function ProcessItems(s: Session, items: seq<string>, messages: I18n.Pack): (r: Session)
    requires Shaped(s)
    ensures Shaped(r)
    decreases |items|
  {
    if items == [] then s
    else
      var (s1, ok) := ProcessItem(s, items[0], messages);
      if ok then ProcessItems(s1, items[1..], messages) else s1
  }

  /** `_processReceivedData(line)` */
  function ProcessLine(s: Session, line: string, messages: I18n.Pack): (r: Session)
    requires Shaped(s)
    ensures Shaped(r)
  {
    ProcessItems(s, Tokens(line), messages)
  }

  /** Every line of a delivery, in order. */
  function ProcessLines(s: Session, lines: seq<string>, messages: I18n.Pack): (r: Session)
    requires Shaped(s)
    ensures Shaped(r)
    decreases |lines|
  {
    if lines == [] then s else ProcessLines(ProcessLine(s, lines[0], messages), lines[1..], messages)
  }

  /** Handling two batches of lines one after the other is handling their concatenation. */
  lemma {:induction false} ProcessLinesAppend(s: Session, a: seq<string>, b: seq<string>, messages: I18n.Pack)
    requires Shaped(s)
    ensures ProcessLines(s, a + b, messages) == ProcessLines(ProcessLines(s, a, messages), b, messages)
    decreases |a|
  {
    if a != [] {
      assert (a + b)[0] == a[0] && (a + b)[1..] == a[1..] + b;
      ProcessLinesAppend(ProcessLine(s, a[0], messages), a[1..], b, messages);
    } else {
      assert a + b == b;
    }
  }

  /** One more line, handled only when it is not blank. */
  lemma ProcessLinesSnoc(s: Session, a: seq<string>, line: string, messages: I18n.Pack)
    requires Shaped(s)
    ensures ProcessLines(s, a + (if Trim(line) != "" then [line] else []), messages) ==
      if Trim(line) != "" then ProcessLine(ProcessLines(s, a, messages), line, messages) else ProcessLines(s, a, messages)
  {
    if Trim(line) != "" {
      ProcessLinesOne(s, a, line, messages);
    } else {
      assert a + [] == a;
    }
  }

  /** One more line, handled. */
  lemma ProcessLinesOne(s: Session, a: seq<string>, line: string, messages: I18n.Pack)
    requires Shaped(s)
    ensures ProcessLines(s, a + [line], messages) == ProcessLine(ProcessLines(s, a, messages), line, messages)
  {
    ProcessLinesAppend(s, a, [line], messages);
    var t := ProcessLines(s, a, messages);
    assert [line][1..] == [];
    assert ProcessLines(t, [line], messages) == ProcessLines(ProcessLine(t, line, messages), [], messages);
  }

  /** The segment loop, one segment further. */
  lemma SegmentStep(s: Session, parts: seq<string>, i: nat, messages: I18n.Pack)
    requires Shaped(s) && i < |parts|
    ensures var before := ProcessLines(s, NonBlank(parts[..i]), messages);
      ProcessLines(s, NonBlank(parts[..i + 1]), messages) ==
      if Trim(parts[i]) != "" then ProcessLine(before, parts[i], messages) else before
  {
    assert parts[..i + 1] == parts[..i] + [parts[i]];
    NonBlankAppend(parts[..i], [parts[i]]);
    assert NonBlank([parts[i]]) == if Trim(parts[i]) != "" then [parts[i]] else [] by {
      assert [parts[i]][1..] == [];
    }
    ProcessLinesSnoc(s, NonBlank(parts[..i]), parts[i], messages);
  }

  /** A token whose handler throws leaves the rest of the line unread, whatever it holds. */
  lemma {:induction false} AbortSkipsRest(s: Session, item: string, rest: seq<string>, messages: I18n.Pack)
    requires Shaped(s) && !ProcessItem(s, item, messages).1
    ensures ProcessItems(s, [item] + rest, messages) == ProcessItem(s, item, messages).0
  {
    assert ([item] + rest)[0] == item;
  }

  /**
   * `cdclose` with a delay: the fault delay is stored, the status text is not set, the charging
   * flag is cleared, and a parameter token later on the line is never applied.
   */
  lemma FaultDelayAbortsLine(s: Session, messages: I18n.Pack, value: string)
    requires Shaped(s)
    ensures var item := "cdclose" + [1 as char] + "30";
      var r := ProcessItems(s, [item, "CS=" + value], messages);
      r.record[Gzys] == Integer(30) && r.cdText == s.cdText &&
      r.record[ChargingStatus] == Flag(Some(false)) && r.params == s.params
  {
    var item := "cdclose" + [1 as char] + "30";
    DelayedCloseItem(s, messages);
    AbortSkipsRest(s, item, ["CS=" + value], messages);
  }

  /** The delayed `cdclose` token on its own: the handler throws after storing the delay. */
  lemma DelayedCloseItem(s: Session, messages: I18n.Pack)
    requires Shaped(s)
    ensures var item := "cdclose" + [1 as char] + "30";
      var r := ProcessItem(s, item, messages);
      !r.1 && r.0.record[Gzys] == Integer(30) && r.0.cdText == s.cdText &&
      r.0.record[ChargingStatus] == Flag(Some(false)) && r.0.params == s.params
  {
    var item := "cdclose" + [1 as char] + "30";
    DelayedFaultAborts(messages);
    assert OccursAt(item, "cdclose", 0);
    NoOpenMarker(item);
    assert StartsWith(item, "cdclose") && |item| > 7;
  }

  /** The delayed `cdclose` token does not hold `cdopen`. */
  lemma NoOpenMarker(item: string)
    requires item == "cdclose" + [1 as char] + "30"
    ensures !Contains(item, "cdopen")
  {
    forall i | 0 <= i <= |item|
      ensures !OccursAt(item, "cdopen", i)
    {
      if i + 6 <= |item| {
        assert item[i..i + 6][2] == item[i + 2] && item[i..i + 6][3] == item[i + 3];
      }
    }
  }

  // ---------------------------------------------------------------------------------------------
  // `startGzysTimer` / `stopGZYSTimer`: the fault-delay countdown

  /** `gzys`, whether the countdown timer is set, and the update count of the record. */
  datatype Countdown = Countdown(gzys: int, armed: bool, updates: nat)

  /** `stopGZYSTimer()`: with a timer set, `gzys` becomes 0 through `updateProperty`; otherwise nothing. */
  function StopCountdown(c: Countdown): (r: Countdown)
    ensures !r.armed
    ensures c.armed ==> r == Countdown(0, false, c.updates + 1)
    ensures !c.armed ==> r == c
  {
    if c.armed then Countdown(0, false, c.updates + 1) else c
  }

  /** One tick of the one-second interval: stop at zero or below, otherwise count down by one. */
  function Tick(c: Countdown): (r: Countdown)
    requires c.armed
    ensures r.updates == c.updates + 1
    ensures c.gzys > 0 ==> r == Countdown(c.gzys - 1, true, c.updates + 1)
    ensures c.gzys <= 0 ==> r == Countdown(0, false, c.updates + 1)
  {
    if c.gzys <= 0 then StopCountdown(c) else Countdown(c.gzys - 1, true, c.updates + 1)
  }

  /** `n` ticks, or fewer once the timer has stopped. */
  function Ticks(c: Countdown, n: nat): Countdown
    decreases n
  {
    if n == 0 || !c.armed then c else Ticks(Tick(c), n - 1)
  }

  /**
   * Started on a delay of `g` seconds, the countdown shows `g - k` after `k` ticks and stops at
   * 0 on tick `g + 1`, one record update per tick; further ticks change nothing.
   */
  lemma {:induction false} CountdownReachesZero(g: nat, u: nat, k: nat)
    ensures k <= g ==> Ticks(Countdown(g, true, u), k) == Countdown(g - k, true, u + k)
    ensures k > g ==> Ticks(Countdown(g, true, u), k) == Countdown(0, false, u + g + 1)
    decreases k
  {
    if k > 0 {
      if g == 0 {
        assert Tick(Countdown(0, true, u)) == Countdown(0, false, u + 1);
        assert Ticks(Countdown(0, false, u + 1), k - 1) == Countdown(0, false, u + 1);
      } else {
        CountdownReachesZero(g - 1, u + 1, k - 1);
      }
    }
  }

  // ---------------------------------------------------------------------------------------------
  // `isBalancing` / `getBalancingStrings`: six strings per status byte

  /** `isBalancing(i)`: string `i` (0-based) within the count, with bit `i % 6` of byte `i / 6` set. */
  predicate IsBalancing(totalStrings: int, bs: seq<nat>, i: int) {
    0 <= i < totalStrings && i / 6 < |bs| && BitSet(bs[i / 6], i % 6)
  }

  /** The 1-based numbers of the balancing strings among the first `m`. */
  function BalancingSix(totalStrings: int, bs: seq<nat>, m: nat): seq<nat> {
    if m == 0 then [] else BalancingSix(totalStrings, bs, m - 1) + (if IsBalancing(totalStrings, bs, m - 1) then [m] else [])
  }

  /** The list holds exactly the balancing strings up to `m`, in increasing order. */
  lemma {:induction false} BalancingSixMembers(totalStrings: int, bs: seq<nat>, m: nat)
    ensures forall n :: n in BalancingSix(totalStrings, bs, m) <==> 1 <= n <= m && IsBalancing(totalStrings, bs, n - 1)
    ensures forall i, j :: 0 <= i < j < |BalancingSix(totalStrings, bs, m)| ==> BalancingSix(totalStrings, bs, m)[i] < BalancingSix(totalStrings, bs, m)[j]
    ensures forall i :: 0 <= i < |BalancingSix(totalStrings, bs, m)| ==> 1 <= BalancingSix(totalStrings, bs, m)[i] <= m
  {
    if m > 0 {
      BalancingSixMembers(totalStrings, bs, m - 1);
    }
  }

  /** Bits 0 to 5 of 64 are clear. */
  lemma LowBitsOf64(k: nat)
    requires k < 6
    ensures !BitSet(64, k)
  {
    assert Pow2(0) == 1 && Pow2(1) == 2 && Pow2(2) == 4 && Pow2(3) == 8 && Pow2(4) == 16 && Pow2(5) == 32;
  }

  /**
   * The two decoders read the same status bytes differently: for a single byte 0x40, the record's
   * own decoder (eight strings per byte) reports string 7 while the session engine (six per byte)
   * reports none.
   */
  lemma LayoutsDisagree()
    ensures BalancingUpTo([64], 8) == [7]
    ensures BalancingSix(252, [64], 252) == []
  {
    BalancingEightPerByte();
    var r := BalancingSix(252, [64], 252);
    BalancingSixMembers(252, [64], 252);
    if r != [] {
      var n := r[0];
      assert n in r;
      assert (n - 1) / 6 < 1;
      LowBitsOf64(n - 1);
      assert false;
    }
  }
}
