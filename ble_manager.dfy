/**
 * utils/batteryManager.js, class BLEManager: the session engine. It owns the telemetry record
 * and the write queue, reassembles notification chunks into lines, runs the token dispatcher of
 * `BleProtocol` over each line, and keeps the password, fault-delay and flush timers.
 *
 * Each method states its effect as the corresponding `BleProtocol` function applied to the
 * state before the call; what the protocol promises is proved about those functions.
 */
module BleManager {
  import opened Options
  import opened JsString
  import opened ByteCodec
  import opened BatteryKeys
  import opened BatteryDataModel
  import opened BleProtocol
  import Writer
  import I18n
  import AppConstants
  import CommonEnum

  /** `while (xs.length < n) xs.push(0.0); xs[n - 1] = x` */
  method PadAndSet(xs: seq<real>, n: int, x: real) returns (ys: seq<real>)
    ensures ys == SetCell(xs, n, x)
  {
    ys := xs;
    while |ys| < n
      invariant |xs| <= |ys| && (|ys| > |xs| ==> |ys| <= n)
      invariant ys[..|xs|] == xs
      invariant forall i :: |xs| <= i < |ys| ==> ys[i] == 0.0
      decreases n - |ys|
    {
      ys := ys + [0.0];
    }
    assert ys == Padded(xs, n);
    if n >= 1 {
      ys := ys[n - 1 := x];
    }
  }

  /** The `jhzt` loops: the first `min(|value|, |bs|)` bytes take the value's character codes. */
  method OverlayBytes(bs: seq<nat>, value: string) returns (r: seq<nat>)
    ensures r == Overlay(bs, value)
  {
    var count := if |value| < |bs| then |value| else |bs|;
    r := bs;
    var i := 0;
    while i < count
      invariant i <= count && |r| == |bs|
      invariant forall j :: 0 <= j < i ==> r[j] == value[j] as nat
      invariant forall j :: i <= j < |r| ==> r[j] == bs[j]
    {
      r := r[i := value[i] as nat];
      i := i + 1;
    }
  }

  /**
   * The writer's queue and next id after `sendCommand(command, priority)`: with a write
   * characteristic, a device and a non-empty command, the encoded command is enqueued under the
   * next id; otherwise nothing changes.
   */
  function AfterSend(q: Writer.Queue, nextId: nat, target: Option<Writer.Characteristic>, attached: bool,
                     command: string, priority: Writer.Priority): (Writer.Queue, nat)
  {
    if target.Some? && attached && command != "" then
      (Writer.Enqueue(q, Writer.WriteTask(nextId, target.value, EncodeString(command)), priority, target), nextId + 1)
    else (q, nextId)
  }

  class Manager {
    /** `_batteryData` */
    const batteryData: BatteryData
    /** `_bluetoothWriter` */
    const writer: Writer.BluetoothWriter
    /** The message pack `this.t` translates with. */
    const messages: I18n.Pack

    var isConnected: bool
    /** `_peripheral !== null` */
    var hasPeripheral: bool
    var isConnectionEnabled: bool
    var parameterValues: map<string, string>
    var versionName: string
    var cdCloseStatusText: string
    var fdCloseStatusText: string
    var receiveBuffer: string
    /** `_processingTimer !== null`: the flush timer is pending. */
    var flushArmed: bool
    /** `gzysTimer !== null`: the fault-delay countdown is running. */
    var gzysArmed: bool
    var password: Password
    /** The commands handed to `sendCommand`, oldest first. */
    ghost var sent: seq<string>

    /** The state a line of tokens can change. */
    ghost function Snapshot(): Session
      reads this`parameterValues, this`versionName, this`cdCloseStatusText, this`fdCloseStatusText
      reads this`password, this`sent, batteryData
    {
      Session(batteryData.Record(), batteryData.updates, parameterValues, versionName,
        cdCloseStatusText, fdCloseStatusText, password, sent)
    }

    /** The fault-delay countdown. */
    function Timer(): Countdown
      reads this`gzysArmed, batteryData`gzys, batteryData`updates
    {
      Countdown(batteryData.gzys, gzysArmed, batteryData.updates)
    }

    /** `constructor(preLocale)`: a fresh record and writer, nothing connected, no password state. */
    constructor(messages: I18n.Pack)
      ensures this.messages == messages && fresh(batteryData) && fresh(writer)
      ensures Snapshot() == Session(Defaults, 0, map[], "", "", "", InitialPassword, [])
      ensures !isConnected && !hasPeripheral && isConnectionEnabled
      ensures receiveBuffer == "" && !flushArmed && !gzysArmed
      ensures writer.writeCharacteristic.None? && writer.State() == Writer.Queue([], [], false, map[])
    {
      this.messages := messages;
      batteryData := new BatteryData();
      writer := new Writer.BluetoothWriter();
      isConnected := false;
      hasPeripheral := false;
      isConnectionEnabled := true;
      parameterValues := map[];
      versionName := "";
      cdCloseStatusText := "";
      fdCloseStatusText := "";
      receiveBuffer := "";
      flushArmed := false;
      gzysArmed := false;
      password := InitialPassword;
      sent := [];
    }

    // -------------------------------------------------------------------------------------------
    // Record updates

    /** `_updateStatus({...})`: the three flags assigned one by one, then handed to `updateMultiple`. */
    method UpdateStatus(charging: Option<bool>, discharging: Option<bool>, balancing: Option<bool>)
      modifies batteryData
      ensures batteryData.Record() == StatusRecord(old(batteryData.Record()), charging, discharging, balancing)
      ensures batteryData.updates == old(batteryData.updates) + 1
    {
      AssignFlags(charging, discharging, balancing);
      StatusEntriesFit(charging, discharging, balancing);
      StatusSettled(batteryData.Record(), charging, discharging, balancing);
      batteryData.UpdateMultiple(StatusEntries(charging, discharging, balancing));
    }

    /** The three assignments `_updateStatus` makes before `updateMultiple`. */
    method AssignFlags(charging: Option<bool>, discharging: Option<bool>, balancing: Option<bool>)
      modifies batteryData
      ensures batteryData.Record() == StatusRecord(old(batteryData.Record()), charging, discharging, balancing)
      ensures batteryData.updates == old(batteryData.updates)
    {
      ShapesCount();
      FlagShape(ChargingStatus);
      FlagShape(DischargingStatus);
      FlagShape(BalancingStatus);
      batteryData.Assign(ChargingStatus, Flag(charging));
      batteryData.Assign(DischargingStatus, Flag(discharging));
      batteryData.Assign(BalancingStatus, Flag(balancing));
    }

    /** `_updateBatteryData(key, value)`: the switch on the key. */
    method UpdateBatteryData(key: string, value: string)
      modifies batteryData
      ensures batteryData.Record() == BleProtocol.UpdateBatteryData(old(batteryData.Record()), key, value)
      ensures batteryData.updates == old(batteryData.updates)
    {
      if ReadingField(key).Some? {
        UpdateReading(key, value);
      } else if key == "jhzt" {
        UpdateBalance(value);
      } else {
        UpdateCell(key, value);
      }
    }

    /** The single-reading cases: `parseFloat(value) || 0.0`, or `parseInt(value) || 0` for `zd` and `zg`. */
    method UpdateReading(key: string, value: string)
      requires ReadingField(key).Some?
      modifies batteryData
      ensures batteryData.Record() == BleProtocol.UpdateBatteryData(old(batteryData.Record()), key, value)
      ensures batteryData.updates == old(batteryData.updates)
    {
      ShapesCount();
      ReadingUpdate(batteryData.Record(), key, value);
      batteryData.Assign(ReadingField(key).value, Reading(key, value));
    }

    /** The `jhzt` case: the balancing flag, then the status bytes for a value of four characters or more. */
    method UpdateBalance(value: string)
      modifies batteryData
      ensures batteryData.Record() == BleProtocol.UpdateBatteryData(old(batteryData.Record()), "jhzt", value)
      ensures batteryData.updates == old(batteryData.updates)
    {
      ShapesCount();
      batteryData.FieldsInRecord();
      BalanceUpdate(batteryData.Record(), value);
      var bs := batteryData.balanceStatus;
      batteryData.Assign(BalancingStatus, Flag(Some(true)));
      if |value| >= 4 {
        var overlaid := OverlayBytes(bs, value);
        batteryData.Assign(BalanceStatus, Bytes(overlaid));
      }
    }

    /** The default case: a `u<N>` temperature or a numbered cell voltage. */
    method UpdateCell(key: string, value: string)
      requires ReadingField(key).None? && key != "jhzt"
      modifies batteryData
      ensures batteryData.Record() == BleProtocol.UpdateBatteryData(old(batteryData.Record()), key, value)
      ensures batteryData.updates == old(batteryData.updates)
    {
      var target := CellTarget(key, value);
      if target.Some? {
        CellUpdate(batteryData.Record(), key, value);
        SetListCell(target.value.0, target.value.1, target.value.2);
      } else {
        NoCellTarget(batteryData.Record(), key, value);
      }
    }

    /** `while (list.length < n) list.push(0.0); list[n - 1] = x` on the temperature or the voltage list. */
    method SetListCell(f: nat, n: int, x: real)
      requires f == Temperatures || f == Voltages
      modifies batteryData
      ensures batteryData.Record() == old(batteryData.Record())[f := Numbers(SetCell(old(batteryData.Record())[f].xs, n, x))]
      ensures batteryData.updates == old(batteryData.updates)
    {
      ShapesCount();
      batteryData.FieldsInRecord();
      var xs := if f == Temperatures then batteryData.temperatures else batteryData.voltages;
      var ys := PadAndSet(xs, n, x);
      batteryData.Assign(f, Numbers(ys));
    }

    /** `clearCdDeviceStatus()` */
    method ClearCdDeviceStatus()
      modifies this`cdCloseStatusText
      ensures cdCloseStatusText == ""
    {
      cdCloseStatusText := "";
    }

    /** `clearFdDeviceStatus()` */
    method ClearFdDeviceStatus()
      modifies this`fdCloseStatusText
      ensures fdCloseStatusText == ""
    {
      fdCloseStatusText := "";
    }

    /**
     * `_handleCdCloseStatus` (`charge`) and `_handleFdCloseStatus`: the fault text, or the delay
     * stored before the call that throws; false when it threw.
     */
    method HandleCloseStatus(item: string, charge: bool) returns (ok: bool)
      modifies this`cdCloseStatusText, this`fdCloseStatusText, batteryData
      ensures (Snapshot(), ok) == ApplyClose(old(Snapshot()), item, charge, messages)
    {
      match CloseStatus(item, if charge then "cdclose" else "fdclose", messages)
      case NotAFault =>
        ok := true;
      case Report(text) =>
        if charge {
          cdCloseStatusText := text;
        } else {
          fdCloseStatusText := text;
        }
        ok := true;
      case Aborted(delay) =>
        StoreGzys(delay);
        ok := false;
    }

    /** `this._batteryData.gzys = delay` */
    method StoreGzys(delay: int)
      modifies batteryData
      ensures batteryData.Record() == old(batteryData.Record())[Gzys := Integer(delay)]
      ensures batteryData.updates == old(batteryData.updates)
    {
      ShapesCount();
      batteryData.Assign(Gzys, Integer(delay));
    }

    /** `this._batteryData.totalStrings = n` */
    method StoreTotalStrings(n: int)
      modifies batteryData
      ensures batteryData.Record() == old(batteryData.Record())[TotalStrings := Integer(n)]
      ensures batteryData.updates == old(batteryData.updates)
    {
      ShapesCount();
      batteryData.Assign(TotalStrings, Integer(n));
    }

    /** `this._batteryData.ycbh = x` */
    method StoreYcbh(x: real)
      modifies batteryData
      ensures batteryData.Record() == old(batteryData.Record())[Ycbh := Number(x)]
      ensures batteryData.updates == old(batteryData.updates)
    {
      ShapesCount();
      batteryData.Assign(Ycbh, Number(x));
    }

    /** `_handleParameterSetting(key, value)` */
    method HandleParameterSetting(key: string, value: string)
      modifies this`parameterValues, this`versionName, batteryData
      ensures Settings(parameterValues, versionName, batteryData.Record()) ==
        SetParameter(Settings(old(parameterValues), old(versionName), old(batteryData.Record())), key, value)
      ensures batteryData.updates == old(batteryData.updates)
    {
      if key in HandledParameters {
        parameterValues := AppConstants.SetCommandMap(key, parameterValues, value);
        if key == "CS" {
          StoreTotalStrings(ClampStrings(ParseIntOrZero(value)));
        } else if key == "ycbh" {
          StoreYcbh(ParseFloatOrZero(value));
        } else if key == "ver" {
          versionName := value;
        }
      }
    }

    // -------------------------------------------------------------------------------------------
    // Commands and the password

    /**
     * `sendCommand(command, priority)`: refused when the writer has no write characteristic or
     * no device is attached, and for an empty command; otherwise the encoded command is queued.
     */
    method SendCommand(command: string, priority: Writer.Priority) returns (queued: Option<nat>)
      modifies this`sent, writer`isProcessingQueue, writer`queue, writer`workers, writer`outcomes, writer`nextId
      ensures sent == old(sent) + [command]
      ensures queued.Some? <==> writer.writeCharacteristic.Some? && hasPeripheral && command != ""
      ensures queued.None? ==> writer.State() == old(writer.State()) && writer.nextId == old(writer.nextId)
      ensures queued.Some? ==>
        queued.value == old(writer.nextId) && writer.nextId == old(writer.nextId) + 1 &&
        writer.State() == Writer.Enqueue(old(writer.State()),
          Writer.WriteTask(queued.value, writer.writeCharacteristic.value, EncodeString(command)), priority, writer.writeCharacteristic)
    {
      sent := sent + [command];
      if writer.writeCharacteristic.None? || !hasPeripheral {
        return None;
      }
      var data := EncodeString(command);
      if |data| == 0 {
        return None;
      }
      queued := writer.WriteData(data, priority);
    }

    /** `verifyPassword(password)` */
    method VerifyPassword(pw: string)
      modifies this`password, this`sent, writer`isProcessingQueue, writer`queue, writer`workers, writer`outcomes, writer`nextId
      ensures var (p, command) := BleProtocol.VerifyPassword(old(password), pw);
        password == p && sent == old(sent) + (if command.Some? then [command.value] else [])
      ensures var (_, command) := BleProtocol.VerifyPassword(old(password), pw);
        (writer.State(), writer.nextId) ==
          if command.Some? then AfterSend(old(writer.State()), old(writer.nextId), writer.writeCharacteristic, hasPeripheral, command.value, Writer.High)
          else (old(writer.State()), old(writer.nextId))
    {
      if password.firstVerified && password.verified {
        return;
      }
      password := password.(lastVerifyPassword := pw);
      var command := CommonEnum.PasswordPrefix + pw + CommonEnum.PasswordSuffix;
      var _ := SendCommand(command, Writer.High);
    }

    /** `_startPasswordTimer()`: any pending expiry is replaced by a new one. */
    method StartPasswordTimer()
      modifies this`password
      ensures password == old(password).(timerArmed := true)
    {
      password := password.(timerArmed := true);
    }

    /** `cancelPasswordTimer()` / `_stopPasswordTimer()` */
    method CancelPasswordTimer()
      modifies this`password
      ensures password == old(password).(timerArmed := false)
    {
      password := password.(timerArmed := false);
    }

    /** The 240-second expiry timer fires. */
    method PasswordTimerFired()
      requires password.timerArmed
      modifies this`password
      ensures password == PasswordExpired(old(password))
    {
      password := password.(verified := false, timerArmed := false);
    }

    /** `_handlePasswordResponse(response)` */
    method HandlePasswordResponse(response: string)
      modifies this`password, this`sent, writer`isProcessingQueue, writer`queue, writer`workers, writer`outcomes, writer`nextId
      ensures var (p, command) := PasswordResponse(old(password), response, messages);
        password == p && sent == old(sent) + (if command.Some? then [command.value] else [])
      ensures var (_, command) := PasswordResponse(old(password), response, messages);
        (writer.State(), writer.nextId) ==
          if command.Some? then AfterSend(old(writer.State()), old(writer.nextId), writer.writeCharacteristic, hasPeripheral, command.value, Writer.High)
          else (old(writer.State()), old(writer.nextId))
    {
      if password.firstVerified {
        if response == CommonEnum.Success {
          if !password.verified {
            password := password.(lastError := None, verified := true, verifiedPassword := Some(password.lastVerifyPassword));
            StartPasswordTimer();
          }
        } else if response == CommonEnum.Failure {
          password := password.(verified := false, lastError := Some(I18n.Translate(messages, "password_error", [])), verifiedPassword := None);
        }
      } else {
        VerifyPassword(password.lastVerifyPassword);
        password := password.(firstVerified := true);
      }
    }

    /** `guardPasswordVerified()` */
    method GuardPasswordVerified() returns (ok: bool)
      ensures ok == Guard(password)
    {
      ok := password.verified;
    }

    // -------------------------------------------------------------------------------------------
    // Lines and chunks

    /** One token of `_processReceivedData`; false when its handler threw. */
    method ProcessItem(item: string) returns (ok: bool)
      modifies this`password, this`sent, this`cdCloseStatusText, this`fdCloseStatusText
      modifies this`parameterValues, this`versionName, batteryData
      modifies writer`isProcessingQueue, writer`queue, writer`workers, writer`outcomes, writer`nextId
      ensures (Snapshot(), ok) == BleProtocol.ProcessItem(old(Snapshot()), item, messages)
    {
      if item == CommonEnum.Success || item == CommonEnum.Failure {
        HandlePasswordResponse(item);
        return true;
      } else if item == "RES" {
        return true;
      }
      ok := StatusOrReading(item);
      if ok {
        AssignmentRule(item);
      }
    }

    /** The `=` branch of `_processReceivedData`. */
    method AssignmentRule(item: string)
      modifies this`parameterValues, this`versionName, batteryData
      ensures Snapshot() == Assignment(old(Snapshot()), item)
    {
      var parts := Split(item, '=');
      if |parts| == 2 {
        ghost var s0 := Snapshot();
        HandleParameterSetting(Trim(parts[0]), Trim(parts[1]));
        assert Snapshot() == s0.(params := parameterValues, version := versionName, record := batteryData.Record());
      }
    }

    /** The `cdopen` / `fdopen` branch of `_processReceivedData`. */
    method MarkOpened(charge: bool)
      modifies this`cdCloseStatusText, this`fdCloseStatusText, batteryData
      ensures Snapshot() == Opened(old(Snapshot()), charge)
    {
      if charge {
        UpdateStatus(Some(true), None, None);
        ClearCdDeviceStatus();
      } else {
        UpdateStatus(None, Some(true), None);
        ClearFdDeviceStatus();
      }
    }

    /** The `cdclose` / `fdclose` branch of `_processReceivedData`; false when the handler threw. */
    method MarkClosed(item: string, charge: bool) returns (ok: bool)
      modifies this`cdCloseStatusText, this`fdCloseStatusText, batteryData
      ensures (Snapshot(), ok) == Closed(old(Snapshot()), item, charge, messages)
    {
      if charge {
        UpdateStatus(Some(false), None, None);
      } else {
        UpdateStatus(None, Some(false), None);
      }
      ok := true;
      if StartsWith(item, if charge then "cdclose" else "fdclose") && |item| > 7 {
        ok := HandleCloseStatus(item, charge);
      }
    }

    /** The status markers and the key/value branch of `_processReceivedData`; false when a handler threw. */
    method StatusOrReading(item: string) returns (ok: bool)
      modifies this`cdCloseStatusText, this`fdCloseStatusText, batteryData
      ensures (Snapshot(), ok) == Marker(old(Snapshot()), item, messages)
    {
      ok := true;
      if Contains(item, "cdopen") {
        MarkOpened(true);
      } else if Contains(item, "cdclose") {
        ok := MarkClosed(item, true);
      } else {
        ok := DischargeOrReading(item);
      }
    }

    /** The same chain from `fdopen` on. */
    method DischargeOrReading(item: string) returns (ok: bool)
      modifies this`cdCloseStatusText, this`fdCloseStatusText, batteryData
      ensures (Snapshot(), ok) == DischargeMarker(old(Snapshot()), item, messages)
    {
      ok := true;
      if Contains(item, "fdopen") {
        MarkOpened(false);
      } else if Contains(item, "fdclose") {
        ok := MarkClosed(item, false);
      } else {
        BalanceOrReading(item);
      }
    }

    /** The same chain from `jhstop` on. */
    method BalanceOrReading(item: string)
      modifies batteryData
      ensures Snapshot() == BleProtocol.BalanceOrReading(old(Snapshot()), item)
    {
      ghost var s0 := Snapshot();
      if Contains(item, "jhstop") {
        UpdateStatus(None, None, Some(false));
        assert Snapshot() == s0.(record := batteryData.Record(), updates := batteryData.updates);
      } else {
        var parsed := ParseLine(item);
        if parsed.Some? {
          UpdateBatteryData(parsed.value.0, parsed.value.1);
          assert Snapshot() == s0.(record := batteryData.Record());
        }
      }
    }

    /** `_processReceivedData(line)`: the tokens in order, until a handler throws. */
    method ProcessReceivedData(line: string)
      modifies this`password, this`sent, this`cdCloseStatusText, this`fdCloseStatusText
      modifies this`parameterValues, this`versionName, batteryData
      modifies writer`isProcessingQueue, writer`queue, writer`workers, writer`outcomes, writer`nextId
      ensures Snapshot() == ProcessLine(old(Snapshot()), line, messages)
    {
      var items := Tokens(line);
      ghost var start := Snapshot();
      var k := 0;
      while k < |items|
        invariant k <= |items|
        invariant ProcessItems(Snapshot(), items[k..], messages) == ProcessItems(start, items, messages)
      {
        ghost var before := Snapshot();
        assert items[k..][0] == items[k] && items[k..][1..] == items[k + 1..];
        var ok := ProcessItem(items[k]);
        if !ok {
          return;
        }
        k := k + 1;
      }
    }

    /** The complete segments of a chunk, blank ones skipped. */
    method ProcessSegments(parts: seq<string>)
      modifies this`password, this`sent, this`cdCloseStatusText, this`fdCloseStatusText
      modifies this`parameterValues, this`versionName, batteryData
      modifies writer`isProcessingQueue, writer`queue, writer`workers, writer`outcomes, writer`nextId
      ensures Snapshot() == ProcessLines(old(Snapshot()), NonBlank(parts), messages)
    {
      ghost var s0 := Snapshot();
      var i := 0;
      while i < |parts|
        invariant i <= |parts|
        invariant Snapshot() == ProcessLines(s0, NonBlank(parts[..i]), messages)
      {
        ProcessSegment(s0, parts, i);
        i := i + 1;
      }
      assert parts[..i] == parts;
    }

    /** One pass of the segment loop. */
    method ProcessSegment(ghost s0: Session, parts: seq<string>, i: nat)
      requires Shaped(s0) && i < |parts| && Snapshot() == ProcessLines(s0, NonBlank(parts[..i]), messages)
      modifies this`password, this`sent, this`cdCloseStatusText, this`fdCloseStatusText
      modifies this`parameterValues, this`versionName, batteryData
      modifies writer`isProcessingQueue, writer`queue, writer`workers, writer`outcomes, writer`nextId
      ensures Snapshot() == ProcessLines(s0, NonBlank(parts[..i + 1]), messages)
    {
      SegmentStep(s0, parts, i, messages);
      if Trim(parts[i]) != "" {
        ProcessReceivedData(parts[i]);
      }
    }

    /** `_handleReceivedData(data)`: append the decoded chunk and hand on its complete lines. */
    method HandleReceivedData(data: seq<Byte>)
      modifies this`receiveBuffer, this`flushArmed
      modifies this`password, this`sent, this`cdCloseStatusText, this`fdCloseStatusText
      modifies this`parameterValues, this`versionName, batteryData
      modifies writer`isProcessingQueue, writer`queue, writer`workers, writer`outcomes, writer`nextId
      ensures var d := Receive(old(receiveBuffer), DecodeBytes(data), old(flushArmed));
        receiveBuffer == d.buffer && flushArmed == d.flushArmed &&
        Snapshot() == ProcessLines(old(Snapshot()), d.lines, messages)
    {
      receiveBuffer := receiveBuffer + DecodeBytes(data);
      if '\n' in receiveBuffer {
        DeliverLines();
      } else {
        flushArmed := true;
      }
    }

    /** The newline branch of `_handleReceivedData`. */
    method DeliverLines()
      requires '\n' in receiveBuffer
      modifies this`receiveBuffer, this`flushArmed
      modifies this`password, this`sent, this`cdCloseStatusText, this`fdCloseStatusText
      modifies this`parameterValues, this`versionName, batteryData
      modifies writer`isProcessingQueue, writer`queue, writer`workers, writer`outcomes, writer`nextId
      ensures var d := Deliver(old(receiveBuffer), old(flushArmed));
        receiveBuffer == d.buffer && flushArmed == d.flushArmed &&
        Snapshot() == ProcessLines(old(Snapshot()), d.lines, messages)
    {
      ghost var s0 := Snapshot();
      SplitsInTwo(receiveBuffer);
      var components := Split(receiveBuffer, '\n');
      var complete := components[..|components| - 1];
      var ended := EndsWith(receiveBuffer, "\n");
      ProcessSegments(complete);
      KeepOrHandOn(s0, complete, components[|components| - 1], ended);
    }

    /** The last segment: handed on with the buffer emptied when the data ended with a newline, kept otherwise. */
    method KeepOrHandOn(ghost s0: Session, complete: seq<string>, last: string, ended: bool)
      requires Shaped(s0) && Snapshot() == ProcessLines(s0, NonBlank(complete), messages)
      modifies this`receiveBuffer, this`flushArmed
      modifies this`password, this`sent, this`cdCloseStatusText, this`fdCloseStatusText
      modifies this`parameterValues, this`versionName, batteryData
      modifies writer`isProcessingQueue, writer`queue, writer`workers, writer`outcomes, writer`nextId
      ensures ended ==> receiveBuffer == "" && flushArmed == old(flushArmed)
      ensures ended ==> Snapshot() == ProcessLines(s0, NonBlank(complete) + (if Trim(last) != "" then [last] else []), messages)
      ensures !ended ==> receiveBuffer == last && flushArmed && Snapshot() == ProcessLines(s0, NonBlank(complete), messages)
    {
      ProcessLinesSnoc(s0, NonBlank(complete), last, messages);
      if ended {
        if Trim(last) != "" {
          ProcessReceivedData(last);
        }
        receiveBuffer := "";
      } else {
        receiveBuffer := last;
        flushArmed := true;
      }
    }

    /** The flush timer fires: a pending partial line is processed as it is and the buffer emptied. */
    method FlushTimerFired()
      requires flushArmed
      modifies this`receiveBuffer, this`flushArmed
      modifies this`password, this`sent, this`cdCloseStatusText, this`fdCloseStatusText
      modifies this`parameterValues, this`versionName, batteryData
      modifies writer`isProcessingQueue, writer`queue, writer`workers, writer`outcomes, writer`nextId
      ensures receiveBuffer == "" && !flushArmed
      ensures Snapshot() == if old(receiveBuffer) != "" then ProcessLine(old(Snapshot()), old(receiveBuffer), messages) else old(Snapshot())
    {
      flushArmed := false;
      if |receiveBuffer| > 0 {
        ProcessReceivedData(receiveBuffer);
        receiveBuffer := "";
      }
    }

    // -------------------------------------------------------------------------------------------
    // The fault-delay countdown

    /** `stopGZYSTimer()` */
    method StopGzysTimer()
      modifies this`gzysArmed, batteryData
      ensures Timer() == StopCountdown(old(Timer()))
      ensures batteryData.Record() == old(batteryData.Record())[Gzys := Integer(batteryData.gzys)]
    {
      batteryData.FieldsInRecord();
      if gzysArmed {
        gzysArmed := false;
        CountGzys(0);
      }
    }

    /** `this._batteryData.gzys = g; this._batteryData.updateProperty('gzys', g)` */
    method CountGzys(g: int)
      modifies batteryData
      ensures batteryData.gzys == g && batteryData.updates == old(batteryData.updates) + 1
      ensures batteryData.Record() == old(batteryData.Record())[Gzys := Integer(g)]
    {
      ghost var r0 := batteryData.Record();
      ShapesCount();
      batteryData.Assign(Gzys, Integer(g));
      FitsAt(Gzys, Integer(g));
      SetAt(batteryData.Record(), Gzys, Integer(g));
      batteryData.UpdateProperty(Keys[Gzys], Integer(g));
      UpdateTwice(r0, Gzys, Integer(g));
      batteryData.FieldsInRecord();
    }

    /** `startGzysTimer()`: any running countdown is stopped, then a new one starts. */
    method StartGzysTimer()
      modifies this`gzysArmed, batteryData
      ensures Timer() == StopCountdown(old(Timer())).(armed := true)
      ensures batteryData.Record() == old(batteryData.Record())[Gzys := Integer(batteryData.gzys)]
    {
      StopGzysTimer();
      gzysArmed := true;
    }

    /** One tick of the countdown's one-second interval. */
    method GzysTick()
      requires gzysArmed
      modifies this`gzysArmed, batteryData
      ensures Timer() == Tick(old(Timer()))
      ensures batteryData.Record() == old(batteryData.Record())[Gzys := Integer(batteryData.gzys)]
    {
      if batteryData.gzys <= 0 {
        StopGzysTimer();
      } else {
        batteryData.FieldsInRecord();
        CountGzys(batteryData.gzys - 1);
      }
    }

    // -------------------------------------------------------------------------------------------
    // Balancing, refresh and disconnection

    /** `getBalancingStrings()`: the 1-based numbers of the balancing strings, six per status byte. */
    method GetBalancingStrings() returns (strings: seq<nat>)
      ensures var total := batteryData.totalStrings;
        strings == BalancingSix(total, batteryData.balanceStatus, if total > 0 then total else 0)
    {
      var total := batteryData.totalStrings;
      strings := [];
      var i := 0;
      while i < total
        invariant 0 <= i && (total > 0 ==> i <= total) && (total <= 0 ==> i == 0)
        invariant strings == BalancingSix(total, batteryData.balanceStatus, i)
      {
        if BleProtocol.IsBalancing(total, batteryData.balanceStatus, i) {
          strings := strings + [i + 1];
        }
        i := i + 1;
      }
    }

    /** `startAutoRefresh(interval)`: the heartbeat sends the request-data command. */
    method StartAutoRefresh(interval: nat)
      modifies writer`heartbeatArmed, writer`heartbeatData, writer`heartbeatInterval
      ensures writer.heartbeatArmed && writer.heartbeatData == Some(EncodeString(CommonEnum.RequestData))
      ensures writer.heartbeatInterval == interval
    {
      writer.SetHeartbeat(Some(EncodeString(CommonEnum.RequestData)), interval);
    }

    /** `stopAutoRefresh()`: the heartbeat is cleared, its interval back to the default. */
    method StopAutoRefresh()
      modifies writer`heartbeatArmed, writer`heartbeatData, writer`heartbeatInterval
      ensures !writer.heartbeatArmed && writer.heartbeatData.None? && writer.heartbeatInterval == 5000
    {
      writer.SetHeartbeat(None, 5000);
    }

    /**
     * `disconnect()`: with a device attached, the password flags are cleared, the writer
     * disposed and the device's resources released; the receive buffer is kept.
     */
    method Disconnect()
      modifies this`isConnected, this`hasPeripheral, this`isConnectionEnabled, this`password
      modifies this`flushArmed, this`gzysArmed, batteryData
      modifies writer`heartbeatArmed, writer`outcomes, writer`queue, writer`isProcessingQueue
      modifies writer`writeCharacteristic, writer`heartbeatCharacteristic, writer`heartbeatData
      ensures old(isConnected && hasPeripheral) ==>
        !isConnected && !hasPeripheral && !isConnectionEnabled && !flushArmed &&
        password == PasswordOnDisconnect(old(password)) &&
        writer.State() == Writer.DisposeQueue(old(writer.State())) && writer.writeCharacteristic.None? &&
        Timer() == StopCountdown(old(Timer())) &&
        batteryData.Record() == old(batteryData.Record())[Gzys := Integer(batteryData.gzys)]
      ensures !old(isConnected && hasPeripheral) ==>
        isConnected == old(isConnected) && hasPeripheral == old(hasPeripheral) &&
        isConnectionEnabled == old(isConnectionEnabled) && password == old(password) && flushArmed == old(flushArmed) &&
        Timer() == old(Timer()) && batteryData.Record() == old(batteryData.Record()) &&
        writer.State() == old(writer.State()) && writer.writeCharacteristic == old(writer.writeCharacteristic)
      ensures receiveBuffer == old(receiveBuffer)
    {
      if isConnected && hasPeripheral {
        ReleasePeripheral();
      }
    }

    /** The connected branch of `disconnect()`. */
    method ReleasePeripheral()
      modifies this`isConnected, this`hasPeripheral, this`isConnectionEnabled, this`password
      modifies this`flushArmed, this`gzysArmed, batteryData
      modifies writer`heartbeatArmed, writer`outcomes, writer`queue, writer`isProcessingQueue
      modifies writer`writeCharacteristic, writer`heartbeatCharacteristic, writer`heartbeatData
      ensures !isConnected && !hasPeripheral && !isConnectionEnabled && !flushArmed
      ensures password == PasswordOnDisconnect(old(password))
      ensures writer.State() == Writer.DisposeQueue(old(writer.State())) && writer.writeCharacteristic.None?
      ensures Timer() == StopCountdown(old(Timer()))
      ensures batteryData.Record() == old(batteryData.Record())[Gzys := Integer(batteryData.gzys)]
    {
      CancelPasswordTimer();
      password := password.(verified := false, firstVerified := false);
      writer.Dispose();
      // `_disconnectPeripheral` and `_cleanupPeripheralResources`
      hasPeripheral := false;
      flushArmed := false;
      StopGzysTimer();
      password := password.(lastError := None);
      isConnected := false;
      isConnectionEnabled := false;
    }

    /** `_handleDeviceDisconnection()`: the device dropped the link on its own. */
    method HandleDeviceDisconnection()
      modifies this`isConnected, this`hasPeripheral, this`password, this`gzysArmed, batteryData
      modifies writer`heartbeatArmed, writer`outcomes, writer`queue, writer`isProcessingQueue
      modifies writer`writeCharacteristic, writer`heartbeatCharacteristic, writer`heartbeatData
      ensures !isConnected && !hasPeripheral && password == PasswordOnDeviceLost(old(password))
      ensures writer.State() == Writer.DisposeQueue(old(writer.State())) && writer.writeCharacteristic.None?
      ensures Timer() == StopCountdown(old(Timer()))
      ensures batteryData.Record() == old(batteryData.Record())[Gzys := Integer(batteryData.gzys)]
      ensures flushArmed == old(flushArmed) && receiveBuffer == old(receiveBuffer)
    {
      isConnected := false;
      password := password.(verified := false);
      CancelPasswordTimer();
      writer.Dispose();
      StopGzysTimer();
      hasPeripheral := false;
    }
  }
}
