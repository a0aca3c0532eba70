# BMS BLE client: a verified model of its session core

The modelled system is the communication core of a uni-app client. The client monitors and configures a
battery-management board over Bluetooth Low Energy. The board uses a newline-delimited ASCII protocol.
The model covers the following parts:

- **Write queue** (`Writer`, from `utils/batteryManager.js`): the prioritised write queue with head
  deduplication, its single worker loop, the heartbeat, `dispose` and `setCharacteristic`.
  - The pure functions on `Writer.Queue` specify each step.
  - The class `Writer.BluetoothWriter` performs each step on its own fields and is proved against
    those functions.
  - The promise bookkeeping is an invariant (`Inv`): every task is either still held by the writer
    or settled exactly once.
- **Receive side of the session engine** (`BleProtocol` rules, `BleManager.Manager` class):
  - reassembly of notification chunks into lines, and the forced flush;
  - the token dispatcher with its substring-matched status markers;
  - `_parseLine`, `_updateBatteryData` and `_handleParameterSetting`, which updates the parameter
    map through `AppConstants.setCommandMap`;
  - the fault-byte decoder;
  - the password state machine and its reset on disconnection;
  - the fault-delay countdown;
  - the six-strings-per-byte balancing bitmap.
- **Second decoder** (`DataManager`, from `utils/bluetoothDataManager.js`): `parseDataArray`,
  `parseLine`, the item loop of `parseBatteryData`, `updateStatus`, `updateBatteryData`,
  `handleParameterSetting` and `disconnect`.
- **Telemetry record** (`BatteryDataModel`, from `utils/battery_data.js`): its defaults, the guarded
  setters, the snapshot and restore, and its own eight-bits-per-byte balancing decoder.
- **Pure helpers:**
  - the parameter tables (`AppConstants`);
  - the protocol constants (`CommonEnum`);
  - the translation manager (`I18n`);
  - `ab2hex` (`Ab2Hex`);
  - the byte-per-character conversions (`ByteCodec`);
  - the JavaScript string built-ins the code relies on (`JsString`): `trim`, `split`, `indexOf`,
    `parseInt`, `parseFloat` and `replace`.

Code that changes state step by step is modelled as classes whose methods have `modifies` clauses and
whose loops carry invariants. Each method's `ensures` ties the new state to a function of the old
state. The protocol's promises are proved as lemmas about those functions. Timers and the transport
are explicit events: the flush timer firing, a heartbeat tick, a write being answered, the pause after
a write ending, the password expiring, and a countdown tick. A write's outcome is a parameter of the
event that delivers it.

## Behaviour kept as written

Several behaviours of the code look unintended. They are modelled exactly as written, and a lemma
exhibits each one:

- **Fault bit order.** The fault byte at offset 7 is checked in the order 0x80, 0x01, 0x02, 0x04,
  0x08, 0x10, 0x40, 0x20, and the first match wins. A byte with both 0x01 and 0x10 set therefore
  reports under-voltage, not string drop (`BleProtocol.UnderVoltageMasksStringDrop`). The protocol
  description gives string drop for the byte 0x11; the model follows the code.
- **Flag clobbering.** `_updateStatus` skips only `null`. The flags a caller leaves out are
  `undefined`, and they are written as such. Reporting `cdopen` therefore makes the discharge and
  balancing flags undefined. The flags are `Option<bool>`, with `None` standing for `undefined`
  (`BleProtocol.StatusClobbers`).
- **Two balancing layouts.** `BLEManager.isBalancing` reads six strings per byte, while
  `BatteryData.getBalancingStrings` reads eight per byte and reports only strings up to 24. The two
  disagree on the same bytes (`BleProtocol.LayoutsDisagree`).
- **Misnamed timer method.**
  - The fault-delay branch of the close-status handlers calls `startGZYSTimer`, but the method that
    exists is `startGzysTimer`. The call throws after `gzys` has been stored.
  - The throw is caught by `_processReceivedData`, which abandons the rest of the line. The model
    returns this as an error outcome (`BleProtocol.DelayedFaultAborts`,
    `BleProtocol.FaultDelayAbortsLine`).
  - As a result, the countdown never starts from a line. It is still modelled as
    `BleManager.Manager.StartGzysTimer` and `BleManager.Manager.GzysTick`.
  - The protocol description says a delayed fault seeds a countdown that runs to zero. The model
    follows the code.
- **Non-positive cell index.** A numeric key with an index of 0 or below grows no list and changes no
  element, because the store lands at a negative position (`BleProtocol.SetCell`,
  `DataManager.NonPositiveCellIgnored`).
- **First password response.** The first response of either kind only resubmits the last password.
  A first `pd0` is therefore never reported as a failure (`BleProtocol.FirstResponseResubmits`,
  `BleProtocol.FirstFailureNotReported`).
- **Disconnect versus link loss.** `disconnect` clears the first-response flag, but losing the link
  does not. After a reconnection, a `pd1` verifies at once only in the second case
  (`BleProtocol.ReconnectDiffers`).
- **`dispose` and the worker.** `dispose` clears `_isProcessingQueue` while a suspended worker loop is
  still alive. The next write then starts a second loop beside the first
  (`Writer.DisposeStartsSecondLoop`).
- **`setCharacteristic` drops tasks.** `setCharacteristic` empties the queue without completing the
  dropped tasks, so their promises never settle (`Writer.DropLoses`).
- **Receive buffer on disconnect.** `disconnect` keeps the receive buffer
  (`BleManager.Manager.Disconnect`).
- **`CS` does not resize.** Setting `CS` clamps and stores `totalStrings` but does not resize
  `voltages` or `balanceStatus`. The protocol description says it resizes them; the model follows the
  code.
- **Second decoder, balance bytes.** The second decoder starts with an empty `balanceStatus` and
  never grows it, so its `jhzt` copy changes nothing (`DataManager.CopyIntoEmpty`,
  `DataManager.BalanceStatusStaysEmpty`).
- **Second decoder, trailing key line.** The second decoder drops a final `key:` line that has no
  value line after it (`DataManager.TrailingKeyPending`, `DataManager.DataArrayKeyOnly`).
- **Second decoder, `jhwd`.** In the second decoder, `jhwd` both sets the balance temperature (when
  written `jhwd:v`) and is recorded as a setting (when written `jhwd=v`).

## Model

| member | source | states |
|---|---|---|
| ByteCodec.DecodeBytes | utils/batteryManager.js:1675-1687 | each byte becomes the character with that code, same length, in order |
| ByteCodec.EncodeString | utils/batteryManager.js:2268-2280 | each character's code, truncated to eight bits as a Uint8Array stores it |
| ByteCodec.EncodeDecode | utils/batteryManager.js:1675-1687 | encoding decoded bytes gives the bytes back |
| ByteCodec.DecodeEncode | utils/batteryManager.js:2268-2280 | decoding encoded text gives it back exactly when every code is below 256 |
| JsString.Trim | utils/bluetoothDataManager.js:300 | the result is an infix of the input, everything cut on either side is white space, and the result starts and ends with no white space |
| JsString.TrimOfTrimmed | utils/bluetoothDataManager.js:427-428 | trimming text with no white space at either end gives it back |
| JsString.IndexOf | common/i18n/index.js:49-50 | the first position where the pattern occurs, or none when it occurs nowhere |
| JsString.IndexOfChar | utils/bluetoothDataManager.js:425 | the first position holding the character, with none before it; none exactly when it is absent |
| JsString.Split | utils/batteryManager.js:1605 | at least one piece, and no piece holds the separator |
| JsString.SplitJoin | utils/batteryManager.js:1605 | one more piece than separators, and joining the pieces restores the text |
| JsString.SplitAbsent | utils/batteryManager.js:1798-1799 | a text without the separator splits into itself alone |
| JsString.ParseInt | utils/batteryManager.js:2886 | a number is read only from text holding a digit, hexadecimal digits included |
| JsString.ReplaceFirstSpec | common/i18n/index.js:49-50 | only the first occurrence is replaced, by a literal replacement, and the text around it is kept; no occurrence leaves the text as it is |
| JsString.ExpandLiteral | common/i18n/index.js:49-50 | a replacement text without `$` is inserted as it stands |
| JsString.FindIndex | utils/app_constants.js:118-121 | the first position holding the element, none exactly when it is absent |
| JsString.FindIndexFirst | utils/app_constants.js:118-121 | a position holding the element with none before it is the one found |
| JsString.FindIndexDistinct | utils/app_constants.js:118-121 | in a list without repeats each element is found at its own position |
| Ab2Hex.Ab2hex | utils/ab2hex.js:1-9 | the output is twice as long as the input |
| Ab2Hex.ToRadix16 | utils/ab2hex.js:5 | a number has at least one hexadecimal digit |
| Ab2Hex.ByteToHexDigits | utils/ab2hex.js:5 | a byte becomes exactly two lower-case digits, high nibble first, zero-padded |
| Ab2Hex.Ab2hexAt | utils/ab2hex.js:2-8 | byte i is the pair of characters at 2i, in order, with no separator |
| Ab2Hex.Ab2hexLowerCase | utils/ab2hex.js:5 | every output character is a lower-case hexadecimal digit |
| Ab2Hex.ByteRoundTrip | utils/ab2hex.js:5 | a byte's two digits read back as the byte |
| Ab2Hex.Ab2hexRoundTrip | utils/ab2hex.js:2-8 | reading the output back two characters at a time recovers the input bytes |
| Ab2Hex.Ab2hexEmpty | utils/ab2hex.js:2-8 | the empty buffer gives the empty string |
| CommonEnum.Lookup | utils/commonEnum.js:4-22 | a property is found exactly when some entry has that name, and the entry found carries it |
| CommonEnum.GetValue | utils/commonEnum.js:14-16 | the property's value, or the empty string for a missing name |
| CommonEnum.StringKeys | utils/commonEnum.js:19-21 | exactly the names whose value is a string |
| CommonEnum.StringKeysAppend | utils/commonEnum.js:19-21 | the filter distributes over concatenation |
| CommonEnum.StringKeysAllTexts | utils/commonEnum.js:19-21 | when every value is a string, every name is listed |
| CommonEnum.StringKeysNoTexts | utils/commonEnum.js:57-59 | when every value is a method, no name is listed |
| CommonEnum.PasswordFrame | utils/commonEnum.js:5-6 | the frame is seven characters longer than the password |
| CommonEnum.PasswordFrameParts | utils/commonEnum.js:5-6 | the frame is `pswd=`, the password, then NUL and newline |
| CommonEnum.SuccessFailureExclusive | utils/commonEnum.js:38-54 | no response is both a success and a failure |
| CommonEnum.LookupOwn | utils/commonEnum.js:14-16 | with distinct names, each property is found under its own name |
| CommonEnum.CommandKeysDistinct | utils/commonEnum.js:4-22 | the command object names each property once |
| CommonEnum.CommandGetValueKnown | utils/commonEnum.js:14-16 | `getValue` on a command name gives that command's string |
| CommonEnum.CommandGetValueUnknown | utils/commonEnum.js:14-16 | `getValue` on any other name gives the empty string |
| CommonEnum.AllCommands | utils/commonEnum.js:19-21 | `getAllCommands` lists the seven command names and leaves out the two methods |
| CommonEnum.AllResponses | utils/commonEnum.js:57-59 | `getAllResponses` lists exactly `SUCCESS` and `FAILURE` |
| AppConstants.Get | utils/app_constants.js:6-31 | a property is found exactly when the table names it, with the value at the same position |
| AppConstants.KeyOf | utils/app_constants.js:117-124 | none exactly when no parameter has the command; otherwise a parameter mapped to it |
| AppConstants.GetKeyFromCommandMap | utils/app_constants.js:117-124 | the search loop returns the first parameter whose command matches, or null |
| AppConstants.CommandMapDistinct | utils/app_constants.js:6-31 | no two parameters share a command, and no parameter is listed twice |
| AppConstants.KeyOfCommandOf | utils/app_constants.js:117-124 | looking up a parameter's command gives the parameter back, for every parameter |
| AppConstants.SetCommandMap | utils/app_constants.js:99-110 | a new map with only the owning parameter set to the new value; the input is a value and stays as it was |
| AppConstants.SetOwner | utils/app_constants.js:102-109 | the map with the owner, if any, set and every other entry kept |
| AppConstants.SetCommandMapUnknown | utils/app_constants.js:108-109 | a command the table does not list returns a map equal to the input |
| AppConstants.UnlistedCommands | utils/app_constants.js:108-109 | `dqdl` and `ver` leave the map as it was |
| AppConstants.GetUnitFromUnitMap | utils/app_constants.js:131-133 | the mapped unit, or null when the name is missing or its unit is empty |
| AppConstants.UnitNamesDistinct | utils/app_constants.js:64-89 | no parameter is listed twice in the unit table |
| AppConstants.UnitsMatchCommands | utils/app_constants.js:64-90 | each parameter's unit entry is non-empty exactly when its command is |
| AppConstants.UnitsCoverCommands | utils/app_constants.js:64-89 | a parameter has a unit exactly when it has a command |
| I18n.Translate | common/i18n/index.js:40-54 | the key itself for a missing or empty entry; the entry unchanged when there are no arguments |
| I18n.SubstituteFirst | common/i18n/index.js:47-52 | the arguments are consumed first to last |
| I18n.SubstituteNoPlaceholder | common/i18n/index.js:47-52 | a text without placeholders is unchanged whatever the arguments |
| I18n.FirstPlaceholderAt | common/i18n/index.js:49 | the first `%d` is found after a prefix without `%` |
| I18n.NoPercentNoPlaceholder | common/i18n/index.js:49 | a text without `%` holds no placeholder |
| I18n.SubstituteOnePlaceholder | common/i18n/index.js:47-52 | one argument takes the place of the first `%d` and the text around it is kept |
| I18n.Manager.constructor | common/i18n/index.js:6-12 | the language starts as `zh` |
| I18n.Manager.PackOf | common/i18n/index.js:6-9 | only `zh` and `en` have a pack |
| I18n.Manager.SetLanguage | common/i18n/index.js:17-25 | true and switched (and saved) only for `zh` or `en`; otherwise false and nothing changes |
| I18n.Manager.T | common/i18n/index.js:33-55 | the loop over the arguments computes `Translate` on the current pack |
| I18n.Manager.GetAvailableLanguages | common/i18n/index.js:58-60 | exactly the two languages that have a pack, `zh` first |
| I18n.Manager.GetLanguagePack | common/i18n/index.js:63-65 | the language's messages, or an empty object for an unknown language |
| I18n.Manager.Init | common/i18n/index.js:68-78 | a saved language with a pack is adopted; otherwise `zh` is set and saved |
| BatteryKeys.KeysDistinct | utils/battery_data.js:148-176 | the record's 26 property names are distinct |
| BatteryDataModel.Zeros | utils/battery_data.js:43 | `n` zero readings |
| BatteryDataModel.FieldOf | utils/battery_data.js:101 | the position of an own property, none exactly for a name the record lacks |
| BatteryDataModel.SetKey | utils/battery_data.js:100-105 | an own property gets the value and every other one is kept; any other name changes nothing |
| BatteryDataModel.FieldOfKey | utils/battery_data.js:101 | every property's own name finds it |
| BatteryDataModel.FieldOfIs | utils/battery_data.js:101 | a name finds a property exactly when it is that property's name |
| BatteryDataModel.ApplyAll | utils/battery_data.js:108-115 | the guarded assignment loop keeps the record's size |
| BatteryDataModel.ApplyAllAt | utils/battery_data.js:108-115 | each property ends with the value of the last entry naming it, or its old value |
| BatteryDataModel.ApplyAllUnknown | utils/battery_data.js:108-115 | entries naming no property change nothing |
| BatteryDataModel.ApplyAllShaped | utils/battery_data.js:108-115 | entries of the right shape keep every property's shape |
| BatteryDataModel.Entries | utils/battery_data.js:148-177 | a snapshot lists every property once, in order, with its value |
| BatteryDataModel.LastForDistinct | utils/battery_data.js:181-185 | with distinct names, the last entry for a name is its only one |
| BatteryDataModel.EntriesNamesDistinct | utils/battery_data.js:148-177 | a snapshot names each property once |
| BatteryDataModel.RestoreSnapshot | utils/battery_data.js:148-186 | restoring a snapshot brings back every property it holds, whatever the record held before |
| BatteryDataModel.DefaultsShaped | utils/battery_data.js:2-51 | the defaults have every property's shape |
| BatteryDataModel.BalancingUpToMembers | utils/battery_data.js:75-97 | a string is reported exactly when its bit (eight per byte) is set and it is at most 24 |
| BatteryDataModel.BalancingUpToSorted | utils/battery_data.js:75-97 | the strings come in strictly increasing order, each within range |
| BatteryDataModel.BalancingUpToBound | utils/battery_data.js:88-91 | at most 24 strings are reported |
| BatteryDataModel.BalancingEightPerByte | utils/battery_data.js:86 | bit 6 of byte 0 is string 7 |
| BatteryDataModel.BalancingBeyondTwentyFour | utils/battery_data.js:89 | a set bit for string 25 is dropped |
| BatteryDataModel.BatteryData.Record | utils/battery_data.js:2-51 | the record has its 26 properties, with lists and bytes where the record keeps them |
| BatteryDataModel.BatteryData.RecordShaped | utils/battery_data.js:2-51 | the record is always well shaped |
| BatteryDataModel.BatteryData.constructor | utils/battery_data.js:2-51 | 252 zero voltages, 42 zero balance bytes, four zero temperatures, 252 strings, `gzys` 0, all flags false |
| BatteryDataModel.BatteryData.Assign | utils/battery_data.js:102 | one property set to the value, nothing else changed, no notification |
| BatteryDataModel.BatteryData.SetProperty | utils/battery_data.js:101-102 | the guarded assignment `SetKey` |
| BatteryDataModel.BatteryData.UpdateProperty | utils/battery_data.js:100-105 | an own property is set and one notification is sent; any other name changes nothing |
| BatteryDataModel.BatteryData.AssignAll | utils/battery_data.js:109-113 | the loop computes `ApplyAll` |
| BatteryDataModel.BatteryData.UpdateMultiple | utils/battery_data.js:108-115 | every own property named is set, the last entry winning, then exactly one notification |
| BatteryDataModel.BatteryData.RestoreFromSnapshot | utils/battery_data.js:180-186 | as `updateMultiple`, without a notification |
| BatteryDataModel.BatteryData.Reset | utils/battery_data.js:118-145 | every property back to its constructor value |
| BatteryDataModel.BatteryData.ResetReadings | utils/battery_data.js:119-131 | the readings from `totalVoltage` to `averageVoltage` back to zero |
| BatteryDataModel.BatteryData.ResetStates | utils/battery_data.js:132-144 | power, temperatures, voltages, flags, balance bytes, `gzys` and the string count back to their constructor values |
| BatteryDataModel.BatteryData.RecordAtDefaults | utils/battery_data.js:118-145 | the record is at its defaults when every property is |
| BatteryDataModel.BatteryData.GetSnapshot | utils/battery_data.js:148-177 | every property once, in order, with its current value, each of its property's shape |
| BatteryDataModel.BatteryData.SnapshotRestores | utils/battery_data.js:148-186 | restoring the snapshot onto any record brings back the record it was taken from |
| BatteryDataModel.BatteryData.ShowYcbhAlert | utils/battery_data.js:66-72 | true exactly when `ycbh` is positive and the voltage spread exceeds it |
| BatteryDataModel.BatteryData.GetBalancingStrings | utils/battery_data.js:75-97 | the nested loops compute the eight-per-byte list over all status bytes |
| Writer.Resolve | utils/batteryManager.js:21-23 | a promise settles once; a second resolution changes nothing |
| Writer.ResolveAllKeys | utils/batteryManager.js:339-346 | after the loop, exactly the earlier promises and the given tasks' promises are settled |
| Writer.ResolveAllValues | utils/batteryManager.js:339-346 | earlier promises keep their value, and every unsettled task holds the result |
| Writer.IsSameData | utils/batteryManager.js:300-310 | same exactly when the byte sequences are equal |
| Writer.Place | utils/batteryManager.js:203-209 | HIGH becomes element 0, others the last element, the queued tasks kept in order |
| Writer.PlacePermutes | utils/batteryManager.js:203-209 | the new queue is the old one plus the task, as a multiset |
| Writer.WriteResult | utils/batteryManager.js:233-240 | success only with a write characteristic, then the transport's outcome |
| Writer.Process | utils/batteryManager.js:215-223 | nothing while a loop runs or with an empty queue; otherwise the head goes to a new loop |
| Writer.ProcessInv | utils/batteryManager.js:215-223 | starting the loop keeps the promise bookkeeping |
| Writer.ProcessPending | utils/batteryManager.js:215-223 | starting the loop loses no pending promise |
| Writer.PlacedInv | utils/batteryManager.js:203-209 | placing a fresh task keeps the bookkeeping |
| Writer.PlacedPending | utils/batteryManager.js:203-209 | the placed task becomes pending |
| Writer.EnqueueInv | utils/batteryManager.js:177-211 | enqueueing a task with the next id keeps the bookkeeping |
| Writer.EnqueueSettlesOrHolds | utils/batteryManager.js:187-209 | a HIGH head duplicate settles `true` and is never queued; otherwise the task is pending; an accepted HIGH task is written next |
| Writer.TasksNotWritten | utils/batteryManager.js:222-223 | no queued task is being written |
| Writer.SettleKeeps | utils/batteryManager.js:224-241 | a write's task settles with the write's outcome and stops being pending, keeping the invariant and the single-loop discipline |
| Writer.ResumeKeeps | utils/batteryManager.js:222-249 | after the pause the loop takes the next task or ends; nothing settles, nothing is lost |
| Writer.DropLoses | utils/batteryManager.js:63-70 | the dropped tasks are neither settled nor held any more |
| Writer.DisposeSettles | utils/batteryManager.js:332-363 | every queued task settles `false`; earlier promises are kept; only tasks being written stay pending |
| Writer.DisposeInv | utils/batteryManager.js:332-363 | `dispose` keeps the bookkeeping |
| Writer.EnqueueCoherent | utils/batteryManager.js:215-219 | at most one loop runs while the flag is set, and enqueueing keeps that |
| Writer.DisposeStartsSecondLoop | utils/batteryManager.js:355 | after `dispose` with a loop suspended, the next write starts a second loop |
| Writer.BluetoothWriter.constructor | utils/batteryManager.js:42-58 | no characteristic, an empty queue, no heartbeat, interval 5000 |
| Writer.BluetoothWriter.SetCharacteristic | utils/batteryManager.js:63-70 | the characteristic is set, the queue dropped and the heartbeat stopped |
| Writer.BluetoothWriter.SetHeartbeatCharacteristic | utils/batteryManager.js:165-168 | the heartbeat characteristic is set |
| Writer.BluetoothWriter.SetHeartbeat | utils/batteryManager.js:77-85 | data and interval stored; a heartbeat runs exactly when there is data |
| Writer.BluetoothWriter.ProcessQueue | utils/batteryManager.js:215-223 | the queue state becomes `Process` of the old one |
| Writer.BluetoothWriter.EnqueueTask | utils/batteryManager.js:177-211 | the queue state becomes `Enqueue` of the old one |
| Writer.BluetoothWriter.EnqueueWrite | utils/batteryManager.js:177-185 | a new task with the next id, enqueued |
| Writer.BluetoothWriter.WriteData | utils/batteryManager.js:131-159 | `false` at once without a write characteristic; otherwise a task for it is enqueued |
| Writer.BluetoothWriter.HeartbeatTick | utils/batteryManager.js:95-109 | enqueues the heartbeat data HIGH only when data and a write characteristic are set |
| Writer.BluetoothWriter.WriteSettled | utils/batteryManager.js:233-245 | the queue state becomes `Settle` of the old one |
| Writer.BluetoothWriter.PauseElapsed | utils/batteryManager.js:245-249 | the queue state becomes `Resume` of the old one |
| Writer.BluetoothWriter.FailQueued | utils/batteryManager.js:339-346 | every queued task completes `false`, in order |
| Writer.BluetoothWriter.Dispose | utils/batteryManager.js:332-368 | the queue part follows `DisposeQueue`; characteristics, heartbeat data and timer are cleared |
| BleProtocol.NonBlank | utils/batteryManager.js:1608-1613 | no part is added |
| BleProtocol.NonBlankKeeps | utils/batteryManager.js:1608-1613 | exactly the non-blank parts survive |
| BleProtocol.NonBlankAppend | utils/batteryManager.js:1608-1613 | the filter distributes over concatenation |
| BleProtocol.Receive | utils/batteryManager.js:1594-1633 | without a newline the chunk is only appended and the flush timer armed |
| BleProtocol.ReceiveSegments | utils/batteryManager.js:1603-1628 | the segments before the last are handed on in order if not blank; the last one is handed on or kept |
| BleProtocol.ReceiveLossless | utils/batteryManager.js:1603-1628 | the complete segments and the kept segment together are the received text |
| BleProtocol.SplitOffLast | utils/batteryManager.js:1605 | the segments before the last, joined, then the last, give the text back |
| BleProtocol.ReceiveKeepsLast | utils/batteryManager.js:1616-1626 | the new buffer is the last segment, empty when the text ended with a newline |
| BleProtocol.Tokens | utils/batteryManager.js:1738-1740 | tokens are non-empty and hold no space |
| BleProtocol.NonEmpty | utils/batteryManager.js:1740 | exactly the non-empty pieces are kept |
| BleProtocol.ParseLineSpec | utils/batteryManager.js:2769-2789 | a pair exactly for one `:` or else one `=`, being the trimmed text on either side |
| BleProtocol.ReadingField | utils/batteryManager.js:2792-2839 | the single-reading keys write one plain reading; `zd` and `zg` are the integer ones |
| BleProtocol.Padded | utils/batteryManager.js:2902-2904 | the list is padded with zeros up to the index, and its old elements are kept |
| BleProtocol.SetCell | utils/batteryManager.js:2884-2907 | for an index of at least 1, padded with zeros to it and element index-1 set, others unchanged; for a lower index, unchanged |
| BleProtocol.Overlay | utils/batteryManager.js:2845-2861 | the first bytes take the value's character codes, the rest are kept, same length |
| BleProtocol.CellTarget | utils/batteryManager.js:2884-2907 | `u` keys of two characters or more write temperatures; other numeric keys write voltages |
| BleProtocol.UpdateBatteryData | utils/batteryManager.js:2790-2910 | the record stays readable |
| BleProtocol.UpdateWritesOnlyItsField | utils/batteryManager.js:2790-2910 | a key changes at most the properties it names |
| BleProtocol.ReadingUpdate | utils/batteryManager.js:2792-2839 | a single-reading key stores a value of the property's own shape and nothing else changes |
| BleProtocol.BalanceUpdate | utils/batteryManager.js:2841-2882 | `jhzt` raises the balancing flag and, for four characters or more, overlays the status bytes |
| BleProtocol.CellUpdate | utils/batteryManager.js:2884-2907 | a cell key sets its list with `SetCell` and nothing else |
| BleProtocol.NoCellTarget | utils/batteryManager.js:2884-2909 | a key naming nothing changes nothing |
| BleProtocol.CellKeysAreNotReadings | utils/batteryManager.js:2791-2884 | a cell key is never a named case of the switch |
| BleProtocol.LetterNotCell | utils/batteryManager.js:2885-2897 | a key starting with a lower-case letter other than `u` names no cell |
| BleProtocol.LetterStartNotNumber | utils/batteryManager.js:2886 | a key starting with a lower-case letter is not a number |
| BleProtocol.ReadingKeyLetter | utils/batteryManager.js:2791-2839 | every single-reading key starts with a lower-case letter other than `u` |
| BleProtocol.StatusRecord | utils/batteryManager.js:2745-2758 | the three flags take the given values, undefined included, and nothing else changes |
| BleProtocol.StatusEntriesApplied | utils/batteryManager.js:2761-2765 | `updateMultiple` with the three entries writes the three flags |
| BleProtocol.StatusEntriesFit | utils/batteryManager.js:2761-2765 | each entry handed to `updateMultiple` names a flag property and holds a flag |
| BleProtocol.StatusSettled | utils/batteryManager.js:2761-2765 | `updateMultiple` with the flags already assigned changes nothing more |
| BleProtocol.StatusClobbers | utils/batteryManager.js:1758-1760 | reporting `cdopen` leaves the discharge and balancing flags undefined |
| BleProtocol.FirstSet | utils/batteryManager.js:2925-2943 | the first position in the checking order whose bit is set, or none |
| BleProtocol.FaultKeyFirstMatch | utils/batteryManager.js:2925-2943 | the chain reports the first set bit in the order 0x80, 0x01, 0x02, 0x04, 0x08, 0x10, 0x40, 0x20, else "" |
| BleProtocol.UnderVoltageMasksStringDrop | utils/batteryManager.js:2927-2936 | 0x11 reports under-voltage, 0x10 alone string drop |
| BleProtocol.FaultText | utils/batteryManager.js:2925-2943 | empty exactly when no fault bit is set |
| BleProtocol.CloseStatus | utils/batteryManager.js:2912-2959 | no fault for a short or foreign token; a report carries the text for byte 7; an abort carries a positive delay |
| BleProtocol.DelayedFaultAborts | utils/batteryManager.js:2945-2953 | a close token with a positive delay aborts with that delay |
| BleProtocol.ClampStrings | utils/batteryManager.js:1816 | the count lies in [0, 252] and is kept when already there |
| BleProtocol.SetParameter | utils/batteryManager.js:1811-1917 | unknown keys change nothing; known keys go through `setCommandMap`; only `CS` and `ycbh` touch the record and only `ver` the version |
| BleProtocol.TableCommandHandled | utils/batteryManager.js:1811-1912 | every command of the parameter table is handled |
| BleProtocol.StringCountClamped | utils/batteryManager.js:1813-1818 | `CS` sets the string count to `parseInt(v)` clamped to [0, 252], 0 when not a number |
| BleProtocol.TableCommandStored | utils/batteryManager.js:1811-1912 | a table command stores its value under its parameter and nothing else in the map changes |
| BleProtocol.VerSetsVersion | utils/batteryManager.js:1892-1896 | `ver` leaves the map alone and sets the version name |
| BleProtocol.DqdlChangesNothing | utils/batteryManager.js:1871-1874 | `dqdl` changes nothing |
| BleProtocol.VerifyPassword | utils/batteryManager.js:2305-2329 | nothing once both flags are set; otherwise the password is remembered and its frame sent |
| BleProtocol.PasswordExpired | utils/batteryManager.js:2697-2700 | the password is no longer verified and nothing else changes |
| BleProtocol.FirstResponseResubmits | utils/batteryManager.js:2685-2689 | the first response of either kind only resubmits the last password and sets the first-response flag |
| BleProtocol.SuccessVerifies | utils/batteryManager.js:2661-2674 | a later `pd1` while unverified verifies the last password and arms the expiry |
| BleProtocol.FailureClears | utils/batteryManager.js:2675-2681 | a later `pd0` clears the flag and the verified password and records the error |
| BleProtocol.VerifyThenTwoSuccesses | utils/batteryManager.js:2305-2693 | from a fresh session a password and two `pd1` leave it verified, the frame sent twice |
| BleProtocol.FirstFailureNotReported | utils/batteryManager.js:2685-2689 | a first `pd0` resubmits and records no error |
| BleProtocol.PasswordOnDisconnect | utils/batteryManager.js:2077-2082 | both flags, the expiry and the error cleared |
| BleProtocol.PasswordOnDeviceLost | utils/batteryManager.js:1300-1304 | the verified flag and the expiry cleared, the first-response flag kept |
| BleProtocol.ReconnectDiffers | utils/batteryManager.js:1296-1327 | after `disconnect` a `pd1` only resubmits; after a lost link it verifies |
| BleProtocol.ProcessItem | utils/batteryManager.js:1747-1803 | password answers and `RES` are consumed without touching the record or parameters |
| BleProtocol.SetStatus | utils/batteryManager.js:2740-2767 | the session stays well shaped |
| BleProtocol.ApplyClose | utils/batteryManager.js:2912-3006 | the session stays well shaped |
| BleProtocol.Opened | utils/batteryManager.js:1757-1761 | the session stays well shaped |
| BleProtocol.Closed | utils/batteryManager.js:1762-1768 | the session stays well shaped |
| BleProtocol.Marker | utils/batteryManager.js:1757-1803 | the session stays well shaped |
| BleProtocol.DischargeMarker | utils/batteryManager.js:1769-1803 | the session stays well shaped |
| BleProtocol.BalanceOrReading | utils/batteryManager.js:1781-1796 | the session stays well shaped |
| BleProtocol.Assignment | utils/batteryManager.js:1798-1803 | the session stays well shaped |
| BleProtocol.Assigned | utils/batteryManager.js:1811-1917 | the session stays well shaped |
| BleProtocol.ProcessLinesAppend | utils/batteryManager.js:1608-1620 | handling two batches one after the other is handling their concatenation |
| BleProtocol.ProcessItems | utils/batteryManager.js:1747-1808 | the session stays well shaped |
| BleProtocol.ProcessLine | utils/batteryManager.js:1737-1809 | the session stays well shaped |
| BleProtocol.ProcessLines | utils/batteryManager.js:1608-1620 | the session stays well shaped |
| BleProtocol.ProcessLinesOne | utils/batteryManager.js:1608-1620 | one more line is that line handled after the others |
| BleProtocol.SegmentStep | utils/batteryManager.js:1608-1613 | one more segment is handled exactly when it is not blank |
| BleProtocol.ProcessLinesSnoc | utils/batteryManager.js:1616-1620 | a last segment is handled only when it is not blank |
| BleProtocol.AbortSkipsRest | utils/batteryManager.js:1806-1808 | a token whose handler throws leaves the rest of the line unread |
| BleProtocol.FaultDelayAbortsLine | utils/batteryManager.js:2952 | after a delayed close token the following tokens of the line are not processed |
| BleProtocol.DelayedCloseItem | utils/batteryManager.js:1762-1768 | the delayed close token stores the delay and throws |
| BleProtocol.StopCountdown | utils/batteryManager.js:1994-2016 | with a timer, `gzys` becomes 0 with one update; otherwise nothing |
| BleProtocol.Tick | utils/batteryManager.js:3079-3091 | above zero one less; at zero or below the countdown stops |
| BleProtocol.CountdownReachesZero | utils/batteryManager.js:3077-3092 | from g, k ticks leave g-k while k is at most g, and the timer stops after g+1 ticks |
| BleProtocol.BalancingSixMembers | utils/batteryManager.js:3017-3039 | exactly the strings within the count whose bit (six per byte) is set, increasing |
| BleProtocol.LayoutsDisagree | utils/batteryManager.js:3021-3022 | the byte 64 reads as string 7 in the record's decoder and as no string here |
| BleManager.PadAndSet | utils/batteryManager.js:2890-2893 | the padding loop and store compute `SetCell` |
| BleManager.OverlayBytes | utils/batteryManager.js:2845-2861 | the two copy loops compute `Overlay` |
| BleManager.Manager.constructor | utils/batteryManager.js:387-446 | a fresh record and writer, nothing connected, no password state, an empty buffer |
| BleManager.Manager.UpdateStatus | utils/batteryManager.js:2740-2767 | the flags as `StatusRecord`, with one notification |
| BleManager.Manager.UpdateBatteryData | utils/batteryManager.js:2790-2910 | the record becomes `UpdateBatteryData` of the old one |
| BleManager.Manager.AssignFlags | utils/batteryManager.js:2745-2758 | the three flags as `StatusRecord`, with no notification |
| BleManager.Manager.UpdateReading | utils/batteryManager.js:2792-2839 | a single-reading case of the switch |
| BleManager.Manager.UpdateBalance | utils/batteryManager.js:2841-2882 | the `jhzt` case of the switch |
| BleManager.Manager.UpdateCell | utils/batteryManager.js:2884-2908 | the `default` case of the switch |
| BleManager.Manager.SetListCell | utils/batteryManager.js:2890-2905 | the padded list with one element set |
| BleManager.Manager.ClearCdDeviceStatus | utils/batteryManager.js:3008-3011 | the charge fault text is cleared |
| BleManager.Manager.ClearFdDeviceStatus | utils/batteryManager.js:3013-3016 | the discharge fault text is cleared |
| BleManager.Manager.HandleCloseStatus | utils/batteryManager.js:2912-3006 | the session becomes `ApplyClose` of the old one |
| BleManager.Manager.HandleParameterSetting | utils/batteryManager.js:1811-1917 | the parameters, version and record become `SetParameter` of the old ones |
| BleManager.Manager.StoreGzys | utils/batteryManager.js:2951 | `gzys` set to the delay, nothing else changed, no notification |
| BleManager.Manager.StoreTotalStrings | utils/batteryManager.js:1816 | the string count set, nothing else changed, no notification |
| BleManager.Manager.StoreYcbh | utils/batteryManager.js:1890 | `ycbh` set, nothing else changed, no notification |
| BleManager.Manager.SendCommand | utils/batteryManager.js:2582-2636 | refused without a write characteristic or device, or for an empty command; otherwise queued |
| BleManager.Manager.VerifyPassword | utils/batteryManager.js:2305-2329 | the password state becomes `VerifyPassword` of the old one; a frame, when there is one, is sent and queued HIGH under the next id exactly as `sendCommand` queues it; otherwise the writer is unchanged |
| BleManager.Manager.StartPasswordTimer | utils/batteryManager.js:2695-2701 | the expiry is armed |
| BleManager.Manager.CancelPasswordTimer | utils/batteryManager.js:2707-2713 | the expiry is disarmed |
| BleManager.Manager.PasswordTimerFired | utils/batteryManager.js:2697-2700 | the password state becomes `PasswordExpired` of the old one |
| BleManager.Manager.HandlePasswordResponse | utils/batteryManager.js:2657-2693 | the password state becomes `PasswordResponse` of the old one; a resubmitted frame is sent and queued HIGH as `sendCommand` queues it; otherwise the writer is unchanged |
| BleManager.Manager.GuardPasswordVerified | utils/batteryManager.js:3067-3075 | true exactly when the password is verified |
| BleManager.Manager.ProcessItem | utils/batteryManager.js:1747-1803 | one token computes `ProcessItem` on the session |
| BleManager.Manager.ProcessReceivedData | utils/batteryManager.js:1737-1809 | a line computes `ProcessLine` on the session |
| BleManager.Manager.MarkOpened | utils/batteryManager.js:1757-1761 | the session becomes `Opened` of the old one |
| BleManager.Manager.MarkClosed | utils/batteryManager.js:1762-1768 | the session and the outcome follow `Closed` |
| BleManager.Manager.StatusOrReading | utils/batteryManager.js:1757-1803 | the session and the outcome follow `Marker` |
| BleManager.Manager.DischargeOrReading | utils/batteryManager.js:1769-1803 | the session and the outcome follow `DischargeMarker` |
| BleManager.Manager.BalanceOrReading | utils/batteryManager.js:1781-1796 | the session becomes `BalanceOrReading` of the old one |
| BleManager.Manager.AssignmentRule | utils/batteryManager.js:1798-1803 | the session becomes `Assignment` of the old one |
| BleManager.Manager.ProcessSegments | utils/batteryManager.js:1608-1613 | the complete segments, blank ones skipped, are handled in order |
| BleManager.Manager.HandleReceivedData | utils/batteryManager.js:1594-1641 | buffer, flush timer and session follow `Receive` on the decoded chunk |
| BleManager.Manager.ProcessSegment | utils/batteryManager.js:1608-1613 | one more segment handled, blank ones skipped |
| BleManager.Manager.KeepOrHandOn | utils/batteryManager.js:1615-1628 | after a final newline the last segment is handled and the buffer emptied; otherwise it is kept and the flush timer armed |
| BleManager.Manager.DeliverLines | utils/batteryManager.js:1603-1628 | the newline branch follows `Deliver` |
| BleManager.Manager.FlushTimerFired | utils/batteryManager.js:1714-1719 | a pending partial line is handled and the buffer emptied |
| BleManager.Manager.StopGzysTimer | utils/batteryManager.js:1994-2016 | the countdown follows `StopCountdown` |
| BleManager.Manager.StartGzysTimer | utils/batteryManager.js:3077-3079 | any countdown is stopped and a new one armed |
| BleManager.Manager.GzysTick | utils/batteryManager.js:3079-3091 | one tick follows `Tick` |
| BleManager.Manager.CountGzys | utils/batteryManager.js:3086-3087 | `gzys` set with one notification |
| BleManager.Manager.GetBalancingStrings | utils/batteryManager.js:3031-3039 | the loop computes the six-per-byte list up to the string count |
| BleManager.Manager.StartAutoRefresh | utils/batteryManager.js:1918-1921 | the heartbeat sends the request-data command at the interval |
| BleManager.Manager.StopAutoRefresh | utils/batteryManager.js:1923-1925 | the heartbeat is cleared |
| BleManager.Manager.Disconnect | utils/batteryManager.js:2070-2125 | with a device attached: password reset, writer disposed, device and timers released; otherwise nothing; the receive buffer is kept |
| BleManager.Manager.ReleasePeripheral | utils/batteryManager.js:2131-2189 | the device's resources are released and the countdown stopped |
| BleManager.Manager.HandleDeviceDisconnection | utils/batteryManager.js:1296-1327 | link lost: disconnected, verified flag cleared, writer disposed, countdown stopped |
| DataManager.ParseLine | utils/bluetoothDataManager.js:423-440 | null exactly when the item has neither `:` nor `=`; both parts are trimmed and shorter than the item |
| DataManager.ParseLineColon | utils/bluetoothDataManager.js:425-430 | `key:value` splits at the first colon back into the key and value |
| DataManager.ParseLineEquals | utils/bluetoothDataManager.js:433-438 | `key=value` without a colon splits back into the key and value |
| DataManager.CollectStep | utils/bluetoothDataManager.js:299-334 | one line pushes at most two lines |
| DataManager.Collect | utils/bluetoothDataManager.js:299-335 | at most two pushed lines per input line |
| DataManager.CollectClean | utils/bluetoothDataManager.js:299-335 | the first pass pushes only trimmed, non-empty lines |
| DataManager.CollectStepClean | utils/bluetoothDataManager.js:299-334 | one step of the first pass keeps every pushed and pending line trimmed and non-empty |
| DataManager.FirstValue | utils/bluetoothDataManager.js:345-353 | the first colon-free non-blank line at or after a position, or none |
| DataManager.MergeClean | utils/bluetoothDataManager.js:337-358 | the second pass yields only trimmed, non-empty items |
| DataManager.ParseDataArray | utils/bluetoothDataManager.js:291-361 | the two passes and the filter compute `DataArray` |
| DataManager.CollectLines | utils/bluetoothDataManager.js:299-335 | the first loop computes `Collect` |
| DataManager.MergeLines | utils/bluetoothDataManager.js:337-358 | the second loop, which blanks each value line it takes, computes `Merge` |
| DataManager.FindValue | utils/bluetoothDataManager.js:345-353 | the inner loop finds `FirstValue` |
| DataManager.DataArrayClean | utils/bluetoothDataManager.js:299-304 | every returned item is non-empty and trimmed |
| DataManager.KeyLineMerged | utils/bluetoothDataManager.js:315-334 | a `key:` line followed by a value line yields the two joined, once |
| DataManager.TrailingKeyPending | utils/bluetoothDataManager.js:320-322 | a final `key:` line stays pending and is not in the result |
| DataManager.SingleItem | utils/bluetoothDataManager.js:355-360 | a clean line not ending in a colon passes through |
| DataManager.DataArrayKeyValue | utils/bluetoothDataManager.js:291-361 | the text `key:` newline `value` gives the single item `key:value` |
| DataManager.DataArrayKeyOnly | utils/bluetoothDataManager.js:291-361 | a text holding only `key:` gives no item |
| DataManager.WithStatusIdempotent | utils/bluetoothDataManager.js:374-391 | setting the same flags twice is setting them once; setting none changes nothing |
| DataManager.PadAndSet | utils/bluetoothDataManager.js:564-567 | the padding loop and store compute `SetCell` |
| DataManager.CopyBalanceBytes | utils/bluetoothDataManager.js:506-521 | the copy loops compute `Overlay` |
| DataManager.CopyIntoEmpty | utils/bluetoothDataManager.js:508-521 | copying into the empty balance array leaves it empty |
| DataManager.Updated | utils/bluetoothDataManager.js:448-581 | the setting fields and charge flags are kept, the balancing flag is raised only by `jhzt`, the balance array keeps its length |
| DataManager.NamedKeyLetter | utils/bluetoothDataManager.js:449-500 | every named key starts with a lower-case letter other than `u` |
| DataManager.CellKeyIsDefault | utils/bluetoothDataManager.js:545-576 | a key starting with `u` or a digit reaches the `default` branch |
| DataManager.TemperatureReading | utils/bluetoothDataManager.js:546-555 | `uN` with N at least 1 pads and sets temperature N, voltages kept |
| DataManager.VoltageReading | utils/bluetoothDataManager.js:556-571 | a numeric key N of at least 1 pads and sets voltage N, temperatures kept |
| DataManager.NonPositiveProbeIgnored | utils/bluetoothDataManager.js:551-554 | a probe number below 1 changes nothing |
| DataManager.NonPositiveCellIgnored | utils/bluetoothDataManager.js:564-567 | a cell number below 1 changes nothing |
| DataManager.SettingName | utils/bluetoothDataManager.js:605-684 | a name exactly for `CS` and the other listed keys |
| DataManager.Recorded | utils/bluetoothDataManager.js:605-684 | `newValues` gains exactly the setting's name |
| DataManager.Setting | utils/bluetoothDataManager.js:605-689 | only the string count (kept in [0, 252]), `ycbh` and the version name may change |
| DataManager.Reading | utils/bluetoothDataManager.js:240-274 | the status and reading part keeps the settings and the balance array's length |
| DataManager.AnswersConsumed | utils/bluetoothDataManager.js:228-237 | `SUCCESS`, `FAILURE` and `RES` change nothing |
| DataManager.JhstopClearsBalancing | utils/bluetoothDataManager.js:260-261 | the exact item `jhstop` clears the balancing flag and nothing else |
| DataManager.SettingItem | utils/bluetoothDataManager.js:276-281 | an item splitting into two parts at `=` reaches the setter with both trimmed |
| DataManager.StringCountSetting | utils/bluetoothDataManager.js:607-611 | `CS=v` sets the string count to `parseInt(v)` clamped to [0, 252] |
| DataManager.StringCountNotANumber | utils/bluetoothDataManager.js:609 | a non-numeric string count reads as 0 |
| DataManager.VersionSetting | utils/bluetoothDataManager.js:664-667 | `ver=v` records v, trimmed, as the version name |
| DataManager.BalanceStatusStaysEmpty | utils/bluetoothDataManager.js:54 | starting empty, the balance array stays empty after any items |
| DataManager.BluetoothDataManager.constructor | utils/bluetoothDataManager.js:2-76 | the initial state: nothing connected, empty version and fault texts, flags false, empty lists |
| DataManager.BluetoothDataManager.UpdateStatus | utils/bluetoothDataManager.js:374-399 | only the provided flags change; listeners are notified exactly when one was provided |
| DataManager.BluetoothDataManager.ClearCdDeviceStatus | utils/bluetoothDataManager.js:402-405 | the charge fault text is cleared |
| DataManager.BluetoothDataManager.ClearFdDeviceStatus | utils/bluetoothDataManager.js:417-420 | the discharge fault text is cleared |
| DataManager.BluetoothDataManager.UpdateBatteryData | utils/bluetoothDataManager.js:448-581 | the telemetry becomes `Updated` of the old one |
| DataManager.BluetoothDataManager.HandleParameterSetting | utils/bluetoothDataManager.js:605-689 | the state follows `Setting` and the caller's `newValues` gains the setting |
| DataManager.BluetoothDataManager.ApplyReading | utils/bluetoothDataManager.js:240-274 | the status and reading part of one item |
| DataManager.BluetoothDataManager.ProcessItem | utils/bluetoothDataManager.js:224-282 | one item of the loop |
| DataManager.BluetoothDataManager.ParseBatteryData | utils/bluetoothDataManager.js:213-288 | null and no change for a blank notification; otherwise the items of `DataArray` processed in order and the telemetry returned |
| DataManager.BluetoothDataManager.ProcessItems | utils/bluetoothDataManager.js:224-282 | the loop over all items |
| DataManager.BluetoothDataManager.Disconnect | utils/bluetoothDataManager.js:692-708 | not connected, and the device, service and characteristic ids are null |

## Left out

- The `uni.*` Bluetooth transport is left out: adapter, scanning, connection, service and characteristic
  discovery, notify, read and write. These are foreign I/O. A write is an event whose outcome is
  chosen by the caller (`Writer.BluetoothWriter.WriteSettled`). `closeBLEConnection` in both
  `disconnect` methods and `enableNotify` in the second decoder's `jhzt` case are left out for the
  same reason.
- Real timers are left out. The 50 ms pause, the 5 s write timeout, the 500 ms flush, the
  240 s password expiry, the 1 Hz countdown and the heartbeat interval are event methods with an
  armed flag.
- UI and propagation are left out: `_notifyListeners`, `_syncStateToVuex`, `uni.$emit`,
  `_showToast`, the `RES` toast, the callbacks of the second decoder, and logging. The
  `BatteryData.update()` notifications are only counted.
- Floating point is left out. Telemetry values are exact reals, and `parseFloat` is read as
  decimal digits with an optional fraction and exponent, without rounding to a double.
  `_calculateBatteryPercentage`, `toFixed` and `i18n.formatNumber` (with the `format*` helpers) are
  left out as display formatting.
- The `TextEncoder`/`TextDecoder` UTF-8 paths are foreign library calls. Only the byte-per-character
  fallbacks are modelled (`ByteCodec`). One character stands for each byte-decoded code unit.
- `_isSameData` for payloads that are not byte arrays (its `JSON.stringify` path) is left out. Every
  payload in the model is a byte sequence.
- `_sendControlCommand` is left out because it throws on an undeclared variable, and so is
  `_readCharacteristicValue` because it references an undefined name.
- The `BLEManager` operations outside the receive, password and disconnect core are left out:
  scanning, `connect`, `reconnect`, `renameDevice`, `changePassword`, the command shortcuts,
  `updateTotalStrings`, `sendRawCommand` and `dispose`.
- The second decoder's `connectDevice` and service set-up, `setDeviceInfo`, `destroy`,
  `handlePasswordResponse`, `handleCdCloseStatus` and `handleFdCloseStatus` are left out. The last
  three only log.
- `AppConstants.parameterCommandPrefixMap` and `getLocalizedParameterTitle` are not used by the
  modelled code and are left out. The language packs are abstract maps given to `I18n.Manager`.
- CommonEnum.Lookup, `CommonEnum.GetValue` and `I18n.Manager.PackOf`: only own properties are
  modelled. These lookups answer "missing" for inherited names such as `toString` or `constructor`,
  which JavaScript finds on the object prototype, so `setLanguage("toString")` is modelled as refused.
  No modelled caller passes such a name.
- `uni.setStorageSync` and `uni.getStorageSync` are a field, `savedLanguage`, standing for the stored
  language.
- `utils/networkMgr.js`, `utils/handleBluetoothError.js`, `store/index.js`, `common/tabBarConfig.js`
  and `main.js` are not part of this model.
- JsString.ParseInt: the contract states only that a number needs a digit. Its body is the model of
  `parseInt` (leading white space, sign, `0x` prefix, leading digits).
- BleProtocol.UpdateBatteryData: the contract states only readability. What each key does is
  proved in `ReadingUpdate`, `BalanceUpdate`, `CellUpdate`, `NoCellTarget` and
  `UpdateWritesOnlyItsField`.
- BleProtocol.Receive: the contract states only the no-newline case. The newline case is proved
  in `ReceiveSegments`, `ReceiveLossless` and `ReceiveKeepsLast`.
- BleProtocol.SetStatus, `ApplyClose`, `Opened`, `Closed`, `Marker`, `DischargeMarker`,
  `BalanceOrReading`, `Assignment`, `Assigned`, `ProcessItems`, `ProcessLine` and `ProcessLines`: these
  contracts state only that the session stays well shaped. What the dispatcher does is proved in
  `ProcessItem`, `ProcessLinesAppend`, `ProcessLinesSnoc`, `AbortSkipsRest`, `FaultDelayAbortsLine`,
  `DelayedCloseItem`, `StatusClobbers` and the parameter and password lemmas.
- DataManager.Updated: the contract states the fields every key keeps. The cell branches are
  proved in `TemperatureReading` and `VoltageReading`. The named reading keys are not restated one
  by one.
