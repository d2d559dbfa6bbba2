# Boosth wristband synchronisation core, modelled in Dafny

This project models the wristband stack of a Unity app that talks to
Boosth fitness wristbands ("PR102" kids' bands and "B002" adults' bands) over Bluetooth Low
Energy, together with the small date and lookup helpers the app uses on the step records.

- `protocol.dfy` (module `Protocol`): the `WristbandProtocol` state machine as a class. It holds:
  - the initialized handle;
  - the connected profile;
  - the found, connected, history-read and busy flags;
  - the day and retry counters;
  - the stored peripheral id and name;
  - the steps holder.

  Every call the protocol makes into the BLE hardware interface is appended to a request log `requests`. Every observer dispatch it makes is appended to an event log `events`: each entry is one call of an `On*` method that the protocol inherits from `WristbandObservable`, and `Observers.Observable.Notify` is what that call does with it, delivering it to every subscriber in list order. Each public command is a method, and so is each transport callback, so any callback order can be reasoned about. A C# exception raised along the way is a returned `Outcome` that keeps the state changes made before the throw. The readiness diagnostic `GetUnableToReadError` has a specification by reasons and ranks. `ToHex` has a round-trip partner.
- `steps.dfy` (module `Steps`): `StepsData`.
  - The today buffer and the history list are fields of a class.
  - The fixed-offset decoders return 0 or -1 when a buffer is too short.
  - Encoders of the two wire layouts come with round-trip lemmas.
  - The totals accumulate in a wrapping 32-bit `int`.
- `steps_days.dfy` (module `StepsDays`): `StepsDayType`, its constructor defaults and the in-place `SubtractStepsDay`.
- `settings.dfy` (module `Settings`): `ByteConverter`'s 16-byte settings buffer.
  - C#'s `|`, `&`, `>>` and `Convert.ToByte` are written out on unbounded integers.
  - Lemmas state where each argument lands and when the conversion overflows.
- `services.dfy` (module `Services`): the `BoosthWristbandServices` registry and its three lookups.
- `observers.dfy` (module `Observers`): `WristbandObservable`. It has an ordered subscriber list and ten dispatch methods, and it records every callback delivered.
- `date_tools.dfy` (module `DateTools`): `TimeDateStepsTools`.
  - The linear searches work over an array of day records.
  - `AddZeros` is a loop proved against a padding function.
  - The date-string and timestamp layouts are proved injective.
- `scenarios.dfy` (module `Scenarios`): client runs over a fresh protocol. They cover initialization, de-initialization, connecting a kids' band, the refused and accepted reads, the whole day-by-day history walk, the bounded retry loop and disconnection.
- `bytes.dfy`, `text.dfy`, `events.dfy`, `wrappers.dfy`: shared material.
  - 32-bit wrap-around and bitwise OR, with their lemmas.
  - Decimal spelling of naturals and ASCII upper-casing.
  - The observer event and error kinds.
  - `Option` and `Result`.

Integers that are C# `int`s are `int32` (a subtype of `int`), and wrap-around is written out where the source's unchecked arithmetic can overflow (`Bytes.Wrap32`). Bytes are a `byte` subtype of `int`.

## Model

| member | source | states |
|---|---|---|
| Protocol.WristbandProtocol.constructor | Script/Wristband/protocol/WristbandProtocol.cs:25-46 | a new protocol is uninitialized, has no profile, no peripheral, zero counters, every flag clear, an empty steps holder and has made no request and no dispatch |
| Protocol.WristbandProtocol.ConnectedProfileType | Script/Wristband/protocol/WristbandProtocol.cs:70 | the connected profile's kind (kids for the PR102 profile, adults for B002); with no profile it throws |
| Protocol.WristbandProtocol.DeviceList | Script/Wristband/protocol/WristbandProtocol.cs:72 | uninitialized gives the empty list; initialized gives the device script's list, and a null list throws |
| Protocol.FirstDevice | Script/Wristband/protocol/WristbandProtocol.cs:158 | `DeviceList()[0]` succeeds exactly when initialized with a non-empty list, giving its first entry; an empty list is an index-out-of-range fault, the other failures a null dereference |
| Protocol.WristbandProtocol.InitialyzeCentral | Script/Wristband/protocol/WristbandProtocol.cs:80-86 | already initialized: no hardware call, busy cleared, BluetoothInitialized dispatched, nothing else changes; otherwise one Initialize(central) request and the returned handle kept |
| Protocol.WristbandProtocol.InitCompleteHandler | Script/Wristband/protocol/WristbandProtocol.cs:330-334 | clears busy and dispatches BluetoothInitialized; nothing else changes |
| Protocol.WristbandProtocol.InitErrorHandler | Script/Wristband/protocol/WristbandProtocol.cs:336-340 | clears busy and dispatches one INITIALIZATION_FAILED carrying the hardware's message; nothing else changes |
| Protocol.WristbandProtocol.DeInitialyzeCentral | Script/Wristband/protocol/WristbandProtocol.cs:88-101 | always ends uninitialized, makes no hardware call and dispatches BluetoothDeInitialized at once; nothing else changes |
| Protocol.WristbandProtocol.ScanForDeviceAndAutoConnect | Script/Wristband/protocol/WristbandProtocol.cs:103-117 | always forgets found, connected and history; initialized: becomes busy and scans for exactly the registry's service ids; uninitialized: one CONNECTION_FAILED, busy untouched, no request |
| Protocol.WristbandProtocol.ScanForPeripheralsWithServicesResponseHandler | Script/Wristband/protocol/WristbandProtocol.cs:342-357 | a "PR102" or "B002" device is stored with its id, connected to, marked found and reported as ProfileFound; any other name dispatches only UNKNOWN_DEVICE_DETECTED and changes no state and makes no request |
| Protocol.WristbandProtocol.ConnectToPeripheralConnectHandler | Script/Wristband/protocol/WristbandProtocol.cs:366-369 | marks the device connected and changes nothing else (busy stays set) |
| Protocol.WristbandProtocol.ConnectToPeripheralCharacteristicHandler | Script/Wristband/protocol/WristbandProtocol.cs:373-382 | subscribes to FED1 exactly when the stored device reports the FED1 characteristic of the FED0 service, compared after upper-casing; otherwise nothing happens |
| Protocol.WristbandProtocol.NotificationHandler | Script/Wristband/protocol/WristbandProtocol.cs:287-301 | after the debug line, the stored name's registry profile becomes the connected profile and Connected is dispatched; with no stored name the registry lookup throws and nothing else changes |
| Protocol.ConnectedCharacteristic | Script/Wristband/protocol/WristbandProtocol.cs:413-416 | for a connected Boosth profile, tag A resolves to FED1 and tag B to FED2 of the shared FED0 service |
| Protocol.WristbandProtocol.StopScan | Script/Wristband/protocol/WristbandProtocol.cs:119-125 | only when initialized and busy: clears busy and stops scanning; otherwise nothing at all changes |
| Protocol.WristbandProtocol.Disconnect | Script/Wristband/protocol/WristbandProtocol.cs:127-138 | the profile is dropped at once; with a first device it becomes busy and disconnects that device; otherwise it dispatches Disconnected with no request |
| Protocol.WristbandProtocol.DisconnectDeviceComplete | Script/Wristband/protocol/WristbandProtocol.cs:384-392 | clears found, connected, history and busy and dispatches Disconnected; nothing else changes |
| Protocol.WristbandProtocol.Abort | Script/Wristband/protocol/WristbandProtocol.cs:140-144 | StopScan then Disconnect: no profile afterwards; the stop request only when it was initialized and busy, the disconnect request only with a first device, Disconnected otherwise |
| Protocol.WristbandProtocol.GetUnableToReadError | Script/Wristband/protocol/WristbandProtocol.cs:399-411 | the diagnostic equals the concatenated texts of the requested and unmet conditions in rank order |
| Protocol.ReasonsExact | Script/Wristband/protocol/WristbandProtocol.cs:399-411 | a condition is listed if and only if it is requested and unmet |
| Protocol.ReasonsOrdered | Script/Wristband/protocol/WristbandProtocol.cs:399-411 | the listed conditions follow the fixed order busy, not initialized, no profile, not discovered, not connected, no history, each at most once |
| Protocol.DiagnosticEmpty | Script/Wristband/protocol/WristbandProtocol.cs:399-411 | the diagnostic is empty exactly when no condition is listed |
| Protocol.DiagnosticPieces | Script/Wristband/protocol/WristbandProtocol.cs:401-409 | the diagnostic is the six per-condition pieces in order, each present exactly when requested and unmet |
| Protocol.RefusalExplained | Script/Wristband/protocol/WristbandProtocol.cs:155-160 | a command is refused exactly when its diagnostic is non-empty, so every refusal names a reason and no reason accompanies a command that proceeds |
| Protocol.WristbandProtocol.ReportRefusal | Script/Wristband/protocol/WristbandProtocol.cs:160 | a refusal dispatches one error with the command's prefix and the current diagnostic, and changes no state and makes no request |
| Protocol.WristbandProtocol.ReadStepsAndExercizeTime | Script/Wristband/protocol/WristbandProtocol.cs:151-161 | the steps holder is emptied and the retry count reset even when refused; ready: becomes busy and reads FED2 of the first device (a missing device throws); refused: one READ_STEPS_FAILED with the diagnostic and no request |
| Protocol.WristbandProtocol.ReadSummary | Script/Wristband/protocol/WristbandProtocol.cs:155-158 | when ready the read becomes busy and issues exactly one FED2 read of the first device, or throws the first-device fault with no request |
| Protocol.WristbandProtocol.SetClockAndUserSettings | Script/Wristband/protocol/WristbandProtocol.cs:164-172 | ready: becomes busy and writes the caller's bytes, with their length and a response, to FED1 of the first device; refused: one SET_WRISTBAND_FAILED with the diagnostic, nothing else |
| Protocol.WristbandProtocol.ClearHistory | Script/Wristband/protocol/WristbandProtocol.cs:175-184 | also needs the history read; ready: becomes busy and writes the single byte 0xA1 to FED1; refused: one CLEAR_HISTORY_FAILED whose diagnostic includes the history condition, nothing else |
| Protocol.WristbandProtocol.ReadCharacteristicsHandler | Script/Wristband/protocol/WristbandProtocol.cs:197-246 | a step count above 10,000,000 with fewer than ten retries: holder emptied, INVALID_NUMBER_OF_STEPS, retry counted, FED2 read again; with the retries used up: busy cleared and the terminal error; a plausible count stores today's summary and takes the first step of the history walk |
| Protocol.WristbandProtocol.RetryCorruptedRead | Script/Wristband/protocol/WristbandProtocol.cs:202-231 | a retry empties the holder, reports the corrupted read, counts the retry and reads FED2 again from the stored peripheral, or throws without a connected profile |
| Protocol.WristbandProtocol.ReportRetriesExhausted | Script/Wristband/protocol/WristbandProtocol.cs:236-240 | once the ten retries are used up a corrupted count clears busy and reports the terminal INVALID_NUMBER_OF_STEPS naming the count, with no request and the retry count unchanged |
| Protocol.WristbandProtocol.StartHistoryWalk | Script/Wristband/protocol/WristbandProtocol.cs:241-245 | a plausible count announces the history walk and then takes its first step over the records today's summary announces |
| Protocol.WristbandProtocol.RecursiveStepsRequest | Script/Wristband/protocol/WristbandProtocol.cs:253-278 | reports the day reached; with days left writes the day index as one byte to the characteristic; once every day is in clears busy, marks the history read and dispatches the collected steps |
| Protocol.WristbandProtocol.NotificationUpdateHandler | Script/Wristband/protocol/WristbandProtocol.cs:280-285 | appends the day that came in (today's buffer untouched), counts it and takes the next walk step |
| Protocol.WristbandProtocol.WriteCharacteristicResponse | Script/Wristband/protocol/WristbandProtocol.cs:303-306 | a history write only produces a debug line; no state change |
| Protocol.WristbandProtocol.WriteCharacteristicHandler | Script/Wristband/protocol/WristbandProtocol.cs:308-312 | a settings or clear write completes: busy cleared and WriteComplete dispatched, nothing else changes |
| Protocol.WristbandProtocol.ToHex | Script/Wristband/protocol/WristbandProtocol.cs:418-437 | the character-array loop produces exactly the hex dump of the bytes |
| Protocol.HexLayout | Script/Wristband/protocol/WristbandProtocol.cs:418-437 | the dump has 3n + 1 characters, a bar character at every multiple of three and the upper-case high and low nibble of byte i between |
| Protocol.HexRoundTrip | Script/Wristband/protocol/WristbandProtocol.cs:418-437 | reading the dump back gives the original bytes, so no information is lost |
| Steps.StepsData.constructor | Script/Wristband/StepsData.cs:9-15 | a new holder has no today buffer and an empty history |
| Steps.StepsData.SetTodayData | Script/Wristband/StepsData.cs:37-40 | replaces the today buffer and leaves the history |
| Steps.StepsData.SetHistoryData | Script/Wristband/StepsData.cs:42-45 | ignores the index and appends: one more entry, earlier entries unchanged, today untouched |
| Steps.StepsData.Clear | Script/Wristband/StepsData.cs:47-51 | no today buffer and an empty history |
| Steps.StepsData.GetTodayData | Script/Wristband/StepsData.cs:22-25 | a copy of the today buffer, and a NullReferenceException exactly when there is none |
| Steps.StepsData.GetHistoryData | Script/Wristband/StepsData.cs:27-35 | the loop returns a new list with a copy of every history day in order, and throws exactly when some day is null |
| Steps.CopiesAfterStore | Script/Wristband/StepsData.cs:22-51 | stored buffers read back through the copies; after Clear the today copy throws and the history copy is empty |
| Steps.NoToday | Script/Wristband/StepsData.cs:220-223 | the guard lets a read of byte maxBit through exactly when the buffer is present and longer than maxBit |
| Steps.NoHistory | Script/Wristband/StepsData.cs:225-228 | the guard lets a read through exactly when the day exists, is not null and is longer than maxBit |
| Steps.GuardsMonotone | Script/Wristband/StepsData.cs:220-228 | a guard that passes for a byte passes for every earlier byte, and one that fails fails for every later byte |
| Steps.ClearedReadsZero | Script/Wristband/StepsData.cs:47-51 | after Clear every today field and both history sums read 0 |
| Steps.StepsToday | Script/Wristband/StepsData.cs:108-113 | bytes 0..2 little-endian, 0 when too short, so between 0 and 16,777,215 |
| Steps.ExerciseTimeToday | Script/Wristband/StepsData.cs:115-120 | bytes 3..4 little-endian or 0, so at most 65,535 |
| Steps.NrOfStepsRecords | Script/Wristband/StepsData.cs:122-127 | byte 5 or 0, so within 0..255 |
| Steps.NrOfSleepRecords | Script/Wristband/StepsData.cs:129-134 | byte 6 as the high byte and byte 7 as the low byte, or 0, so at most 65,535 |
| Steps.DaysAgo | Script/Wristband/StepsData.cs:142-147 | only 0 or 128 for a present day, -1 for a missing one |
| Steps.StepsHistory | Script/Wristband/StepsData.cs:149-154 | bytes 1..3 little-endian, 0 for a missing day |
| Steps.ExerciseTimeHistory | Script/Wristband/StepsData.cs:156-161 | bytes 4..5 little-endian, 0 for a missing day |
| Steps.GoalStepsHistory | Script/Wristband/StepsData.cs:163-168 | 23 bits (bit 7 of byte 8 dropped), so at most 0x7FFFFF, or -1 |
| Steps.GoalUnitsHistory | Script/Wristband/StepsData.cs:170-175 | only 0 or 128, or -1 |
| Steps.DistanceWalkedHistory | Script/Wristband/StepsData.cs:177-182 | bytes 9..10, or -1 |
| Steps.CaloriesBurnedPerStepHistory | Script/Wristband/StepsData.cs:184-189 | 23 bits (bit 7 of byte 13 dropped), or -1 |
| Steps.DistanceUnitsHistory | Script/Wristband/StepsData.cs:191-196 | only 0 or 128, or -1 |
| Steps.BMRHistory | Script/Wristband/StepsData.cs:198-203 | bytes 14..16 little-endian, or -1 |
| Steps.MissingHistoryDay | Script/Wristband/StepsData.cs:142-203 | a day past the end or null reads 0 for steps and exercise time and -1 for every other field |
| Steps.DecodeEncodeToday | Script/Wristband/StepsData.cs:108-134 | decoding the 8-byte today layout of a summary gives back that summary |
| Steps.EncodeDecodeToday | Script/Wristband/StepsData.cs:108-134 | any buffer of 8 or more bytes decodes to a valid summary whose encoding is its first 8 bytes, so the decoders lose nothing |
| Steps.DecodeEncodeHistoryDay | Script/Wristband/StepsData.cs:142-203 | decoding the 17-byte day layout of a day record gives back that record, wherever it sits in the list |
| Steps.EncodeDecodeHistoryDay | Script/Wristband/StepsData.cs:142-203 | any 17-byte day decodes to a valid record whose encoding is the buffer with only the unused low 7 bits of byte 0 cleared |
| Steps.StepsData.TotalStepsWalked | Script/Wristband/StepsData.cs:59-69 | the loop's total is today's steps plus every history day's steps, wrapped to 32 bits; with at most 127 days it is the exact sum |
| Steps.StepsData.TotalExerciseTime | Script/Wristband/StepsData.cs:71-81 | the same for exercise time; with at most 32767 days it is the exact sum |
| Steps.HistoryUpToBounds | Script/Wristband/StepsData.cs:59-81 | the history sums are non-negative and at most the day count times the largest field value |
| Steps.TotalAfterAppend | Script/Wristband/StepsData.cs:42-45 | appending a day raises each total by exactly that day's value |
| Steps.HistoryUpToAppend | Script/Wristband/StepsData.cs:42-45 | appending a day leaves the sums over earlier days unchanged |
| StepsDays.StepsDayType.constructor | Script/Wristband/StepsDayType.cs:16-24 | the fields take the arguments, defaulting to zero and the empty day |
| StepsDays.StepsDayType.SubtractStepsDay | Script/Wristband/StepsDayType.cs:28-35 | each counter decreases by the other's (wrapping at 32 bits), the day is kept, the result is the receiver itself, and subtracting a day from itself zeroes it |
| StepsDays.SubtractionReversible | Script/Wristband/StepsDayType.cs:28-35 | subtracting and adding back the same counters restores them for all values, so the wrapped difference loses nothing |
| Bytes.WrapAdd | Script/Wristband/StepsData.cs:64-65 | wrapping the running sum after every addition equals wrapping the final sum |
| Bytes.SubtractAddBack | Script/Wristband/StepsDayType.cs:30-32 | a wrapped subtraction is undone by a wrapped addition of the same value |
| Bytes.Or32 | Script/Wristband/tools/ByteConverter.cs:45 | C#'s bitwise OR on two ints: at least each operand when both are non-negative, negative when either is |
| Bytes.OrHighBit | Script/Wristband/tools/ByteConverter.cs:45 | ORing a byte with 0x80 sets its top bit and changes nothing else |
| Bytes.OrNatBelow | Script/Wristband/tools/ByteConverter.cs:51 | OR of two values below 2^k stays below 2^k |
| Settings.ToByte | Script/Wristband/tools/ByteConverter.cs:45-64 | `Convert.ToByte` succeeds exactly on 0..255 and keeps the value |
| Settings.ConvertSettingsToByteArray | Script/Wristband/tools/ByteConverter.cs:29-67 | the array-filling method returns the settings encoding of its arguments, overflow included |
| Settings.EncodeSettingsSucceeds | Script/Wristband/tools/ByteConverter.cs:43-64 | encoding succeeds exactly when hour, the 24-hour flag, minute, second, the goal unit, the distance unit and over100goal are bytes (every other slot is masked), and then gives 16 bytes |
| Settings.SlotOverflows | Script/Wristband/tools/ByteConverter.cs:45-64 | one slot outside a byte makes the whole conversion overflow |
| Settings.SettingsClock | Script/Wristband/tools/ByteConverter.cs:45-47 | byte 0 is hour ORed with the 24-hour flag (top bit set when the flag is 0x80), bytes 1 and 2 are minute and second |
| Settings.HighBitKeepsLow | Script/Wristband/tools/ByteConverter.cs:45 | ORing the 24-hour flag 0x80 into a byte sets bit 7 and leaves bits 0..6 as they were |
| Settings.SettingsGoal | Script/Wristband/tools/ByteConverter.cs:49-51 | bytes 3..5 read back as the low 23 bits of the goal and bit 7 of byte 5 is the goal unit |
| Settings.SettingsDistance | Script/Wristband/tools/ByteConverter.cs:53-54 | bytes 6..7 read back as the distance modulo 2^16 |
| Settings.DefaultDistanceTruncated | Script/Wristband/tools/ByteConverter.cs:53-54 | a distance of 500000 reaches the band as 41248 |
| Settings.SettingsCalorie | Script/Wristband/tools/ByteConverter.cs:56-59 | bytes 8..11 read back as the calorie modulo 2^31 (two's-complement low bits for a negative value) and bit 7 of byte 11 is the distance unit |
| Settings.SettingsBmr | Script/Wristband/tools/ByteConverter.cs:61-64 | bytes 12..14 read back as the low 24 bits of the BMR and byte 15 is over100goal |
| Settings.GoldenSettings | Script/Wristband/tools/ByteConverter.cs:29-67 | a concrete request encodes to its 16 bytes, byte for byte |
| Settings.CreateNewWristbandSettings | Script/Wristband/tools/ByteConverter.cs:12-27 | with the fixed flags the buffer always exists, has 16 bytes, byte 0 is 0x80 plus the hour, bytes 1 and 2 are minute and second, byte 5's top bit is clear, byte 11's is set and byte 15 is 0x80 |
| Services.ListOfProfileServicesIDs | Script/Wristband/WristbandServices.cs:69-77 | every profile's id is returned, each once, and in the order of first occurrence in the table |
| Services.BuiltInServiceIds | Script/Wristband/WristbandServices.cs:45-77 | with the built-in table the result is exactly the FED0 service id |
| Services.GetProfileByName | Script/Wristband/WristbandServices.cs:79-88 | succeeds exactly when some profile has the name, and then returns the first one that has it; otherwise it throws |
| Services.GetCharacteristicByTag | Script/Wristband/WristbandServices.cs:90-104 | an unknown name throws; otherwise the first characteristic with the tag of that profile, or a throw when there is none |
| Services.BuiltInProfiles | Script/Wristband/WristbandServices.cs:45-67 | with the built-in table "PR102" gives the kids' profile, "B002" the adults' profile and every other name throws |
| Services.BuiltInCharacteristics | Script/Wristband/WristbandServices.cs:45-104 | for either Boosth name tag A is FED1, tag B is FED2 and tag C throws; an unknown name throws for every tag |
| Observers.Observable.constructor | Script/Wristband/protocol/WristbandObservable.cs:6 | a new observable has no subscribers |
| Observers.Observable.SubscribeObserver | Script/Wristband/protocol/WristbandObservable.cs:9-11 | appends at the end, duplicates allowed |
| Observers.Observable.UnsubscribeObserver | Script/Wristband/protocol/WristbandObservable.cs:13-15 | removes the first occurrence only; an absent observer leaves the list unchanged |
| Observers.RemoveFirst | Script/Wristband/protocol/WristbandObservable.cs:13-15 | `List.Remove`: unchanged without the element, otherwise one shorter with the entries after the first occurrence shifted down |
| Observers.RemoveFirstContents | Script/Wristband/protocol/WristbandObservable.cs:13-15 | removal takes exactly one copy of the observer out of the list's contents |
| Observers.SubscribeUnsubscribe | Script/Wristband/protocol/WristbandObservable.cs:9-15 | subscribing an unlisted observer and then unsubscribing it restores the list |
| Observers.Observable.Notify | Script/Wristband/protocol/WristbandObservable.cs:22-71 | the shared foreach loop delivers the event to every subscriber once, in list order, and leaves the list unchanged |
| Observers.Observable.OnInitComplete | Script/Wristband/protocol/WristbandObservable.cs:22-26 | every subscriber receives BluetoothInitialized, in order |
| Observers.Observable.OnDeInitComplete | Script/Wristband/protocol/WristbandObservable.cs:27-31 | every subscriber receives BluetoothDeInitialized, in order |
| Observers.Observable.OnError | Script/Wristband/protocol/WristbandObservable.cs:32-36 | every subscriber receives the error with its text, in order |
| Observers.Observable.OnDebugMessage | Script/Wristband/protocol/WristbandObservable.cs:37-41 | every subscriber receives the debug message, in order |
| Observers.Observable.OnConnected | Script/Wristband/protocol/WristbandObservable.cs:42-46 | every subscriber receives Connected with the id, name and profile, in order |
| Observers.Observable.OnDisconnected | Script/Wristband/protocol/WristbandObservable.cs:47-51 | every subscriber receives Disconnected, in order |
| Observers.Observable.OnMatchingProfile | Script/Wristband/protocol/WristbandObservable.cs:52-56 | every subscriber receives ProfileFound, in order |
| Observers.Observable.OnUnknownProfile | Script/Wristband/protocol/WristbandObservable.cs:57-61 | every subscriber receives UnknownProfile, in order |
| Observers.Observable.OnStepsCollected | Script/Wristband/protocol/WristbandObservable.cs:62-66 | every subscriber receives the collected steps, in order |
| Observers.Observable.OnWriteComplete | Script/Wristband/protocol/WristbandObservable.cs:67-71 | every subscriber receives WriteComplete, in order |
| Observers.SubscriptionRoundTrip | Script/Tests/WristbandProtocolTests.test.cs:17-90 | a fresh observer subscribed to a fresh observable is the only subscriber, receives the ten dispatches once each with its own callback kind in call order, and unsubscribing leaves the list empty |
| DateTools.GetStepsByDate | Script/Tools/TimeDateStepsTools.cs:21-30 | the first record whose day equals the date, or none exactly when no record has it |
| DateTools.GetIndexFromStepDay | Script/Tools/TimeDateStepsTools.cs:32-41 | the least index whose record has the same day, or -1 exactly when there is none |
| DateTools.LookupsAgree | Script/Tools/TimeDateStepsTools.cs:21-41 | the record found by date is the one at the index found for that date |
| DateTools.AddZeros | Script/Tools/TimeDateStepsTools.cs:57-61 | the prepending loop gives the string zero-padded to the width |
| DateTools.PaddedShape | Script/Tools/TimeDateStepsTools.cs:57-61 | the result has the larger of the width and the length of s as its length, ends with s and has only zeros before it |
| DateTools.PaddedIdempotent | Script/Tools/TimeDateStepsTools.cs:57-61 | padding twice to the same width is padding once |
| DateTools.PaddedValue | Script/Tools/TimeDateStepsTools.cs:57-61 | a padded decimal number is still all digits and reads back as that number |
| DateTools.DateToString | Script/Tools/TimeDateStepsTools.cs:63-70 | for a valid date: the year's digits, '-', two month digits, '-', two day digits, each part reading back as its component |
| DateTools.DateToTimeStamp | Script/Tools/TimeDateStepsTools.cs:72-86 | for a valid date and time: the date string, 'T', hour, minute and second in two digits, '.', milliseconds in three digits and 'Z', each field reading back as its component |
| DateTools.TimeStampInjective | Script/Tools/TimeDateStepsTools.cs:72-86 | different valid dates and times never produce the same timestamp |
| Text.DecimalValueOfNatToString | Script/Tools/TimeDateStepsTools.cs:65-84 | the decimal spelling of a number reads back as that number |
| Scenarios.InitializeCentralRun | Script/Tests/WristbandProtocolTests.test.cs:92-135 | a successful initialization leaves the protocol initialized with every other flag clear, one Initialize request and one BluetoothInitialized |
| Scenarios.InitializeFailingRun | Script/Tests/WristbandProtocolTests.test.cs:139-181 | a failing initialization leaves the protocol uninitialized and not busy, with exactly one INITIALIZATION_FAILED carrying the hardware's message |
| Scenarios.InitializeTwiceRun | Script/Wristband/protocol/WristbandProtocol.cs:80-86 | a second initialization makes no further hardware call and only dispatches BluetoothInitialized again |
| Scenarios.DeInitializeCentralRun | Script/Wristband/protocol/WristbandProtocol.cs:88-101 | initializing then de-initializing leaves the fresh state, with BluetoothInitialized then BluetoothDeInitialized and no de-initialize request |
| Scenarios.ConnectKidsBand | Script/Wristband/protocol/WristbandProtocol.cs:103-117 | the scan and connect callbacks of a kids' band leave it found, connected and subscribed with the kids' profile, and still busy |
| Scenarios.ReadAfterConnectRun | Script/Wristband/protocol/WristbandProtocol.cs:151-161 | right after connecting a read is refused with the busy reason alone; after StopScan the same read goes out to FED2 of the first device |
| Scenarios.HistoryWalk | Script/Wristband/protocol/WristbandProtocol.cs:241-285 | with n announced days and n notifications the protocol writes day indices 0..n-1 in order, keeps every day, then clears busy, marks the history read and dispatches StepsCollected exactly once, last |
| Scenarios.SyncRun | Script/Wristband/protocol/WristbandProtocol.cs:80-285 | a whole synchronisation issues initialize, scan, connect, subscribe, stop, one FED2 read and one write per day, ending with the history read, not busy, and the days kept in order |
| Scenarios.RetryBound | Script/Wristband/protocol/WristbandProtocol.cs:197-240 | a band answering every read with a corrupted count is re-read exactly ten times, each corrupted read reported, and the eleventh answer ends with the terminal error and busy cleared; every dispatch is an error, so StepsCollected never occurs |
| Scenarios.DisconnectRun | Script/Wristband/protocol/WristbandProtocol.cs:127-138 | disconnecting with a device drops the profile, disconnects that device and, on completion, clears found, connected, history and busy and reports Disconnected once |
| Scenarios.DisconnectWithoutDevicesRun | Script/Wristband/protocol/WristbandProtocol.cs:127-138 | with no listed device the disconnection is reported at once and no disconnect request is made |

## Left out

- The BLE hardware interface, the device-script wrapper and the Unity plugin are not part of this model. Each call the protocol makes is a `Request` value appended to the log. Each callback is a method the client calls.
- The device list that `IBluetoothDeviceScript.DeviceList()` returns is a parameter of the methods that read it.
- The handle `InitializeBluetooth` returns is the boolean `handleReturned`.
- The synchronous ordering inside `InitialyzeCentral` is not modelled. There `InitCompleteHandler` may run before the returned handle is stored. The model stores the handle first and runs the completion handler as a separate callback.
- The protocol is fixed to the built-in `BoosthWristbandServices` registry that `Script/Wristband/WristbandManager.cs:147-149` wires in. The C# constructor takes any `IWristbandServices`, so it could be given another registry. With the built-in registry, the scan filter, the characteristic lookups and the profile lookup of `NotificationHandler` are those of `Services.Profiles`.
- Protocol.WristbandProtocol.NotificationHandler: the branch that reports NOTIFICATION_SUBSCRTIPTION_FAILED and an unknown profile is not modelled. With the built-in registry that branch cannot be reached: the registry throws for any name it does not know, and the stored name is always one it knows.
- Null arguments and negative indices are not modelled, because Dafny references, arrays and strings are never null and the history index is a `nat`. None of these cases is reachable from the core's own callers. This covers:
  - Protocol.WristbandProtocol.SetClockAndUserSettings with a null array, which sets busy and then throws;
  - DateTools.GetStepsByDate and DateTools.GetIndexFromStepDay with a null array, a null record or a null date;
  - DateTools.AddZeros with a null string;
  - StepsDays.StepsDayType.SubtractStepsDay with a null argument;
  - null id or name strings in the scan and characteristic callbacks;
  - a negative index given to the history decoders such as Steps.StepsHistory, which in C# passes the length guard and throws ArgumentOutOfRangeException.
- The scan-and-connect test in `Script/Tests/WristbandProtocolTests.test.cs:243-309` does not describe the code, and the model follows the code. No callback on the connect path clears busy, and the mock never calls the connect handler. `Scenarios.ConnectKidsBand` states the behaviour the code actually has.
- Scenarios.ConnectKidsBand: the service and characteristic ids reported by the hardware are parameters that upper-case to FED0 and FED1. They are not fixed literals.
- Protocol.WristbandProtocol.ReadSummary is a branch of `ReadStepsAndExercizeTime`, and Protocol.WristbandProtocol.RetryCorruptedRead, Protocol.WristbandProtocol.ReportRetriesExhausted and Protocol.WristbandProtocol.StartHistoryWalk are the three branches of `ReadCharacteristicsHandler`, each written as its own method. Settings.FillSettingsBuffer is the array-filling tail of `ConvertSettingsToByteArray`, run once every byte-valued slot has converted. Protocol.WristbandProtocol.ReportRefusal is likewise the shared refusal branch.
- The private handlers that are never registered with the hardware are not modelled: `UnsubscribeCompleteHandler`, `DeInitCompleteHandler`, `RetrieveListOfPeripheralsWithServicesResponseHandler` and the empty `ConnectToPeripheralServiceHandler`.
- Protocol.WristbandProtocol.ToHex: the null-array case is not modelled. A Dafny array reference is never null.
- Steps.StepsData.GetTodayData and Steps.StepsData.GetHistoryData: a copy is the same value as the buffer it was made from, so the model cannot show that the caller gets an array separate from the holder's.
- `StepsData.stepsHistoryList` is not modelled. It labels the days with dates from the current clock.
- StepsDays.StepsDayType.SubtractStepsDay: `calories_burned` is a C# `float`, modelled as an exact `real`. Floating-point rounding is not modelled.
- `StepsDayType.StringFormat` is not modelled. It formats a float.
- Floating-point body metrics are not modelled: `Calculations.GoalSteps`, `CaloriesPerStep` and `BMR`, and `ByteConverter.Age`. They are integer parameters of `Settings.CreateNewWristbandSettings`, and so is the current hour, minute and second.
- Settings.CreateNewWristbandSettings requires a valid clock time (hour 0..23, minute and second 0..59). `DateTime.Now` always gives one.
- `TimeDateStepsTools.ParseToday`, `ParseDate` and `TodayTimeStamp` are not modelled. They read the clock.
- `DateToString` and `DateToTimeStamp` take the date's components as a value. The year is spelled in decimal without padding, as C#'s integer-to-string gives it.
- The legacy protocols, managers and registries are not part of this model: `Script/Model/*`, `Script/Managers/*`. Neither are the UI, the editor tools and `Script/Wristband/WristbandManager.cs`.
- Subscribing or unsubscribing during a dispatch is not modelled. The C# enumerator would throw.
- Observer callbacks are recorded as deliveries. What an observer then does is outside the model.
