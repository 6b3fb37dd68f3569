# A verified model of the generic IMU component

This project models the whole command path of the generic IMU component and proves laws of it for
every input and every run: the ground script library, the cFS application, its F' counterpart, the
device driver they share, and the simulated device behind the CAN bus. `dafny verify dfyconfig.toml`
checks all of it.

## How it is built

| file | what it models |
|---|---|
| Powers.dfy, Rounding.dfy | scaling by powers of two; rounding to nearest, ties to even, into a binary format (IEEE 754-1985, section 4.1) |
| SensorCode.dfy | the offset-binary code: binary32 encoder, binary64 decoder, and the exact arithmetic they approximate |
| Bytes.dfy | bytes, words, shifts and bitwise or |
| Simulator.dfy | `HardwareModel` and `CanSlave`: frame validation, replies, the command counter, the reply buffer |
| DataPoint.dfy | the 42 data point that is parsed when it is first read |
| Driver.dfy | `CanInfo`: frame preparation, transactions, decoding into the telemetry structures |
| CfsApp.dfy, CfsLaws.dfy | `AppData`: the application's message handlers and main loop; laws of every run |
| EndToEnd.dfy | application, driver and device together |
| Ground.dfy | `Station`: the script library against the system |
| FPrime.dfy | `ImuComponent`, its laws, and its agreement with the cFS application |
| FPrimeSystem.dfy | component, driver and device together |

Code that updates state is a class whose methods update the same fields. Each method is proved
against a function on values (`SystemStep` for the application with its driver and device,
`Transact` for one bus transaction, `Step` for an F' handler), and the laws are lemmas about those
functions and about runs, which are sequences of steps of any length. A run of the application
leaves a record (`Event`) of hardware operations and publications; laws that need a history are
stated about the record and not about the counters that they constrain.

Assumptions. `OS_SUCCESS` and `CAN_SUCCESS` are both 0. A transaction has one of three outcomes
(request lost, reply lost, delivered) and reaches the device at most once. The frame is sixteen bytes:
identifier 4, length 1, padding 3, data 8. A cFS command without arguments is eight bytes long. Each
floating-point operation rounds once. Sensor readings are finite. Where a floating-point value does not
fit the 32-bit word it is converted to, C++ leaves the result undefined; the model leaves an arbitrary word.
Simulator commands may come between two messages and before each transaction of one message. One that
comes between the write and the read of a transaction leaves the reply alone, and is taken to come after it.

## What the code does not do

Seven places where the code departs from what it says or intends. Each is proved, with the exact
condition under which the intended property holds.

- The encoder's header allows any reading with -10 < x < 10. Among binary32 values the largest,
  10 - 2^-20, does not fit the word (`LinearRangeFails`), and it is the only one (`LinearRange`); the exact
  range is `EncodeFitsExactly`, and exactly there the round trip holds (`RoundTripExactly`). Every angular
  rate in its documented range fits (`AngularRange`).
- The final check of `generic_imu_cmd` compares with `>=`, so a start at 255 makes it vacuous
  (`AtMostOnce`, `CheckIsVacuousAt255`). Through the same routine a counter reset is confirmed only
  if the counter was at 255 (`ResetIsNotConfirmed`). All of this supposes a ground that knows the counter:
  for NOOP that is exactly when nothing is sent twice (`NoResendExactly`), and with the application one
  count ahead a lost command is taken for accepted (`OneAheadPasses`).
- The data check compares wrapping counters with `>=` and fails without any fault when one starts at 254
  or 255; the five checks of the script pass exactly if the counter starts at 245 or below (`FiveConfirms`).
  The script that prepares for the tests inherits this (`PrepareExactly`, `PrepareWithoutDrops`).
- A disabled device is read as a success, and minus full scale is published (`DisabledReadsFullScale`). The
  packet holds the readings exactly if the device is enabled, or if they are minus full scale
  (`FaithfulExactly`). A device that is disabled during a request leaves a packet with some axes true and
  the others at minus full scale (`TornPacket`); axis by axis, `PublishedReadings` is exact.
- The F' data command sends out whatever is in memory, so its packet can be mixed (`MixedOutput`). Over every
  run an output is unmixed exactly if nothing was delivered yet, or if the last request that delivered X
  delivered Z as well (`OutputUnmixedExactly`). It holds what the command itself asked for exactly under the
  condition of `OutputFreshExactly`.
- F' starts enabled even if its init failed, and uses the bus while disabled (`UsesBusWhileDisabled`). The bus
  discipline that the cFS application always keeps, it keeps exactly under the condition of `DisciplineExactly`.
- After its main loop the cFS application closes the bus twice (`ShutdownDiscipline`).

The component's README describes a housekeeping reply with a configuration word, an echo of every command
and other command numbers; the code has none of these, and the model follows the code.

## Model

| member | source | states |
|---|---|---|
| Rounding.FormatsOfTheStandard | README.md:62-66 | precision and smallest exponent follow from the widths of exponent and fraction, for single and for double precision |
| Rounding.RoundIsNearest | README.md:62-66 | no value of a binary format is nearer to a number than its rounding |
| Rounding.RoundIsRepresentable | README.md:62-66 | rounding returns a value of the format, carrying into the next binade where needed |
| Rounding.TiesToEven | README.md:62-66 | a tie goes to the even significand |
| Rounding.HalfUlp | README.md:62-66 | the error is at most half a unit in the last place, also with gradual underflow |
| Rounding.RoundMonotone | README.md:62-66 | rounding preserves order across all exponent boundaries |
| SensorCode.TruncateDropsFraction | sim/src/generic_imu_hardware_model.cpp:177-178 | converting to an integer keeps the sign and loses less than one in magnitude |
| SensorCode.AsWritten | fsw/shared/generic_imu_device.c:152-154 | encoder, decoder and their exact counterparts are the formulas of the sources, with the declared constants by name |
| SensorCode.Constants | sim/inc/generic_imu_hardware_model.hpp:62-67 | in binary32 the linear constant becomes 214748368, and both offsets become 2^31 |
| SensorCode.EncodeFitsExactly | sim/src/generic_imu_hardware_model.cpp:177-178 | if and only if: the converted value fits uint32 exactly when the product of reading and constant lies in [-2147483776, 2147483456] |
| SensorCode.LinearRange | sim/inc/generic_imu_hardware_model.hpp:62-67 | of the binary32 readings with -10 < x < 10 all but 10 - 2^-20, which none exceeds, can be encoded, and that one cannot |
| SensorCode.LinearRangeFails | sim/inc/generic_imu_hardware_model.hpp:62-67 | 10 - 2^-20 is such a binary32 reading, and cannot be encoded |
| SensorCode.AngularRange | sim/inc/generic_imu_hardware_model.hpp:62-67 | every binary32 rate with -400 < r < 400 can be encoded |
| SensorCode.EncodeMonotone | sim/src/generic_imu_hardware_model.cpp:177-178 | of the readings that can be encoded, a larger one never encodes to a smaller word |
| SensorCode.DecodeMonotone | fsw/shared/generic_imu_device.c:152-154 | a larger word never decodes to a smaller value |
| SensorCode.OrderKept | fsw/shared/generic_imu_device.c:141-154 | readings that can be encoded arrive in the order in which they were made |
| SensorCode.DecodeIsNarrowedQuotient | fsw/shared/generic_imu_device.c:152-154 | only the division and the cast of the decoder round; its offset and subtraction are exact |
| SensorCode.EncodeError | sim/src/generic_imu_hardware_model.cpp:177-178 | two roundings and a truncation cost the encoder at most 193 counts |
| SensorCode.ReadingRoundTrip | fsw/shared/generic_imu_device.c:14-18 | every reading that can be encoded decodes to within 2e-6 g or 1e-4 deg/s |
| SensorCode.RoundTripExactly | fsw/shared/generic_imu_device.c:141-154 | if and only if: a reading comes back within that tolerance, whatever an undefined conversion leaves, exactly if it can be encoded |
| SensorCode.ExactFits | fsw/shared/generic_imu_device.c:14-18 | in exact arithmetic the documented open range fits uint32 |
| SensorCode.ExactDecodeEncode | fsw/shared/generic_imu_device.c:152-154 | in exact arithmetic decode after encode loses less than one step, downwards |
| SensorCode.ExactEncodeDecode | fsw/shared/generic_imu_device.c:152-154 | in exact arithmetic encode after decode is the identity on all words |
| SensorCode.EncodeNearExact | sim/src/generic_imu_hardware_model.cpp:177-178 | for readings of the documented range that can be encoded, the binary32 encoder refines the exact one to within 242 counts |
| Bytes.AssembleWord | fsw/shared/generic_imu_device.c:100-108 | shifting and or-ing four bytes gives the big-endian word |
| Bytes.OrDisjoint | fsw/shared/generic_imu_device.c:100-108 | bitwise or of a shifted value and one below the shift is their sum |
| Bytes.PackThenUnpack | sim/src/generic_imu_hardware_model.cpp:142-152 | unpacking the packed bytes of a word gives the word |
| Bytes.UnpackThenPack | fsw/shared/generic_imu_device.c:100-108 | packing the word of four bytes gives the bytes |
| Simulator.HardwareModel.constructor | sim/src/generic_imu_hardware_model.cpp:9 | the device starts enabled with zero counter and status |
| Simulator.HardwareModel.CommandCallback | sim/src/generic_imu_hardware_model.cpp:97-119 | ENABLE, DISABLE and STATUS change exactly the fields they name; disabling clears counter and status |
| Simulator.HardwareModel.CreateHk | sim/src/generic_imu_hardware_model.cpp:134-153 | the field holds the counter, then the status, most significant byte first |
| Simulator.HardwareModel.CreateData | sim/src/generic_imu_hardware_model.cpp:157-232 | the field holds the two words of the requested axis, and zeros for any other |
| Simulator.HardwareModel.DetermineCanResponse | sim/src/generic_imu_hardware_model.cpp:236-368 | exactly an enabled device accepts exactly the frames of 14 bytes with length 2 and code up to 4; it replies from the state before it counts |
| Simulator.FrameByNumber | sim/src/generic_imu_hardware_model.cpp:247-295 | in numbers: an enabled device takes and counts exactly 14 bytes with length 2 and code up to 4, and answers exactly the codes 1 to 4, with 16 bytes of which the header says length 8 |
| Simulator.CanSlave.CanWrite | sim/src/generic_imu_hardware_model.cpp:387-393 | a write replaces the reply buffer by the answer to the first 14 bytes |
| Simulator.CanSlave.CanRead | sim/src/generic_imu_hardware_model.cpp:378-385 | a read cuts off or zero-extends the buffer, and leaves it so |
| Simulator.ReadsRepeat | sim/src/generic_imu_hardware_model.cpp:378-385 | after any reads, a read returns what no shorter read has cut off of the reply, zero-extended |
| Simulator.EqualReadsRepeat | sim/src/generic_imu_hardware_model.cpp:378-385 | reads of equal length repeat the same frame |
| Simulator.OnlySizeAndTwoBytesMatter | sim/src/generic_imu_hardware_model.cpp:254-275 | frames of one size, of any size, that agree in bytes 4 and 9 have the same effect and the same reply |
| Simulator.ZeroFrameExactly | sim/src/generic_imu_hardware_model.cpp:247-281 | the frame read back is all zero exactly if the command was rejected or was a NOOP |
| DataPoint.ImuDataPoint.From42 | sim/src/generic_imu_data_point.cpp:33-39 | the 42 constructor leaves the point invalid and not yet parsed |
| DataPoint.ImuDataPoint.Direct | sim/src/generic_imu_data_point.cpp:21-31 | the six-value constructor leaves the point valid, with its doubles rounded to the float fields |
| DataPoint.ImuDataPoint.DoParsing | sim/src/generic_imu_data_point.cpp:41-75 | the keys before the first that fails are stored as floats; the point becomes valid exactly if all six parse |
| DataPoint.ImuDataPoint.Get | sim/inc/generic_imu_data_point.hpp:22-27 | an accessor parses first if that has not succeeded before; of keys that parse, each accessor returns its own |
| DataPoint.ReachedExactly | sim/src/generic_imu_data_point.cpp:59-65 | a key is reached exactly if it and all keys before it, in the order of parsing, parse |
| DataPoint.OnDemandAgrees | sim/inc/generic_imu_data_point.hpp:22-37 | if the six keys parse, any calls of the accessors in any order answer as for a point made from the six values |
| DataPoint.ImuDataPoint.IsValid | sim/inc/generic_imu_data_point.hpp:29 | validity is exactly that parsing has succeeded; the query parses first if it has not, and stores what a reading would |
| DataPoint.ImuDataPoint.GetAll | sim/inc/generic_imu_data_point.hpp:22-37 | any sequence of calls of the seven accessors returns the directly parsed values, and validity exactly if the keys parse, and parses once; if a key fails, every call parses again; a point made from six values never parses |
| Driver.CommandOnTheWire | fsw/shared/generic_imu_device.c:23-36 | in numbers: identifier 15, length 2, header 0x80, the code, and the six bytes behind it |
| Driver.CanInfo.FramePrep | fsw/shared/generic_imu_device.c:23-36 | the whole eight bytes are copied, and the receive frame is cleared |
| Driver.CanInfo.ReadData | fsw/shared/generic_imu_device.c:41-55 | succeeds exactly if the transaction delivers; otherwise the receive frame is untouched |
| Driver.CanInfo.CommandDevice | fsw/shared/generic_imu_device.c:61-79 | one transaction of the given code; without a reply the receive data is zero |
| Driver.CanInfo.RequestHK | fsw/shared/generic_imu_device.c:84-116 | on success the structure holds the decoded reply, on failure its old contents |
| Driver.CanInfo.RequestAxis | fsw/shared/generic_imu_device.c:121-164 | on success the axis holds the decoded reply, on failure its old contents |
| Driver.CanInfo.RequestData | fsw/shared/generic_imu_device.c:169-205 | X, Y, Z in order until one fails; exactly the delivered axes are overwritten; success exactly if all three are |
| Driver.TailDoesNotMatter | fsw/shared/generic_imu_device.c:29 | the six bytes copied from behind the command never matter |
| Driver.ReplyIsFresh | sim/src/generic_imu_hardware_model.cpp:387-393 | a delivered reply is the device's answer to this command and never an earlier one; zeros if there is none |
| Driver.DeviceAfter | sim/src/generic_imu_hardware_model.cpp:356-358 | the counter advances exactly for known commands that reach an enabled device |
| Driver.HousekeepingRoundTrip | fsw/shared/generic_imu_device.c:84-116 | counter and status survive reply, frame, read and decode for all values |
| Driver.AxisRoundTrip | fsw/shared/generic_imu_device.c:121-164 | for every axis request that reaches a device which is enabled then, and is answered, the decoded values are within the tolerance of the readings |
| Driver.DisabledReadsAsSuccess | sim/src/generic_imu_hardware_model.cpp:247-251 | a disabled device's empty answer is a delivered frame of zeros |
| CfsApp.AppData.constructor | fsw/cfs/src/generic_imu_app.c:165-176 | all counters zero, disabled, device fields zero |
| CfsApp.AppData.MainLoop | fsw/cfs/src/generic_imu_app.c:43-78 | the loop serves every arrival up to the first exit request or pipe failure, none after a failed start, and ends in the state and record of that run |
| CfsApp.AppData.Finish | fsw/cfs/src/generic_imu_app.c:80-84 | disable, then one more close |
| CfsApp.AppData.ProcessCommandPacket | fsw/cfs/src/generic_imu_app.c:195-226 | one message advances application, bus and record by exactly one system step |
| CfsApp.AppData.ProcessGroundCommand | fsw/cfs/src/generic_imu_app.c:231-316 | command codes 0 to 3 of the right length act; all else is one command error |
| CfsApp.AppData.VerifyCmdLength | fsw/cfs/src/generic_imu_app.c:522-545 | a wrong length is rejected and counted once |
| CfsApp.AppData.ResetCounters | fsw/cfs/src/generic_imu_app.c:419-426 | the four counters become zero and nothing else changes |
| CfsApp.AppData.Enable | fsw/cfs/src/generic_imu_app.c:431-478 | counts the command before the init, and enables exactly if the init succeeds |
| CfsApp.AppData.Disable | fsw/cfs/src/generic_imu_app.c:483-517 | counts the command before the close, and disables exactly if the close succeeds |
| CfsApp.AppData.ProcessTelemetryRequest | fsw/cfs/src/generic_imu_app.c:321-353 | request codes 0 and 1 report; all else is one command error |
| CfsApp.AppData.ReportHousekeeping | fsw/cfs/src/generic_imu_app.c:358-384 | asks the device only if enabled, and publishes in every case |
| CfsApp.AppData.ReportDeviceTelemetry | fsw/cfs/src/generic_imu_app.c:389-414 | asks the device only if enabled, and publishes only a complete request |
| CfsLaws.DispatchByNumber | fsw/cfs/src/generic_imu_app.c:195-353 | in numbers: what each message identifier, code and length does to the counters, the flag and the device, and that all else is one command error |
| CfsLaws.BusDiscipline | fsw/cfs/src/generic_imu_app.c:363-377 | in every run inits happen only while closed, closes and transactions only while open, and the flag is the balance of successful inits and closes |
| CfsLaws.InitsAndClosesAlternate | fsw/cfs/src/generic_imu_app.c:431-517 | successful inits and closes strictly alternate starting with an init, and every transaction lies between an init and the next close |
| CfsLaws.ShutdownDiscipline | fsw/cfs/src/generic_imu_app.c:80-84 | the tail closes once if enabled and once more in any case, and keeps the discipline exactly if the device was enabled and its first close failed |
| CfsLaws.PublishedDataIsFresh | fsw/cfs/src/generic_imu_app.c:389-414 | each published data packet decodes the three transactions 2, 3, 4 just before it |
| CfsLaws.HousekeepingSnapshot | fsw/cfs/src/generic_imu_app.c:358-384 | memory and every published packet hold the decode of the most recent success of each kind, or zeros, across failures, disables and resets |
| CfsLaws.OnePacketPerRequest | fsw/cfs/src/generic_imu_app.c:380-382 | exactly the valid housekeeping requests publish, one packet each, with the counters of that moment |
| CfsLaws.DeviceCountersConserved | fsw/cfs/src/generic_imu_app.c:358-517 | the device counters are the successes and failures among the operations on record since the last accepted reset, modulo 256, and their sum is the attempts |
| CfsLaws.CommandCountersConserved | fsw/cfs/src/generic_imu_app.c:195-353 | the command counters are the accepted and the other counted messages since the last accepted reset, modulo 256, and their sum is the messages that were not valid telemetry requests |
| CfsLaws.EveryPacketReports | fsw/cfs/src/generic_imu_app.c:358-384 | every packet in the record of every run says, field by field, what the inputs and the record before it amount to: accepted and rejected commands, successes and failures of the device, the balance of inits and closes, and the latest reply |
| CfsLaws.GroundRecoversCount | gsw/GENERIC_IMU/procedures/tests/generic_imu_app_test.py:54-70 | between two packets without a reset the wrapped difference of the sums is the number of counted messages, if below 256 |
| CfsLaws.PacketIsPublished | fsw/cfs/src/generic_imu_app.c:380-382 | the packets of that law are the ones published |
| EndToEnd.SystemProjects | fsw/cfs/src/generic_imu_app.c:195-226 | a run with driver and device is a run of the application, with the same record |
| EndToEnd.SystemKeepsLaws | fsw/cfs/src/generic_imu_app.c:389-414 | so bus discipline, unmixed data and true snapshots hold in every system run |
| EndToEnd.DeviceCountsAccepted | sim/src/generic_imu_hardware_model.cpp:272-367 | in every system run, with the device enabled and disabled at will, also between the transactions of one message, the 32-bit counter is the number of commands accepted since it was last disabled, and each housekeeping reply carries the number accepted strictly before it |
| EndToEnd.ReachedIsBracketed | fsw/cfs/src/generic_imu_app.c:358-414 | HK successes + 3 x data successes <= commands that reach the device <= HK attempts + 3 x data attempts, with equality if nothing is lost |
| EndToEnd.CounterIsBracketed | sim/src/generic_imu_hardware_model.cpp:356-358 | while the device stays enabled its counter advances by that number, modulo 2^32, from any start |
| EndToEnd.PublishesExactly | fsw/cfs/src/generic_imu_app.c:389-414 | a data request of any length publishes exactly if the application is enabled and all three replies arrive |
| EndToEnd.PublishedReadings | fsw/cfs/src/generic_imu_app.c:389-414 | each published axis is within the tolerance of its reading exactly if the device was enabled when asked for it, or if the reading is minus full scale |
| EndToEnd.AxisExactly | fsw/shared/generic_imu_device.c:121-164 | the same for one axis request, in any state of the device |
| EndToEnd.FaithfulExactly | sim/src/generic_imu_hardware_model.cpp:247-251 | if and only if: a device that is not switched during the request has its readings published exactly if it is enabled, or if all are minus full scale |
| EndToEnd.TornPacket | sim/src/generic_imu_hardware_model.cpp:103-109 | disabling the device after the X axis publishes a true X with Y and Z at minus full scale |
| EndToEnd.DisabledReadsFullScale | sim/src/generic_imu_hardware_model.cpp:247-251 | with the device disabled throughout the request, -10 g and -400 deg/s are published on every axis |
| Ground.Station.GetHk | gsw/GENERIC_IMU/lib/generic_imu_lib.py:18-22 | a poll brings the ground the packet of the application |
| Ground.Station.GetData | gsw/GENERIC_IMU/lib/generic_imu_lib.py:24-27 | succeeds exactly if a data packet is published |
| Ground.Station.GenericImuCmd | gsw/GENERIC_IMU/lib/generic_imu_lib.py:29-49 | sends up to the first hit of the wrapped target and at most three times; its check is the comparison of the last poll with the target |
| Ground.Station.EnableGenericImu | gsw/GENERIC_IMU/lib/generic_imu_lib.py:51-55 | the command check and the flag on the ground |
| Ground.Station.DisableGenericImu | gsw/GENERIC_IMU/lib/generic_imu_lib.py:57-61 | the command check and the flag on the ground |
| Ground.Station.SafeGenericImu | gsw/GENERIC_IMU/lib/generic_imu_lib.py:63-67 | success leaves the application disabled, whatever the ground knew before |
| Ground.Station.ConfirmData | gsw/GENERIC_IMU/lib/generic_imu_lib.py:69-102 | one data check, which stops at the first comparison that fails |
| Ground.Station.ConfirmDataLoop | gsw/GENERIC_IMU/lib/generic_imu_lib.py:104-106 | the checks in turn, up to the first that fails |
| Ground.AtMostOnce | gsw/GENERIC_IMU/lib/generic_imu_lib.py:29-49 | over any pattern of drops and across 255 to 0: at most three sends of NOOP, ENABLE or DISABLE, none after one was accepted, fewer than three only if one was; the check passes exactly if one was accepted or the counter started at 255 |
| Ground.NoResendExactly | gsw/GENERIC_IMU/lib/generic_imu_lib.py:29-49 | if and only if: over all patterns of drops no NOOP is sent again after it was accepted, exactly if the ground knows the application's counter |
| Ground.OneAheadPasses | gsw/GENERIC_IMU/lib/generic_imu_lib.py:37-49 | with the application one count ahead, a dropped command passes after one send |
| Ground.CheckIsVacuousAt255 | gsw/GENERIC_IMU/lib/generic_imu_lib.py:49 | at 255 the check passes although all three commands were dropped |
| Ground.ResetIsNotConfirmed | gsw/GENERIC_IMU/lib/generic_imu_lib.py:29-49 | a reset sent this way is confirmed exactly if the counter was at 255, and otherwise sent three times |
| Ground.SwitchExactly | gsw/GENERIC_IMU/lib/generic_imu_lib.py:51-61 | enable and disable succeed exactly if the first command to arrive does its work in the hardware, or if there was nothing to do and the counter was at 255 |
| Ground.SafeExactly | gsw/GENERIC_IMU/lib/generic_imu_lib.py:63-67 | safing succeeds exactly if the application is disabled or the first disable to arrive closes the bus |
| Ground.ConfirmExactly | gsw/GENERIC_IMU/lib/generic_imu_lib.py:69-102 | whatever fails, a check passes exactly if the application is enabled, the four transactions are delivered, the counter starts below 254, and each of the six published values is within 0.5 g or 0.2 deg/s of the truth |
| Ground.ConfirmLeaves | gsw/GENERIC_IMU/lib/generic_imu_lib.py:69-102 | whatever fails and whatever the ground knew, it polls and counts a second operation only after six values near the truth, and passes exactly on the two counters it then sees |
| Ground.DisabledFailsCheck | gsw/GENERIC_IMU/lib/generic_imu_lib.py:76-98 | a device that stays disabled fails the check if any one truth value is not near minus full scale |
| Ground.CleanConfirm | gsw/GENERIC_IMU/lib/generic_imu_lib.py:69-102 | one check without faults counts two operations and four device commands, matches the truth data, and passes exactly if the counter starts below 254 |
| Ground.CleanLoop | gsw/GENERIC_IMU/lib/generic_imu_lib.py:104-106 | n checks without faults advance DeviceCount by 2n and the device counter by 4n and leave DeviceErrorCount; they pass exactly if none starts at 254 or 255, and the first that does is counted and ends them |
| Ground.FiveConfirms | gsw/GENERIC_IMU/lib/generic_imu_lib.py:104-106 | the script's five checks pass exactly if the counter starts at 245 or below |
| Ground.Station.PrepareAst | gsw/GENERIC_IMU/lib/generic_imu_lib.py:111-119 | safe, enable and five data checks, up to the first that fails |
| Ground.PrepareExactly | gsw/GENERIC_IMU/lib/generic_imu_lib.py:111-119 | with working hardware and any drops: preparing succeeds exactly if a command of each kind needed arrives and the counter, moved by the polls and switches on the way, is then at 245 or below |
| Ground.PrepareWithoutDrops | gsw/GENERIC_IMU/lib/generic_imu_lib.py:111-119 | without drops it fails exactly if DeviceCount starts at 242 to 251 with the application enabled, or at 244 to 253 with it disabled |
| FPrime.ImuComponent.constructor | fsw/fprime/imu_src/Generic_imu.cpp:19-66 | the component starts enabled whether its init succeeds or not |
| FPrime.ImuComponent.RequestHousekeepingHandler | fsw/fprime/imu_src/Generic_imu.cpp:82-115 | counts the command, asks the device only if enabled, responds once |
| FPrime.ImuComponent.UpdateData | fsw/fprime/imu_src/Generic_imu.cpp:117-129 | a tick asks the device whether enabled or not, and sends out only a complete request |
| FPrime.ImuComponent.UpdateTlm | fsw/fprime/imu_src/Generic_imu.cpp:131-146 | a tick asks for housekeeping and counts nothing |
| FPrime.ImuComponent.RequestDataHandler | fsw/fprime/imu_src/Generic_imu.cpp:149-191 | sends out the data in memory in every case, counts no device operation |
| FPrime.ImuComponent.NoopHandler | fsw/fprime/imu_src/Generic_imu.cpp:193-206 | sends a NOOP to the device and counts the command |
| FPrime.ImuComponent.ResetCountersHandler | fsw/fprime/imu_src/Generic_imu.cpp:208-223 | clears the four counters and nothing else |
| FPrime.ImuComponent.EnableHandler | fsw/fprime/imu_src/Generic_imu.cpp:225-275 | counts the command before the init, and enables exactly if the init succeeds |
| FPrime.ImuComponent.DisableHandler | fsw/fprime/imu_src/Generic_imu.cpp:277-313 | counts the command before the close, and disables exactly if the close succeeds |
| FPrime.CountersConserved | fsw/fprime/imu_src/Generic_imu.cpp:82-129 | after any run the sums of the counters are the commands, and the counted device operations, since the last reset, modulo 256; the flag is the last successful switch; every command got exactly one response |
| FPrime.EachCounterExactly | fsw/fprime/imu_src/Generic_imu.cpp:82-313 | after any run each counter by itself: commands carried out, commands turned down, device operations that worked, and those that failed, since the last reset, modulo 256 |
| FPrime.ComponentRemembers | fsw/fprime/imu_src/Generic_imu.cpp:117-191 | memory holds the latest successful reply of each kind |
| FPrime.StepStores | fsw/fprime/imu_src/Generic_imu.cpp:117-191 | what is sent out is what is in memory after the call |
| FPrime.OutputUnmixedExactly | fsw/fprime/imu_src/Generic_imu.cpp:117-191 | every output of every run holds each axis from the last request that delivered it; these are one request exactly if nothing was delivered yet, or the last request that delivered X delivered Z as well |
| FPrime.OutputFreshExactly | fsw/fprime/imu_src/Generic_imu.cpp:149-191 | an output is the data of its own call's request exactly if that call is a tick, or an enabled command that lost nothing |
| FPrime.MixedOutput | fsw/fprime/imu_src/Generic_imu.cpp:149-191 | a data command that loses the Y axis sends out new X with old Y and Z |
| FPrime.UsesBusWhileDisabled | fsw/fprime/imu_src/Generic_imu.cpp:117-206 | while disabled, the bus is used exactly by NOOP and the two ticks |
| FPrime.DisciplineExactly | fsw/fprime/imu_src/Generic_imu.cpp:19-66 | over every run, from the constructor on: after a successful init the bus discipline holds exactly if every NOOP and tick comes while enabled; after a failed one exactly if every call is a reset or an enable |
| FPrime.ImplementationsAgree | fsw/fprime/imu_src/Generic_imu.cpp:193-313 | from related states any sequence of NOOP, RESET, ENABLE and DISABLE with equal outcomes leaves cFS application and F' component with equal counters and flags, and makes both try the same inits and closes |
| FPrime.ImuComponent.Serve | fsw/fprime/imu_src/Generic_imu.cpp:82-313 | any one handler advances component, bus and record by exactly one system step |
| FPrimeSystem.ComponentProjects | fsw/fprime/imu_src/Generic_imu.cpp:82-313 | a run with driver and device is a run of the component, with the same record |
| FPrimeSystem.ComponentCountsAccepted | sim/src/generic_imu_hardware_model.cpp:272-367 | in every run of the component, with the device enabled and disabled at will, the 32-bit counter is the number of commands accepted since it was last disabled, and each housekeeping reply carries the number accepted strictly before it |
| FPrimeSystem.ComponentAdvances | sim/src/generic_imu_hardware_model.cpp:356-358 | while the device stays enabled its counter advances by the transactions that reach it, modulo 2^32, from any start |
| FPrimeSystem.SentReadings | fsw/fprime/imu_src/Generic_imu.cpp:117-191 | what a complete request sends out is, axis by axis, within the tolerance of the reading exactly if the device was enabled when asked for it, or if the reading is minus full scale |

## Left out

- The CAN library, NOS Engine, cFE and F' frameworks, the 42 socket and shared memory are not part of this model; their outcomes are inputs.
- Driver.CanInfo.MasterTransaction: stands for the bus library, which is not in the repository; it writes the frame to the slave and reads sixteen bytes back.
- The thirteen interface settings that enabling writes, such as bit rate and timeouts: constants that no modelled operation reads.
- Event text, debug output, performance marks, time stamps and the printed form of a data point: output only.
- Infinities, NaNs and overflow of binary32: no reading that the encoder can convert reaches them.
- Parsing of the simulator's STATUS argument, XML configuration and connection setup: the new status word is an input.
- The default provider that counts, and its one-value constructor, which leaves the accelerations unset: provider readings are arbitrary inputs.
- The failure branches of application start-up, and construction and destruction inside the frameworks: straight-line calls.
- Which F' telemetry channels a handler writes: each repeats a field whose value is modelled.
- Sleeps and timeouts of the scripts, and other traffic between a send and its poll: the polls of a script are modelled as delivered.
- The standalone checkout shell, the Ruby copy of the library, tables and build files: user interface, duplicates and declarations.
