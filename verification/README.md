# A verified model of the door, ramp and CAN control of the vehicle

The system has a door ECU that opens and closes a door with a servo and commands a ramp over a UART, a BLE
module and a driver ECU that send it requests, and a CAN stack with a blocking and a resumable
interface. This project models the parts of that firmware that are protocols and schedulers, and proves
what they guarantee on every run. `dafny verify dfyconfig.toml` checks all of it.

Code that updates structs and buffers in place is modelled by classes whose methods do the same and are proved
against functions on values; the theorems are about those functions. Bytes and 32-bit words wrap as
they do in the firmware. What the hardware decides (received bytes, clock readings, the jam
sensor, driver replies, lost frames) is arbitrary input.

## The parts

| files | what they hold |
|---|---|
| `Bytes`, `Crc8`, `LongDivision` | words, and the CRC-8 against long division |
| `Wire` | frames, their encoder, and the byte-at-a-time parser |
| `Arq`, `ArqTiming`, `Commands` | the stop-and-wait sender and the receiver; retry and time bounds; which commands may be sent, and that they get through |
| `Link`, `LinkWindow` | both ends and two lossy channels as a step relation; the exact wrap-around window |
| `RampAdapter` | the desired / queued / in-flight register above the sender |
| `DoorServo`, `DoorEcu` | the servo slew and the door controller |
| `DoorRules`, `DoorSafety`, `DoorTiming`, `DoorBudget` | how every poll decides; what every run of the controller keeps; when the servo is where it is reported |
| `RampSystem`, `RampProgress` | controller, adapter, link and peer together: the ramp estimate is true, and pending commands are sent |
| `CanCore`, `CanBlocking`, `CanEvents` | the blocking CAN calls, as loops and without them; what a poll returns |
| `CanOperation`, `CanEquivalence`, `CanAnyDriver` | the resumable operations, and that they are the blocking calls |
| `CanTime` | the timeouts of both in true time |
| `CanRing`, `CanStarvation` | the round-robin of the executor as a queue; waiting, fairness and starvation |
| `CanExecutor`, `CanWaiting`, `CanDrain` | the executor in place, the waiting bound on its runs, bounded drains |
| `CanComposition` | an operation in the executor is a blocking call |
| `CanService` | the operation pool above the executor |
| `CanRegistry` | the node and module registries of the TC3xx driver |

The ramp link and the BLE link run the same code with different checks of the command byte, so `Arq` has one model
with the kind of the link as a parameter. The CAN core is the same file in the driver ECU and in
the door ECU and is modelled once.

## Where the code does less than one would expect

- Stepped and blocking polls differ when the driver itself answers an event query with "no data": the blocking call
  (src/driver-ecu/can/core/can_core.c:503-585) returns it at once, the operation
  (src/driver-ecu/can/core/can_operation.c:294-311) takes it for an empty poll and goes on.
  `CanEquivalence.AgreeExactlyWhen` and `DriverAgreesExactlyWhen` give the exact condition, and
  `CanAnyDriver.OperationIsCall` says what the operation does on every driver. The TC3xx
  binding never gives that answer, so it does not occur on this hardware.
- A submission of a poll with an invalid interest to a core that is not started is refused as busy, the blocking
  call as invalid; an infinite timeout without a clock is refused only by the blocking call.
- A frame can embed a second start and then fails to bring the parser between frames. No command or acknowledgement
  of either link does (`Arq.SendableIsAcceptable`), but a valid frame of the format may.
- The servo is where the door is reported on every run with polls 2 ms apart, on any tick, but not on every run with polls
  much further apart: `DoorBudget.ReachedExactlyWhen` gives the exact bound, which is about 2.01 ms. The comment
  in src/door-ecu/TC375(automatic_door_ecu)/door_control/Door_Control.h:19 says 2000 ms; the macro
  computes 1700 ms, and the model follows the macro.
- The acknowledgement of a command is only a proof of its delivery while fewer than 256 commands are started during the
  life of a frame; with one more it is not (`LinkWindow.WindowIsExact`).
- An operation that has run in this round can be starved by submissions, except when all slots are filled and the round
  ends with the next turn; one that has not run in this round cannot (`CanStarvation.StarvableExactlyWhen`).
- Releasing an operation that is still in the executor breaks the agreement of pool and executor
  (`CanService.Service.ReleaseOperation`).

## Model

| member | source | states |
|---|---|---|
| Crc8.Compute | src/door-ecu/TC375(automatic_door_ecu)/slope_uart/slope_uart.c:42-66 | the nested loop returns the checksum of the first `len` bytes |
| Crc8.RegisterIsChecksum | src/door-ecu/TC375(automatic_door_ecu)/slope_uart/slope_uart.c:42-66 | the shifting register is the checksum over GF(2) polynomials, for data of any length |
| LongDivision.ChecksumIsRemainder | src/door-ecu/TC375(automatic_door_ecu)/slope_uart/slope_uart.c:42-66 | that checksum is the remainder of the data times x^8 in schoolbook long division by x^8 + x^2 + x + 1 |
| Crc8.ChecksumLinear | src/door-ecu/TC375(automatic_door_ecu)/slope_uart/slope_uart.c:42-66 | the checksum of the exclusive or of two inputs of one length is the exclusive or of their checksums |
| Crc8.ResidueZero | src/door-ecu/TC375(automatic_door_ecu)/slope_uart/slope_uart.c:42-66 | data followed by a byte has checksum 0 if and only if the byte is the checksum of the data |
| Crc8.ResidueOfBytes | src/door-ecu/TC375(automatic_door_ecu)/slope_uart/slope_uart.c:42-66 | the byte the firmware computes is the one byte that leaves checksum 0 |
| Crc8.ChecksumKeepsParity | src/door-ecu/TC375(automatic_door_ecu)/slope_uart/slope_uart.c:42-66 | data and checksum have the same bit parity |
| Crc8.UndetectedErrors | src/door-ecu/TC375(automatic_door_ecu)/slope_uart/slope_uart.c:154-177 | an error pattern passes the check if and only if its part on the checksum is the checksum of its part on the data |
| Crc8.OddCorruptionDetected | src/door-ecu/TC375(automatic_door_ecu)/slope_uart/slope_uart.c:154-177 | no error of odd bit weight over data and checksum passes the check |
| Wire.EncodeFields | src/driver-ecu/ble_uart/ble_uart.c:80-112 | the six bytes of a frame, filled into a buffer |
| Wire.EncodeData | src/door-ecu/TC375(automatic_door_ecu)/slope_uart/slope_uart.c:68-83 | a data frame |
| Wire.EncodeAck | src/door-ecu/TC375(automatic_door_ecu)/slope_uart/slope_uart.c:85-100 | an acknowledgement: command byte 0 and the acknowledged number |
| Wire.FrameLayout | src/door-ecu/TC375(automatic_door_ecu)/slope_uart/slope_uart.c:68-100 | a frame is two start bytes and four bytes of checksum 0, of which the first three are its fields |
| Wire.Parser.FeedByte | src/door-ecu/TC375(automatic_door_ecu)/slope_uart/slope_uart.c:110-183 | one byte fed to the parser fields in place, with its report |
| Wire.DecodeEncoded | src/door-ecu/TC375(automatic_door_ecu)/slope_uart/slope_uart.c:68-183 | a parser between frames decodes the encoding of any data or acknowledgement frame to that frame, and reports nothing else |
| Wire.OneFrameResynchronises | src/door-ecu/TC375(automatic_door_ecu)/slope_uart/slope_uart.c:110-183 | in whatever state the parser is, a well-formed frame causes exactly one report and, if it embeds no second start, leaves the parser between frames |
| Wire.ResynchronisesExactlyWhen | src/door-ecu/TC375(automatic_door_ecu)/slope_uart/slope_uart.c:110-183 | a frame brings the parser between frames from every state if and only if it embeds no second start |
| Wire.Resynchronisation | src/door-ecu/TC375(automatic_door_ecu)/slope_uart/slope_uart.c:110-183 | after any garbage and a first frame that embeds no second start, all further frames are decoded in order and nothing else is reported |
| Wire.StreamRoundTrip | src/driver-ecu/ble_uart/ble_uart.c:80-195 | frames separated by any bytes other than 0xA5 are decoded to exactly those frames, without errors |
| Wire.DecodedMeansEncoded | src/bluetooth-module/ble_uart.c:122-195 | whatever the parser decodes, its encoding is what the last six bytes were |
| Wire.DecodedExactlyWhen | src/door-ecu/TC375(automatic_door_ecu)/slope_uart/slope_uart.c:154-177 | behind the start bytes, exactly the four bytes with checksum 0 and a known type are decoded, and all others rejected |
| Wire.OddCorruptionRejected | src/door-ecu/TC375(automatic_door_ecu)/slope_uart/slope_uart.c:154-177 | a frame hit by an odd number of bit errors after its start bytes is rejected |
| Arq.SendableIsAcceptable | src/bluetooth-module/ble_uart.c:28-52 | what one end of either link may send, the other end accepts; neither these frames nor their acknowledgements embed a start |
| Arq.Sender.constructor | src/door-ecu/TC375(automatic_door_ecu)/slope_uart/slope_uart.c:185-194 | an idle sender; 0 stands for the default timeout and retry limit |
| Arq.Sender.IsBusy | src/door-ecu/TC375(automatic_door_ecu)/slope_uart/slope_uart.c:196-199 | whether an acknowledgement is awaited |
| Arq.Sender.Start | src/door-ecu/TC375(automatic_door_ecu)/slope_uart/slope_uart.c:201-232 | refused while busy or for an invalid command; otherwise the frame with the next number is kept and copied out |
| Arq.Sender.OnFrame | src/door-ecu/TC375(automatic_door_ecu)/slope_uart/slope_uart.c:234-256 | completes exactly on an acknowledgement with the pending number |
| Arq.Sender.Poll | src/door-ecu/TC375(automatic_door_ecu)/slope_uart/slope_uart.c:258-287 | idle, resend of the kept bytes, or give-up, by the 32-bit clock difference and the retry count |
| Arq.Receiver.constructor | src/driver-ecu/ble_uart/ble_uart.c:301-305 | nothing is remembered |
| Arq.Receiver.OnFrame | src/door-ecu/TC375(automatic_door_ecu)/slope_uart/slope_uart.c:295-327 | every valid data frame is acknowledged; it is delivered unless its number is the remembered one |
| Commands.RampCommands | src/door-ecu/TC375(automatic_door_ecu)/slope_uart/slope_uart.c:13-40 | the command made of a two-bit ramp request may be sent, and is accepted, if and only if the request is at most close |
| Commands.BleCommands | src/bluetooth-module/ble_uart.c:28-52 | the command made of a door and a ramp request may be sent on the BLE link if and only if both are at most open, and is accepted if and only if both are at most close |
| Commands.OnlyMadeCommands | src/bluetooth-module/ble_uart.c:28-52 | no other byte passes at either end of either link |
| Commands.RequestsReadBack | src/driver-ecu/ble_uart/ble_uart.c:14-27 | the masks and shifts of the receiving end give back the requests a command was made of |
| Commands.CommandGetsThrough | src/door-ecu/TC375(automatic_door_ecu)/slope_uart/slope_uart.c:201-327 | an idle sender asked for what may be asked starts; its bytes make a fresh receiver deliver and acknowledge that command, and the bytes of the acknowledgement complete it |
| Commands.StartedIsDelivered | src/door-ecu/TC375(automatic_door_ecu)/slope_uart/slope_uart.c:201-327 | on a run a command started on an idle link is the next delivery, if fewer than 256 were started since the last one |
| Commands.FrameTypesAreKeptApart | src/door-ecu/TC375(automatic_door_ecu)/slope_uart/slope_uart.c:234-327 | data completes nothing, and an acknowledgement is neither delivered nor acknowledged |
| ArqTiming.StartBegins | src/door-ecu/TC375(automatic_door_ecu)/slope_uart/slope_uart.c:185-232 | a start begins the counts of time and retries anew; 20 ms and 5 retries unless others are given |
| ArqTiming.TransmissionBound | src/door-ecu/TC375(automatic_door_ecu)/slope_uart/slope_uart.c:201-287 | a start leads to at most 1 + retry limit transmissions, all of the same bytes |
| ArqTiming.GiveUpNotEarly | src/door-ecu/TC375(automatic_door_ecu)/slope_uart/slope_uart.c:258-287 | give-up comes no earlier than (retry limit + 1) timeouts of true time after the start, for any polling and any arrivals, on a wrapping 32-bit clock |
| ArqTiming.GiveUpInTime | src/door-ecu/TC375(automatic_door_ecu)/slope_uart/slope_uart.c:258-287 | polled at most p apart, the sender no longer waits after (retry limit + 1) (timeout + p), if timeout + p is less than 2^32 |
| Link.RunKeepsInv | src/door-ecu/TC375(automatic_door_ecu)/slope_uart/slope_uart.c:201-327 | what every start, poll, delivery, acknowledgement and loss keeps about both ends and both channels |
| Link.AtMostOnceInOrder | src/door-ecu/TC375(automatic_door_ecu)/slope_uart/slope_uart.c:201-327 | on every run the delivered commands are a strictly increasing selection of the started ones; nothing is assumed about wrap-around |
| Link.HistoryGrows | src/door-ecu/TC375(automatic_door_ecu)/slope_uart/slope_uart.c:201-327 | started and delivered commands are never taken back |
| Link.AcknowledgementSound | src/door-ecu/TC375(automatic_door_ecu)/slope_uart/slope_uart.c:234-256 | if nothing in flight or remembered is 256 or more starts old, an acknowledgement that completes a command proves that this very command was delivered |
| LinkWindow.WindowIsExact | src/door-ecu/TC375(automatic_door_ecu)/slope_uart/slope_uart.c:201-256 | with a window of 257 a run exists on which a stale acknowledgement completes a command that was never delivered |
| RampAdapter.Adapter.constructor | src/door-ecu/TC375(automatic_door_ecu)/slope_uart/slope_uart_tc375_lite.c:174-227 | nothing desired, in flight or to consume |
| RampAdapter.Adapter.ProcessRx | src/door-ecu/TC375(automatic_door_ecu)/slope_uart/slope_uart_tc375_lite.c:89-118 | every received byte goes through the parser; an acknowledgement of the command in flight records the success and clears the desired command |
| RampAdapter.Adapter.PollRetry | src/door-ecu/TC375(automatic_door_ecu)/slope_uart/slope_uart_tc375_lite.c:129-147 | resends are written; a give-up forgets the last queued command |
| RampAdapter.Adapter.TrySendDesired | src/door-ecu/TC375(automatic_door_ecu)/slope_uart/slope_uart_tc375_lite.c:149-172 | an idle sender starts the desired command if it is not the last queued one |
| RampAdapter.Adapter.TxPoll | src/door-ecu/TC375(automatic_door_ecu)/slope_uart/slope_uart_tc375_lite.c:229-239 | reading, retrying and sending in this order, with everything written to the UART |
| RampAdapter.Adapter.RequestOpen | src/door-ecu/TC375(automatic_door_ecu)/slope_uart/slope_uart_tc375_lite.c:246-249 | open becomes desired |
| RampAdapter.Adapter.RequestClose | src/door-ecu/TC375(automatic_door_ecu)/slope_uart/slope_uart_tc375_lite.c:251-254 | close becomes desired |
| RampAdapter.Adapter.ConsumeTxSuccess | src/door-ecu/TC375(automatic_door_ecu)/slope_uart/slope_uart_tc375_lite.c:261-275 | a success is handed out once |
| RampAdapter.OnBytesIsOnReports | src/door-ecu/TC375(automatic_door_ecu)/slope_uart/slope_uart_tc375_lite.c:89-118 | reading bytes amounts to handling the frames the parser reports, in order |
| DoorServo.Servo.constructor | src/door-ecu/TC375(automatic_door_ecu)/door_control/Door_Control.c:144-158 | the duty and its target are at closed |
| DoorServo.Servo.Update | src/door-ecu/TC375(automatic_door_ecu)/door_control/Door_Control.c:170-206 | one step of at most a tenth of a percent towards the target, at most once per interval |
| DoorServo.StepCloses | src/door-ecu/TC375(automatic_door_ecu)/door_control/Door_Control.c:182-206 | a step takes exactly one tenth off the distance to the target, and nothing else changes it |
| DoorEcu.Controller.constructor | src/door-ecu/TC375(automatic_door_ecu)/door_ecu_control/door_ecu_control.c:293-319 | no request, nothing moving |
| DoorEcu.Controller.OnBleSlopeAutoRequest | src/door-ecu/TC375(automatic_door_ecu)/door_ecu_control/door_ecu_control.c:676-688 | an automatic ramp request replaces the opposite one |
| DoorEcu.Controller.OnDriverCanDoorManualRequest | src/door-ecu/TC375(automatic_door_ecu)/door_ecu_control/door_ecu_control.c:695-705 | a manual door request is left |
| DoorEcu.Controller.OnDriverCanSlopeRequest | src/door-ecu/TC375(automatic_door_ecu)/door_ecu_control/door_ecu_control.c:707-734 | a manual or automatic ramp request is left; the opposite one stays |
| DoorEcu.Controller.UpdateSensors | src/door-ecu/TC375(automatic_door_ecu)/door_ecu_control/door_ecu_control.c:349-398 | the jam flag is sampled and the timed estimate of the door moves on |
| DoorEcu.Controller.HandleJamDuringClosing | src/door-ecu/TC375(automatic_door_ecu)/door_ecu_control/door_ecu_control.c:459-486 | a jam while closing cancels everything that closes and opens the door |
| DoorEcu.Controller.HandleSlopeTxSuccess | src/door-ecu/TC375(automatic_door_ecu)/door_ecu_control/door_ecu_control.c:400-430 | an acknowledged command sets the ramp estimate and ends the pending command if it is the same |
| DoorEcu.Controller.IssuePendingSlopeCommand | src/door-ecu/TC375(automatic_door_ecu)/door_ecu_control/door_ecu_control.c:488-508 | the pending ramp command goes to an idle adapter |
| DoorEcu.Controller.CancelOpenSideRequests | src/door-ecu/TC375(automatic_door_ecu)/door_ecu_control/door_ecu_control.c:321-331 | everything that opens is withdrawn |
| DoorEcu.Controller.ApplyDoorOpen | src/door-ecu/TC375(automatic_door_ecu)/door_ecu_control/door_ecu_control.c:333-339 | the servo is sent to open and the movement timed |
| DoorEcu.Controller.ApplyDoorClose | src/door-ecu/TC375(automatic_door_ecu)/door_ecu_control/door_ecu_control.c:341-347 | the servo is sent to closed and the movement timed |
| DoorEcu.Controller.RunPolicy | src/door-ecu/TC375(automatic_door_ecu)/door_ecu_control/door_ecu_control.c:528-629 | the rules in their order of priority |
| DoorEcu.Controller.Poll | src/door-ecu/TC375(automatic_door_ecu)/door_ecu_control/door_ecu_control.c:655-674 | one poll: sensors, jam, ramp adapter, success, policy, servo, issue |
| DoorSafety.AlwaysConsistent | src/door-ecu/TC375(automatic_door_ecu)/door_ecu_control/door_ecu_control.c:333-391 | after every poll of every run motion, last actuation, door estimate and servo target say the same |
| DoorSafety.AutoOpenNeedsTheDoor | src/door-ecu/TC375(automatic_door_ecu)/door_ecu_control/door_ecu_control.c:585-604 | at the decision of every poll of every run the door state is consistent; an automatic ramp open is released, when no rule of higher priority applies, if and only if the door is estimated open, opening, or about to be opened; and a poll that makes a ramp open pending without a manual request finds the door not closed or opens it, and leaves it not closed |
| DoorSafety.JamStopsClosing | src/door-ecu/TC375(automatic_door_ecu)/door_ecu_control/door_ecu_control.c:471-486 | after any poll of any run that sampled a jam the door is not closing, no door close is pending and the last actuation is not a close |
| DoorSafety.JamNeverCloses | src/door-ecu/TC375(automatic_door_ecu)/door_ecu_control/door_ecu_control.c:655-674 | while a jam lasts the servo target never goes from open to closed |
| DoorSafety.AlwaysAdapterInv | src/door-ecu/TC375(automatic_door_ecu)/slope_uart/slope_uart_tc375_lite.c:89-172 | between polls, while a command is in flight it is the desired one and the last queued one |
| DoorSafety.StowingEndsWithAcknowledgement | src/door-ecu/TC375(automatic_door_ecu)/door_ecu_control/door_ecu_control.c:400-430 | an undisturbed pending ramp close ends only in a poll that learns that a close was acknowledged |
| DoorSafety.ClosingTheDoorStowsTheRamp | src/door-ecu/TC375(automatic_door_ecu)/door_ecu_control/door_ecu_control.c:528-551 | from the poll that closes the door on, a ramp close stays pending, even if an open in flight is acknowledged, until the ramp is estimated stowed with no open under way; only a jam cancel or a newer ramp open ends this |
| DoorRules.RequestsLeft | src/door-ecu/TC375(automatic_door_ecu)/door_ecu_control/door_ecu_control.c:676-734 | after any calls, which requests are left: every manual one that was made, and each automatic one if BLE has not asked for its opposite since |
| DoorRules.EstimateInTime | src/door-ecu/TC375(automatic_door_ecu)/door_ecu_control/door_ecu_control.c:349-391 | in true time: moving for 1700 ms after the door was sent, then where it was sent |
| DoorRules.EveryPollDecides | src/door-ecu/TC375(automatic_door_ecu)/door_ecu_control/door_ecu_control.c:528-629 | at the decision of every poll of every run: where the door is sent, which ramp command is pending afterwards, and which requests are left, for every combination of requests |
| DoorRules.DoorHalfRule | src/door-ecu/TC375(automatic_door_ecu)/door_ecu_control/door_ecu_control.c:459-486 | a jam on a door that closes or is asked to close withdraws everything that closes and sends the door open; otherwise nothing is changed |
| DoorRules.JamLeavesNothingClosing | src/door-ecu/TC375(automatic_door_ecu)/door_ecu_control/door_ecu_control.c:471-486 | after a poll of any run in which the jam handler acted, no ramp close is pending, no close of any kind is requested, and the door is sent open |
| DoorRules.RampHalfRule | src/door-ecu/TC375(automatic_door_ecu)/door_ecu_control/door_ecu_control.c:400-430 | on every run a success reports the command that was in flight; the ramp estimate follows it, and the same pending command has been done |
| RampProgress.PendingIsSent | src/door-ecu/TC375(automatic_door_ecu)/door_ecu_control/door_ecu_control.c:488-508 | on every run within the window of 256 commands: whenever the ramp sender is idle some time after the first poll, the next poll writes the frame of the pending command, open or close, records it as started and waits for it; and writes nothing if none is pending |
| RampProgress.InFlightUntilDone | src/door-ecu/TC375(automatic_door_ecu)/slope_uart/slope_uart_tc375_lite.c:89-172 | within the same window, a command in flight stays in flight through losses, resends and give-ups until it has been delivered and the ramp estimate says so |
| RampProgress.FirstPoll | src/door-ecu/TC375(automatic_door_ecu)/slope_uart/slope_uart_tc375_lite.c:174-227 | at the start nothing is requested or in flight, and the first poll sends the command 0 |
| DoorTiming.ReportedPositionReached | src/door-ecu/TC375(automatic_door_ecu)/door_ecu_control/door_ecu_control.c:349-391 | if polls are frequent enough, which polls 2 ms apart are, a door reported open or closed has the matching duty, after every poll of every run with any reversals |
| DoorTiming.PollBudget | src/door-ecu/TC375(automatic_door_ecu)/door_control/Door_Control.h:14-22 | frequent enough means that 99 gaps fit into 199 ms and 100 ticks; polls 2 ms apart are, whatever the tick |
| DoorBudget.ReachedExactlyWhen | src/door-ecu/TC375(automatic_door_ecu)/door_ecu_control/door_ecu_control.c:349-391 | the door is where it is reported after every poll of every run with polls at most a gap apart, if and only if 99 gaps fit into 199 ms and 100 ticks |
| DoorBudget.SlowestRun | src/door-ecu/TC375(automatic_door_ecu)/door_control/Door_Control.c:170-206 | with polls any further apart there is a run after which the door is reported open before the servo is there |
| DoorTiming.NotReadyNeverMoves | src/door-ecu/TC375(automatic_door_ecu)/door_control/Door_Control.c:170-178 | without a working PWM output the duty never changes |
| DoorBudget.NotReadyIsMisreported | src/door-ecu/TC375(automatic_door_ecu)/door_ecu_control/door_ecu_control.c:349-391 | and there is a run after which the door is reported open with the duty at closed |
| RampSystem.EstimateIsTrue | src/door-ecu/TC375(automatic_door_ecu)/door_ecu_control/door_ecu_control.c:400-430 | on every run of controller, adapter, lossy link and peer, with polls that may read any part of a frame, whenever the ramp sender is idle the ramp estimate is the last open or close the peer delivered; while it is busy they differ by at most the command in flight |
| RampSystem.StowedIsClosed | src/door-ecu/TC375(automatic_door_ecu)/door_ecu_control/door_ecu_control.c:528-551 | a ramp held for stowed was last told to close, or never to open |
| RampSystem.WrittenIsSent | src/door-ecu/TC375(automatic_door_ecu)/slope_uart/slope_uart_tc375_lite.c:83-172 | the frames a poll adds to the channel are the bytes the adapter writes |
| CanCore.Core.Send | src/driver-ecu/can/core/can_core.c:206-241 | one attempt to send, counted by its outcome |
| CanCore.Core.Receive | src/driver-ecu/can/core/can_core.c:243-278 | one attempt to receive, counted by its outcome |
| CanCore.Core.QueryEvents | src/driver-ecu/can/core/can_core.c:477-501 | one query of the driver, or unsupported |
| CanCore.Core.SendTimeout | src/driver-ecu/can/core/can_core.c:330-386 | the blocking send, for zero, finite and infinite timeouts |
| CanCore.Core.ReceiveTimeout | src/driver-ecu/can/core/can_core.c:388-445 | the blocking receive |
| CanCore.Core.Poll | src/driver-ecu/can/core/can_core.c:503-585 | the blocking poll |
| CanBlocking.CallGoesOn | src/driver-ecu/can/core/can_core.c:330-445 | while attempts are turned down in time the call goes on, has taken exactly one reply and at most one clock reading for each, and has counted each as a call and a refusal |
| CanBlocking.FirstDecides | src/driver-ecu/can/core/can_core.c:330-445 | the first attempt that is not turned down in time decides: its reply, or busy or no data without timeout, or timed out; together with the counters, readings and last status the call leaves |
| CanBlocking.ReturnsExactlyWhen | src/driver-ecu/can/core/can_core.c:503-585 | a call has returned after n rounds if and only if one of its first n attempts is not turned down in time |
| CanEvents.PollReturnsEvents | src/driver-ecu/can/core/can_core.c:503-585 | a poll returns with OK only if the last reply has an event of interest and none before had one, and then has exactly the events set that are set in both; with any other status it has none |
| CanEvents.PollFindsEvents | src/driver-ecu/can/core/can_core.c:563-568 | the round that meets an event of interest returns it |
| CanEvents.RefusedExactlyWhen | src/driver-ecu/can/core/can_core.c:503-540 | a call is refused without asking driver or clock if and only if its interest is empty or has a bit that is no event, its core is not started, or it has a timeout and no clock; with invalid, busy or unsupported in this order |
| CanTime.StillTrying | src/driver-ecu/can/core/can_core.c:330-445 | in true time: while attempts are turned down and all readings are less than the timeout after the start, the call tries on |
| CanTime.TimesOut | src/driver-ecu/can/core/can_core.c:26-29 | the first reading at least the timeout and less than 2^32 ms after the start makes it return a timeout |
| CanTime.NotEarly | src/driver-ecu/can/core/can_core.c:330-445 | unless the driver itself replies with a timeout, a call never returns one before that much true time has passed |
| CanTime.InfiniteTriesOn | src/driver-ecu/can/core/can_core.c:330-445 | a call with the infinite timeout tries as long as it is turned down |
| CanTime.ZeroTriesOnce | src/driver-ecu/can/core/can_core.c:330-445 | a call without timeout makes one attempt, without the clock |
| CanOperation.Operation.constructor | src/driver-ecu/can/core/can_operation.c:55-65 | an idle operation |
| CanOperation.Operation.Prepare | src/driver-ecu/can/core/can_operation.c:67-121 | a send, a receive or a poll made ready |
| CanOperation.Operation.Submit | src/driver-ecu/can/core/can_operation.c:123-193 | accepted and pending, or refused with the status of the first check that fails |
| CanOperation.Operation.DeadlineExpired | src/driver-ecu/can/core/can_operation.c:26-42 | no reading without a deadline, and one reading of the clock against it otherwise |
| CanOperation.Operation.RunOnce | src/driver-ecu/can/core/can_operation.c:195-322 | one step of the resumable form |
| CanAnyDriver.OperationIsCall | src/driver-ecu/can/core/can_operation.c:195-322 | whatever driver and clock reply, an operation is, step for step, the blocking call on the driver that reports no events where this one reports no data |
| CanAnyDriver.OperationReturnsEvents | src/driver-ecu/can/core/can_operation.c:280-315 | a poll operation completes with OK only with exactly the events of interest of a reply, of which there are some |
| CanAnyDriver.AcceptedExactlyWhen | src/driver-ecu/can/core/can_operation.c:123-193 | a submission is accepted if and only if the operation was prepared for a started core, with the buffer its type needs, an interest in events only, and a clock if its timeout is finite |
| CanAnyDriver.RefusedWith | src/driver-ecu/can/core/can_operation.c:123-193 | and otherwise refused with the first of busy, invalid and unsupported that applies |
| CanAnyDriver.OnlyPendingRuns | src/driver-ecu/can/core/can_operation.c:195-214 | an operation that is not pending does not ask the driver, nor does an attempt on a core that is not started |
| CanTime.OperationTimesOut | src/driver-ecu/can/core/can_operation.c:26-42 | an operation is pending while its attempts fail before the timeout, and completes with a timeout at the first reading at least the timeout and less than 2^32 true ms after its first |
| CanTime.OperationNotEarly | src/driver-ecu/can/core/can_operation.c:195-322 | and, unless the driver itself replies with a timeout, never completes with one before that |
| CanEquivalence.SteppedIsBlocking | src/driver-ecu/can/core/can_operation.c:195-322 | run for as many steps as the blocking call makes rounds, the operation is pending or completed as the call tries or has returned, with the same status, ready events, driver calls and counters, and unless it timed out the same last status and timeout counters, for zero, finite and infinite timeouts |
| CanEquivalence.AgreeExactlyWhen | src/driver-ecu/can/core/can_core.c:503-585 | a call agrees with its operation forever if and only if it has no timeout or the driver answers none of its event queries with no data |
| CanEquivalence.DriverAgreesExactlyWhen | src/driver-ecu/can/core/can_operation.c:280-315 | all calls of a driver agree with their operations if and only if the driver never answers an event query with no data |
| CanEquivalence.RefusalsAgreeExactlyWhen | src/driver-ecu/can/core/can_operation.c:123-193 | a submission is refused as the blocking call is, except a poll with invalid interest on a core that is not started, and an infinite timeout without clock |
| CanRing.RotatedQueue | src/driver-ecu/can/core/can_executor.c:137-149 | if the operation that ran stays, the queue loses its head and gains it at the end |
| CanRing.DroppedQueue | src/driver-ecu/can/core/can_executor.c:25-54 | if it leaves, the queue loses its head |
| CanRing.JoinedQueue | src/driver-ecu/can/core/can_executor.c:68-97 | a new operation goes in before those that have run in this round |
| CanRing.WaitsAtMost | src/driver-ecu/can/core/can_executor.c:68-153 | an operation at position d of the queue is among the next d + 1 to run if it has not run in this round, whatever joins, and else among the next d + 1 + m when m operations join meanwhile |
| CanStarvation.StarvableExactlyWhen | src/driver-ecu/can/core/can_executor.c:68-153 | accepted submissions can keep an operation from running for any number of turns if and only if it has run in this round and there is a free slot or the round goes on after the next turn |
| CanStarvation.AheadIsNotStarved | src/driver-ecu/can/core/can_executor.c:99-153 | an operation that has not run in this round cannot be starved |
| CanStarvation.StarvedWithSlot | src/driver-ecu/can/core/can_executor.c:68-97 | the starving schedule with a free slot: one joins, the head leaves and joins again later |
| CanStarvation.StarvedByJoins | src/driver-ecu/can/core/can_executor.c:68-97 | the same schedule in three slots |
| CanWaiting.ExecutorWaits | src/driver-ecu/can/core/can_executor.c:68-153 | the waiting bound on every run of the executor: turns, submissions and preparations in any order |
| CanWaiting.Submit | src/driver-ecu/can/core/can_executor.c:68-97 | a submission, with its effect on the whole machine of the executor |
| CanWaiting.AcceptedIntoSlot | src/driver-ecu/can/core/can_executor.c:68-97 | a submission is accepted if and only if there is a free slot, the operation is in none, and accepts itself |
| CanWaiting.OneSlotEach | src/driver-ecu/can/core/can_executor.c:25-153 | on every run of turns, submissions and preparations no operation is in two slots, and there are never more than fit |
| CanRing.TurnsAreFair | src/driver-ecu/can/core/can_executor.c:99-153 | whatever stays, an operation still in the ring after n turns had at least one in every n0 of them, n0 being the length at the start |
| CanExecutor.Executor.constructor | src/driver-ecu/can/core/can_executor.c:56-66 | an empty executor over the given slots |
| CanExecutor.Executor.Contains | src/driver-ecu/can/core/can_executor.c:5-23 | whether an operation is in a filled slot |
| CanExecutor.Executor.RemoveAt | src/driver-ecu/can/core/can_executor.c:25-54 | the slots behind are shifted down in place and the index follows |
| CanExecutor.Executor.Submit | src/driver-ecu/can/core/can_executor.c:68-97 | refused, or accepted by the operation and appended to the slots |
| CanExecutor.Executor.RunOnce | src/driver-ecu/can/core/can_executor.c:99-153 | the head of the queue runs once, and stays in rotation exactly when it is still pending; no other operation or core changes |
| CanExecutor.OnlyPendingIsRun | src/driver-ecu/can/core/can_executor.c:99-153 | a turn of an operation that is not pending asks no driver, whether it has a core or not |
| CanExecutor.TurnIsRingTurn | src/driver-ecu/can/core/can_executor.c:99-153 | every turn, also one that fails, is a turn of the queue |
| CanExecutor.Executor.RunUntilIdle | src/driver-ecu/can/core/can_executor.c:160-260 | turns until idle, an error or the step limit, with both counters |
| CanDrain.TurnKeepsPending | src/driver-ecu/can/core/can_executor.c:99-153 | if all slots hold distinct pending operations, they do so after a turn |
| CanDrain.BoundedDrain | src/driver-ecu/can/core/can_executor.c:160-260 | a drain of pending operations never fails; completed plus remaining is the initial count; success if and only if none remains; otherwise all steps were used and each survivor had at least floor(steps / initial count) of them; those gone have completed |
| CanDrain.DrainFails | src/driver-ecu/can/core/can_executor.c:160-260 | a slot that is empty or holds an operation that was never accepted ends a drain as invalid, with the slot closed up and both counters right |
| CanComposition.TurnsAlone | src/driver-ecu/can/core/can_executor.c:99-153 | after any turns an operation with a core to itself, and its core, are where as many steps alone as it had turns have brought them |
| CanComposition.ExecutorIsBlocking | src/driver-ecu/can/core/can_executor.c:99-153 | so after any turns such an operation is where the blocking call is after as many rounds |
| CanService.Service.constructor | src/driver-ecu/can/core/can_service.c:25-50 | every operation free and initial |
| CanService.Service.FindIndex | src/driver-ecu/can/core/can_service.c:5-23 | the place of an operation in the pool |
| CanService.Service.GetInUseCount | src/driver-ecu/can/core/can_service.c:82-102 | the number of operations in use |
| CanService.Service.AcquireOperation | src/driver-ecu/can/core/can_service.c:104-127 | the first free operation, initialised and marked; none if all are in use |
| CanService.Service.ReleaseOperation | src/driver-ecu/can/core/can_service.c:129-146 | the operation is initial and free; pool and executor still agree if and only if it was not in the executor |
| CanService.Service.SubmitToContext | src/driver-ecu/can/core/can_context.c:152-198 | the operation is prepared for the core of the context and submitted to its executor |
| CanService.Service.Submit | src/driver-ecu/can/core/can_service.c:148-262 | either exactly the returned operation becomes in use and joins the executor, or the in-use map and the executor are as before; pool and executor agree |
| CanService.SubmissionSucceedsExactlyWhen | src/driver-ecu/can/core/can_service.c:148-262 | a submission succeeds if and only if there is a context with executor and started core, a free operation, a free slot, a buffer, an interest in events only, and a clock for a finite timeout; and with which status it fails |
| CanService.Service.PollOne | src/driver-ecu/can/core/can_service.c:264-272 | a turn of the executor keeps the agreement of pool and executor and does not change who is in use |
| CanService.Service.Poll | src/driver-ecu/can/core/can_service.c:294-308 | a bounded drain keeps it too |
| CanRegistry.RefCountFits | src/driver-ecu/can/mcu/tc375/can_tc3xx.c:325-355 | a reference counter never exceeds the four nodes of its module |
| CanRegistry.EnteredBalances | src/driver-ecu/can/mcu/tc375/can_tc3xx.c:740-875 | an open on a free node keeps the accounts |
| CanRegistry.CancelledBalances | src/driver-ecu/can/mcu/tc375/can_tc3xx.c:901-918 | a close keeps the accounts |
| CanRegistry.CloseUndoesOpen | src/driver-ecu/can/mcu/tc375/can_tc3xx.c:901-918 | a close right after an open restores both registries |
| CanRegistry.OpenSucceedsExactlyWhen | src/driver-ecu/can/mcu/tc375/can_tc3xx.c:661-899 | an open succeeds if and only if the channel is closed, the configuration valid, the node of the port there and held by no channel, the pins of a transceiver found, and power, module and filter answer |
| CanRegistry.OpenFailsWith | src/driver-ecu/can/mcu/tc375/can_tc3xx.c:661-899 | a failing open says why, with the first thing that is wrong |
| CanRegistry.OpenHoldsItsNode | src/driver-ecu/can/mcu/tc375/can_tc3xx.c:740-875 | after an open exactly the node of the port is held in addition, by this channel, and its module counts one more user |
| CanRegistry.AlwaysBalanced | src/driver-ecu/can/mcu/tc375/can_tc3xx.c:274-373 | after any opens, failed opens and closes a node is in use if and only if exactly one open channel holds it, a module counts its open channels, and it is initialised if and only if there are any |
| CanRegistry.BalancedFromTheStart | src/driver-ecu/can/mcu/tc375/can_tc3xx.c:22-23 | in particular when the driver starts with nothing in use |
| CanRegistry.Registry.constructor | src/driver-ecu/can/mcu/tc375/can_tc3xx.c:22-23 | nothing in use |
| CanRegistry.Registry.ReserveNode | src/driver-ecu/can/mcu/tc375/can_tc3xx.c:274-305 | a node becomes in use, or the status of the check that fails |
| CanRegistry.Registry.ReleaseNode | src/driver-ecu/can/mcu/tc375/can_tc3xx.c:307-323 | a node becomes free |
| CanRegistry.Registry.AcquireModule | src/driver-ecu/can/mcu/tc375/can_tc3xx.c:325-355 | the first user initialises a module, the others are counted |
| CanRegistry.Registry.ReleaseModule | src/driver-ecu/can/mcu/tc375/can_tc3xx.c:357-373 | the last user gives a module back |
| CanRegistry.Registry.Open | src/driver-ecu/can/mcu/tc375/can_tc3xx.c:661-899 | a channel is entered in the books, or the books are as before with the status of the failing step |
| CanRegistry.Registry.Fail | src/driver-ecu/can/mcu/tc375/can_tc3xx.c:877-896 | the failure path gives back what was taken |
| CanRegistry.Registry.Close | src/driver-ecu/can/mcu/tc375/can_tc3xx.c:901-918 | an open channel is cancelled from the books |

## Left out

- DoorTiming.ReportedPositionReached: needs a working PWM output, since the duty does not move otherwise, and a poll budget, which is exact.
- DoorServo.Servo.Update: counts duties in exact tenths of a percent; the rounding of the float additions is not modelled.
- ArqTiming.GiveUpNotEarly: uses a clock that wraps at 2^32; the tick source of src/door-ecu/TC375(automatic_door_ecu)/slope_uart/slope_uart_tc375_lite.c:120-127 wraps earlier, at which point its difference is wrong.
- Link.AcknowledgementSound: treats a corrupted frame as a lost one; what corruption does to bytes is stated in Crc8 and Wire, and an undetected checksum collision is excluded.
- RampSystem.EstimateIsTrue: both ends start together, and a frame of which bytes have been read is not lost; an end that is initialised again while the other remembers a number may lose its first command. The link code of the ramp controller is not part of the repository (src/slope-ecu holds only the motor control), so its end is the shared receiver, and the last command delivered stands for the position of the ramp.
- CanCore.Core.SendTimeout: a call that never returns is not described; the round after which a call returns is a ghost argument. The relax hook between rounds and the contents of frames are left out.
- CanCore.Core.ReceiveTimeout: as for SendTimeout.
- CanCore.Core.Poll: as for SendTimeout.
- CanEquivalence.SteppedIsBlocking: a timeout is counted, and left as the last status, by the blocking form alone, which also reads the clock once without need for an infinite timeout; while a poll goes on its last status differs.
- CanOperation.Operation.Prepare: one method for the three preparations of the source, and CanService.Service.Submit one for its three submissions; pointers to frames and masks are reduced to whether they are there.
- CanService.Service.Submit: the pool is a sequence of distinct operations; a caller that submits an operation of the pool to the executor by other ways is not considered.
- CanRegistry.Registry.Open: configuration checks, pins, power and receive filter are arbitrary answers; the node and message RAM settings are left out.
- The unreachable default state of the parser and other null-pointer checks: states are a datatype, and buffers exist.
- The jam sensor: an arbitrary boolean per poll; distance measuring and interrupts are left out.
- The status frames, the LCD, audio, temperature, the Android application and the other tasks of the main loop: they only read this state.
- The BLE adapter and the CAN adapter of the door ECU: their requests are arbitrary calls of the request hooks before a poll.
- The setup of UART, timers, CAN nodes and ports, and interrupt handlers: hardware.
- Pack and unpack functions, length tables, getters: finite or trivial.
- Closing and restarting a core while operations are pending: the theorems about operations start from a core that stays started.
