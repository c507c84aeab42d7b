# ESP32 examples in Rust: a verified model of their own logic

This project models the parts of the rust-esp32 example collection that hold
the examples' own logic, not calls into drivers. Every operation is checked
against a stated contract. The parts modelled are:

- **Passive buzzer (m5).** `Song::new`, `calc_note_duration` and the note
  table. The melody loop splits each note into 90% sound and 10% silence; the
  model states this as a log of timer, channel and delay events.
- **Servo (m10).** The duty range derived from the 12-bit maximum duty,
  `duty_from_angle`, and the 0 to 180 to 0 degree sweep.
- **HC-SR04 (m6).** The measurement cycle: the trigger pulse, the echo
  pulse width (including the branch for a wrapped RTC counter), the
  distance-to-duty clamp, and the stop at a failed `set_duty`.
- **Joystick (m33).** The main loop: a 100-count dead band per axis,
  button-press edges and the `print_vals` flag.
- **BLE (m34, m35).**
  - The `read_func` buffer copies.
  - The write callbacks' log line, which the model reads back to its offset
    and bytes.
  - The `do_work` serve loop.
  - The notifier's rejection loop over the random draws.
  - The `"Value: N"` message, which the model reads back to its value.
- **RFID (m28, m32).**
  - `print_hex_bytes`, proved to decode back to its bytes.
  - The reqa/select/print polling loop.
  - The MIFARE sector arithmetic and the sector-trailer layout `DATA`.
  - The order of authentication, reads, the write, halt and leaving the
    encrypted session. A failure panics and is not retried.
  - The card is an oracle, and the reader is a `Transcript` object whose
    event log each command extends.
- **SD card clock (m41).**
  - Loading the RTC with the microseconds from the epoch, including the
    `as u64` wrap for a date before 1970.
  - `current_time`: microseconds to milliseconds to a `chrono` date-time.
  - `get_timestamp`'s field mapping, including the year field's wrap
    modulo 256.
  - Writing the line, then flushing.

  `Civil` is a proleptic Gregorian calendar with proved inverses. It stands
  in for `chrono`'s calendar arithmetic.
- **WiFi station and access point (m16, m18).**
  - `connection_task`'s retry loop, over radio observations given as input.
  - `wait_for_connection`'s polling phases.
  - `start_wifi`'s handling of malformed static addresses: the station halts
    forever, the access point returns `Err`.
  - `Ipv4` reads and writes addresses and CIDR blocks in canonical
    dotted-quad form. It is proved to be a bijection between canonical texts
    and values.

Machine integers are subset types of `int` (`Ints`). Every truncating cast,
wrapping subtraction and saturating float-to-integer conversion of the source
is written out. Loops become methods whose `ensures` ties the log they build
to a specification function of their inputs. Lemmas then state what the
source promises about those functions. Timers and delays become logged
events. Radio, card, ADC and RNG answers are parameters.

## Model

| member | source | states |
|---|---|---|
| Ints.AbsDiff | m33_joystick/src/bin/main.rs:59-64 | `abs_diff` is the distance between its arguments: adding it to the smaller gives the larger |
| Ints.UnsignedAbs | m5_negative_buzzer/src/music.rs:108 | `unsigned_abs` is the magnitude, so `i16::MIN` maps to 32768 without overflow |
| Ints.TruncU8 | m41_sd_write/src/bin/main.rs:53-58 | `as u8` keeps the value modulo 256 and is the identity on 0..255 |
| Ints.TruncU16 | m10_servo_motor/src/bin/main.rs:81 | `as u16` keeps the value modulo 65536 and is the identity below it |
| Ints.WrapU64 | m41_sd_write/src/bin/main.rs:104 | `as u64` of an `i64` keeps the value modulo 2^64 and is the identity on non-negative values |
| Music.NewSong | m5_negative_buzzer/src/music.rs:99-102 | `whole_note` is the floor of 240000 / tempo, so at most 240000 ms; a zero tempo is excluded because the source divides by it |
| Music.OneAndAHalf | m5_negative_buzzer/src/music.rs:109 | `(x as f64 * 1.5) as u32` is the floor of 3x/2 and saturates at `u32::MAX` |
| Music.CalcNoteDuration | m5_negative_buzzer/src/music.rs:104-111 | a positive divider gives the floor of whole_note / divider; a negative one gives the floor of 1.5 times the note of the same magnitude, unless that saturates |
| Music.PlainNoteAtMostWhole | m5_negative_buzzer/src/music.rs:105-106 | a plain note never exceeds the whole note |
| Music.DottedNoteExact | m5_negative_buzzer/src/music.rs:107-109 | in a song built by `Song::new` a dotted note never saturates: it is exactly floor(3 * plain / 2), at most 360000 |
| Music.ShortestDottedNote | m5_negative_buzzer/src/music.rs:108 | divider `i16::MIN` is handled: 1.5 times whole_note / 32768 |
| Music.DottedAtLeastPlain | m5_negative_buzzer/src/music.rs:104-111 | `calc(-k) >= calc(k)` for every k > 0 |
| Music.PlainNoteMonotone | m5_negative_buzzer/src/music.rs:105-106 | a larger positive divider never gives a longer note |
| Music.NoteTableIncreasing | m5_negative_buzzer/src/music.rs:3-92 | the 89 note constants run strictly upwards from `NOTE_B0` = 31 Hz to `NOTE_DS8` = 4978 Hz, all above `REST` = 0 |
| Melody.PlayMelody | m5_negative_buzzer/src/bin/main.rs:42-81 | the loop plays every entry once, in order, then idles forever in 5 ms delays |
| Melody.SoundPlusSilence | m5_negative_buzzer/src/bin/main.rs:46-76 | a sounding note sets its frequency at 50% duty, plays, sets duty 0, then pauses; sound plus pause is exactly the note's duration, and the pause is duration / 10 |
| Melody.RestIsSilent | m5_negative_buzzer/src/bin/main.rs:48-51 | a rest is one delay of the full duration and configures no timer |
| Melody.PauseOf | m5_negative_buzzer/src/bin/main.rs:47 | the pause is the largest whole number of milliseconds that is at most a tenth of the note |
| Melody.NoteEvents | m5_negative_buzzer/src/bin/main.rs:46-76 | one entry's delays add up to `calc_note_duration`, and it configures the timer once exactly when it is not a rest |
| Melody.SoundingTiming | m5_negative_buzzer/src/bin/main.rs:53-76 | the five events of a sounding note delay for d ms in total and configure the timer once |
| Melody.MelodyEvents | m5_negative_buzzer/src/bin/main.rs:45-77 | a melody's delays add up to the sum of its note durations, and it configures the timer once per sounding note |
| Melody.MelodyEventsConcat | m5_negative_buzzer/src/bin/main.rs:45 | playing two melodies one after the other is playing their concatenation |
| Melody.TotalDelayConcat | m5_negative_buzzer/src/bin/main.rs:84-87 | `blocking_delay` times and timer configurations add up over concatenated logs |
| Servo.DutyRangeFor | m10_servo_motor/src/bin/main.rs:51-60 | min duty = floor(25M/1000) <= max duty = floor(125M/1000) <= M, so the gap subtraction does not underflow |
| Servo.TwelveBitRange | m10_servo_motor/src/bin/main.rs:34-60 | for the 12-bit maximum duty 4096 the range is 102 to 512, gap 410 |
| Servo.DutyFromAngle | m10_servo_motor/src/bin/main.rs:79-82 | `duty_from_angle` is min + deg * gap / 180, truncated to u16 |
| Servo.AngleDuty | m10_servo_motor/src/bin/main.rs:79-82 | an angle's duty lies between min and max duty, is min duty at 0 degrees and max duty at 180 |
| Servo.GapBound | m10_servo_motor/src/bin/main.rs:80 | for 0..180 degrees the interpolated offset stays within the gap, 0 at 0 degrees and the whole gap at 180 |
| Servo.AngleDutyInRange | m10_servo_motor/src/bin/main.rs:79-82 | within a sweep the cast loses nothing: the duty is exactly min + deg * gap / 180, 0 degrees gives min duty and 180 gives max duty |
| Servo.AngleDutyMonotone | m10_servo_motor/src/bin/main.rs:80 | duty is non-decreasing in the angle |
| Servo.GapFits | m10_servo_motor/src/bin/main.rs:80-81 | the `u32` product deg * gap cannot overflow and the result fits a u16 |
| Servo.Ascending | m10_servo_motor/src/bin/main.rs:63 | the upward sweep visits 0, 1, ..., 180 |
| Servo.Descending | m10_servo_motor/src/bin/main.rs:70 | the downward sweep visits 180, 179, ..., 0 |
| Servo.SweepOnce | m10_servo_motor/src/bin/main.rs:62-76 | one turn of the loop is the upward steps, a 500 ms hold, the downward steps and another hold |
| Servo.Step | m10_servo_motor/src/bin/main.rs:64-66 | one step sets the angle's duty and waits 10 ms |
| Servo.StepEvents | m10_servo_motor/src/bin/main.rs:63-67 | a sweep logs two events per angle, and every wait in it is 10 ms |
| Servo.SweepEvents | m10_servo_motor/src/bin/main.rs:62-76 | one turn of the loop is 181 steps up, a 500 ms hold, 181 steps down and another 500 ms hold |
| Servo.StepDuties | m10_servo_motor/src/bin/main.rs:63-74 | the duties written in a sweep are the visited angles' duties, in order |
| Servo.SweepDuties | m10_servo_motor/src/bin/main.rs:62-76 | the upward sweep writes 181 non-decreasing duties from min to max; the downward sweep writes the same duties reversed |
| Ultrasonic.PulseWidth | m6_hcsr04/src/bin/main.rs:87-92 | without a wrap the width is time2 - time1; after a wrap it is `u64::MAX - time1 + time2`, which cannot overflow |
| Ultrasonic.PulseWidthAgainstElapsed | m6_hcsr04/src/bin/main.rs:89-91 | after a wrap the width is one less than the true elapsed time modulo 2^64 |
| Ultrasonic.Distance | m6_hcsr04/src/bin/main.rs:95 | the distance is never negative |
| Ultrasonic.FloatToU8 | m6_hcsr04/src/bin/main.rs:102 | a float-to-`u8` cast truncates and saturates at 0 and 255 |
| Ultrasonic.DutyPct | m6_hcsr04/src/bin/main.rs:100-106 | duty is at most 100, 0 from 30 cm on, and otherwise the floor of the remaining fraction of 30 cm, in percent |
| Ultrasonic.DutyPctAntitone | m6_hcsr04/src/bin/main.rs:100-106 | a farther obstacle never gets a brighter LED |
| Ultrasonic.LongEchoTurnsLedOff | m6_hcsr04/src/bin/main.rs:95-106 | an echo of 1750 us or more is 30 cm or farther, so the LED is off |
| Ultrasonic.Run | m6_hcsr04/src/bin/main.rs:69-114 | the loop runs one cycle per echo and stops at the first failed `set_duty` |
| Ultrasonic.RunEvents | m6_hcsr04/src/bin/main.rs:69-114 | the program halts exactly when some echo's `set_duty` failed |
| Ultrasonic.Cycle | m6_hcsr04/src/bin/main.rs:70-113 | one turn of the loop produces exactly the cycle's events |
| Ultrasonic.CycleEvents | m6_hcsr04/src/bin/main.rs:70-113 | a cycle waits 5 ms, drives the trigger low, 2 us, high, 10 us, low, waits for both echo edges, sets the duty `DutyPct` gives for the measured pulse (at most 100%), then waits 60 ms, or panics if `set_duty` failed |
| Ultrasonic.CycleShape | m6_hcsr04/src/bin/main.rs:108-111 | a cycle writes the duty exactly once, and halts the program exactly when `set_duty` failed |
| Ultrasonic.RunStep | m6_hcsr04/src/bin/main.rs:108-111 | a run that has not halted extends by one cycle, and halts exactly when that cycle's `set_duty` failed |
| Ultrasonic.HaltedRunStops | m6_hcsr04/src/bin/main.rs:108-111 | once `set_duty` has failed, no later cycle happens: the error is not retried |
| Ultrasonic.FirstFailureHalts | m6_hcsr04/src/bin/main.rs:69-114 | a first failure at cycle k halts the run there, after k + 1 duty writes |
| Ultrasonic.NoFailureRuns | m6_hcsr04/src/bin/main.rs:69-114 | without a failure every cycle runs and writes one duty |
| Ultrasonic.DutyWritesConcat | m6_hcsr04/src/bin/main.rs:108 | duty writes add up over concatenated logs |
| Joystick.MainLoop | m33_joystick/src/bin/main.rs:46-83 | the loop's four variables and its output are those of the step function applied to each reading in turn |
| Joystick.Step | m33_joystick/src/bin/main.rs:51-82 | a failed read changes nothing and logs nothing; a completed iteration ends with the 50 ms wait, clears `print_vals`, remembers the button, and prints "Button Pressed" exactly on a released-to-pressed edge |
| Joystick.Run | m33_joystick/src/bin/main.rs:46-83 | each remembered axis is still its initial 0 or is the value of some completed reading |
| Joystick.FailedReadSkips | m33_joystick/src/bin/main.rs:52-57 | a failed ADC read changes nothing, prints nothing and skips the 50 ms wait |
| Joystick.DeadBandTracking | m33_joystick/src/bin/main.rs:59-67 | a remembered axis changes only for a reading more than 100 counts away, and then takes that reading; afterwards it is within 100 counts of the reading |
| Joystick.ButtonEdge | m33_joystick/src/bin/main.rs:69-78 | "Button Pressed" is printed exactly on a released-to-pressed edge; afterwards the button state is the reading and `print_vals` is false |
| Joystick.ShowsIff | m33_joystick/src/bin/main.rs:59-82 | the axes are printed exactly when `print_vals` was set or an axis or button trigger fired; the iteration ends with the 50 ms wait |
| Joystick.ShowFlagUntilFirstSample | m33_joystick/src/bin/main.rs:49-80 | `print_vals` stays set exactly until the first completed iteration, and until then nothing happens |
| Joystick.FirstSampleShows | m33_joystick/src/bin/main.rs:49-80 | the first completed iteration always prints its readings |
| BleRead.AfterRead | m34_ble/src/bin/main.rs:100 | `copy_from_slice` puts the payload in front of the buffer and leaves the rest as it was |
| BleRead.CopyPayload | m34_ble/src/bin/main.rs:99-102 | the closure overwrites the buffer's front with the payload, in place, and returns the payload length |
| BleRead.AfterReadIdempotent | m34_ble/src/bin/main.rs:99-102 | a second read leaves the buffer as the first left it |
| BleRead.AfterReadForgetsFront | m34_ble/src/bin/main.rs:100 | what the buffer held in front of the payload does not affect the result |
| BleServer.SensorDataBytes | m34_ble/src/bin/main.rs:97 | the payload is the 13 ASCII bytes of "Hello, Ferris" |
| BleServer.ReadFunc | m34_ble/src/bin/main.rs:99-102 | whatever the offset, `data[0..13]` becomes "Hello, Ferris", later bytes are unchanged and 13 is returned; a shorter buffer panics in the source |
| BleServer.DebugBytes | m34_ble/src/bin/main.rs:104 | the `{:?}` list is bracketed, and is just "[]" exactly for no bytes |
| BleServer.WriteFunc | m34_ble/src/bin/main.rs:103-109 | the write callbacks log a line starting "RECEIVED: " and change nothing else |
| BleServer.WriteFuncShape | m34_ble/src/bin/main.rs:104 | the line is the tag, the decimal offset, a space and the `{:?}` list of the bytes |
| BleServer.WriteFuncRoundTrip | m34_ble/src/bin/main.rs:104 | the logged line reads back to the offset and the bytes |
| BleServer.WriteFuncInjective | m34_ble/src/bin/main.rs:104 | different writes never log the same line |
| BleServer.ItemsRoundTrip | m34_ble/src/bin/main.rs:104 | the `{:?}` item list of a byte slice reads back to the bytes |
| BleServer.OffsetAndBytesRoundTrip | m34_ble/src/bin/main.rs:104 | the text after the tag reads back to the offset and bytes |
| BleServer.OkPrefix | m34_ble/src/bin/main.rs:130 | the number of `do_work` calls that succeed before the first error |
| BleServer.Serve | m34_ble/src/bin/main.rs:130 | the serve loop stops exactly at the first `do_work` error, after it and the successes before it |
| BleServer.NoWorkAfterError | m34_ble/src/bin/main.rs:130 | no call after an error is made |
| BleNotify.ScaleRandom | m35_ble_noti/src/bin/main.rs:143-147 | the scaled value lies in 60..110 and is 60 plus the draw modulo 51 |
| BleNotify.ScaleRandomOnto | m35_ble_noti/src/bin/main.rs:143-147 | every value in 60..110 is reachable |
| BleNotify.AcceptedDraws | m35_ble_noti/src/bin/main.rs:127-128 | a draw is accepted exactly when it is 40 or more modulo 51 |
| BleNotify.SensorDataBytes | m35_ble_noti/src/bin/main.rs:98 | the read payload is the 9 ASCII bytes of "Value: 80" |
| BleNotify.ReadFunc | m35_ble_noti/src/bin/main.rs:100-103 | whatever the offset, `data[0..9]` becomes "Value: 80", later bytes are unchanged and 9 is returned |
| BleNotify.Message | m35_ble_noti/src/bin/main.rs:134 | the formatted message starts with "Value: ", has at least one character after it, and is ASCII, so its bytes are its characters |
| BleNotify.NotificationFor | m35_ble_noti/src/bin/main.rs:133-136 | the notification goes to the given handle, its payload is exactly the ASCII bytes of "Value: N", and that payload reads back to N |
| BleNotify.FirstAccepted | m35_ble_noti/src/bin/main.rs:126-132 | the first draw whose scaled value is at least 100 |
| BleNotify.Notifier | m35_ble_noti/src/bin/main.rs:123-137 | the closure waits 500 ms after each rejected draw and sends the first accepted value |
| BleNotify.NotifiedMessage | m35_ble_noti/src/bin/main.rs:126-136 | a notified value lies in 100..110, goes to the characteristic's handle, its 10-byte message fits the 64-byte buffer, so `write!` cannot fail, and the payload reads back to the value |
| BleNotify.MessageRoundTrip | m35_ble_noti/src/bin/main.rs:134 | "Value: N" reads back to N |
| BleNotify.ParseMessageExact | m35_ble_noti/src/bin/main.rs:134 | only texts the notifier can write read back |
| HexDump.Group | m28_rfid_uid/src/bin/main.rs:26 | each byte prints as two hex digits and a space |
| HexDump.PrintHexBytes | m28_rfid_uid/src/bin/main.rs:24-29 | the loop writes the groups of the bytes in order, then the newline |
| HexDump.HexGroups | m28_rfid_uid/src/bin/main.rs:25-27 | the groups take three characters per byte and hold no newline |
| HexDump.GroupAt | m28_rfid_uid/src/bin/main.rs:25-27 | characters 3i to 3i+3 are byte i's group |
| HexDump.HexLine | m28_rfid_uid/src/bin/main.rs:24-29 | the line is 3n characters and a newline, with no earlier newline; empty input prints only the newline |
| HexDump.DecodeGroupOf | m28_rfid_uid/src/bin/main.rs:26 | a group decodes back to its byte |
| HexDump.HexGroupsRoundTrip | m28_rfid_uid/src/bin/main.rs:25-27 | decoding the three-character groups of the output recovers the bytes |
| HexDump.HexLineInjective | m32_rfid_change_id/src/bin/main.rs:131-136 | different byte strings never print the same line |
| RfidUid.MainLoop | m28_rfid_uid/src/bin/main.rs:65-74 | the polling loop yields the events of each poll in turn |
| RfidUid.PollEvents | m28_rfid_uid/src/bin/main.rs:65-74 | the loop logs nothing exactly when no REQA was answered, that is when no turn found a card |
| RfidUid.Turn | m28_rfid_uid/src/bin/main.rs:66-73 | one turn produces exactly the poll's events |
| RfidUid.TurnEvents | m28_rfid_uid/src/bin/main.rs:66-73 | a turn adds nothing exactly when REQA failed; an answered REQA logs the ATQA line and waits 50 ms; a UID line is printed only for a selected card, as its hex line, and is followed by the final 500 ms wait |
| RfidUid.TurnShape | m28_rfid_uid/src/bin/main.rs:66-73 | a turn prints a UID only when both `reqa` and `select` answered; it waits 50 ms after an answered REQA and 500 ms after a printed UID |
| RfidUid.UidsPrinted | m28_rfid_uid/src/bin/main.rs:65-74 | exactly the selected cards' UIDs are printed, in order, each as its hex line; the waits total 50 ms per answered REQA plus 500 ms per UID |
| RfidUid.NoCardIsSilent | m28_rfid_uid/src/bin/main.rs:66 | a failed REQA is silently retried: it adds nothing |
| RfidUid.LogConcat | m28_rfid_uid/src/bin/main.rs:65-74 | printed lines and waits add up over concatenated logs |
| RfidSector.Transcript.constructor | m32_rfid_change_id/src/bin/main.rs:55 | the reader starts with an empty exchange and the given card |
| RfidSector.Transcript.Send | m32_rfid_change_id/src/bin/main.rs:105-111 | sending a command records it and returns the card's answer to the exchange so far |
| RfidSector.Transcript.Emit | m32_rfid_change_id/src/bin/main.rs:127 | output and panics are recorded in order |
| RfidSector.AbsBlock | m32_rfid_change_id/src/bin/main.rs:102-103 | block `4*sector + rel` lies in that sector at that position; the `u8` arithmetic needs `4*sector + rel <= 255` |
| RfidSector.TargetIsTrailer | m32_rfid_change_id/src/bin/main.rs:57-58 | sector 1, relative block 3 is absolute block 7, the sector trailer |
| RfidSector.DataLayout | m32_rfid_change_id/src/bin/main.rs:59-65 | `DATA` is key A "Rusted", access bytes FF 07 80 69, key B "Ferris"; `new_key` is key A, and `current_key` is six 0xFF |
| RfidSector.WrittenAccessBits | m32_rfid_change_id/src/bin/main.rs:61 | the access bytes are consistent with their inverted copies and give the transport configuration: 000 for the data blocks, 001 for the trailer |
| RfidSector.ReadSectorOps | m32_rfid_change_id/src/bin/main.rs:120-128 | `read_sector` is one authentication and four block reads |
| RfidSector.WriteBlockOps | m32_rfid_change_id/src/bin/main.rs:102-111 | `write_block` is two checked steps: authenticate with the given UID and key for a block that starts a sector, then write the data `rel` blocks after it |
| RfidSector.WriteBlockOnCard | m32_rfid_change_id/src/bin/main.rs:94-112 | `write_block` authenticates, then writes; a failure of either panics |
| RfidSector.ReadSector | m32_rfid_change_id/src/bin/main.rs:114-129 | `read_sector` runs its steps in order and panics at the first failure |
| RfidSector.DumpBlock | m32_rfid_change_id/src/bin/main.rs:126-127 | a successful read prints the block's hex line; a failed read panics |
| RfidSector.Session | m32_rfid_change_id/src/bin/main.rs:80-88 | a selected card is read with the factory key, written, read with the new key, halted and taken out of the encrypted session, stopping at the first failure |
| RfidSector.Finish | m32_rfid_change_id/src/bin/main.rs:87-88 | `hlta` then `stop_crypto1`; either failing panics |
| RfidSector.Turn | m32_rfid_change_id/src/bin/main.rs:76-90 | one turn: REQA, then on an answer log, wait 50 ms and select, then on an answer the session |
| RfidSector.Repeat | m32_rfid_change_id/src/bin/main.rs:75-91 | a loop that has already panicked does nothing more, however many turns follow |
| RfidSector.LoopLog | m32_rfid_change_id/src/bin/main.rs:75-91 | the polling loop keeps the log so far and only appends; with at least one turn, and unless it had already panicked, its first new event is REQA |
| RfidSector.TurnLog | m32_rfid_change_id/src/bin/main.rs:76-90 | a turn keeps the log so far and first sends REQA |
| RfidSector.MainLoop | m32_rfid_change_id/src/bin/main.rs:75-91 | the loop runs the given number of turns or stops at the first panic |
| RfidSector.SessionPhases | m32_rfid_change_id/src/bin/main.rs:80-88 | the session is its phases, run one after the other |
| RfidSector.ExecHalted | m32_rfid_change_id/src/bin/main.rs:105-126 | after a panic no further step does anything |
| RfidSector.ExecConcat | m32_rfid_change_id/src/bin/main.rs:81-88 | running two lists of steps one after the other is running their concatenation |
| RfidSector.HaltedPrefix | m32_rfid_change_id/src/bin/main.rs:121-126 | a run that panicked part-way ends there |
| RfidSector.LoopStep | m32_rfid_change_id/src/bin/main.rs:75-91 | a loop that has not panicked adds one turn per iteration |
| RfidSector.LoopStaysHalted | m32_rfid_change_id/src/bin/main.rs:75-91 | a panic is never retried: later turns add nothing |
| RfidSector.PerformOutcome | m32_rfid_change_id/src/bin/main.rs:105-126 | every step sends its command, and panics exactly when the card refused it |
| RfidSector.Perform | m32_rfid_change_id/src/bin/main.rs:105-127 | a step extends the log by one or two events, the first being the command it sends |
| RfidSector.Exec | m32_rfid_change_id/src/bin/main.rs:81-88 | running steps extends the log by at most two events per step, keeping what was there |
| RfidSector.ExecCommands | m32_rfid_change_id/src/bin/main.rs:81-88 | a run sends a prefix of its planned commands, all of them unless it panicked |
| RfidSector.ReadSectorCommands | m32_rfid_change_id/src/bin/main.rs:120-128 | `read_sector` authenticates once, for the sector's first block, then reads blocks 4s to 4s+3 in ascending order |
| RfidSector.WriteBlockCommands | m32_rfid_change_id/src/bin/main.rs:102-111 | `write_block` authenticates for the sector's first block, not the block it writes, then writes `4*sector + rel` |
| RfidSector.SessionCommands | m32_rfid_change_id/src/bin/main.rs:81-88 | a card session plans: authenticate and dump with the factory key, authenticate and write the trailer, authenticate and dump with the new key, halt, stop crypto |
| RfidSector.SessionOps | m32_rfid_change_id/src/bin/main.rs:80-88 | the session is 16 steps: the "before" message, the factory-key dump, authentication of block 4 with the factory key, the write of `DATA` to block 7, the "after" message, the new-key dump, then HLTA and STOP CRYPTO1 |
| RfidSector.FinishCommands | m32_rfid_change_id/src/bin/main.rs:87-88 | the session ends with HLTA, then STOP CRYPTO1 |
| RfidSector.SelectingCommands | m32_rfid_change_id/src/bin/main.rs:76-79 | an answered REQA is followed by SELECT with the ATQA, without panicking |
| RfidSector.TurnCommands | m32_rfid_change_id/src/bin/main.rs:75-91 | a turn sends REQA; on an answer it also selects; on that answer it sends a prefix of the session plan for the card's UID, all of it unless refused |
| Civil.DaysBeforeMonth | m41_sd_write/src/bin/main.rs:38 | days before January are 0 and days before the thirteenth month are the year's length |
| Civil.NextYear | m41_sd_write/src/bin/main.rs:38 | consecutive years' day numbers differ by the year's length |
| Civil.DaysFromEpochBounds | m41_sd_write/src/bin/main.rs:38 | the day number of a year lies between 365 and 366 days per year from 1970 |
| Civil.DaysFromEpochMono | m41_sd_write/src/bin/main.rs:38 | a later year starts on a later day |
| Civil.MonthFrom | m41_sd_write/src/bin/main.rs:38 | finds the month and day of a day within a year |
| Civil.DateFrom | m41_sd_write/src/bin/main.rs:38 | finds the date of a day counted from a year's start |
| Civil.FromDays | m41_sd_write/src/bin/main.rs:38 | the date of a day count from the epoch is valid and has that day count |
| Civil.FromToDays | m41_sd_write/src/bin/main.rs:38 | every date from 1970 on is recovered from its day count |
| Civil.FromSeconds | m41_sd_write/src/bin/main.rs:38 | the date-time of a second count from the epoch is valid and has that second count |
| Civil.FromToSeconds | m41_sd_write/src/bin/main.rs:104 | every date-time from 1970 on is recovered from its seconds since the epoch |
| Civil.SecondsInjective | m41_sd_write/src/bin/main.rs:104 | different date-times from 1970 on have different seconds from the epoch |
| SdTime.TimestampMillisOpt | m41_sd_write/src/bin/main.rs:38 | `Utc.timestamp_millis_opt` is never ambiguous; a result is in `chrono`'s range and has the milliseconds' whole seconds |
| SdTime.TimestampInRange | m41_sd_write/src/bin/main.rs:38-40 | it gives a result exactly when the date lies within `chrono`'s last year |
| SdTime.MillisFitI64 | m41_sd_write/src/bin/main.rs:35 | `current_time_us() / 1000` always fits an `i64`, so the cast is lossless |
| SdTime.MillisToSeconds | m41_sd_write/src/bin/main.rs:35 | truncating to milliseconds and then to seconds is truncating to seconds |
| SdTime.CurrentTime | m41_sd_write/src/bin/main.rs:31-46 | `current_time` gives the date-time of the whole seconds of the RTC reading; `None` is its panic on an out-of-range timestamp |
| SdTime.ToTimestamp | m41_sd_write/src/bin/main.rs:53-58 | the year field is the distance from 1970 modulo 256; month and day count from 0 (0..11, 0..30); the time of day is copied |
| SdTime.YearFieldCollides | m41_sd_write/src/bin/main.rs:53 | two years share a year field exactly when their distances from 1970 agree modulo 256 |
| SdTime.YearFieldExamples | m41_sd_write/src/bin/main.rs:53 | 1969 and 1971 both give year field 1, and 2226 wraps to 0 |
| SdTime.GetTimestamp | m41_sd_write/src/bin/main.rs:50-60 | `get_timestamp` is the field mapping of `current_time`, and panics exactly when it does |
| SdTime.StartupMicros | m41_sd_write/src/bin/main.rs:97-106 | the RTC is loaded with the microseconds from the epoch modulo 2^64 |
| SdTime.SecondsBounds | m41_sd_write/src/bin/main.rs:104 | seconds from the epoch lie within `chrono`'s years and are negative exactly before 1970 |
| SdTime.MicrosFitI64 | m41_sd_write/src/bin/main.rs:104 | `num_microseconds` never overflows over `chrono`'s range, so its `unwrap` cannot fail |
| SdTime.ImmediateTimestamp | m41_sd_write/src/bin/main.rs:97-106 | for a build date-time from 1970 on, an immediate `get_timestamp` reproduces that date-time's fields |
| SdTime.PreEpochPanics | m41_sd_write/src/bin/main.rs:104 | for a build date-time before 1970 the `as u64` wrap puts the RTC past `chrono`'s range, so every timestamp from the loaded value until the RTC counter wraps panics |
| SdTime.SaveOutcome | m41_sd_write/src/bin/main.rs:127-133 | the file is flushed exactly when the write succeeded; "Written Data" follows only a successful write and flush; a failed write only logs "Not wrote" |
| SdTime.SaveLine | m41_sd_write/src/bin/main.rs:127-133 | the block writes the line first; a successful write is followed by the flush; it ends with "Not wrote", "Written Data" or the flush's panic |
| SdTime.LineBytesValue | m41_sd_write/src/bin/main.rs:127 | the line is the 18 ASCII bytes of "Rust love me, too!" |
| Text.Decimal | m35_ble_noti/src/bin/main.rs:134 | `{}` of an unsigned integer is a non-empty digit string, with a leading zero only for 0, and of length 1 exactly below 10 |
| Text.DecimalRoundTrip | m35_ble_noti/src/bin/main.rs:134 | the digits read back to the number |
| Text.CanonicalRoundTrip | m35_ble_noti/src/bin/main.rs:134 | a canonical digit string is the `{}` of its value |
| Text.DecimalLength | m35_ble_noti/src/bin/main.rs:134 | a number has at most k digits exactly when it is below 10^k |
| Text.Hex2 | m28_rfid_uid/src/bin/main.rs:26 | `{:02x}` of a byte is exactly two lowercase hex digits |
| Text.Hex2RoundTrip | m28_rfid_uid/src/bin/main.rs:26 | the two digits are the byte's high and low nibble |
| Text.Hex2Injective | m28_rfid_uid/src/bin/main.rs:26 | different bytes print differently |
| Text.AsciiBytes | m35_ble_noti/src/bin/main.rs:134 | `as_bytes` of ASCII text has one byte per character, its code |
| Text.AsciiText | m35_ble_noti/src/bin/main.rs:134 | reading bytes as text gives one character per byte, with that code |
| Text.AsciiTextOfBytes | m35_ble_noti/src/bin/main.rs:134 | the bytes of ASCII text read back to the text |
| Ipv4.ParseOctets | m18_wifi_ap/src/wifi.rs:41-42 | a parsed dotted list has exactly the requested number of octets |
| Ipv4.OctetsRoundTrip | m18_wifi_ap/src/wifi.rs:41-42 | the dotted form of octets reads back to them |
| Ipv4.OctetsExact | m18_wifi_ap/src/wifi.rs:41-42 | only canonical dotted forms are accepted |
| Ipv4.AddrRoundTrip | m18_wifi_ap/src/wifi.rs:41-42 | an address's dotted quad reads back to it |
| Ipv4.AddrExact | m18_wifi_ap/src/wifi.rs:41-42 | an accepted address text is the dotted quad of its value |
| Ipv4.CidrRoundTrip | m18_wifi_ap/src/wifi.rs:37-38 | "a.b.c.d/p" reads back to its address and prefix length |
| Ipv4.CidrExact | m18_wifi_ap/src/wifi.rs:37-38 | an accepted CIDR text is the canonical form of its value |
| Ipv4.ShowCidr | m16_wifi_web_staticip/src/wifi.rs:119 | the `{}` of a CIDR block is the address's dotted quad, then the first "/", then the decimal prefix length |
| Radio.StartIfStopped | m18_wifi_ap/src/wifi.rs:105-116 | the block configures and then starts the radio unless `is_started()` is `Ok(true)`; a name or passphrase that does not fit, a failed configuration or a failed start panics at that step |
| Radio.SetupShape | m16_wifi_web_staticip/src/wifi.rs:36-46 | configure happens exactly when the radio is not started and the strings fit; start happens only after a successful configure; the block panics exactly when a step fails; it never connects or sleeps |
| Radio.SetupEvents | m18_wifi_ap/src/wifi.rs:105-116 | the block does nothing exactly when `is_started()` is `Ok(true)`, and it never waits for an event, sleeps or connects |
| Radio.NetSeed | m16_wifi_web_staticip/src/wifi.rs:72 | the seed keeps the first random word in its low half and the second in its high half |
| Radio.TraceStaysHalted | m16_wifi_web_staticip/src/wifi.rs:42-44 | a configure or start error is fatal: once the task panicked, later turns add nothing |
| Radio.TaskTrace | m16_wifi_web_staticip/src/wifi.rs:24-57 | the task's log begins with its introduction, and is only that when the introduction already panicked |
| Radio.PollUntil | m16_wifi_web_staticip/src/wifi.rs:109-114 | a polling loop sleeps one period after every negative poll and stops at the first positive one |
| Radio.FirstTrue | m18_wifi_ap/src/wifi.rs:76-81 | the number of negative polls before the first positive |
| Radio.FirstSomeAnswered | m16_wifi_web_staticip/src/wifi.rs:117-123 | waiting for `config_v4` is polling whether it returned something |
| Radio.ConnectsConcat | m16_wifi_web_staticip/src/wifi.rs:49 | connect attempts add up over concatenated logs |
| WifiSta.ConnectionTask | m16_wifi_web_staticip/src/wifi.rs:24-57 | the task's actions over the given turns are its introduction and each turn's actions, up to the first panic |
| WifiSta.TaskLog | m16_wifi_web_staticip/src/wifi.rs:24-57 | the task's log begins with "start connection task" and the capabilities line, and is only those with no turns |
| WifiSta.StationTurn | m16_wifi_web_staticip/src/wifi.rs:28-55 | one iteration: wait while connected, set up if stopped, connect unless that panicked |
| WifiSta.ConnectAttempt | m16_wifi_web_staticip/src/wifi.rs:47-55 | one connect, then success or the 5000 ms back-off |
| WifiSta.ConnectEvents | m16_wifi_web_staticip/src/wifi.rs:47-55 | the connect block makes its one connect as its second event, never waits for an event, and ends with "Wifi connected!" or the 5000 ms back-off |
| WifiSta.TurnConnects | m16_wifi_web_staticip/src/wifi.rs:36-55 | an iteration panics exactly when its setup does, and otherwise connects exactly once |
| WifiSta.ConnectOnce | m16_wifi_web_staticip/src/wifi.rs:49-55 | the connect block makes exactly one attempt and never halts |
| WifiSta.UnboundedRetries | m16_wifi_web_staticip/src/wifi.rs:27 | without a fatal error, n iterations make n connect attempts: retries are not capped |
| WifiSta.TurnEvents | m16_wifi_web_staticip/src/wifi.rs:28-55 | an iteration waits for the disconnect event exactly when the state is `StaConnected`, and then first waits for it and backs off 5000 ms |
| WifiSta.TurnTiming | m16_wifi_web_staticip/src/wifi.rs:49-55 | an iteration ends with its connect: success logs "Wifi connected!", failure backs off 5000 ms |
| WifiSta.WaitForConnection | m16_wifi_web_staticip/src/wifi.rs:107-124 | the wait ends exactly when link-up and then an address were observed |
| WifiSta.WaitLog | m16_wifi_web_staticip/src/wifi.rs:107-124 | the wait starts with "Waiting for link to be up" and every sleep in it is 500 ms |
| WifiSta.WaitOutcome | m16_wifi_web_staticip/src/wifi.rs:107-124 | a completed wait logs the address it got, in a form that reads back to it, after one sleep per negative poll; with no link the wait only sleeps |
| WifiSta.StartWifi | m16_wifi_web_staticip/src/wifi.rs:72-104 | a malformed static address or gateway halts forever before any stack or task; otherwise the stack gets the parsed static configuration and the seed, the tasks are spawned and the wait runs |
| WifiSta.StartConfig | m16_wifi_web_staticip/src/wifi.rs:85-89 | a well-formed pair configures exactly the address and gateway its texts denote, with no DNS server |
| WifiAp.ConnectionTask | m18_wifi_ap/src/wifi.rs:93-118 | the task's actions over the given turns are its introduction and each turn's actions, up to the first panic |
| WifiAp.TaskLog | m18_wifi_ap/src/wifi.rs:93-118 | the task's log begins with "start connection task" and the capabilities line, and is only those with no turns |
| WifiAp.AccessPointTurn | m18_wifi_ap/src/wifi.rs:97-116 | one iteration: wait while started, set up if stopped |
| WifiAp.TurnEvents | m18_wifi_ap/src/wifi.rs:97-116 | an iteration never connects; while started it first waits for `ApStop`, then backs off 5000 ms; not started as an access point but running, it does nothing |
| WifiAp.TurnShape | m18_wifi_ap/src/wifi.rs:105-116 | an iteration configures only a WPA2 personal access point, and does so exactly when not started and the strings fit |
| WifiAp.NeverConnects | m18_wifi_ap/src/wifi.rs:93-118 | the access point task never issues a connect, over any number of iterations |
| WifiAp.WaitForConnection | m18_wifi_ap/src/wifi.rs:74-90 | the wait ends exactly when link-up and then config-up were observed |
| WifiAp.BrowserHint | m18_wifi_ap/src/wifi.rs:83 | the hint ends with "http://", the static address text and "/", which for the shipped constant is "http://192.168.4.1/24/" |
| WifiAp.WaitLog | m18_wifi_ap/src/wifi.rs:74-90 | the wait starts with "Waiting for link to be up"; the link is polled every 500 ms, then the browser hint appears, then the configuration is polled every 100 ms |
| WifiAp.StartWifi | m18_wifi_ap/src/wifi.rs:26-72 | a malformed static address or gateway returns its `Err` before any stack or task; otherwise `Ok` comes only once the wait completes |
| WifiAp.ShippedConstantsParse | m18_wifi_ap/src/wifi.rs:22-24 | the shipped constants are canonical and read as 192.168.4.1/24 and 192.168.4.1 |
| WifiAp.StartShipped | m18_wifi_ap/src/wifi.rs:22-72 | for library parsers that read the two shipped texts as the canonical reader does, `start_wifi` with the shipped constants never returns `Err`, and once connected it serves 192.168.4.1/24 with gateway 192.168.4.1 and no DNS server |

## Left out

- The network library's `Ipv4Cidr::from_str` and `Ipv4Addr::from_str`: both `StartWifi` methods take the library parsers as parameters, and nothing is claimed about them. `Ipv4` is a separate reader for the canonical dotted-quad form. `WifiSta.StartConfig` and `WifiAp.ShippedConstantsParse` are stated for it, not for the library.
- `heapless` `try_into` of the network name and passphrase: the model checks character count against 32 and 64. This assumes ASCII text and the capacities of the `esp_wifi` configuration strings.
- `Debug` output of the controller's capabilities and of the connect error: both values are dropped, and each line is kept only as its fixed prefix without the ": " (`Say("Device capabilities")`, `Say("Failed to connect to wifi")`). The access point's IPv4 configuration is kept as a value (`ShowConfig`), not as its formatted text.
- `esp_wifi::wifi::new(...).unwrap()`, `embassy_net::new`, the `net_task` runner and task spawning: these are driver and executor calls. Spawns are logged as actions.
- `chrono`: its range (years -262143 to 262142) and its day-number overflow check are modelled as constants of `SdTime`. UTC is never ambiguous, so `current_time`'s ambiguous branch is modelled but unreachable.
- Parsing of the build's `CURRENT_DATETIME` text and the `expect` on the epoch date: the start-up date-time is a parameter of `SdTime.StartupMicros`.
- The SD volume manager, directory and file opening, and the card size query: these are straight-line driver calls with `unwrap`. Only the write-then-flush branch is modelled.
- The MFRC522 and the card's radio protocol and crypto1: the card is an oracle function from the exchange so far to its answer.
- The HC-SR04 distance and ratio: they are exact reals, not `f64`. Floating-point rounding of `0.0343` is not modelled.
- The busy-wait echo loops of the HC-SR04 cycle: each is a single event, and its duration is given by the RTC readings.
- `MELODY` and `TEMPO`: the melody table (`pink_panther`) is not part of this model, so the melody and the tempo are parameters of `Melody.PlayMelody`.
- The note constants are whole-number `f64` values; they are modelled as whole Hz, so the `as u32` frequency conversion is the identity.
- `unwrap`s of the LEDC driver calls, which the model assumes succeed: the timer and channel `configure` calls of the buzzer (m5_negative_buzzer/src/bin/main.rs:56-71), the servo (m10_servo_motor/src/bin/main.rs:31-47) and the HC-SR04 (m6_hcsr04/src/bin/main.rs:42-56); the buzzer's `channel0.set_duty(0).unwrap()` (m5_negative_buzzer/src/bin/main.rs:75); and the servo's `set_duty_cycle(duty).unwrap()` in both sweeps (m10_servo_motor/src/bin/main.rs:65 and 72). These are driver errors. Only the HC-SR04's loop `set_duty` failure is modelled, as a panic.
- Music.CalcNoteDuration and Melody.PlayMelody: a zero divider and a zero tempo are excluded by `requires divider != 0` and `requires tempo > 0 && Playable(...)`. In the source a zero tempo or a zero divider is a division by zero (m5_negative_buzzer/src/music.rs:100 and 108) and panics; the model does not produce that panic. The `pink_panther` table is not part of this model, so nothing is claimed about whether it holds a zero.
- HexDump.HexLine: m28 and m32 print the hex groups with `esp_println`'s `print!` and the final newline with `defmt`'s `println!` (m28_rfid_uid/src/bin/main.rs:4, 15 and 24-29; m32_rfid_change_id/src/bin/main.rs:4, 15 and 131-136). These are two output channels. The model joins them into one string, so the "one line" it states holds only where both channels reach the same terminal.
- The BLE stack: initialisation, advertising, the GATT table macro and the attribute server. The notification handle is a parameter; `do_work` outcomes and RNG draws are parameters.
- The random number generator: its draws are inputs; nothing is said about their distribution.
- Real time, the embassy executor and `Timer` durations: they appear only as logged sleep events.
- The display, LCD, e-paper, LED-web, PIR, LDR, positive-buzzer, MCPWM-servo and blocking-network examples hold no logic of their own beyond driver calls.
