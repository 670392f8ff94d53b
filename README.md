# Smart greenhouse controller: a verified Dafny model

This project models the control firmware of an STM32 smart greenhouse. It covers the
controller's decision and bookkeeping logic. The hardware it drives (flash, RTC counter,
ADC, timer compare register, GPIO pins) is abstract state with contracts.

The model follows the C sources file by file, one Dafny module per core file:

- `greenhouse_control.dfy` (module `Greenhouse`, class `Controller`): the controller state
  (`greenhouse_status` and the statics of `greenhouse_control.c`). It covers sensor update,
  per-channel hysteresis control with fan speed tiers, manual control, the alarm evaluator,
  key handling and the Bluetooth command handler. Records for the data logger are appended
  to the `requests` sequence, because the C code ignores the logger's return codes.
- `greenhouse_logic.dfy` (module `GreenhouseLogic`): the pure parts of that file as functions:
  - the hysteresis step, the fan speed tiers and the alarm flag set;
  - the beep priority and the device run-status accumulator;
  - the logging edges and the sensor-record counter.
- `bluetooth.dfy` (module `Bluetooth`): the `strstr` dispatcher as a pure classifier from the
  received line to a command. It has two versions: as written, and with the three
  shadowed keywords moved ahead of the shorter ones they contain. The controller's
  handler dispatches as written.
- `data_logger.dfy` (module `DataLogger`, class `Logger`): the append-only log of 16-byte
  records in 32 pages of 128 slots. It covers:
  - the boot-time recovery scan and the write cursor with erase-on-entry and wraparound;
  - the backward bounded query, erase-all and the daily averages.
- `flash.dfy` (module `Flash`, class `Bank`): the flash as an array of 32-bit words. Erase
  and program may fail.
- `config.dfy` (module `Config`, class `Store`): the packed 46-byte configuration. It covers
  its checksum, load, save, defaults, validation, range-checked setters and the `CONFIG_*`
  command parser.
- `stub_config.dfy` (module `StubConfig`): the smaller configuration module of
  `missing_functions_stub.c`.
- `rtc.dfy` (module `Rtc`, class `Clock`): `rtc.c`'s seconds-since-1970 conversion, weekday,
  alarm and timer table.
- `stub_rtc.dfy` (module `StubRtc`, class `Clock`): the software clock of
  `missing_functions_stub.c`, with one-second carries, the Kim Larsen weekday and the 8-slot
  alarm scheduler. The two clock files define the same C symbols, so they are separate
  modules.
- `calendar.dfy` (module `Calendar`): a proleptic Gregorian reference (day numbers, weekday,
  next day). Both clocks are proved against it.
- `rtc_types.dfy`: the records and constants of `rtc.h`.
- One module each for the small drivers: `usart3.dfy`, `key.dfy`, `beep.dfy`, `led.dfy`,
  `fan_pwm.dfy`, `lsens.dfy`, `dht11.dfy`, `ws2812_color.dfy` and `ws2812.dfy`.
- `ints.dfy`: the C integer widths, explicit wrap-around and little-endian byte/word
  conversion. `wrappers.dfy` holds an `Option` type.

Integers are unbounded in Dafny. Wherever the C code truncates or wraps (u8, u16 and u32
arithmetic, the u8 bounds of the configuration table, a `(u8)atoi`), the model writes the
truncation out.

The code, not the prose description of the system, is followed where the two differ:

- A log slot counts as present when its first byte is not 0xFF. That byte is the low byte of
  the timestamp, not the record type.
- A failed word program in the log's write returns before the cursor moves.
- A DHT11 frame whose checksum fails is reported as a good reading, and
  `Greenhouse.Controller.UpdateSensors` takes it as one: it clears the sensor-error bit and
  stores whatever the uninitialised locals `temp` and `humi` held. Those values are
  parameters of the model. This one is listed under Findings.

Several behaviours of the code as written are stated as lemmas rather than corrected:

- `Config.SaveThenLoadFails`: the save writes 11 words, which is 44 of the 46 bytes, so a load
  after a successful save fails its checksum.
- `DataLogger.PresenceByteIsTimestampLowByte`: a record whose timestamp ends in 0xFF is
  invisible to the scan and the query.
- `DataLogger.LastSlotUnreadable`: the last slot of the region is never read.
- `DataLogger.QueryFromWrappedOffset`: a query from offset 0 starts at the wrapped offset 65535.
- `Rtc.LeapDatesLate`: in a leap year, dates from March on come out one day late.
- `Rtc.GetWeek`: the caller's January or February comes back as month 13 or 14.
- `Rtc.NegativeSumWraps` and `Rtc.CenturyJanuaryWraps`: two dates get the wrong weekday from
  integer wrap-around.
- `StubRtc.InitialWeekMislabelled`: the initial date's weekday number does not match the
  clock's own formula.
- `StubRtc.MondayMaskFiresOnTuesday`: the weekly mask's bit for Monday fires on Tuesday under
  that numbering.
- `Config.TableTruncation`: the table's u8 bounds cut 300 to 44 and 1440 to 160.
- `Greenhouse.Controller.BtAuto`: AUTO over Bluetooth clears only the run statuses, not
  `fan_status`, `pump_status` or `light_status`.
- `Greenhouse.Controller.BtFan`: FAN_ON over Bluetooth drives the PWM directly, so the face
  shows the speed last stored by `Fan_Set_Speed`.

## Model

| member | source | states |
|---|---|---|
| Beep.Elapsed | APP/beep/beep.c:86 | when the clock has not wrapped, the elapsed time is the plain difference of the two readings |
| Beep.ElapsedAcrossWrap | APP/beep/beep.c:86 | the u32 subtraction gives the true elapsed time even when system_time_ms wraps past 2^32 |
| Beep.Period | APP/beep/beep.c:88-108 | every blinking pattern repeats with a period between 200 and 1500 ms |
| Beep.SteadyTypes | APP/beep/beep.c:81-114 | no alarm, and any value outside the enumeration, keeps the buzzer off; a sensor error keeps it on continuously |
| Beep.Periodic | APP/beep/beep.c:88-108 | each blinking pattern gives the same pin level one period later |
| Beep.StartsOnThenPauses | APP/beep/beep.c:88-111 | every alarm sounds at the moment it starts, and every blinking pattern also has an off phase in its period |
| Beep.HighTempDoubleBeep | APP/beep/beep.c:89-92 | the high-temperature pattern is off at 100 ms and at 200 ms and on again at 201 ms: two short beeps |
| Beep.Buzzer.constructor | APP/beep/beep.c:66-67 | the statics start with no alarm, a zero timer and the pin low |
| Beep.Buzzer.SetAlarm | APP/beep/beep.c:71-76 | stores the alarm type; only a real alarm restarts the timer at the current time |
| Beep.Buzzer.Task | APP/beep/beep.c:78-116 | the pin follows the current alarm's pattern at the time elapsed since the alarm started, and nothing else changes |
| Key.Priority | APP/key/key.c:35-38 | KEY_NONE exactly when no key is active; KEY_UP wins over all others, KEY0 over KEY1 and KEY2, KEY2 only when it alone is pressed |
| Key.ReleasedIsInactive | APP/key/key.c:30-40 | the release test of the else branch holds exactly when the press test of the first branch fails |
| Key.ScanStep | APP/key/key.c:24-46 | when armed (or in continuous mode) and a key reads down, the scan disarms and returns the highest-priority key read after the debounce delay; a code is reported only then; armed with no key down, it returns KEY_NONE and stays armed; when disarmed, it returns KEY_NONE and re-arms exactly when all keys read released |
| Key.NoRepeatWhileHeld | APP/key/key.c:26-45 | in single-press mode a held key is reported at most once: while no scan reads all keys released, every later scan returns KEY_NONE |
| Key.BouncedPressDisarms | APP/key/key.c:30-45 | a press seen before the debounce delay and gone after it returns KEY_NONE but still leaves the scanner disarmed |
| Key.Scanner.constructor | APP/key/key.c:26 | key_up starts set |
| Key.Scanner.Scan | APP/key/key.c:24-46 | the returned code and the new key_up are those of ScanStep on the old flag and the two readings |
| Lsens.PercentInRange | APP/lsens/lsens.c:65 | for an average within the 12-bit range the result is 100 minus the scaled average, between 0 and 100 |
| Lsens.NoOverflow | APP/lsens/lsens.c:54-65 | ten 12-bit readings never overflow the u16 sum, so the value is computed from the true average and lies in 0..100 |
| Lsens.Extremes | APP/lsens/lsens.c:63-65 | an average of 0 (brightest) reads 100% and full scale (darkest) reads 0% |
| Lsens.Decreasing | APP/lsens/lsens.c:63-65 | a higher ADC average never gives a higher light percentage |
| Lsens.GetVal | APP/lsens/lsens.c:52-66 | the loop sums the ten readings in u16 and returns the percentage of their average |
| FanPwm.CompareFor | APP/fan_pwm/fan_pwm.c:68 | the compare value for a percentage of at most 100 never exceeds the period |
| FanPwm.PercentOf | APP/fan_pwm/fan_pwm.c:81-88 | reads 0 before initialisation, and at most 100 while the compare value is within the period |
| FanPwm.SetThenGet | APP/fan_pwm/fan_pwm.c:58-88 | reading back a set percentage gives at most the clamped request, and exactly it when the period is a multiple of 100 |
| FanPwm.RoundingLoss | APP/fan_pwm/fan_pwm.c:68-87 | the round trip can lose a point: with a period of 99, 50% reads back as 49% |
| FanPwm.Pwm.constructor | APP/fan_pwm/fan_pwm.c:4 | the period starts at 0 (not initialised) |
| FanPwm.Pwm.Init | APP/fan_pwm/fan_pwm.c:28-47 | stores the period and sets the compare value to 0, so the fan reads 0% |
| FanPwm.Pwm.SetPercent | APP/fan_pwm/fan_pwm.c:58-73 | before initialisation nothing is written; otherwise the compare value is that of the clamped percentage |
| FanPwm.Pwm.GetPercent | APP/fan_pwm/fan_pwm.c:81-88 | the percentage read back from the compare value, at most 100 while the compare value is within the period |
| Led.PumpLightsOne | APP/led/led.c:116-117 | the pump pattern ~(1 << s) drives exactly pin s low, so LED s alone is lit |
| Led.AlarmLightsAllOrNone | APP/led/led.c:104-113 | writing 0x0000 lights all eight LEDs, writing 0xFFFF lights none |
| Led.EveryFortiethCall | APP/led/led.c:97-102 | counting calls from 0, after n+1 calls the counter is (n+1) mod 40, and that call advances the animation exactly when 40 divides n+1 |
| Led.Step | APP/led/led.c:104-124 | the marquee state after a step stays below 8 |
| Led.AlarmFlashes | APP/led/led.c:104-113 | during an alarm two consecutive steps light all LEDs in one and none in the other, whatever the pump does |
| Led.PumpWalks | APP/led/led.c:114-119 | with only the pump active, the k-th step from state 0 lights LED k mod 8 alone: the light walks PC0..PC7 and starts over |
| Led.PumpStateCounts | APP/led/led.c:119 | k pump steps from state 0 leave the state at k mod 8 |
| Led.IdleClears | APP/led/led.c:120-124 | with neither alarm nor pump a step turns every LED off and resets the state |
| Led.Leds.constructor | APP/led/led.c:7-10 | flags, state and counter start at 0 |
| Led.Leds.AlarmSet | APP/led/led.c:53-60 | records the flag; clearing it turns every LED off at once, setting it leaves the port alone |
| Led.Leds.PumpSet | APP/led/led.c:81-92 | records the flag; clearing it turns every LED off at once, setting it leaves the port alone |
| Led.Leds.MarqueeUpdate | APP/led/led.c:95-125 | the counter advances mod 40; on the 40th call the port and state become those of one Step (alarm before pump), otherwise both are unchanged |
| Led.Leds.FanSetSpeed | APP/led/led.c:132-151 | keeps the clamped speed and forwards it to the PWM channel, which then reads back at most that speed, and exactly it for a period that is a multiple of 100 |
| Usart3.SetBit | Public/usart3.c:30-34 | or-ing in bit 15 or bit 14 sets that flag and keeps the other flag and the byte count |
| Usart3.NextStatus | Public/usart3.c:25-42 | a completed line is left alone; after a CR only an LF completes the line (count kept) and any other byte restarts at 0; a CR sets bit 14; a stored byte increments the count, which restarts at 0 when it reaches 200; the count stays in range |
| Usart3.FeedStatusBounded | Public/usart3.c:25-42 | whatever bytes arrive, the count stays below the buffer length |
| Usart3.PayloadStored | Public/usart3.c:36-38 | from an empty status, a CR-free run of fewer than 200 bytes is stored in order at the front of the buffer and counted |
| Usart3.LineReceived | Public/usart3.c:25-42 | a CR-free payload of fewer than 200 bytes followed by CR LF leaves bits 15 and 14 set, the payload length as the count and the payload at the front of the buffer |
| Usart3.CrThenLf | Public/usart3.c:27-34 | after n stored bytes, CR sets bit 14 only and then LF sets bit 15, with the count kept |
| Usart3.OverlongLineDropped | Public/usart3.c:39 | a payload reaching 200 bytes without a CR is dropped: the status returns to 0 |
| Usart3.IgnoredWhileDone | Public/usart3.c:25 | once a line is complete, further bytes change neither the status nor the buffer |
| Usart3.WhatIsStored | Public/usart3.c:34-37 | a CR is never stored, but an LF that does not follow a CR is stored like any other byte |
| Usart3.Receiver.constructor | Public/usart3.c:8-13 | the status starts at 0 with a buffer of 200 bytes |
| Usart3.Receiver.Receive | Public/usart3.c:15-47 | the status and buffer after one received byte are NextStatus and NextBuffer of the old ones |
| Usart3.Receiver.Clear | APP/greenhouse_control/greenhouse_control.c:954 | the main loop's acknowledgement resets the status to 0 |
| Dht11.ShiftInIsPositional | APP/dht11/dht11.c:115-119 | shifting the bits in one at a time gives their positional value, below 2^n |
| Dht11.BitsRoundTrip | APP/dht11/dht11.c:110-122 | splitting a value below 2^n into n bits and shifting them back in gives the value |
| Dht11.ShiftInRoundTrip | APP/dht11/dht11.c:110-122 | shifting bits in and splitting the result again gives the bits |
| Dht11.ReadByte | APP/dht11/dht11.c:110-122 | the loop returns the eight bits read, most significant first, as a byte |
| Dht11.ReadFrame | APP/dht11/dht11.c:161-164 | the five bytes of the frame are the five groups of eight bits, in order |
| Dht11.CorruptFrameReportedGood | APP/dht11/dht11.c:165-173 | a frame whose checksum fails is still reported as success, with the caller's variables untouched |
| Dht11.ReadDataMeaning | APP/dht11/dht11.c:153-174 | the corrected read succeeds exactly for a present sensor and a matching checksum; success carries bytes 2 and 0, failure leaves the outputs alone; it agrees with the code as written except on frames whose checksum fails |
| Dht11.WideSumRejected | APP/dht11/dht11.c:165 | the checksum is compared in int, not modulo 256: a frame whose first four bytes sum to 256 or more is never accepted |
| Dht11.FractionsIgnored | APP/dht11/dht11.c:165-169 | the fraction bytes matter only through the checksum |
| Dht11.Validate | APP/dht11/dht11.c:235-261 | accepted exactly when in range and, after the first accepted reading, within 10 °C and 20 %RH of the last accepted one; acceptance stores the reading and clears first_read, rejection changes nothing |
| Dht11.ValidateAll | APP/dht11/dht11.c:237-239 | the statics stay well formed over any run of readings |
| Dht11.JumpLockedOut | APP/dht11/dht11.c:248-253 | a real jump of more than 10 °C is never followed: the new temperature is rejected however often it is read |
| Dht11.FirstInRangeAccepted | APP/dht11/dht11.c:242-260 | the first in-range reading is always accepted and stored |
| Dht11.Validator.constructor | APP/dht11/dht11.c:237-239 | the statics start at 25 °C, 50 %RH and first_read |
| Dht11.Validator.Check | APP/dht11/dht11.c:235-261 | the result and the new statics are those of Validate |
| Dht11.EveryFifthFailureResets | APP/dht11/dht11.c:425-457 | from a cleared count, n failures in a row leave n mod 5 and reset the filter exactly when n is a multiple of 5; a success clears the count |
| Dht11.ErrorCounter.constructor | APP/dht11/dht11.c:421 | the error count starts at 0 |
| Dht11.ErrorCounter.Record | APP/dht11/dht11.c:418-458 | the count and the reset decision are those of CountErrors, and the count stays below 5 |
| Flash.Bank.ErasePage | APP/config/config.c:169-175 | erasing succeeds exactly on an unprotected page and then leaves that page all ones and every other word unchanged; a failure changes nothing |
| Flash.Bank.ProgramWord | APP/config/config.c:180-181 | programming succeeds exactly on an erased word of an unprotected page and then changes that word alone; a failure changes nothing |
| RtcTypes.WeekMaskBits | APP/rtc/rtc.h:35-41 | each WEEK_ mask is the single bit of its day, so the weekly test with weekday number w selects exactly the w-th mask |
| Calendar.YearDays | APP/rtc/rtc.c:129-135 | a year has 366 days exactly when it is a Gregorian leap year, otherwise 365 (the 31622400 / 31536000 seconds Set_Time adds per year) |
| Calendar.MonthLength | APP/rtc/rtc.c:285-291 | a month has 28 to 31 days, and 29 exactly for a leap February |
| Calendar.MonthsFillYear | APP/rtc/rtc.c:159-172 | the twelve month lengths add up to the length of the year, which the cumulative month table relies on |
| Calendar.DaysBetween | APP/rtc/rtc.c:129-135 | the day count of whole years from one year to another is never negative |
| Calendar.DaysBetweenSplit | APP/rtc/rtc.c:129-135 | the year-by-year sum over a span is the sum over any split of that span |
| Calendar.DaysBetweenZero | APP/rtc/rtc.c:129-135 | the year-by-year sum equals 365 days a year plus one day per leap year before it |
| Calendar.LeapStep | APP/rtc/rtc.c:270-282 | the number of leap years before a year grows by one exactly when that year is leap |
| Calendar.NextDay | APP/missing_functions_stub.c:199-216 | the day after a date, including across a month or year end, has the next day number |
| Calendar.Weekday | APP/rtc/rtc.c:237-253 | the reference weekday of a date lies in 0..6 |
| Calendar.WeekdayNext | APP/missing_functions_stub.c:202 | consecutive days fall on consecutive weekdays modulo 7 |
| Calendar.DaysBeforeMonthFromMarch | APP/rtc/rtc.c:251 | from March on, the days before a month follow the 30.6-day rule behind the 26·(month+1)/10 and 3·(month+1)/5 terms |
| Calendar.KimLarsenWeekday | APP/missing_functions_stub.c:241-246 | Kim Larsen's sum, with January and February counted as months 13 and 14 of the previous year, is the true weekday modulo 7 |
| Rtc.IsLeapYear | APP/rtc/rtc.c:270-282 | the nested test returns 1 exactly for Gregorian leap years |
| Rtc.MonthDays | APP/rtc/rtc.c:285-291 | the table entry, with 29 for a leap February, is the true length of the month; the month must be 1..12 because there is no range check |
| Rtc.GetWeek | APP/rtc/rtc.c:237-253 | the weekday is the u16 sum taken mod 7; January and February are written back to the caller as months 13 and 14; nothing else changes |
| Rtc.WeekSumIsKimLarsen | APP/rtc/rtc.c:242-251 | without wrap-around the Zeller-style sum is Kim Larsen's sum plus one, less a multiple of 7 |
| Rtc.GetWeekIsWeekday | APP/rtc/rtc.c:237-253 | when the year halves do not wrap and the sum is not negative, the weekday is the true one counted from Sunday = 0 |
| Rtc.SumIsWeekday | APP/rtc/rtc.c:251-252 | the non-negative weekday sum mod 7 counts from Sunday = 0 |
| Rtc.NegativeSumWraps | APP/rtc/rtc.c:251-252 | 2000-03-01, a Wednesday, has a negative sum that wraps in the u16 and is reported as Friday |
| Rtc.CenturyJanuaryWraps | APP/rtc/rtc.c:243-248 | in January 2000 the u8 yearL wraps from 0 to 255 and the Saturday is reported as Thursday |
| Rtc.PeelFrom | APP/rtc/rtc.c:175-186 | the year loop leaves a remaining day between 0 and the day count and never moves the year backwards |
| Rtc.MonthFrom | APP/rtc/rtc.c:189-201 | the month scan stops at an index between its start and 12 |
| Rtc.CountTimeOfDay | APP/rtc/rtc.c:206-209 | hour, minute and second read back the counter modulo one day, each within its range |
| Rtc.PeelSplits | APP/rtc/rtc.c:175-186 | the peel removes whole years: the years peeled plus the remaining day give the day count, and the remaining day lies inside the final year |
| Rtc.PeelUnique | APP/rtc/rtc.c:175-186 | any split of a day count into whole years plus a day of the final year is the one the peel finds |
| Rtc.MonthFromFinds | APP/rtc/rtc.c:189-201 | the scan returns the month whose table bounds bracket the day |
| Rtc.DayCount | APP/rtc/rtc.c:129-147 | Set_Time's count is the days of the whole years, the day of the year and the time of day |
| Rtc.SetThenGet | APP/rtc/rtc.c:122-212 | Set_Time followed by Get_Time gives the time back, with Get_Week's month rewrite, for every date of a common year and January or February of a leap year, while the count fits in 32 bits |
| Rtc.CountOfSet | APP/rtc/rtc.c:157-209 | the calendar fields Get_Time derives from Set_Time's count are the fields that were set |
| Rtc.MonthOfDay | APP/rtc/rtc.c:189-204 | in a common year, or before March, the scan finds the month and day of the date |
| Rtc.LeapDatesLate | APP/rtc/rtc.c:159-204 | from March of a leap year on, Get_Time reports the day after the date that was set, and December 31 as day 1 of month 13 |
| Rtc.LeapScanExamples | APP/rtc/rtc.c:189-204 | day 60 of a leap year reads as March 2 and day 365 as month 13 |
| Rtc.AlarmDelay | APP/rtc/rtc.c:222-225 | the intended delay is 1 to 86400 seconds and lands on the target time of day |
| Rtc.AlarmWraps | APP/rtc/rtc.c:222-225 | at 12:00:00 an 11:00:00 alarm is set 2^32 − 3600 seconds ahead instead of 23 hours |
| Rtc.AlarmAgreesWhenLater | APP/rtc/rtc.c:222-225 | the computed and intended delays agree exactly when the target is not earlier than now |
| Rtc.Removed | APP/rtc/rtc.c:332-335 | removing an entry shortens the table by one, keeps the entries before it and shifts the later ones down in order |
| Rtc.AddThenRemove | APP/rtc/rtc.c:315-337 | removing the entry just added gives back the table |
| Rtc.Clock.constructor | APP/rtc/rtc.c:16-119 | the clock starts with the given counter, no timers and the alarm off |
| Rtc.Clock.SetTime | APP/rtc/rtc.c:122-154 | the counter becomes the seconds since 1970 of the time, modulo 2^32, and current_time becomes the time after Get_Week |
| Rtc.Clock.GetTime | APP/rtc/rtc.c:157-212 | the result is the calendar conversion of the counter, Get_Week applied |
| Rtc.Clock.SetAlarm | APP/rtc/rtc.c:215-234 | the alarm is set at the next occurrence of the target time of day, the interrupt is enabled and 0 is returned |
| Rtc.Clock.TimerInit | APP/rtc/rtc.c:308-312 | the count becomes 0 and every slot is zeroed |
| Rtc.Clock.TimerAdd | APP/rtc/rtc.c:315-324 | a full table returns 1 and changes nothing; otherwise the timer goes into slot count, the count grows by one and 0 is returned |
| Rtc.Clock.TimerRemove | APP/rtc/rtc.c:327-337 | an index at or past the count changes nothing; otherwise the later entries shift down in order and the count drops by one |
| Rtc.YearSeconds | APP/rtc/rtc.c:129-135 | the year loop sums the seconds of the whole years since 1970, modulo 2^32 |
| Rtc.AddMonthSeconds | APP/rtc/rtc.c:138-142 | the month loop adds the seconds of the months before the given one, modulo 2^32 |
| Rtc.AddDaySeconds | APP/rtc/rtc.c:144-147 | the tail adds the days of the month and the time of day, modulo 2^32 |
| Rtc.CountToDate | APP/rtc/rtc.c:160-209 | the conversion loops compute the calendar time of the count |
| Rtc.MonthTable | APP/rtc/rtc.c:159-173 | the rebuilt table holds the days of 1970 before each month |
| Rtc.PeelYears | APP/rtc/rtc.c:175-186 | the year loop computes the peel from 1970 |
| Rtc.ScanMonths | APP/rtc/rtc.c:189-201 | the month loop computes the scan from month index 0 |
| StubRtc.IsLeapYear | APP/missing_functions_stub.c:253-255 | the one-line test is 1 exactly for Gregorian leap years |
| StubRtc.MonthDays | APP/missing_functions_stub.c:260-270 | a month 1..12 gets its true length, 29 for a leap February; any other month gets 0 |
| StubRtc.KimLarsenSum | APP/missing_functions_stub.c:237-246 | the Kim Larsen sum, with the u16 year wrapping below 0, is never negative |
| StubRtc.Week | APP/missing_functions_stub.c:246-247 | the stored weekday lies in 1..7 |
| StubRtc.WeekNumber | APP/missing_functions_stub.c:246-247 | a sum mod 7 with 0 reported as 7 lies in 1..7 and agrees with the sum modulo 7 |
| StubRtc.WeekNumberStep | APP/missing_functions_stub.c:202 | when one sum is the next of another modulo 7, their numbers follow the week % 7 + 1 cycle |
| StubRtc.KimLarsenIsWeekday | APP/missing_functions_stub.c:236-246 | the stub's sum is the true weekday counted from Monday = 0 for every year from 1 on |
| StubRtc.WeekNumbering | APP/missing_functions_stub.c:228-248 | Get_Week numbers Tuesday 1 to Sunday 6 and Monday 7 |
| StubRtc.InitialWeekMislabelled | APP/missing_functions_stub.c:103 | 2025-07-11 is a Friday: Get_Week gives it 4 while the initial clock labels it 5 |
| StubRtc.MondayMaskFiresOnTuesday | APP/missing_functions_stub.c:328-331 | with Get_Week's numbering the WEEK_MON bit selects Tuesdays only, and a Monday tests WEEK_SUN's bit |
| StubRtc.TickKeepsValid | APP/missing_functions_stub.c:177-223 | the tick keeps a valid clock valid |
| StubRtc.TickIsNextSecond | APP/missing_functions_stub.c:177-223 | away from the u16 year limit, the tick advances the clock by exactly one second |
| StubRtc.TickNextDate | APP/missing_functions_stub.c:199-216 | past 23:59:59 the tick moves to midnight of the next calendar day and steps the weekday by week % 7 + 1 |
| StubRtc.TickDay | APP/missing_functions_stub.c:177-223 | a tick either keeps date and weekday or moves both to the next day |
| StubRtc.WeekSuccessor | APP/missing_functions_stub.c:228-248 | Get_Week's numbers of consecutive days follow the week % 7 + 1 cycle |
| StubRtc.KimLarsenStep | APP/missing_functions_stub.c:241-246 | the sums of consecutive days are consecutive modulo 7 |
| StubRtc.WeekOfDate | APP/missing_functions_stub.c:237-239 | Get_Week reads only the date |
| StubRtc.TickKeepsWeek | APP/missing_functions_stub.c:199-202 | a weekday that agrees with Get_Week still agrees after the midnight step |
| StubRtc.Callbacks | APP/missing_functions_stub.c:311-341 | one check invokes at most one callback per slot and never a null one |
| StubRtc.OneShotFiresOnce | APP/missing_functions_stub.c:321-324 | a fired one-shot timer is disabled and never fires again |
| StubRtc.DailyFiresEveryDay | APP/missing_functions_stub.c:325-327 | a daily timer is left unchanged and fires at every due minute |
| StubRtc.UnknownTypeNeverFires | APP/missing_functions_stub.c:320-333 | a repeat type above 2 never fires and is never disabled |
| StubRtc.QuietInsideMinute | APP/missing_functions_stub.c:314-316 | no callback fires in a second that does not start a minute |
| StubRtc.CheckSlot | APP/missing_functions_stub.c:312-340 | a slot's callback runs exactly when the slot is due for its repeat type and the callback is not null; the slot becomes the checked slot |
| StubRtc.Clock.constructor | APP/missing_functions_stub.c:103-105 | the clock starts at 2025-07-11 12:00:00 with weekday 5, an empty table and no callbacks made |
| StubRtc.Clock.Init | APP/missing_functions_stub.c:138-151 | the table is zeroed, the count becomes 0, the time is kept and 0 is returned |
| StubRtc.Clock.SetTime | APP/missing_functions_stub.c:156-163 | a null pointer changes nothing; otherwise the time is copied and its weekday recomputed |
| StubRtc.Clock.GetTime | APP/missing_functions_stub.c:168-172 | the result is the current time |
| StubRtc.Clock.TimerAdd | APP/missing_functions_stub.c:293-302 | a null timer or a full table returns 1 and changes nothing; otherwise the timer goes into slot count and 0 is returned |
| StubRtc.Clock.TimerCheck | APP/missing_functions_stub.c:307-342 | every used slot becomes its checked slot, the unused ones are untouched, and the callbacks fire in slot order |
| StubRtc.Clock.ProcessInterrupt | APP/missing_functions_stub.c:177-223 | the clock advances one tick; the timers are checked against the new time exactly when the seconds carry |
| StubConfig.GetU8 | APP/missing_functions_stub.c:368-382 | each of the ten items reads its own field; any other item reads 0 |
| StubConfig.ResetOf | APP/missing_functions_stub.c:408-421 | after CONFIG_RESET the ten items read the reset values and every other field is untouched |
| StubConfig.ResetIdempotent | APP/missing_functions_stub.c:408-421 | resetting twice is resetting once |
| StubConfig.ResetDiffersFromInitial | APP/missing_functions_stub.c:113-131 | resetting the initial settings changes only temp_fan_on, from 27 to 30 |
| StubConfig.ResetIsNotGet | APP/missing_functions_stub.c:392-408 | no command starting with CONFIG_RESET is taken for CONFIG_GET |
| StubConfig.ResetByPrefix | APP/missing_functions_stub.c:408 | a command that begins with CONFIG_RESET resets whatever follows it |
| StubConfig.OnlyResetChanges | APP/missing_functions_stub.c:387-425 | the settings are either unchanged or reset, CONFIG_GET never changes them, and any change comes from a CONFIG_RESET prefix |
| StubConfig.TruncatedKeywordIgnored | APP/missing_functions_stub.c:408 | a command shorter than the 12-character keyword does not reset |
| StubConfig.Store.constructor | APP/missing_functions_stub.c:113-131 | the settings start at the compiled initialiser |
| StubConfig.Store.HandleCommand | APP/missing_functions_stub.c:387-425 | a null command, CONFIG_GET and anything unknown change nothing; CONFIG_RESET overwrites the ten items |
| Config.Body | APP/config/config.c:42-54 | the checksummed part of the packed struct is 42 bytes |
| Config.Image | APP/config/config.h:35-76 | the packed struct is 46 bytes |
| Config.DecodeImage | APP/config/config.h:35-76 | decoding the packed image of a configuration gives it back |
| Config.ImageDecode | APP/config/config.h:35-76 | every 46-byte image is the image of what it decodes to |
| Config.PackedLayout | APP/config/config.h:35-76 | the packed struct has the magic at bytes 0..3, the version at 4, auto_light_time little-endian at 18..19 and the checksum at 42..45, and 46 / 4 is 11 words |
| Config.ConfigBelowLog | APP/config/config.h:10 | the config page and the 4 KB reserved for it lie on a page boundary below the log region |
| Config.Checksum | APP/config/config.c:42-54 | the byte sum of 42 bytes is at most 42·255, so the u32 never wraps |
| Config.ChecksumIgnoresChecksumField | APP/config/config.c:42-54 | the checksum field does not take part in the checksum |
| Config.Stamp | APP/config/config.c:163 | the stamped configuration carries its own checksum and differs from the input in that field only |
| Config.StampIdempotent | APP/config/config.c:163 | stamping twice is stamping once |
| Config.CalculateChecksum | APP/config/config.c:42-54 | the running sum over the first 42 bytes is the byte sum |
| Config.Defaults | APP/config/config.c:57-99 | the defaults carry the magic, the version and a valid checksum |
| Config.Validate | APP/config/config.c:205-234 | the result counts violated orderings: 0 exactly when all three threshold pairs are ordered, 3 exactly when none is |
| Config.TableTruncation | APP/config/config.c:11-28 | the table has one entry per item, and the u8 fields truncate log_interval's 300 to 44 and auto_light_time's maximum 1440 and default 480 to 160 and 224 |
| Config.GetU16 | APP/config/config.c:261-268 | auto_light_time reads its u16 field, for which Get_U8 gives 0; any other item reads as Get_U8 |
| Config.GetWithItem | APP/config/config.c:271-305 | writing one u8 item changes the value read back for that item only |
| Config.SetThenGet | APP/config/config.c:271-324 | an accepted set reads back the value, truncated to u8 unless it is auto_light_time; a refused set changes nothing |
| Config.TruncatedBoundsEnforced | APP/config/config.c:271-324 | log_interval above 44 is refused, auto_light_time is refused by Set_U8 whatever its value, and Set_U16 of temp_fan_on with 286 stores 30 |
| Config.DefaultsConsistent | APP/config/config.c:57-99 | the defaults pass validation, every default is accepted by its setter and matches the table, except the truncated auto_light_time |
| Config.ImageOf | APP/config/config.c:121-138 | the struct read from the config page is 46 bytes |
| Config.WordBytesBack | APP/config/config.c:178-181 | word i of the image holds the image's bytes 4i..4i+3 |
| Config.SavedWords | APP/config/config.c:169-187 | the page after the erase and n word programs has the page's size |
| Config.ErasedIsUnwritten | APP/config/config.c:169-175 | the erased page is the save before any word is programmed |
| Config.SavedPage | APP/config/config.c:154-194 | the page after a successful save has the page's size |
| Config.SavedPageBytes | APP/config/config.c:178-187 | a save leaves bytes 0..43 of the image in flash and the last two bytes erased |
| Config.ErasedTailNotLoadable | APP/config/config.c:138-147 | a page whose word 11 is erased fails the checksum test |
| Config.SaveThenLoadFails | APP/config/config.c:119-194 | loading after any successful save fails, because the save writes 44 of the 46 bytes |
| Config.WholePage | APP/config/config.c:178-187 | the page a save of all 46 bytes would leave has the page's size |
| Config.WholePageBytes | APP/config/config.c:178-187 | that page reads back the whole image |
| Config.WholeImageLoads | APP/config/config.c:119-151 | loading is the inverse of writing the whole stamped image: it succeeds and gives the configuration back |
| Config.WordLen | APP/config/config.c:387 | the token length is a run of non-space characters ended by a space or the end |
| Config.TokensWellFormed | APP/config/config.c:387-414 | every strtok token is non-empty and free of spaces |
| Config.FirstToken | APP/config/config.c:387-414 | a space-free word before a space is the next token |
| Config.ContainsAt | APP/config/config.c:390-451 | strstr finds the pattern exactly when it occurs at some position |
| Config.FirstItem | APP/config/config.c:425-441 | the lookup returns the first table entry whose name contains the given name, or none when no entry does |
| Config.Decimal | APP/config/config.c:422 | a decimal numeral is a non-empty string of digits |
| Config.AtoiDecimal | APP/config/config.c:422 | atoi reads back any decimal numeral, with or without a minus sign |
| Config.SubstringName | APP/config/config.c:425-428 | the name "alarm" selects temp_high_alarm, the first entry containing it |
| Config.ParseSet | APP/config/config.c:411-441 | a CONFIG_SET line with a name and a value sets the first matching item to atoi of the value; an unknown name does nothing |
| Config.ParseSetWithoutValue | APP/config/config.c:416-420 | a CONFIG_SET line without a value does nothing |
| Config.TruncatedSetCommand | APP/config/config.c:422-438 | "CONFIG_SET temp_fan_on 286" passes the range check and stores 30 |
| Config.Store.constructor | APP/config/config.c:8 | system_config starts zeroed |
| Config.Store.SetDefaults | APP/config/config.c:57-99 | system_config becomes the defaults, checksum included |
| Config.Store.Load | APP/config/config.c:119-151 | a magic or version mismatch returns 1 and leaves system_config; otherwise the page is copied and 0 is returned exactly when its checksum matches |
| Config.Store.Save | APP/config/config.c:154-194 | the checksum is recomputed; when the page can be erased and programmed, it holds the saved words and 0 is returned, otherwise 1 and flash unchanged |
| Config.Store.ProgramImage | APP/config/config.c:178-187 | the word loop programs the 11 words of the image onto the erased page |
| Config.Store.Reset | APP/config/config.c:197-202 | the defaults are restored and saved |
| Config.Store.Init | APP/config/config.c:102-116 | a loadable page is kept and loaded; otherwise the defaults are restored and saved; 0 is returned |
| Config.Store.SetU8 | APP/config/config.c:271-305 | a value within the item's table range is stored in its field and 0 returned; a value out of range, or the item auto_light_time, gives 1 and changes nothing |
| Config.Store.SetU16 | APP/config/config.c:308-324 | auto_light_time takes a value up to its bound; any other item is set through Set_U8 with the value truncated |
| Config.Store.SetAll | APP/config/config.c:334-338 | the whole struct is stored and its validation count returned |
| Config.Store.FindItem | APP/config/config.c:425-441 | the lookup loop finds the first entry whose name contains the given name |
| Config.Store.SetNamed | APP/config/config.c:422-441 | an unknown name changes nothing; a known one applies atoi of the value through the item's setter |
| Config.Store.HandleCommand | APP/config/config.c:379-467 | CONFIG_SET applies the setter, CONFIG_SAVE saves, CONFIG_RESET restores and saves the defaults, anything else changes neither the configuration nor flash |
| DataLogger.RawByteOfWord | APP/data_logger/data_logger.c:122-127 | byte k of the record is byte k mod 4, little-endian, of the word ReadRecord copies it with |
| DataLogger.FromBytesBytes | APP/data_logger/data_logger.h:83-89 | writing the sixteen bytes of the union and reading them back gives the same bytes |
| DataLogger.HeadWords | APP/data_logger/data_logger.h:41-55 | the first word of a record built from bytes is its timestamp and bytes 4..7 come back unchanged |
| DataLogger.SensorLayout | APP/data_logger/data_logger.c:147-162 | a sensor record reads back its timestamp, type 1, temperature, humidity and light |
| DataLogger.OperationLayout | APP/data_logger/data_logger.c:172-181 | an operation record reads back its timestamp and type 2 |
| DataLogger.AlarmLayout | APP/data_logger/data_logger.c:191-200 | an alarm record reads back its timestamp and type 3 |
| DataLogger.PresenceByteIsTimestampLowByte | APP/data_logger/data_logger.c:32 | the byte tested for 0xFF to decide whether a slot is in use is the low byte of the timestamp, not the type |
| DataLogger.SlotAddress | APP/data_logger/data_logger.c:29 | the address of a page and offset is that of global slot page·128 + offset, and it passes the bound test exactly when that slot is readable |
| DataLogger.LastSlotUnreadable | APP/data_logger/data_logger.c:124 | the bound test refuses the last slot, page 31 offset 127, and accepts every other slot |
| DataLogger.RegionGeometry | APP/data_logger/data_logger.h:32-39 | the region is 32 pages of 2048 bytes holding 4096 records of 16 bytes |
| DataLogger.FirstGapFrom | APP/data_logger/data_logger.c:24-55 | the first slot the scan reads as empty lies between the start slot and 4096 |
| DataLogger.NoGapBefore | APP/data_logger/data_logger.c:30-52 | every readable slot before the first gap is in use |
| DataLogger.ScanStep | APP/data_logger/data_logger.c:30-52 | reading one slot either ends the scan at an empty readable slot, takes in an in-use one, or skips an unreadable one |
| DataLogger.ScanFromSplit | APP/data_logger/data_logger.c:24-55 | scanning a span is scanning its first part and, unless that stopped, the rest |
| DataLogger.ScanFromScanned | APP/data_logger/data_logger.c:24-55 | the nested loops stop exactly at the first empty readable slot, having taken in every slot before it |
| DataLogger.ScannedCounts | APP/data_logger/data_logger.c:34-41 | the total counts every readable slot before the gap, and the three type counters never exceed it |
| DataLogger.AbsorbCounts | APP/data_logger/data_logger.c:34-41 | taking in a record adds one to the total and at most one to the type counters |
| DataLogger.ScannedCursor | APP/data_logger/data_logger.c:46-47 | the cursor is just after the last in-use slot taken in |
| DataLogger.InitCursor | APP/data_logger/data_logger.c:13-64 | after Init the cursor is the first empty slot, or slot 4095 when every readable slot is in use; the total is that slot's index and the type counters stay within it |
| DataLogger.ScannedNewest | APP/data_logger/data_logger.c:44-45 | the newest timestamp is at least that of every record taken in |
| DataLogger.TimestampStopsScan | APP/data_logger/data_logger.c:32-52 | a record whose timestamp ends in 0xFF ends the scan: neither it nor any later record is counted |
| DataLogger.Prepared | APP/data_logger/data_logger.c:78-100 | the erases before programming keep the size of the region |
| DataLogger.ProgramFrom | APP/data_logger/data_logger.c:103-112 | programming the words keeps the size of the region |
| DataLogger.ProgramFromFacts | APP/data_logger/data_logger.c:103-112 | the loop succeeds exactly when the page is unprotected and the words are erased; it writes the words and nothing outside them |
| DataLogger.WriteRecordFacts | APP/data_logger/data_logger.c:71-117 | a write lands in the slot under the cursor and succeeds exactly when that page is unprotected and the slot is erased; on success the slot holds the record, the offset and the total grow by one, and no other word changes |
| DataLogger.HitsStep | APP/data_logger/data_logger.c:217-247 | visiting one more slot appends that slot's hit |
| DataLogger.HitsPrefix | APP/data_logger/data_logger.c:217-247 | the hits of a shorter visit are a prefix of the hits of a longer one |
| DataLogger.HitsSound | APP/data_logger/data_logger.c:223-230 | every hit is a readable, in-use slot that matches the query |
| DataLogger.QueryResultSound | APP/data_logger/data_logger.c:210-249 | the query returns at most min(buffer_size, max_records) records, each a readable in-use slot below the start point, inside the time window and of the requested type (0 = any) |
| DataLogger.QueryFromStep | APP/data_logger/data_logger.c:223-240 | one slot of the loop either returns on a hit with a full buffer or appends the hit and moves down |
| DataLogger.QueryFromFull | APP/data_logger/data_logger.c:236-239 | a hit found with the buffer full returns the first hits collected so far |
| DataLogger.QueryFromHits | APP/data_logger/data_logger.c:217-247 | the downward loop returns the first min(buffer_size, max_records) hits of the visit |
| DataLogger.QueryPlan | APP/data_logger/data_logger.c:210-249 | the loop run from the cursor with nothing found yet gives the query result, within its bounds and matching the query |
| DataLogger.QueryFromWrappedOffset | APP/data_logger/data_logger.c:219 | with current_offset 0 the start offset wraps to 65535 and the query sees every readable slot from 4094 down |
| DataLogger.SumBound | APP/data_logger/data_logger.c:292-305 | a sensor byte sum is at most 255 per sensor record, and sensor plus operation records are at most the records found |
| DataLogger.AverageIsByte | APP/data_logger/data_logger.c:307-318 | an average of byte fields fits in a byte |
| DataLogger.Tally | APP/data_logger/data_logger.c:292-305 | the loop sums the three sensor bytes of the sensor records and counts the sensor and operation records |
| DataLogger.FirstLockedFrom | APP/data_logger/data_logger.c:261-268 | the first page that fails to erase lies between the start page and 32 |
| DataLogger.Logger.constructor | APP/data_logger/data_logger.c:22 | logger_info starts zeroed |
| DataLogger.Logger.ReadRecord | APP/data_logger/data_logger.c:119-130 | an address failing the bound test gives nothing; otherwise the four words at the address |
| DataLogger.Logger.ScanSlot | APP/data_logger/data_logger.c:29-52 | one slot of the scan: an in-use record is counted, a readable empty slot ends the scan |
| DataLogger.Logger.ScanPage | APP/data_logger/data_logger.c:27-54 | the inner loop scans the slots of one page in order until an empty one |
| DataLogger.Logger.Init | APP/data_logger/data_logger.c:13-64 | logger_info becomes the result of the forward scan, with the cursor moved to the next page when the last one found is full |
| DataLogger.Logger.WriteRecord | APP/data_logger/data_logger.c:71-117 | the cursor, flash and status are those of the write specification |
| DataLogger.Logger.PrepareSlot | APP/data_logger/data_logger.c:78-100 | the cursor moves to the next page when full and wraps to page 0, and the pages are erased as the write requires |
| DataLogger.Logger.ProgramRecord | APP/data_logger/data_logger.c:103-112 | the four words are programmed in order, stopping at the first failure |
| DataLogger.Logger.WriteSensorData | APP/data_logger/data_logger.c:147-170 | a sensor record stamped with the counter is written; on success the sensor count grows and the newest timestamp is set |
| DataLogger.Logger.WriteOperation | APP/data_logger/data_logger.c:172-189 | an operation record is written; on success the operation count grows and the newest timestamp is set |
| DataLogger.Logger.WriteAlarm | APP/data_logger/data_logger.c:191-208 | an alarm record is written; on success the alarm count grows and the newest timestamp is set |
| DataLogger.Logger.Query | APP/data_logger/data_logger.c:210-249 | the records are the query result: at most min(buffer_size, max_records), all matching the query |
| DataLogger.Logger.QueryPage | APP/data_logger/data_logger.c:219-245 | the inner loop visits one page from its start offset down to 0, or returns early on a full buffer |
| DataLogger.Logger.QuerySlot | APP/data_logger/data_logger.c:222-243 | one slot is appended when it is a hit and there is room; a hit with no room ends the query |
| DataLogger.Logger.EraseAll | APP/data_logger/data_logger.c:257-272 | pages are erased in order up to the first protected one; only when all are erased is logger_info zeroed and 0 returned |
| DataLogger.Logger.GetDailyStats | APP/data_logger/data_logger.c:274-320 | the averages and the operation count are those of the query for up to 100 records in [date, date + 86400] |
| Ws2812Color.UnpackPack | APP/ws2812/ws2812.c:851-858 | packing three channels as 0xGGRRBB and unpacking them gives the channels back |
| Ws2812Color.PackUnpack | APP/ws2812/ws2812.c:351-353 | unpacking a colour and repacking it keeps its low 24 bits |
| Ws2812Color.ScaleDims | APP/ws2812/ws2812.c:366-368 | at a brightness of at most 100 a channel is never brightened; 100 shows it as stored and 0 turns it off |
| Ws2812Color.MixBetween | APP/ws2812/ws2812.c:854-856 | a blended channel lies between the two inputs; factor 0 gives the first and 255 the second |
| Ws2812Color.BlendBetween | APP/ws2812/ws2812.c:849-859 | each channel of a blend lies between the channels of the two colours; factor 0 gives the first colour and 255 the second |
| Ws2812Color.Levels | APP/ws2812/ws2812.c:830-832 | the p, q and t levels never exceed the value |
| Ws2812Color.HsvPeak | APP/ws2812/ws2812.c:817-844 | the value is the brightest channel of the colour, reached by one channel; saturation 0 gives grey |
| Ws2812Color.ByteHueSectors | APP/ws2812/ws2812.c:827-828 | a hue below 256 falls in sectors 0..5 with a remainder of (hue mod 43)·6 |
| Ws2812.TempLevel | APP/ws2812/ws2812.c:402 | the temperature bar height lies in 0..5 |
| Ws2812.HumiLevel | APP/ws2812/ws2812.c:430 | the humidity bar width lies in 0..5 |
| Ws2812.LightLevel | APP/ws2812/ws2812.c:457 | the light diagonal level lies in 0..10 |
| Ws2812.LevelsGrow | APP/ws2812/ws2812.c:402-457 | the three levels never fall when their readings rise |
| Ws2812.BarsGrow | APP/ws2812/ws2812.c:398-474 | a pixel lit for a reading stays lit for every higher reading |
| Ws2812.LevelEnds | APP/ws2812/ws2812.c:402-457 | the levels are 0 below 10 °C, 20 %RH and 10 % light, and full from 50 °C, 100 %RH and 90 % light |
| Ws2812.BarEnds | APP/ws2812/ws2812.c:398-474 | below the low ends nothing is lit; from the high ends the whole matrix is lit in the reading's colour |
| Ws2812.StatusRegions | APP/ws2812/ws2812.c:479-509 | a pixel of the fan square, the pump square or the light cross is lit exactly when that device is on; nothing is lit with all three off |
| Ws2812.EyeFactorRange | APP/ws2812/ws2812.c:796 | the left eye's blend factor lies in 20..100 for a fan speed of at most 100 |
| Ws2812.BlueBlend | APP/ws2812/ws2812.c:797 | blending from off towards blue by f gives blue at level f |
| Ws2812.FaceMeaning | APP/ws2812/ws2812.c:784-812 | the right eye is blue exactly when the pump is on and the mouth exactly when the light is on, white otherwise; the left eye is white with the fan off and blue at 20..100 with it on |
| Ws2812.BreathTurns | APP/ws2812/ws2812.c:533-539 | the breathing step climbs to 100, then falls to 0, and turns at both ends without wrapping |
| Ws2812.RainbowWrapsAt256 | APP/ws2812/ws2812.c:527 | the rainbow step is a u8, so (step + 1) % 360 stored back wraps at 256 and hues 256..359 never appear |
| Ws2812.FlowColumn | APP/ws2812/ws2812.c:547-553 | the water flow lights exactly the column at the step |
| Ws2812.Matrix.Frame | APP/ws2812/ws2812.c:359-373 | the frame sent holds one colour per LED, 25 in all |
| Ws2812.Matrix.constructor | APP/ws2812/ws2812.c:311-326 | the display starts off, without animation, at 50 % brightness, with blue as the animation colour; the frame buffer is all zero and RGB_LED_Clear leaves the 25 LEDs dark |
| Ws2812.Matrix.SetPixel | APP/ws2812/ws2812.c:347-354 | a pixel on the matrix takes the colour's channels, a position off the matrix is ignored, and no other pixel changes |
| Ws2812.Matrix.ClearBuffer | APP/ws2812/ws2812.c:164-174 | every pixel of the frame buffer becomes black |
| Ws2812.Matrix.Paint | APP/ws2812/ws2812.c:404-419 | after clearing and drawing, the buffer shows the picture |
| Ws2812.Matrix.Update | APP/ws2812/ws2812.c:359-373 | the strip receives every pixel row by row, scaled by the brightness |
| Ws2812.Matrix.SetBrightness | APP/ws2812/ws2812.c:389-393 | the brightness is stored, clamped to 100 |
| Ws2812.Matrix.LedClear | APP/ws2812/ws2812.c:152-159 | the strip receives 25 dark LEDs and the buffer is kept |
| Ws2812.Matrix.SetDisplayMode | APP/ws2812/ws2812.c:378-384 | the mode is stored, and MODE_OFF darkens the strip |
| Ws2812.Matrix.Show | APP/ws2812/ws2812.c:404-420 | the buffer shows the picture and the strip receives the frame |
| Ws2812.Matrix.SetAllColor | APP/ws2812/ws2812.c:331-342 | every pixel shows the colour and the frame is sent |
| Ws2812.Matrix.ShowTemperature | APP/ws2812/ws2812.c:398-421 | the buffer shows the temperature bar and the frame is sent |
| Ws2812.Matrix.ShowHumidity | APP/ws2812/ws2812.c:426-448 | the buffer shows the humidity bar and the frame is sent |
| Ws2812.Matrix.ShowLightLevel | APP/ws2812/ws2812.c:453-474 | the buffer shows the light diagonal and the frame is sent |
| Ws2812.Matrix.ShowSystemStatus | APP/ws2812/ws2812.c:479-509 | the buffer shows the device regions and the frame is sent |
| Ws2812.Matrix.ShowManualFace | APP/ws2812/ws2812.c:784-812 | the buffer shows the face for the device states and the fan speed, and the frame is sent |
| Ws2812.Matrix.StartAnimation | APP/ws2812/ws2812.c:566-590 | the animation type is set and its step reset; only breathing sets the colour |
| Ws2812.Matrix.Rainbow | APP/ws2812/ws2812.c:525-529 | the u8 step advances and every pixel shows the hue at full saturation and the brightness |
| Ws2812.Matrix.Breathe | APP/ws2812/ws2812.c:531-543 | the breathing statics take one step and every pixel shows the colour blended from off |
| Ws2812.Matrix.Flow | APP/ws2812/ws2812.c:545-555 | the step advances modulo 5 and only its column is lit |
| Ws2812.Matrix.ProcessAnimation | APP/ws2812/ws2812.c:514-561 | outside the animation mode, or with no animation, nothing changes; otherwise the running animation takes one step |
| Bluetooth.MatchDevice | APP/greenhouse_control/greenhouse_control.c:460-614 | the branches from STATUS to TREND pick no moved command; a line with STATUS is the status query and a line with MANUAL picks one of them |
| Bluetooth.MatchModule | APP/greenhouse_control/greenhouse_control.c:623-762 | the HC-05 branches and RGB_TEMP, RGB_HUMIDITY and RGB_LIGHT pick no moved command |
| Bluetooth.MatchEffect | APP/greenhouse_control/greenhouse_control.c:769-826 | RGB_OFF, the animations and the patterns pick no moved command |
| Bluetooth.MatchColor | APP/greenhouse_control/greenhouse_control.c:838-948 | the colours, RGB_BRIGHT and HELP pick no moved command, and RGB_BRIGHT only when its keyword is found |
| Bluetooth.FoundTrans | APP/greenhouse_control/greenhouse_control.c:460-897 | strstr finds in a line whatever a keyword found in it contains |
| Bluetooth.StrstrNested | APP/greenhouse_control/greenhouse_control.c:615-827 | every line with SENSOR_STATUS or RGB_STATUS contains STATUS, and every line with RGB_MANUAL_FACE contains MANUAL |
| Bluetooth.ShadowedCommands | APP/greenhouse_control/greenhouse_control.c:460-827 | as written, SENSOR_STATUS, RGB_STATUS and RGB_MANUAL_FACE are never dispatched; a line with RGB_STATUS runs the STATUS branch, and one with RGB_MANUAL_FACE but neither STATUS nor AUTO runs the MANUAL branch |
| Bluetooth.ClassifyFixedAgrees | APP/greenhouse_control/greenhouse_control.c:460-952 | the corrected chain agrees with the written one on every line without the three moved keywords |
| Bluetooth.FixedReachesShadowed | APP/greenhouse_control/greenhouse_control.c:615-827 | in the corrected chain each moved keyword selects its own command, tested ahead of the shorter keyword it contains |
| Bluetooth.BrightnessHasKeyword | APP/greenhouse_control/greenhouse_control.c:882-886 | in both the written and the corrected order, the brightness branch is taken only when the keyword is there to read the number after |
| Bluetooth.FoundContains | APP/greenhouse_control/greenhouse_control.c:460 | the strstr test agrees with the substring search the configuration parser uses |
| Bluetooth.CString | APP/greenhouse_control/greenhouse_control.c:451 | the string strstr and atoi see is the bytes before the first NUL |
| Bluetooth.CStringStopsAtNul | APP/greenhouse_control/greenhouse_control.c:451 | writing the NUL at the count makes the string the received bytes up to any earlier NUL |
| Bluetooth.After | APP/greenhouse_control/greenhouse_control.c:884-886 | the text after the keyword is no longer than the line |
| Bluetooth.BrightnessArgDecimal | APP/greenhouse_control/greenhouse_control.c:884-886 | RGB_BRIGHT followed by a decimal number below 256 carries that number |
| GreenhouseLogic.Not | APP/greenhouse_control/greenhouse_control.c:350-401 | C's ! on a u8 is 1 exactly for 0, and 0 otherwise |
| GreenhouseLogic.NotToggles | APP/greenhouse_control/greenhouse_control.c:350-401 | ! toggles between the two modes and between the two device states |
| GreenhouseLogic.UpdateDeviceStatus | APP/greenhouse_control/greenhouse_control.c:1013-1035 | a repeated status changes nothing; a new one is stored with its time stamp and one more switch, the other stamp kept |
| GreenhouseLogic.UpdateIdempotent | APP/greenhouse_control/greenhouse_control.c:1017 | repeating an update with the same status changes nothing more |
| GreenhouseLogic.SwitchesCountChanges | APP/greenhouse_control/greenhouse_control.c:1013-1035 | switch_count counts the actual changes of state modulo 2^16, and the status is the last one requested |
| GreenhouseLogic.RunTimeCountsBothPhases | APP/greenhouse_control/greenhouse_control.c:1018-1029 | total_run_time grows on both edges: on at t1, off at t2 and on at t3 give t3 − t1, the off period included |
| GreenhouseLogic.ReplayStep | APP/greenhouse_control/greenhouse_control.c:1013-1035 | replaying one more update applies it to the replayed state |
| GreenhouseLogic.RunFromTimeZeroLost | APP/greenhouse_control/greenhouse_control.c:1026 | a device switched on at time 0 has no on stamp, so its first run is not counted |
| GreenhouseLogic.Flags | APP/greenhouse_control/greenhouse_control.c:409-416 | the flag byte of six conditions uses bits 0x01 to 0x20 only |
| GreenhouseLogic.FlagsDecode | APP/greenhouse_control/greenhouse_control.c:409-416 | every flag bit reads back its own condition, and the byte is ALARM_NONE exactly when no condition holds |
| GreenhouseLogic.FlagsInjective | APP/greenhouse_control/greenhouse_control.c:409-416 | distinct condition sets give distinct flag bytes |
| GreenhouseLogic.BeepPriority | APP/greenhouse_control/greenhouse_control.c:421-431 | the beep is that of the highest-priority condition: sensor error, high temperature, low temperature, low humidity, high humidity, low light |
| GreenhouseLogic.AlarmBeeps | APP/greenhouse_control/greenhouse_control.c:404-438 | whenever an alarm condition holds, a beep is selected for it |
| GreenhouseLogic.AlarmFlagsMeaning | APP/greenhouse_control/greenhouse_control.c:411-416 | a reading past its configured limit raises its bit, an odd sensor_error the sensor bit, and nothing else raises a bit |
| GreenhouseLogic.FanHysteresis | APP/greenhouse_control/greenhouse_control.c:139-181 | the fan is on after a step exactly when the temperature reaches the threshold, or it was on and has not fallen below threshold − hysteresis; a hysteresis above the threshold never switches it off |
| GreenhouseLogic.PumpHysteresis | APP/greenhouse_control/greenhouse_control.c:208-227 | the pump is on after a step exactly when the humidity is at most the threshold, or it was on and is at most threshold + hysteresis |
| GreenhouseLogic.LightHysteresis | APP/greenhouse_control/greenhouse_control.c:232-251 | the light is on after a step exactly when the level is below the threshold, or it was on and is at most threshold + hysteresis |
| GreenhouseLogic.HysteresisKeepsOther | APP/greenhouse_control/greenhouse_control.c:152-250 | a device state that is neither on nor off is never switched |
| GreenhouseLogic.FanTargets | APP/greenhouse_control/greenhouse_control.c:139-203 | the fan runs at the tier with a floor of 25 from the threshold, with a floor of 20 in the band while running, stops when switched off and is otherwise left; a target lies in 20..70 |
| GreenhouseLogic.FanTierMonotone | APP/greenhouse_control/greenhouse_control.c:142-150 | the tier speed never falls when the temperature rises |
| GreenhouseLogic.EdgeLogsChange | APP/greenhouse_control/greenhouse_control.c:152-250 | an automatic step logs one operation per actual edge, with the true old and new states and trigger 0, and none otherwise |
| GreenhouseLogic.WithBit0 | APP/greenhouse_control/greenhouse_control.c:95-101 | setting or clearing bit 0 of sensor_error changes that bit alone |
| GreenhouseLogic.EveryFifthSample | APP/greenhouse_control/greenhouse_control.c:112-124 | counting calls from 0, a sensor record is written on every fifth call |
| Greenhouse.LongPressCycles | APP/greenhouse_control/greenhouse_control.c:370-379 | starting from 0, repeated long presses of KEY0 step the fan speed through 0, 10, ..., 100 and then back to 0 |
| Greenhouse.LongPressBounded | APP/greenhouse_control/greenhouse_control.c:373-376 | from any speed of at most 100, a long press adds 10 and falls back to 0 above 100, so the speed stays within 0..100 |
| Greenhouse.CommandKinds | APP/greenhouse_control/greenhouse_control.c:459-952 | each Bluetooth command falls into exactly one group: mode or device switch, RGB display, or informational (no state change) |
| Greenhouse.Halted | APP/greenhouse_control/greenhouse_control.c:480-498 | leaving MANUAL for AUTO can only turn a run status's ON into OFF; the on and off times, total run time and switch count are untouched |
| Greenhouse.Controller.constructor | APP/greenhouse_control/greenhouse_control.c:22-79 | after Greenhouse_Init: AUTO mode, fan, pump and light off, no alarm and no sensor error, idle run statuses, zero readings, run time and log counter |
| Greenhouse.Controller.UpdateSensors | APP/greenhouse_control/greenhouse_control.c:81-125 | an absent sensor keeps the last valid temperature and humidity and sets bit 0 of sensor_error; a present one clears the bit and stores the frame's integer bytes when the checksum matches, or the untouched locals when it does not; light is the averaged ADC percentage; every fifth call queues one sensor record |
| Greenhouse.Controller.FanAuto | APP/greenhouse_control/greenhouse_control.c:136-203 | the fan follows the hysteresis band (ON at or above the threshold, OFF below threshold minus hysteresis, otherwise unchanged) and each edge is logged; the speed tier is written only when the PWM reads back differently |
| Greenhouse.Controller.DriveFan | APP/greenhouse_control/greenhouse_control.c:159-163 | the PWM is read back and the speed is rewritten only when it differs from the target; afterwards the PWM reads the target |
| Greenhouse.Controller.PumpAuto | APP/greenhouse_control/greenhouse_control.c:205-227 | the pump comes ON at or below the humidity threshold and goes OFF above threshold plus hysteresis; each edge is logged and drives the marquee |
| Greenhouse.Controller.LightAuto | APP/greenhouse_control/greenhouse_control.c:229-251 | the light comes ON below the light threshold and goes OFF above threshold plus hysteresis; each edge is logged |
| Greenhouse.Controller.AutoControl | APP/greenhouse_control/greenhouse_control.c:127-252 | outside AUTO mode nothing changes; in AUTO mode fan, pump and light each take their hysteresis step with the configured thresholds, their edges are logged fan, pump, light in that order, and the fan speed follows the fan's command |
| Greenhouse.Controller.CheckAlarms | APP/greenhouse_control/greenhouse_control.c:404-438 | the alarm flags are recomputed from the readings; an unchanged set does nothing; a cleared set silences the buzzer and the alarm LED; a new non-empty set lights the alarm LED and logs one alarm record |
| Greenhouse.Controller.ManualFan | APP/greenhouse_control/greenhouse_control.c:260-273 | the fan status takes the action, the speed becomes 45 % when on and 0 when off, and the switch is logged with the manual trigger |
| Greenhouse.Controller.ManualPump | APP/greenhouse_control/greenhouse_control.c:275-288 | the pump status and marquee take the action, the switch is logged and the pump's run status is updated |
| Greenhouse.Controller.ManualLight | APP/greenhouse_control/greenhouse_control.c:290-296 | the light status takes the action and the switch is logged |
| Greenhouse.Controller.ManualControl | APP/greenhouse_control/greenhouse_control.c:254-301 | only in MANUAL mode and only for devices 1, 2 and 3 does anything change; the chosen device takes the action and is logged; only the pump's run status is updated |
| Greenhouse.Controller.PumpControl | APP/greenhouse_control/greenhouse_control.c:303-317 | the pump ends in the requested state; the marquee and the run status change only when the state actually changes |
| Greenhouse.Controller.ProcessKey | APP/greenhouse_control/greenhouse_control.c:350-401 | KEY_UP toggles the work mode and logs it; no other key changes the mode; in MANUAL mode a short KEY0 press toggles the fan through the manual control, while a long press only changes the speed |
| Greenhouse.Controller.ShowFace | APP/greenhouse_control/greenhouse_control.c:524 | the strip shows the status face for the three device states and the stored fan speed |
| Greenhouse.Controller.BtFan | APP/greenhouse_control/greenhouse_control.c:516-542 | outside MANUAL mode FAN_ON/FAN_OFF changes nothing; in MANUAL mode the PWM goes to 100 % or 0 %, the fan status and run status follow, and the face is redrawn |
| Greenhouse.Controller.BtPump | APP/greenhouse_control/greenhouse_control.c:544-570 | outside MANUAL mode PUMP_ON/PUMP_OFF changes nothing; in MANUAL mode the marquee, the pump status and the run status follow, and the face is redrawn |
| Greenhouse.Controller.BtLight | APP/greenhouse_control/greenhouse_control.c:572-598 | outside MANUAL mode LIGHT_ON/LIGHT_OFF changes nothing; in MANUAL mode the light status and run status follow, and the face is redrawn |
| Greenhouse.Controller.BtAuto | APP/greenhouse_control/greenhouse_control.c:473-503 | the mode becomes AUTO; coming from MANUAL, each device whose run status is ON is stopped and its run status is marked OFF; fan_status, pump_status and light_status stay as they were |
| Greenhouse.Controller.RgbDisplay | APP/greenhouse_control/greenhouse_control.c:745-768 | RGB_TEMP, RGB_HUMIDITY, RGB_LIGHT and RGB_STATUS select their display mode and show the picture of the current reading or of the device states |
| Greenhouse.Controller.RgbOff | APP/greenhouse_control/greenhouse_control.c:769-774 | RGB_OFF selects the off mode and darkens every LED on the strip |
| Greenhouse.Controller.RgbAnimation | APP/greenhouse_control/greenhouse_control.c:777-794 | RGB_RAINBOW, RGB_BREATHING and RGB_FLOW select animation mode and restart the chosen animation at step 0; breathing uses blue |
| Greenhouse.Controller.RgbPattern | APP/greenhouse_control/greenhouse_control.c:797-835 | the pattern commands select pattern mode; RGB_MANUAL_FACE also shows the status face |
| Greenhouse.Controller.RgbSolid | APP/greenhouse_control/greenhouse_control.c:838-881 | each colour command selects solid-colour mode and shows every pixel in that colour |
| Greenhouse.Controller.RgbBrightness | APP/greenhouse_control/greenhouse_control.c:882-894 | the brightness becomes the number after RGB_BRIGHT, truncated to 8 bits, and only when it is at most 100 |
| Greenhouse.Controller.DeviceDispatch | APP/greenhouse_control/greenhouse_control.c:473-598 | AUTO sets the mode and, coming from MANUAL, marks every running device's run status OFF (stamps and counts kept) and stops the fan PWM and the marquee of those that were on; MANUAL only sets the mode; a switch acts only when the mode was MANUAL, where the device status and its run status follow, the PWM goes to 100 % or 0 % or the marquee follows, and the face is redrawn and sent; every status, run status, output and the strip not named by the command keep their values |
| Greenhouse.Controller.DisplayDispatch | APP/greenhouse_control/greenhouse_control.c:745-894 | an RGB command sets its display mode; a reading, the status squares, a solid colour or the manual face is drawn and its frame sent; RGB_OFF darkens the strip and keeps the buffer; an animation command sets its animation type, step 0 and blue for breathing, without drawing; RGB_BRIGHT takes its number when at most 100 and changes nothing else; the animation state is kept by every other command and the brightness by every command but RGB_BRIGHT |
| Greenhouse.Controller.Dispatch | APP/greenhouse_control/greenhouse_control.c:459-952 | the line is decoded by its first matching keyword in the firmware's order; a mode or device command has the effect DeviceDispatch states and leaves the display mode, brightness and animation alone; a display command has the effect DisplayDispatch states and leaves the mode, devices, run statuses and outputs alone; an informational command changes nothing; so a line containing STATUS (including RGB_STATUS) changes nothing, and RGB_MANUAL_FACE without STATUS or AUTO selects MANUAL mode |
| Greenhouse.Controller.HandleBluetooth | APP/greenhouse_control/greenhouse_control.c:440-956 | without a complete line nothing changes: the status word, buffer, mode, devices, run statuses, outputs and display are as before; with one, the NUL goes at the received count, the text up to it is dispatched as `Greenhouse.Controller.Dispatch` states, and the status word is cleared |
| Greenhouse.Controller.Task | APP/greenhouse_control/greenhouse_control.c:964-996 | one period: the as-written DHT11 read of UpdateSensors (last valid readings, bit 0 of sensor_error) and the light percentage; the automatic control in AUTO mode only, with the fan speed following its command; the recomputed alarm flags with their buzzer and LED effect; the log receives, in order, the sensor record of every fifth period, the automatic edges and the alarm record; the run-time counter is incremented modulo 2^32 |
| Greenhouse.Controller.Control | APP/greenhouse_control/greenhouse_control.c:986-992 | on the current readings: the hysteresis control only in AUTO mode, with the fan speed following its command and kept outside AUTO; then the alarm check; the log receives the automatic edges and then the alarm record of a new non-empty alarm set, which always selects a buzzer pattern other than none |

## Left out

- Output: `printf` and `u3_printf` text, `Config_Print_All`, `Config_Print_Item`, `DataLogger_PrintRecords` (which also rewrites the RTC counter), `Greenhouse_Display_Status`, `Greenhouse_Update_Display` and the TFT screen. The STATUS, STATS, TREND, SENSOR_STATUS and HELP commands only print, so their model changes no state; TREND is empty in the code.
- Plain copies with no logic: `Config_Get_All`, `Config_Get_ItemInfo` and `DataLogger_GetInfo`. The stub's `Config_Init` only prints.
- Hardware bring-up: GPIO, RCC, ADC, TIM and NVIC set-up, `USART3_Init`, `Lsens_Init`, the register part of `Fan_PWM_Init`, and `RTC_Init`'s oscillator waits and backup registers. `Greenhouse_Init`'s calls to the driver initialisers are not modelled; its own state is.
- Flash failure is deterministic in the model: erase and program fail on pages in the bank's `locked` set, and program also fails on a word that is not erased. Real flash can fail for other reasons.
- The clocks are inputs: `system_time_ms` is the `now` parameter, and `DataLogger_GetTimestamp` is replaced by that parameter. ADC samples, the DHT11 presence answer and frame, key pin levels and the two KEY0 readings taken after `delay_ms` are inputs as well.
- Concurrency: the USART3 and RTC interrupts are modelled as separate sequential transitions, one byte or one tick each.
- DHT11: bit timing (`DHT11_Rst`, `DHT11_Check`, `DHT11_Read_Bit`), the floating-point `DHT11_Filter_Data`, `DHT11_Read_Data_Enhanced` with its retries, and the calibration offsets.
- WS2812: wire timing and per-dot drawing (`RGB_LED_Write*`, `RGB_Draw*`, `RGB_ShowCharNum`); the bitmaps of the heart, smiley, check, cross and robot patterns (only the mode change is modelled); `RGB_Start_Alarm_Animation` and `RGB_Stop_Alarm_Animation`, which do nothing.
- Ws2812.Matrix.Breathe: the breathing animation's floating-point brightness factor is a parameter.
- The buzzer tones `BEEP_Short`, `BEEP_Long` and their delays, called after manual control and key handling.
- Greenhouse.Controller.HandleBluetooth: the BT_* branches are classified, but their HC-05 AT-command exchanges and diagnostics are not modelled, so in the model they change no state. The debug counter `command_count` is left out.
- Greenhouse.Controller.UpdateSensors and Greenhouse.Controller.CheckAlarms queue log records in `requests`. The composition with `DataLogger.Logger` is not modelled, because the C code ignores the logger's results.
- `control_mode`, `alarm_count`, `auto_mode_ratio`, `env_history` and `Greenhouse_Task`'s `task_counter` are not modelled: the core never reads them, or uses them only for printing.
- `LED_System`, `LED_Light_Set` and the supplemental-light GPIO: the light is modelled by its status only.
- `Config_Handle_Command`: `strtok`'s hidden state is modelled as a tokenisation of the command line. `atoi`'s overflow on very long numbers is not modelled; `atoi` is taken on decimal digits.
- rtc.c: `RTC_Timer_Check` and `RTC_Process_Interrupt` use fields that `RTC_Timer_t` does not have, so they are not modelled. `Format_Time` and `Format_Date` only format text. Timer callbacks are modelled as numeric ids, with 0 for NULL.
- StubRtc.Clock.TimerCheck: a weekly timer checked on week 0 would shift by −1, which is undefined in C; the model treats that week as selecting nothing.
- Key debounce: the 10 ms re-read is modelled as the second of two readings per scan.

## Findings

Each row has an as-written member and a corrected one, both proved. `Rtc.Clock.SetAlarm` uses the corrected alarm delay. `Greenhouse.Controller` uses the as-written DHT11 read and the as-written Bluetooth dispatch, so its contracts describe the device as built.

| source | as written | input that shows it | evidently intended | confidence | as-written member | corrected member |
|---|---|---|---|---|---|---|
| APP/rtc/rtc.c:222-225 | the difference to the alarm time is an unsigned 32-bit value, so the `<= 0` test only catches 0 and an earlier time of day wraps | now 12:00:00, alarm 11:00:00: delay 2^32 − 3600 s | one day is added, giving 23 hours (82800 s) | not executed | Rtc.AlarmDelayAsWritten, Rtc.AlarmWraps | Rtc.AlarmDelay, Rtc.Clock.SetAlarm |
| APP/dht11/dht11.c:165-173 | a frame whose checksum does not match still returns 0 (success) and leaves the outputs unwritten | frame [60, 0, 25, 0, 0] with the sensor present | a checksum mismatch is a failed read (status 1) | not executed | Dht11.ReadDataAsWritten, Dht11.CorruptFrameReportedGood | Dht11.ReadData, Dht11.ReadDataMeaning |
| APP/greenhouse_control/greenhouse_control.c:460-827 | the `strstr` chain tests "STATUS" before "SENSOR_STATUS" and "RGB_STATUS", and "MANUAL" before "RGB_MANUAL_FACE", so those three commands are never reached | the line "SENSOR_STATUS" takes the STATUS branch; "RGB_MANUAL_FACE" switches to manual mode | each documented command reaches its own branch | not executed | Bluetooth.Classify, Bluetooth.ShadowedCommands | Bluetooth.ClassifyFixed, Bluetooth.FixedReachesShadowed |
