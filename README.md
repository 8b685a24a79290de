# Grow-box controller, modelled in Dafny

The grow box is a MicroPython controller. It switches a grow light on a
daily window, waters dry soil, runs a fan periodically and on high humidity,
keeps a newest-first log of what it did, and serves a small dashboard that
also has a "run the pump" button. This project models the logic under the
hardware and network plumbing, and proves what that logic promises.

The modules follow the source files:

- `Controller` models `main.py`. It has the pure rules of one loop pass:
  light window, dry-soil pump, periodic fan timer and humidity fan. It also
  has the routing of one request and a `GrowBox` class whose fields are the
  pins, `last_fan_run` and the `logs` list. Its methods change them in place
  and are proved equal to the rules.
- `EventLog` models the log list that `log_event` grows at the front and
  trims from the end.
- `EnvFile` models `load_env`: a loop over the file's lines, proved against
  a recursive specification of the parse.
- `MakePage` models the fields `make_page` interpolates: `fmt`, the `--`
  placeholders and the table rows.
- `RtcUtils` models the time formatters and the packet arithmetic of
  `sync_ntp_time`.
- `Temp` models the AHT21 frame decoding and `get_temp`.
- `Soil` models the ADC-to-percentage map.
- `Decimal` holds the zero-padded decimal rendering that every formatter
  uses, with its read-back proofs.
- `Wrappers` holds `Option`.

Everything the program gets from the outside world is an input. That covers
sensor frames, the ADC value, every `localtime()` and `time()` reading (each
call separately), the received request bytes and the lines of the
credentials file. Numbers are exact `real`s, and the number-to-text step of
Python formatting is an abstract `Show` parameter.

Behaviours of the code that the model reproduces and proves:

- `log_event` formats its readings with `:.1f`, so a `None` reading raises
  before anything is inserted. In the main loop that ends the
  pass. Every later rule is skipped, the light's transition entry is lost,
  and `last_fan_run` is not updated. So while the sensor gives no reading,
  the periodic fan is due again on every pass (`MissingReadingLogsNothing`,
  `BusyReadingKeepsFanDue`).
- A pump request from the dashboard with a reading missing still runs the
  pump. Then `log_event` raises inside the request handler, which catches
  it: nothing is logged and no response is sent (`ServeRoutes`).
- The handler decodes the request as UTF-8 for printing before it looks
  for the pump marker. A request that holds the marker next to a byte that
  is not valid UTF-8 therefore raises there. The handler catches it: the
  pump does not run, nothing is logged and nothing is sent. So the marker
  does not route to the pump whatever other bytes are present
  (`ServeRoutes`).
- The periodic fan always ends with the fan off, so the humidity fan can run
  in the same pass. The two fan rules read as exclusive, but in the code
  they are not (`TickLogsFiredEvents`).
- `get_temp` catches only `RuntimeError`. The `OSError` that `aht21_init`
  re-raises leaves `get_temp` and skips the whole pass, light included
  (`SensorResetFailureSkipsPass`).
- Python truthiness on the dashboard means midnight shows as `--`, and so
  does completely dry soil (0.0) (`TimeText`, `DashboardOfDrySoil`).
- The log's temperature unit is the two characters U+00C2 U+00B0 followed
  by `F`, as the file spells it. The page's unit is U+00B0 `F`.
- `load_env` tests for `#` on the raw line but splits the stripped line. A
  line such as ` #K`, indented and without `=`, therefore ends the parse
  (`CommentTestUsesRawLine`).

## Model

| member | source | states |
|---|---|---|
| Decimal.ZeroPad | rtc_utils.py:55 | `{:0w}` of n has length max(w, digits of n), is all digits, and reads back as n |
| Decimal.ZeroPadWidth | rtc_utils.py:70 | a number below 10^w pads to exactly w characters |
| Decimal.ValueOfDigits | main.py:93 | the unpadded decimal of a number reads back as that number |
| Decimal.PaddedTripleReadsBack | rtc_utils.py:55 | three fields below 100 give exactly `DD:DD:DD` and read back as the three numbers |
| Soil.MoisturePercent | soil.py:16-21 | the percentage is always within [0, 100] |
| Soil.MoistureRegions | soil.py:16-21 | raw <= 22000 gives 100.0, raw >= 55000 gives 0.0, in between (55000 - raw)/33000*100, strictly inside (0, 100) |
| Soil.MoistureIsClampedLine | soil.py:16-21 | the if/elif/else equals the interpolation line clamped to [0, 100] |
| Soil.MoistureAntitone | soil.py:16-21 | a wetter (smaller) raw value never gives a smaller percentage |
| Soil.MoistureContinuousAtEnds | soil.py:16-21 | the formula agrees with the clamps at 22000 and 55000 |
| Temp.RawHumidityArith | temp.py:48 | the bit expression is ((data[1]*256 + data[2]) div 16) |
| Temp.RawHumidityRange | temp.py:48 | the raw humidity is a 12-bit value |
| Temp.RawTemperatureArith | temp.py:51 | the bit expression is (data[3] mod 16)*65536 + data[4]*256 + data[5] |
| Temp.RawTemperatureRange | temp.py:51 | the raw temperature is a 20-bit value |
| Temp.RawTemperatureIgnoresHighNibble | temp.py:51 | the high nibble of data[3] does not affect the temperature |
| Temp.HumidityRange | temp.py:48 | decoded humidity lies in [0, 100) |
| Temp.TemperatureRange | temp.py:51 | decoded temperature lies in [-50, 150) degrees C |
| Temp.Aht21Read | temp.py:24-53 | raises RuntimeError iff the bus was never set up; otherwise both values are None or both present and in range |
| Temp.ReadDecodesIffReady | temp.py:37-53 | a frame is decoded iff it arrived and the busy bit 0x80 is clear, and then it is the scaled bit fields |
| Temp.GetTemp | temp.py:55-73 | raises OSError iff the reset failed; both-or-neither; Fahrenheit in [-58, 302), humidity in [0, 100) |
| Temp.GetTempConverts | temp.py:65-73 | a present reading comes back as (c*9/5 + 32, humidity), any missing one as (None, None) |
| RtcUtils.Hour12 | rtc_utils.py:60-64 | the 12-hour clock hour lies in 1..12 and agrees with the hour modulo 12 |
| RtcUtils.Hour12Table | rtc_utils.py:57-65 | 0 is 12 AM, 1..11 AM, 12 is 12 PM, 13..23 are h-12 PM; the suffix is AM iff hour < 12; hour and suffix give the hour back |
| RtcUtils.Time24hReadsBack | rtc_utils.py:52-55 | the 24-hour time is `DD:DD:DD` and reads back as hour, minute, second |
| RtcUtils.Time12hReadsBack | rtc_utils.py:57-65 | the 12-hour time is `DD:DD:DD` + space + suffix, 11 characters, and gives the 24-hour hour back |
| RtcUtils.DateUsReadsBack | rtc_utils.py:67-70 | the date is `MM/DD/YYYY`, ten characters, whose fields read back as month, day, year |
| RtcUtils.DateFormatsAgree | main.py:93 | the log's date with an unpadded year equals the US date from year 1000 on |
| RtcUtils.DateTime24hSplits | rtc_utils.py:76-78 | date, a space, then the 24-hour time: 19 characters |
| RtcUtils.DateTime12hSplits | rtc_utils.py:72-74 | date, a space, then the 12-hour time: 22 characters |
| RtcUtils.NtpRequest | rtc_utils.py:36 | the request is 48 bytes: 0x1b, then 47 zero bytes |
| RtcUtils.NtpRequestHeader | rtc_utils.py:36 | 0x1b is leap indicator 0, version 3, mode 3 (client), as in section 7.3 of RFC 5905 |
| RtcUtils.BigEndian | rtc_utils.py:41 | an n-byte big-endian value is below 256^n |
| RtcUtils.BigEndianRoundTrip | rtc_utils.py:41 | decoding the big-endian bytes of v gives v back |
| RtcUtils.TransmitSeconds | rtc_utils.py:38-41 | `struct.unpack("!I", msg[40:44])` succeeds iff the reply has 44 bytes, giving a value below 2^32 |
| RtcUtils.TransmitSecondsReadsField | rtc_utils.py:41 | the value is exactly the unsigned number stored big-endian in bytes 40..43 |
| RtcUtils.LocalEpochRange | rtc_utils.py:42 | t = val - 2208988800 + offset: the Unix epoch maps to the offset, and t stays below the 2036 rollover |
| RtcUtils.RtcSettingKeepsTime | rtc_utils.py:48-49 | the RTC tuple keeps date and time, zeroes subseconds, maps weekday 0..6 one-to-one onto 1..7 |
| EventLog.CellTexts | main.py:92-99 | an entry has six texts, date, time and event first |
| EventLog.Push | main.py:92-101 | the entry is first, the old log follows in order, and the length grows by one below 50 and stays at 50 otherwise |
| EventLog.PushAllIsNewestFirst | main.py:92-101 | any run of appends gives the newest entries first, then the old log, cut at 50 |
| EventLog.PushAllBounded | main.py:100-101 | the log never holds more than 50 entries |
| EventLog.FiftyOneAppends | main.py:100-101 | after 51 appends to an empty log the first is gone and the newest is in front |
| EventLog.PushAllAppend | main.py:92-101 | appending two runs one after the other equals appending their concatenation |
| EnvFile.Strip | main.py:17-18 | `strip()` is the slice between the leading and trailing whitespace, which is all that is cut |
| EnvFile.SplitAtFirst | main.py:18 | `split("=", 1)` unpacks iff there is an `=`; key + `=` + value is the line, and the key holds no `=` |
| EnvFile.Classify | main.py:17-18 | a line is skipped iff blank or its raw text starts with `#`; malformed iff otherwise without `=`; an entry splits the stripped line at its first `=` |
| EnvFile.LoadEnv | main.py:11-22 | an unreadable file gives the empty dictionary; otherwise the loop's dictionary is the parse of the lines |
| EnvFile.CollectedAppend | main.py:16-19 | reading a file in two parts, the first without a malformed line, is reading it whole |
| EnvFile.MalformedLineStops | main.py:18-22 | a line without `=` ends the parse: the result is what the lines before it gave |
| EnvFile.LaterEntryWins | main.py:19 | a later line for a key overwrites the earlier value |
| EnvFile.CollectedKeys | main.py:16-19 | without a malformed line, the keys are exactly the keys of the entry lines |
| EnvFile.ValueKeepsLaterEquals | main.py:18 | `K=a=b` gives key `K` and value `a=b` |
| EnvFile.SpacesAroundEqualsKept | main.py:18 | `K = 1` gives key `K ` and value ` 1` |
| EnvFile.CommentTestUsesRawLine | main.py:17 | `#K=1` is skipped, an indented ` #K` is malformed |
| MakePage.FmtReadsBack | makePage.py:5 | below 100 hours `fmt` is `DD:DD:DD`; h*3600 + m*60 + s is the input, m and s below 60, and h below 24 within a day |
| MakePage.FmtAtLeastEight | makePage.py:5 | `fmt` is never shorter than 8 characters |
| MakePage.TimeText | makePage.py:9-10 | the on/off time shows `--` iff it is None or 0 |
| MakePage.ReadingTextDashes | makePage.py:12-14 | a reading shows `--` iff it is None or zero |
| MakePage.SplitJoin | makePage.py:20-23 | splitting a newline join of newline-free lines gives the lines back |
| MakePage.CellsNewlineFree | makePage.py:21 | cells built from newline-free texts hold no newline |
| MakePage.RowsOfNoLogs | makePage.py:17-23 | `logs=None` and an empty log both give an empty rows string |
| MakePage.RowsOnePerEntry | makePage.py:20-23 | the rows string splits into exactly one `<tr>` row per entry, in the log's order |
| MakePage.PagePlaceholders | makePage.py:9-23 | the temp, humidity and soil fields are `--` iff their value is None or zero, on_str likewise, and no log gives no rows |
| Controller.LightWindow | main.py:78-82 | the window is [25200, 79200): 25200 is on, 79200 off, and a time is on iff its hour is 7..21 |
| Controller.Logged | main.py:89-101 | logging completes iff both readings are present, and then pushes exactly that entry; nothing else changes |
| Controller.LoggedKeepsIdle | main.py:100-101 | a logged event keeps the log within 50 and the pins as they were |
| Controller.RulesKeepIdle | main.py:119-150 | a pass, completed or cut short, leaves fan and pump off and the log within 50 |
| Controller.LightLoggedOnTransition | main.py:120-125 | the light follows the window; ON is logged iff it was off, OFF iff it was on, nothing on no change |
| Controller.PumpRunsWhenDry | main.py:128-131 | the pump runs and logs iff soil < 35; 35 does not trigger |
| Controller.PeriodicFanTimer | main.py:134-141 | the fan runs iff 1800 s passed since the stored run; the timer takes the post-run clock, and is untouched otherwise |
| Controller.HumidityFanWhenHumid | main.py:144-150 | the humidity fan runs and logs iff humidity > 60 and the fan is off; 60 does not trigger |
| Controller.TickLogsFiredEvents | main.py:119-150 | with readings present a pass completes: light per window, fan and pump off, timer moved iff the fan was due, and exactly the fired events logged in order |
| Controller.MissingReadingLogsNothing | main.py:119-150 | with a reading missing, the light still switches but the log and the fan timer are untouched, and a due fan aborts the pass |
| Controller.FirstIterationRunsFan | main.py:134 | with the timer at its start value 0, the first pass's fan test passes |
| Controller.ContainsIff | main.py:159 | the byte-string `in` test holds iff the marker occurs at some position |
| Controller.MarkerAnywhereRoutesToPump | main.py:159 | the marker anywhere in the request, whatever surrounds it, passes the `in` test that routes a decoded request to the pump |
| Controller.ServeRoutes | main.py:157-172 | a request that does not decode as UTF-8 runs nothing, gets no response and changes nothing; a decoded marker request runs the pump; with both readings present it gets a redirect and exactly one "Pump ran (manual)" entry, with a reading missing no response and no entry; any other decoded request gets the dashboard and no change |
| Controller.ServeHeaders | main.py:159-172 | for a decoded request, the headers sent are the 302 to `/` for a pump request that logged, none for one whose logging raised, and 200 `text/html` otherwise |
| Controller.DashboardOfDrySoil | main.py:167 | on the dashboard the light times always show, and fully dry soil shows as `--` |
| Controller.ServeKeepsIdle | main.py:159-161 | the request handler keeps fan and pump off and the log within 50 |
| Controller.IterationKeepsIdle | main.py:114-178 | every pass of the main loop, however it ends, keeps the controller idle |
| Controller.SensorResetFailureSkipsPass | main.py:116 | an OSError from the sensor reset leaves the state untouched and serves no request |
| Controller.BusyReadingKeepsFanDue | main.py:134-141 | when the periodic fan is due, a sensor whose I2C transfer failed or whose frame has the busy bit set loses every event, keeps the fan timer, and serves no request |
| Controller.GrowBox.constructor | main.py:54-64 | start-up: all pins off, timer 0, empty log |
| Controller.GrowBox.LogEvent | main.py:89-101 | the log becomes the pushed log; nothing else changes |
| Controller.GrowBox.RunPump | main.py:67-73 | the pump ends off; nothing else changes |
| Controller.GrowBox.RunFan | main.py:136-138 | the fan ends off; nothing else changes |
| Controller.GrowBox.UpdateLedState | main.py:75-87 | the pin follows the window and the window's ends are returned with the status |
| Controller.GrowBox.LightStep | main.py:120-125 | the new state is the light rule applied to the old one |
| Controller.GrowBox.PumpStep | main.py:128-131 | the new state is the pump rule applied to the old one |
| Controller.GrowBox.PeriodicFanStep | main.py:134-141 | the new state is the periodic fan rule applied to the old one |
| Controller.GrowBox.HumidityFanStep | main.py:144-150 | the new state is the humidity fan rule applied to the old one |
| Controller.GrowBox.Tick | main.py:119-150 | the new state and whether the pass completed are the four rules in order, and the controller stays idle |
| Controller.GrowBox.HandleRequest | main.py:153-169 | the response and new state are the request handler's, and the controller stays idle |
| Controller.GrowBox.Iterate | main.py:114-178 | the response and new state are one pass of the main loop, and the controller stays idle |

## Left out

- Wi-Fi bring-up, `connect_wifi` and their wait loops (main.py:32-48, rtc_utils.py:7-24): network I/O.
- The start-up credentials check (main.py:25-30): it raises on a missing SSID or password before the loop starts; only `load_env` is modelled.
- Socket setup and `accept`/`recv`/`send`/`close` (main.py:104-111, 153-175), and the UDP exchange of `sync_ntp_time` (rtc_utils.py:32-40): I/O. A request is its received bytes plus whether they decode as UTF-8, and the `recv(1024)` cap is not modelled. An accept timeout is `NoClient`, with no effect on the state. The `finally` that closes a stale or unbound `client` only raises into the outer handler at the end of a pass, so it is not modelled.
- `print`, and the outer handler's message (main.py:177-178): a caught exception is modelled only as the end of the pass.
- Sleep durations (pump 1 s, fans 20 s and 10 s, loop 1 s): a run is its switching on and then off.
- Pin, ADC, I2C and RTC drivers: readings are inputs, pin states are fields. `aht21_init`'s bus setup and soft reset are its outcome (`Ready` or `ResetFailed`), and the I2C measurement command and read are a received frame or a bus error.
- Floating point: readings and scaling are exact reals. `str()` and `:.1f`/`:.2f` rendering go through the abstract `Show` parameter.
- The HTML and CSS template of `make_page` (makePage.py:25-113): static text; the page is the record of the fields it interpolates.
- MakePage.Fmt: takes non-negative seconds only. Python's floor division on negative seconds is not modelled; `make_page` only receives the window's ends.
- The standalone test loops (soil.py:27-30, temp.py:75-77).
