# AgXRP irrigation controller: a Dafny model

This project models the control core of the AgXRP irrigation controller, a
MicroPython program for a small robot board. The board waters a few potted
plants from soil-moisture readings and offers a Wi-Fi configuration page.
The model covers:

- **The request handler** (`handle_client`). The raw request text becomes an
  `Action` by way of its first line, its method and path, the path's
  `/`-segments, `int()` and `float()`, and the index and value checks
  (`Requests.Dispatch`). `Requests.Apply` gives the action's effect on the
  configuration store, and `Requests.Reply` gives the response written.
  `Controller.Irrigator.HandleClient` performs the action on the controller's
  state in place.
- **The pump discipline**: take the plant's lock, drive the motor at full
  effort, wait, drive it at zero effort, release the lock
  (`Pump.PumpActuator`). It is modelled as a log of events and proved safe:
  the motor is never driven while its lock is free, and the pump is idle
  afterwards.
- **The autonomous pass** (`autonomous_cycle_once`): the value recorded for
  each plant, and the pumps it runs (`Autonomous.Plan`,
  `Controller.Irrigator.AutonomousCycleOnce`).
- **The button watcher** (`button_watcher`): a debounce automaton driven by
  pin reads (`Button.Step`, `Button.Run`, `Controller.Irrigator.WatchButton`).
- **Mode dispatch**: entering configuration mode (which stops every pump before
  the access point and server come up), leaving it, and one turn of `main`
  (`Controller.Irrigator.MainStep`).
- **The moisture sensor driver** (`XRPLib/moisture_sensor.py`):
  - the 16-bit little-endian status mask, per-channel wet states with their
    polarity, and channel checks;
  - the byte masking of `_setreg`;
  - the short cut in `is_connected`;
  - the lazily created default instance.

Outside effects are recorded in order rather than performed:

- `Controller.Irrigator.journal` records pump runs and stops, the LED, and the
  access point and server going up and down.
- `Pump.PumpActuator.log` records each motor's lock and effort steps.
- `MoistureSensor.Sensor.bus` records the I2C transfers.

Hardware reads come in as parameters:

- the ADC readings (`None` when `read_u16()` raises);
- the button pin samples;
- the sensor's register answers;
- Python's `float()`, as the function `floatOf`.

Floats are `Floats.Float`, which is a finite real, a signed infinity or NaN.
The controller only compares durations with zero and passes them to the
scheduler's wait. That wait converts the duration to whole milliseconds, so it
raises for a non-finite one (`Floats.WaitAccepts`). It also raises for a
duration too long for the tick arithmetic, which the model does not capture
(see Left out).

Three facts about the code shape the model:

- Entering configuration mode (main.py:365-370) sets each motor's effort to
  0.0 without taking the pump's lock. `Pump.PumpActuator.Stop` does the same.
- An actuation whose wait raises leaves the motor running (see Findings). The
  model records that sequence as `Pump.ActuationAsWritten`. Everywhere else it
  uses the corrected sequence, which stops the motor on every exit.
- The pump route rejects a duration when `secs <= 0` holds, and the duration
  route when `water_secs < 0` holds. NaN makes both tests false, so it is
  accepted. The model keeps these tests as `Floats.AtMostZero` and
  `Floats.BelowZero`.

## Model

| member | source | states |
|---|---|---|
| Text.FirstLine | main.py:211 | `req_s.split('\n', 1)[0]`: the result is a prefix of the request, contains no newline, and is followed by a newline whenever it is shorter than the request |
| Text.FirstLineOf | main.py:211 | a newline-free line followed by `\n` and anything else has exactly that line as its first line |
| Text.TrimStart | main.py:211 | the leading part of `strip()`: a suffix of the input that is empty or does not start with whitespace |
| Text.TrimEnd | main.py:211 | the trailing part of `strip()`: a prefix of the input that is empty or does not end with whitespace |
| Text.StripTrims | main.py:211 | `strip()` is no longer than its input, leaves no whitespace at either end, and keeps a text without whitespace at its ends as it is |
| Text.Word | main.py:212 | the leading run of non-whitespace characters, followed by whitespace or the end of the text |
| Text.Tokens | main.py:212 | `split()`: no word is empty and none contains whitespace |
| Text.TokensOfUnwords | main.py:212 | `split()` of nonempty whitespace-free words joined by single spaces gives those words back |
| Text.TokensOfWordThenSpace | main.py:212 | a word followed by a space contributes exactly that word, then the words of the rest |
| Text.TokensIgnoreTrailingSpace | main.py:212 | a trailing whitespace character (the request line's CR) adds no word |
| Text.TokensOfStrip | main.py:211-212 | `strip()` before `split()` does not change the words |
| Text.Split | main.py:240 | `path.split('/')`: at least one piece, and no piece contains `/` |
| Text.JoinOfSplit | main.py:240 | joining the pieces of `split('/')` with `/` gives back the path |
| Text.JoinKeepsEnds | main.py:240 | `sep.join(parts)`, the inverse of `split`, starts with the first part and ends with the last |
| Text.SplitOfJoin | main.py:240 | splitting `/`-free pieces joined by `/` gives back the pieces |
| Text.DigitValue | main.py:241 | the digit value MicroPython's integer parser gives a character: below 10 exactly for `0`-`9`, letters above that, and nothing a digit in any base |
| Text.ParseDigits | main.py:241 | a value exactly for nonempty runs of digits of the given base |
| Text.LeadingZeroIgnored | main.py:241 | a leading `0` does not change the value, so `int("007")` is 7 |
| Text.Radix | main.py:241 | base detection after the sign: `0x`, `0o` or `0b`, in either case, selects base 16, 8 or 2 and is dropped; any other text is read in base 10 unchanged |
| Text.ParseIntAccepts | main.py:241 | `int()` succeeds exactly on a stripped text that is, after at most one `+` or `-`, either decimal digits or a `0x`, `0o` or `0b` prefix followed by digits of that base; the value is negative only after a `-` |
| Text.ParseIntOfParts | main.py:241 | `int()` of a stripped text is the value of the digits its prefix leaves, in the prefix's base, negated after a `-` |
| Text.PrefixSelectsBase | main.py:241 | `int("0x" + ds)` reads `ds` in base 16, and likewise `0o` in base 8 and `0b` in base 2, in either case |
| Text.NegatedPrefixSelectsBase | main.py:241 | `int("-0x" + ds)` is the negation of the value of `ds` in base 16, and likewise for `0o` and `0b` |
| Text.DecimalRadix | main.py:241 | a run of decimal digits has no base prefix |
| Text.HexScenario | main.py:241 | `int("0x10")` is 16 |
| Text.NegatedOctalScenario | main.py:241 | `int("-0o17")` is -15 |
| Text.BarePrefixScenario | main.py:241 | `int("0x")` raises: a prefix needs a digit after it |
| Text.ParseIntOfIntToString | main.py:241 | `int(str(i)) == i` for every integer, negative ones included |
| Requests.PlantIndex | main.py:241-242 | an index exactly when `int()` parses the segment and the value is in `0 .. n-1`, and then that value |
| Requests.SoilRoute | main.py:238-242 | `ReadSoil(i)` exactly when the path has four segments and the last is an index in range, `i` being `int()` of that segment; 400 otherwise |
| Requests.PumpRoute | main.py:262-268 | `RunPump(i, secs)` exactly when there are five segments, an index in range and a duration `float()` parses that is not `<= 0` (NaN passes); then `i` is `int()` of segment 3 and `secs` is `float()` of segment 4; 400 otherwise |
| Requests.ThresholdRoute | main.py:286-290 | `SetThreshold(i, v)` exactly when there are five segments, an index in range and an integer value, with no check on the value; then `i` and `v` are `int()` of segments 3 and 4; 400 otherwise |
| Requests.WaterRoute | main.py:302-308 | `SetWater(i, secs)` exactly when there are five segments, an index in range and a duration that is not `< 0`; then `i` is `int()` of segment 3 and `secs` is `float()` of segment 4; 400 otherwise |
| Requests.Route | main.py:218-319 | routes are tried in source order: the page exactly for `GET /`, the toggle exactly for `POST /api/toggle_mode`, 404 exactly when no method and exact path or path prefix of the table matches, indexed actions only for plants that exist, pump durations never `<= 0`, water durations never `< 0` |
| Requests.PrefixesDisjoint | main.py:238-300 | the route prefixes `/api/update_soil/`, `/api/pump/`, `/api/set_threshold/` and `/api/set_water/` exclude each other and the exact paths tried before them |
| Requests.RouteByPrefix | main.py:238-318 | a `GET` path under `/api/update_soil/` is answered by the soil route, and a `POST` path under `/api/pump/`, `/api/set_threshold/` or `/api/set_water/` by that route |
| Requests.RequestWords | main.py:211-212 | the words of the request's first line, each nonempty and free of whitespace |
| Requests.Dispatch | main.py:203-215 | the action for a request text names only existing plants, never a pump duration `<= 0` and never a water duration `< 0` |
| Requests.Apply | main.py:230-315 | a toggle flips (line 232) the mode, a setter replaces exactly its own entry, and every other entry and every other action leaves the store unchanged |
| Requests.Reply | main.py:218-319 | no response exactly for a malformed request line; 200 exactly for the page, the toggle, the setters, a soil read that succeeded and a pump run whose wait completed; 404 exactly for an unmatched route; 400 `ERR` exactly for a rejected request, a failed soil read and a pump run whose wait raised; the page for `GET /`, the JSON of the raw reading for a soil read, and `OK` for every other 200 |
| Requests.SilentIffFewerThanTwoWords | main.py:211-214 | the handler writes nothing exactly when the first line has fewer than two words |
| Requests.WordsOfRequestText | main.py:211-212 | the words of `METHOD PATH HTTP/1.1\r\n` plus any headers are exactly the method, the path and the version |
| Requests.WordsOfFirstLine | main.py:211-212 | only the first line's words matter, whatever the headers hold |
| Requests.TokensOfRequestLine | main.py:212 | the request line, CR included, splits into its three words |
| Requests.DispatchOfRequestText | main.py:211-215 | a well-formed request is routed on its own method and path |
| Requests.SegmentsOfApiPath | main.py:262 | `/api/{name}/{i}/{v}` splits into exactly the five segments `"", "api", name, i, v`, as the unpacking here and at lines 286 and 302 requires |
| Requests.IndexedSegments | main.py:262-263 | the path built from an integer index has five segments, the fourth parsing back to the index (likewise at lines 286-287 and 302-303) |
| Requests.RouteOfPumpPath | main.py:260 | a pump path reaches the pump route, not the toggle route before it |
| Requests.RouteOfThresholdPath | main.py:284 | a threshold path reaches the threshold route past the routes before it |
| Requests.RouteOfWaterPath | main.py:300 | a duration path reaches the duration route past the routes before it |
| Requests.SetThresholdRequest | main.py:284-297 | `POST /api/set_threshold/{i}/{v}` sets threshold `i` to `v` for every integer `v` when `i` is a plant's index and is rejected otherwise; with Apply, reading the threshold back gives `v` |
| Requests.SetWaterRequest | main.py:300-315 | `POST /api/set_water/{i}/{s}` sets duration `i` to `float(s)` exactly when `i` is a plant's index and the duration is not negative; rejected otherwise |
| Requests.PumpRequest | main.py:260-281 | `POST /api/pump/{i}/{s}` runs pump `i` for `float(s)` exactly when `i` is a plant's index and the duration is not `<= 0`; rejected otherwise |
| Requests.PumpScenario | main.py:260-276 | with two plants, `POST /api/pump/0/2` runs pump 0 for 2 seconds and answers 200 OK |
| Requests.PumpOutOfRangeScenario | main.py:265-279 | with two plants, `POST /api/pump/5/2` is rejected with 400 |
| Requests.ReadSoilRequest | main.py:238-257 | `GET /api/update_soil/{i}` reads plant `i`'s sensor exactly when `i` is a plant's index; rejected otherwise |
| Requests.SoilSegments | main.py:240 | `/api/update_soil/{i}` splits into exactly four segments, the last being `i` |
| Requests.ToggleTwiceRestores | main.py:230-235 | `POST /api/toggle_mode` routes to the toggle, which flips the mode, and two toggles restore it |
| Requests.FailedRequestsChangeNothing | main.py:211-319 | a request that is not a toggle or a setter (malformed, rejected, not found, the page, a soil read, a pump run) leaves the store unchanged |
| Autonomous.Sample | main.py:397-401 | the value recorded for a plant is its reading, or 0 when the read raised |
| Autonomous.Samples | main.py:396-401 | `adc_values` after a pass: entry `i` is plant `i`'s recorded value |
| Autonomous.Plan | main.py:396-414 | a pass runs only dry plants' pumps (recorded value strictly below the threshold), each for that plant's duration, in increasing plant order |
| Autonomous.DryMeans | main.py:397-405 | a plant whose read raised is dry exactly when its threshold is above 0; otherwise exactly when its reading is below its threshold |
| Autonomous.PlanRunsExactlyTheDryPlants | main.py:405-414 | a plant's pump runs in the pass exactly when the plant is dry |
| Autonomous.AllReadsFailingWaterEveryPositiveThreshold | main.py:399-405 | when every read fails, exactly the plants with a positive threshold are watered |
| Autonomous.DefaultThresholdsScenario | main.py:405 | with the defaults of lines 19-20, thresholds 1000, readings 800 and 1200: only plant 0 is watered, for 3.0 seconds |
| Pump.ActuationShape | main.py:270-274 | the corrected actuation (also lines 410-414): takes the lock, sets effort 1.0, ends with effort 0.0 and the release, and waits exactly when the wait completes |
| Pump.ActuationAsWrittenShape | main.py:270-274 | as written (also lines 410-414): takes the lock, sets effort 1.0 and ends with the release; effort 0.0 is set exactly when the wait completes |
| Pump.ActuationIsSafe | main.py:270-274 | for this sequence and its copy at lines 410-414: every state of an actuation started idle drives the motor only under the lock; the pump ends idle whether or not the wait completes; and the motor is at full effort under the lock when the wait starts |
| Pump.ActuationAsWrittenLeavesMotorRunning | main.py:270-274 | as written here and at lines 410-414, a wait that raises leaves the lock free with the motor at full effort |
| Pump.NaNActuationLeavesMotorRunning | main.py:264-274 | a NaN duration passes the `secs <= 0` guard and, as written, leaves the motor running |
| Pump.ActuationAgreesWhenWaitCompletes | main.py:270-274 | the written and the corrected sequences agree whenever the wait completes |
| Pump.PumpActuator.constructor | main.py:46 | a new pump is unlocked, stopped and has no history |
| Pump.PumpActuator.Actuate | main.py:270-274 | one actuation (also lines 410-414) is appended to the pump's log; the pump stays safe and ends idle; the result says whether the wait completed |
| Pump.PumpActuator.Stop | main.py:367-368 | sets the motor's effort to 0.0 without touching the lock, and the pump stays safe |
| Button.Step | main.py:429-439 | one pin read: the mode flips exactly on a debounce re-read of 0; debouncing starts exactly on a 1 -> 0 edge with `last = 1`; the watcher holds exactly while the pin stays 0 after a debounce |
| Button.TwoReadsPerToggle | main.py:429-434 | every flip of the mode takes two pin reads, the edge and its debounce re-read, so a run of reads flips at most half as often as it reads |
| Button.StepLast | main.py:429-439 | the `last` a read leaves: the read itself while polling, and 0 after a debounce re-read or the release wait, since line 439 stores the edge's first read |
| Button.FlippedParity | main.py:434 | an even number of flips restores the mode and an odd number inverts it |
| Button.ToggleIffConfirmedEdge | main.py:431-434 | a read flips the mode exactly when the previous read started a 1 -> 0 edge from `last = 1` and both reads are 0 |
| Button.PollingOneAfterRelease | main.py:439 | `last` is 1 only before any read (line 425) or right after a read of 1 |
| Button.TogglesAtMostFalls | main.py:431-438 | the mode flips no more often than the pin falls from 1 to 0 |
| Button.OnesNeverToggle | main.py:431 | reads of 1 never flip the mode |
| Button.HeldPressTogglesOnce | main.py:436-438 | a press held for any number of reads flips the mode once |
| Button.PressAfterReleaseToggles | main.py:429-438 | after two released reads, a two-read press flips the mode exactly once |
| Button.GlitchIgnored | main.py:431-439 | a press that reads 1 on its re-read is ignored, and since `last` is then 0, a press that follows without a release is ignored too |
| Controller.ReadEdge | main.py:429-433 | one poll: the pin read, plus the debounce re-read on a 1 -> 0 edge; the press is confirmed exactly when both reads are 0 |
| Controller.AwaitRelease | main.py:436-438 | after a toggle, reads until the pin is 1 and leaves the watcher polling with `last = 0` |
| Controller.Irrigator.constructor | main.py:16-46 | start-up state: two plants, autonomous mode, thresholds 1000, durations 3.0, readings 0, no server, every pump idle |
| Controller.Irrigator.HandleClient | main.py:200-319 | the store becomes Apply of the routed action; the response is Reply's; only a pump request actuates a pump, and only that plant's; the readings and the server are untouched |
| Controller.Irrigator.Perform | main.py:218-319 | the routed action performed in place, with the same store, response and actuation as HandleClient |
| Controller.Irrigator.AutonomousCycleOnce | main.py:394-416 | records every plant's value; runs exactly Plan's pumps, in plant order, each one actuation for its duration; leaves every other plant's pump alone and the settings unchanged |
| Controller.Irrigator.TendPlant | main.py:397-414 | one plant: record its value, then actuate its pump exactly when the value is below its threshold |
| Controller.Irrigator.RunPumpFor | main.py:270-274 | one actuation (also lines 410-414) of plant `i`'s pump under its lock; the result says whether the wait completed |
| Controller.Irrigator.WatchButton | main.py:422-442 | over a finite sequence of reads, the mode ends flipped once for every confirmed press that Button.Run counts; nothing else changes |
| Controller.Irrigator.StopAllPumps | main.py:365-370 | every plant's motor is set to effort 0.0, in plant order |
| Controller.Irrigator.EnterConfig | main.py:360-375 | LED on (line 462), then every motor stopped, then the access point and the server come up; each pump's log gains exactly one effort-0.0 step; the mode, the settings and the readings are unchanged |
| Controller.Irrigator.ExitConfig | main.py:382-391 | stops the server if one is running and clears it, then takes the access point down |
| Controller.Irrigator.MainStep | main.py:448-471 | the server runs afterwards exactly when the flag is set. With the server up, the readings and the pump logs are unchanged: nothing happens while the flag is set, and configuration is left when it has dropped. With no server and the flag set, configuration is entered and each pump's log gains one effort-0.0 step. Otherwise the LED goes off, the readings become the pass's samples, and each dry plant's pump log gains one actuation |
| MoistureSensor.ActiveMask | XRPLib/moisture_sensor.py:92 | `raw[0]` or-ed with `raw[1] << 8`: the low byte is `raw[0]` and the high byte is `raw[1]` |
| MoistureSensor.Active | XRPLib/moisture_sensor.py:101 | bit `ch` of the mask; always clear past bit 15 |
| MoistureSensor.Wet | XRPLib/moisture_sensor.py:101-102 | wet exactly when the bit agrees with the polarity |
| MoistureSensor.ReadActiveMask | XRPLib/moisture_sensor.py:88-92 | fails exactly when the status register constant is 0x00; otherwise the mask holds the two status bytes, low byte first |
| MoistureSensor.MaskReads | XRPLib/moisture_sensor.py:88-91 | no bus transfer exactly when the register constant is 0x00 |
| MoistureSensor.IsWet | XRPLib/moisture_sensor.py:94-102 | a channel out of range fails with the channel error; in range, it fails exactly when the mask read fails and otherwise gives that channel's wet state |
| MoistureSensor.IsWetReads | XRPLib/moisture_sensor.py:98-101 | a channel out of range is rejected before any bus transfer |
| MoistureSensor.LowByte | XRPLib/moisture_sensor.py:56 | `dat & 0xFF` is `dat` modulo 256, negative `dat` included |
| MoistureSensor.Connected | XRPLib/moisture_sensor.py:77-80 | true when both ID constants are 0x00; otherwise exactly when the ID read equals the expected value |
| MoistureSensor.MaskIsLittleEndian | XRPLib/moisture_sensor.py:92 | channels 0-7 are the bits of byte 0 and channels 8-15 the bits of byte 1 |
| MoistureSensor.MaskInRange | XRPLib/moisture_sensor.py:92 | the mask lies in 0 .. 65535 |
| MoistureSensor.ShippedConstantsNeverRead | XRPLib/moisture_sensor.py:88-101 | with the register constants as shipped, `read_active_mask` always fails without a bus transfer, and so does `is_wet` on every valid channel |
| MoistureSensor.ShippedConstantsAlwaysConnected | XRPLib/moisture_sensor.py:77-78 | with the ID constants as shipped, `is_connected` is true whatever device answers |
| MoistureSensor.PolarityInverts | XRPLib/moisture_sensor.py:102 | inverting the polarity inverts every channel's answer |
| MoistureSensor.LowByteKeepsBytes | XRPLib/moisture_sensor.py:56 | a value already in 0 .. 255 is stored unchanged, and adding multiples of 256 does not change the stored byte |
| MoistureSensor.Sensor.constructor | XRPLib/moisture_sensor.py:22-42 | a driver with the given address, channel count, polarity and one-byte transmit and receive buffers, and no transfers yet |
| MoistureSensor.Sensor.SetReg | XRPLib/moisture_sensor.py:55-57 | stores `dat & 0xFF` in the transmit buffer and writes that byte to the register |
| MoistureSensor.Sensor.GetReg | XRPLib/moisture_sensor.py:59-61 | one one-byte read into the receive buffer, returning the byte read |
| MoistureSensor.Sensor.IsConnected | XRPLib/moisture_sensor.py:72-80 | answers Connected, reading the ID register only when an ID constant is set |
| MoistureSensor.Sensor.ReadMask | XRPLib/moisture_sensor.py:82-92 | answers ReadActiveMask with exactly MaskReads' transfers |
| MoistureSensor.Sensor.CheckWet | XRPLib/moisture_sensor.py:94-102 | answers IsWet with exactly IsWetReads' transfers |
| MoistureSensor.Sensor.ReadAll | XRPLib/moisture_sensor.py:104-113 | one mask read; fails exactly when it fails; otherwise one answer per channel (none for a negative count), each being `is_wet`'s answer for that channel |
| MoistureSensor.Registry.constructor | XRPLib/moisture_sensor.py:11 | no default instance yet |
| MoistureSensor.Registry.GetDefault | XRPLib/moisture_sensor.py:13-20 | the first call creates a sensor with the default address 0x37, two channels, active-means-wet and the shipped constants; every later call returns that same sensor |

## Left out

- Cooperative scheduling is not modelled: `asyncio` tasks, their interleaving
  and the sleeps. Operations run one at a time. Each lock is a flag that is
  free between operations, so a caller queueing on a held lock never arises.
  The button watcher's and the configuration task's sleeps only space out
  reads.
- Network and server I/O are not modelled: `reader.read(1024)`, decoding,
  `writer.write`, `drain`, `wait_closed`, `create_ap`, `start_webserver` and
  `stop_webserver`. The request is the text given to HandleClient. The
  response is an `Option<Response>`. Bringing the access point and server up
  and down is a journal entry. The empty-read early return and the
  `str(req)` fallback for undecodable bytes are left out with the I/O.
- `generate_html` and `_send_json` are not modelled. The page is the body
  `Page`, and the soil JSON is the body `SoilJson(raw)`.
- Python's `float()` is a parameter (`floatOf`). Decimal-to-binary rounding
  and the float arithmetic of durations are not modelled.
- Text.ParseInt: MicroPython's `int()` skips `_` characters within the
  digits. The model rejects any text that contains `_`.
- Floats.WaitAccepts: every finite duration is treated as a wait that
  completes. MicroPython's sleep also raises when the duration in
  milliseconds overflows the tick arithmetic (`ticks_add`). For example,
  `POST /api/pump/0/3000000` is accepted by the guard, and its wait would
  raise. That overflow is not modelled. Its consequence is the one in
  Findings for NaN: the motor is left running.
- The members below perform the corrected actuation (`Pump.Actuation`), not
  the one as written (`Pump.ActuationAsWritten`). The controller's invariant
  requires every pump to be idle between operations. So the state the code
  can reach after a raised wait, a free lock with the motor at full effort,
  is not representable in the controller. As a consequence, EnterConfig and
  StopAllPumps are never shown stopping a motor left running that way.
- Pump.PumpActuator.Actuate: performs the corrected actuation.
- Controller.Irrigator.RunPumpFor: performs the corrected actuation.
- Controller.Irrigator.HandleClient: a pump request performs the corrected
  actuation.
- Controller.Irrigator.Perform: a pump request performs the corrected
  actuation.
- Controller.Irrigator.AutonomousCycleOnce: each dry plant's pump performs
  the corrected actuation.
- Controller.Irrigator.TendPlant: a dry plant's pump performs the corrected
  actuation.
- Controller.Irrigator.MainStep: in the autonomous branch, each dry plant's
  pump performs the corrected actuation.
- Motors, pins, the ADC, the board LED and `gc.collect` are not modelled as
  hardware. Motors are the per-pump logs, the ADC readings are parameters,
  and the LED is a journal entry. `EncodedMotor.get_default_encoded_motor`
  is assumed not to raise.
- Per-plant list lengths: the source bounds-checks against `len(SOIL_ADCs)`,
  `len(PLANT_PINS)`, `len(moisture_thresholds)` and `len(auto_water_seconds)`.
  These are all 2 in the source. The model uses one plant count, the number of
  pumps.
- Controller.Irrigator.WatchButton: the watcher runs forever. The model runs
  it over a finite recording of pin reads, and reads after the recording give
  1 (released). It does not model a pin read raising, which the source logs
  and skips.
- Controller.Irrigator.MainStep: `config_mode_task` blocks in its poll loop.
  The model splits it at that loop. Entering configuration is one step, each
  poll in which the flag is still set is a step that changes nothing, and
  leaving configuration is a step. The autonomous pass's closing sleep and
  `gc.collect` are left out.
- `print` logging of errors and the `except Exception` handler around the
  whole request (main.py:321-335) are not modelled. No modelled step raises
  there.
- The `finally` after `asyncio.run(main())` (main.py:477-487), which stops the
  pumps when the program exits, is not modelled. The model has no program exit.
- `_getregs` is folded into ReadMask. The I2C bus and `I2C_scan.py` are
  replaced by the recorded transfers.

## Findings

| source | as written | input that shows it | evidently intended | confidence | as-written member | corrected member |
|---|---|---|---|---|---|---|
| main.py:270-274, 410-414 | the motor is set to 0.0 only after `await asyncio.sleep(secs)` returns, with no `try/finally`. When the sleep raises, leaving `async with` releases the lock while the motor still runs at full effort | `POST /api/pump/0/nan`: `float('nan')` passes the `secs <= 0` guard, and the sleep's conversion to milliseconds raises for NaN. `POST /api/set_water/0/inf` followed by an autonomous pass over a dry plant 0 hits the same path | the motor is set to 0.0 on every exit path before the lock is released, so a failed actuation leaves the pump off | not executed | Pump.ActuationAsWrittenLeavesMotorRunning | Pump.ActuationIsSafe |
