# Driver examples: the firmware state machines

The driver examples are small `no_std` Rust programs for the STM32F3 Discovery
and the STM32F1 Blue Pill. Most of each program configures a board and calls
external driver crates. A few programs hold small integer state machines of
their own, and those are what this project models:

- **MIDI players (AD9833).** A note sequencer, `MidiTable::next`, walks a
  constant table of notes. `get_opposite` picks the frequency register that is
  not in use, so the main loop alternates between the two registers.
  - `midi_table.dfy` models the three-field table with the modulo wrap. Its
    STM32F3 and Blue Pill copies are identical.
  - `midi_table_legacy.dfy` models the older two-field table, which starts
    over explicitly.
    Its run functions `Outputs` and `After`, and the lemmas `RunAdditive`
    and `RunSplit` about them, deliberately repeat those of `midi_table.dfy`.
    Each copy runs its own module's row type and `Step` function, so each
    module stands on its own.
  - `frequency_register.dfy` models the register flip.
- **PCA9685 PWM patterns.**
  - `rgb_servos.dfy` models the integer HSV hue wheel `Rainbow`, the ±2
    triangle sweep `Servo`, and the 16-slot `values` array that the Blue Pill
    main loop fills in place.
  - `mirrored_servos.dfy` models the inline ±1 mirrored sweep of the STM32F3
    example.
- **PCF8574 caterpillar.** `caterpillar.dfy` models `OutputStatus`, a single
  lit bit walking up and down a byte. It covers the iterator of the Blue Pill
  and STM32F3 copies and the older `increment`/`get_status` version.
- **Measurement loggers.** These are RTIC `measure` tasks whose `static mut`
  arrays, `INDEX` and `LED_STATE` persist between calls. Each call stores one
  record while there is room and then replays the whole log.
  - `iaq_logger.dfy` models the iAQ-Core-C logger.
  - `ccs811_logger.dfy` models the CCS811 logger, whose environment column is
    printed one row behind.
  - `bounded_log.dfy` holds the shared log abstraction.
- **Loop-counter sweeps.**
  - `digipot_sweeps.dfy` models the MCP41x/MCP42x wiper positions. The
    step-8 sweep has two copies and the step-1 sweep appears in two programs.
  - `dac_sweep.dfy` models the MCP4921 DAC value, which has three copies.
  - `air_quality_display.dfy` models the CCS811 + HDC2080 display loop, with
    its refresh on every 11th iteration.
- **Shared modules.** `machine_ints.dfy` holds the fixed-width integers and
  `options.dfy` holds `Option`.

How the source is modelled:

- Each Rust entity whose fields are updated in place becomes a Dafny `class`:
  `MidiTable`, `Rainbow`, `Servo`, `OutputStatus`, the loggers' statics and the
  display loop's variables.
- Each `loop` in `main` becomes a method that runs `n` iterations. The method
  returns the trace of values sent to the devices.
- Sensor results are inputs to those methods.
- Every method is proved against a reference function: a closed form, a
  table pattern, or a log abstraction. The properties the programs rely on are
  proved about those functions.
- Integer casts that can wrap are written out as arithmetic modulo 2^16,
  with the values a release build gives.

## Model

| member | source | states |
|---|---|---|
| MachineInts.AddSigned | stm32f1-bluepill/examples/pca9685-pwm-rgb-led-servos-bp.rs:163 | `((x as i16) + d) as u16` is addition modulo 2^16 |
| MachineInts.ShiftRight5 | stm32f3-discovery/examples/mcp42x-ads1115-display-f3.rs:165-166 | `>> 5` on an `i16` ADC reading rounds towards minus infinity (`32r <= v < 32r + 32`), lands in `[-1024, 1023]` and keeps non-negative readings non-negative |
| FrequencyRegisters.Opposite | stm32f3-discovery/examples/ad9833-midi-player-f3.rs:113-118 | `get_opposite` never returns its argument |
| FrequencyRegisters.OppositeInvolution | stm32f1-bluepill/examples/ad9833-midi-player-bp.rs:99-104 | `get_opposite` applied twice gives the argument back |
| FrequencyRegisters.SelectedAtParity | stm32f3-discovery/examples/ad9833-midi-player-f3.rs:88-110 | starting at `F0` and flipping on every iteration, the main loop selects F1 on even iterations and F0 on odd ones |
| MidiTable.NotesWellFormed | stm32f3-discovery/examples/ad9833-midi-player-f3.rs:150-228 | `NOTES` has 62 rows and every row sounds for at least one tick |
| MidiTable.Step | stm32f3-discovery/examples/ad9833-midi-player-f3.rs:129-146 | `next` keeps `position` inside the table; in the silence window it emits 0 and only counts; otherwise it emits the tone of the row now current |
| MidiTable.StepKeepsInv | stm32f1-bluepill/examples/ad9833-midi-player-bp.rs:115-131 | `next` keeps `position < NOTES.len()` and `duration_counter <= note_duration + silence_duration` of the current row |
| MidiTable.AdvanceStep | stm32f3-discovery/examples/ad9833-midi-player-f3.rs:137-144 | once a row has run out, the next call moves to `(position + 1) % len` (row 0 after the last), sets the counter to 1 and emits the new row's tone |
| MidiTable.NextRow | stm32f3-discovery/examples/ad9833-midi-player-f3.rs:139 | the advance stays inside the table and gives row 0 exactly after the last row |
| MidiTable.PlaysRest | stm32f3-discovery/examples/ad9833-midi-player-f3.rs:129-146 | from counter `c` inside a row, the rest of the row's pattern (tone for `note_duration` ticks, then 0 for `silence_duration` ticks) is emitted and the row is left run out |
| MidiTable.EndBehavesAsFresh | stm32f3-discovery/examples/ad9833-midi-player-f3.rs:137-144 | a row that has run out behaves from the next call on exactly like a fresh start of the following row |
| MidiTable.PlaysNextRow | stm32f3-discovery/examples/ad9833-midi-player-f3.rs:129-146 | after a row has run out, the following row plays its whole pattern |
| MidiTable.LengthFrom | stm32f3-discovery/examples/ad9833-midi-player-f3.rs:131-134 | the ticks of `k` successive rows are the length of their concatenated patterns |
| MidiTable.PlaysRows | stm32f3-discovery/examples/ad9833-midi-player-f3.rs:129-146 | after a row has run out, the next `k` rows play their patterns in table order, wrapping from the last row to row 0 |
| MidiTable.FirstPass | stm32f3-discovery/examples/ad9833-midi-player-f3.rs:129-146 | from `default()` the first pass emits every row's tone for `note_duration` ticks and then `silence_duration` zeros, row by row, and ends with the last row run out |
| MidiTable.Wraps | stm32f3-discovery/examples/ad9833-midi-player-f3.rs:139 | after the last row the table wraps to row 0 and plays the whole song again, ending in the same state |
| MidiTable.NotesSong | stm32f1-bluepill/examples/ad9833-midi-player-bp.rs:115-214 | for the program's table, the output from `default()` is the song, repeated for ever |
| MidiTable.Table.constructor | stm32f3-discovery/examples/ad9833-midi-player-f3.rs:120-124 | `MidiTable::default()` is the state `(0, 0)`, which satisfies the invariant |
| MidiTable.Table.Next | stm32f3-discovery/examples/ad9833-midi-player-f3.rs:129-146 | `next` updates the fields as `Step` does, keeps the invariant, and always returns `Some` |
| MidiTable.Iteration | stm32f3-discovery/examples/ad9833-midi-player-f3.rs:98-109 | iteration `i` of the main loop writes the next MIDI number into the register not in use, `SelectedAt(i)`, and so extends the table's output by that number |
| MidiTable.PlayLoop | stm32f1-bluepill/examples/ad9833-midi-player-bp.rs:74-95 | `n` iterations write, in order, the sequencer's first `n` outputs (`unwrap_or(0)`), each into the register selected on that iteration: F1, F0, F1, ... |
| LegacyMidiTable.Step | examples/ad9833-midi-player-f3.rs:124-143 | `next` always emits either the inserted 0 (exactly when the counter equals `note_duration` off the last row) or the tone of the row now current |
| LegacyMidiTable.StepKeepsInv | examples/ad9833-midi-player-f3.rs:126-140 | `position` stays at most the last index (the start-over comes before `position + 1` could pass the end) and `duration_counter <= note_duration + 1` |
| LegacyMidiTable.StartsOver | examples/ad9833-midi-player-f3.rs:127-130 | on the last row the next call resets to `(0, 0)` and emits `NOTES[0].0`, whatever the counter |
| LegacyMidiTable.AdvanceStep | examples/ad9833-midi-player-f3.rs:135-141 | moving on from a row sets the counter to 0 and emits the new row's tone on the same call |
| LegacyMidiTable.SegmentSilence | examples/ad9833-midi-player-f3.rs:131-134 | in each row's segment only the tick at index `note_duration` is silent; the others carry the row's tone or the next row's |
| LegacyMidiTable.PlaysRest | examples/ad9833-midi-player-f3.rs:124-143 | from counter `c` in a row that is not the last, the calls up to the start of the next row emit the rest of the segment |
| LegacyMidiTable.PlaysSegment | examples/ad9833-midi-player-f3.rs:124-143 | from the start of a row (not the last), `note_duration + 2` calls emit the tone `note_duration` times, one 0 and the next row's tone, and reach the start of the next row |
| LegacyMidiTable.PlaysSegments | examples/ad9833-midi-player-f3.rs:124-143 | consecutive rows play their segments in order |
| LegacyMidiTable.ReachesLastRow | examples/ad9833-midi-player-f3.rs:124-143 | from `default()` the segments of every row but the last lead to the start of the last row |
| LegacyMidiTable.LastTick | examples/ad9833-midi-player-f3.rs:127-130 | a single call is made on the last row; it emits row 0's tone and returns to `(0, 0)` |
| LegacyMidiTable.Periodic | examples/ad9833-midi-player-f3.rs:124-143 | from `default()` one period of calls emits all segments followed by row 0's tone and returns to `(0, 0)`, so the output repeats |
| LegacyMidiTable.FinalRestIsOneTick | examples/ad9833-midi-player-f3.rs:127-137 | the last row of the program's table, `(0, 10)`, is reached on one call and left on the next, so its ten ticks of rest are never played |
| LegacyMidiTable.Table.constructor | examples/ad9833-midi-player-f3.rs:116-119 | `MidiTable::default()` is `(0, 0)` and satisfies the invariant |
| LegacyMidiTable.Table.Next | examples/ad9833-midi-player-f3.rs:124-143 | `next` updates the fields as `Step` does, keeps the invariant, and always returns `Some` |
| LegacyMidiTable.Iteration | examples/ad9833-midi-player-f3.rs:93-104 | iteration `i` of the main loop writes the next MIDI number into register `SelectedAt(i)` |
| LegacyMidiTable.PlayLoop | examples/ad9833-midi-player-f3.rs:83-105 | `n` iterations write the sequencer's first `n` outputs, alternating F1, F0, ... |
| RgbServos.HueToRgb | stm32f1-bluepill/examples/pca9685-pwm-rgb-led-servos-bp.rs:123-130 | the six arms cover exactly `0..=360` (so `None` only past 360); every colour has components in `[0, 4080]`, one at 4080 and one at 0 |
| RgbServos.NextHue | stm32f1-bluepill/examples/pca9685-pwm-rgb-led-servos-bp.rs:122 | the hue stays in `[0, 360]`, counting up by one and wrapping from 360 to 0 |
| RgbServos.Smooth | stm32f1-bluepill/examples/pca9685-pwm-rgb-led-servos-bp.rs:119-130 | consecutive colours differ by at most 68 per component, across sector boundaries and across the wrap |
| RgbServos.WrapRepeatsRed | stm32f1-bluepill/examples/pca9685-pwm-rgb-led-servos-bp.rs:124-129 | hues 360 and 0 both give pure red |
| RgbServos.Rainbow.constructor | stm32f1-bluepill/examples/pca9685-pwm-rgb-led-servos-bp.rs:110-112 | `Rainbow::new` stores the given hue |
| RgbServos.Rainbow.Next | stm32f1-bluepill/examples/pca9685-pwm-rgb-led-servos-bp.rs:118-132 | `next` moves the hue on and never returns `None` |
| RgbServos.ServoNext | stm32f1-bluepill/examples/pca9685-pwm-rgb-led-servos-bp.rs:157-165 | the factor becomes -2 at or above `MAX`, +2 at or below `MIN`, and is otherwise unchanged |
| RgbServos.ServoNextKeepsInv | stm32f1-bluepill/examples/pca9685-pwm-rgb-led-servos-bp.rs:143-164 | an even pulse length in `[132, 608]` moving by ±2 stays one, and the `as i16`/`as u16` casts never wrap |
| RgbServos.InitialServosValid | stm32f1-bluepill/examples/pca9685-pwm-rgb-led-servos-bp.rs:73-79 | the five start offsets `MIN + 40 i` with factor 2 satisfy the servo invariant |
| RgbServos.Phase | stm32f1-bluepill/examples/pca9685-pwm-rgb-led-servos-bp.rs:157-165 | every phase of the 476-step triangle sweep satisfies the servo invariant |
| RgbServos.PhaseStep | stm32f1-bluepill/examples/pca9685-pwm-rgb-led-servos-bp.rs:157-165 | one `next` moves the sweep exactly one phase on, including both turns |
| RgbServos.StartPhase | stm32f1-bluepill/examples/pca9685-pwm-rgb-led-servos-bp.rs:73-79 | servo `i` starts `20 i` phases into the sweep |
| RgbServos.ServoClosedForm | stm32f1-bluepill/examples/pca9685-pwm-rgb-led-servos-bp.rs:157-165 | after `k + 1` calls servo `i` is at phase `PhaseAt(i, k)` |
| RgbServos.PhaseAtMod | stm32f1-bluepill/examples/pca9685-pwm-rgb-led-servos-bp.rs:73-79 | servo `i`'s phase after `k + 1` calls is `(k + 20 i) mod 476` |
| RgbServos.Servo.constructor | stm32f1-bluepill/examples/pca9685-pwm-rgb-led-servos-bp.rs:146-151 | `Servo::new(offset)` starts at `offset` with factor 2 |
| RgbServos.Servo.Next | stm32f1-bluepill/examples/pca9685-pwm-rgb-led-servos-bp.rs:157-165 | `next` updates the fields as `ServoNext` does and returns `Some` of the new pulse length |
| RgbServos.Dim | stm32f1-bluepill/examples/pca9685-pwm-rgb-led-servos-bp.rs:83-85 | after `>> 5` a component is at most `MAX = 4080 >> 5 = 127` |
| RgbServos.LedValues | stm32f1-bluepill/examples/pca9685-pwm-rgb-led-servos-bp.rs:85-91 | `MAX - x` never underflows and `values[i] + values[i + 3] == 127` for the three pairs |
| RgbServos.StepServos | stm32f1-bluepill/examples/pca9685-pwm-rgb-led-servos-bp.rs:92-96 | the servo loop steps each servo once and writes its new pulse into slot `10 + i`, and into no other slot |
| RgbServos.ShowColour | stm32f1-bluepill/examples/pca9685-pwm-rgb-led-servos-bp.rs:85-91 | slots 0-5 get the dimmed colour and its complement, and slots 6-15 are untouched |
| RgbServos.Iteration | stm32f1-bluepill/examples/pca9685-pwm-rgb-led-servos-bp.rs:82-96 | one iteration writes slots 0-5 and 10-14 as above and leaves slots 6-9 and 15 as they were |
| RgbServos.ServoValue | stm32f1-bluepill/examples/pca9685-pwm-rgb-led-servos-bp.rs:73-165 | from the offsets used in `main`, every servo pulse stays within `[MIN, MAX] = [132, 608]` |
| RgbServos.ServoPeriodic | stm32f1-bluepill/examples/pca9685-pwm-rgb-led-servos-bp.rs:157-165 | each servo repeats its pulses with period 476 |
| RgbServos.FrameShape | stm32f1-bluepill/examples/pca9685-pwm-rgb-led-servos-bp.rs:80-96 | in every array sent, the LED pairs add up to 127, the servo slots are within limits and slots 6-9 and 15 keep their initial 0 |
| RgbServos.NextFrame | stm32f1-bluepill/examples/pca9685-pwm-rgb-led-servos-bp.rs:81-97 | the array after iteration `k` is the reference frame `Frame(k)` |
| RgbServos.HueAtMod | stm32f1-bluepill/examples/pca9685-pwm-rgb-led-servos-bp.rs:118-122 | from `Rainbow::new(0)`, the hue after `k` calls is `k mod 361` |
| RgbServos.Setup | stm32f1-bluepill/examples/pca9685-pwm-rgb-led-servos-bp.rs:72-80 | the rainbow at hue 0, five distinct servos at `MIN + 40 i` and a zeroed 16-slot array |
| RgbServos.Tick | stm32f1-bluepill/examples/pca9685-pwm-rgb-led-servos-bp.rs:81-97 | iteration `k` sends `Frame(k)` and leads to the state before iteration `k + 1` |
| RgbServos.Run | stm32f1-bluepill/examples/pca9685-pwm-rgb-led-servos-bp.rs:72-101 | `n` iterations of the main loop send `Frame(0)`, ..., `Frame(n - 1)` |
| MirroredServos.Mirror | stm32f3-discovery/examples/pca9685-servos-f3.rs:83 | within the sweep, `servo_min + (servo_max - current)` does not wrap, lies in `[servo_min, servo_max]` and adds up with `current` to `servo_min + servo_max` |
| MirroredServos.Triangle | stm32f3-discovery/examples/pca9685-servos-f3.rs:86-91 | the sweep rises at most 480 above `servo_min` |
| MirroredServos.StepPhase | stm32f3-discovery/examples/pca9685-servos-f3.rs:86-91 | one iteration moves the sweep one phase on: the ±1 steps always meet the turn tests exactly |
| MirroredServos.PhaseAtMod | stm32f3-discovery/examples/pca9685-servos-f3.rs:71-91 | iteration `k` is at phase `k mod 960` |
| MirroredServos.Position | stm32f3-discovery/examples/pca9685-servos-f3.rs:69-72 | `current` stays within `[130, 610]` |
| MirroredServos.PositionPeriodic | stm32f3-discovery/examples/pca9685-servos-f3.rs:86-91 | the sweep has period 960 and is at `servo_min` exactly at phase 0 and at `servo_max` exactly at phase 480 |
| MirroredServos.Sweep | stm32f3-discovery/examples/pca9685-servos-f3.rs:69-92 | `n` iterations write the triangle wave to C0 and its mirror image to C1 |
| Caterpillar.PopCountPow2 | stm32f1-bluepill/examples/pcf8574-caterpillar-bp.rs:102-117 | every power of two has exactly one bit set |
| Caterpillar.PopCountOneIsPow2 | stm32f1-bluepill/examples/pcf8574-caterpillar-bp.rs:102-117 | a number with exactly one bit set is a power of two |
| Caterpillar.SingleBitBytes | stm32f1-bluepill/examples/pcf8574-caterpillar-bp.rs:102-117 | a byte has exactly one bit set if and only if it is one of 1, 2, 4, ..., 128 |
| Caterpillar.NewInv | stm32f1-bluepill/examples/pcf8574-caterpillar-bp.rs:91-96 | `OutputStatus::new()` (status 1, `Up`) satisfies the walker invariant |
| Caterpillar.ShiftKeepsInv | stm32f1-bluepill/examples/pcf8574-caterpillar-bp.rs:102-117 | a step keeps exactly one bit set; `<<= 1` never overflows, since going up the status is at most 64, and `>>= 1` never reaches 0 |
| Caterpillar.TurnsExactly | stm32f3-discovery/examples/pcf8574-caterpillar-f3.rs:79-88 | the direction switches exactly on the 64 to 128 shift and on the 2 to 1 shift |
| Caterpillar.PhaseInv | stm32f1-bluepill/examples/pcf8574-caterpillar-bp.rs:102-117 | all 14 phases of the walk satisfy the invariant |
| Caterpillar.PhaseStep | stm32f1-bluepill/examples/pcf8574-caterpillar-bp.rs:102-117 | a step moves from each phase to the next, and from the last phase back to the first |
| Caterpillar.WalkerClosedForm | stm32f3-discovery/examples/pcf8574-caterpillar-f3.rs:65-91 | after `k` steps from `new()` the walker is at phase `k mod 14`: the walk has period 14 |
| Caterpillar.OutputStatus.constructor | stm32f1-bluepill/examples/pcf8574-caterpillar-bp.rs:91-96 | `new()` is status 1, direction `Up` |
| Caterpillar.OutputStatus.Next | stm32f1-bluepill/examples/pcf8574-caterpillar-bp.rs:102-117 | `next` makes one step and always returns `Some` of the new status |
| Caterpillar.Run | stm32f1-bluepill/examples/pcf8574-caterpillar-bp.rs:70-77 | the expander is sent 2, 4, ..., 128, 64, ..., 2, 1, repeating with period 14; this follows the code, which shifts before it returns, not the file's doc comment, which says the first output is `0b0000_0001` |
| Caterpillar.LegacyOutputStatus.constructor | examples/pcf8574-caterpillar-f3.rs:60-65 | `new()` is status 1, direction `Up` |
| Caterpillar.LegacyOutputStatus.Increment | examples/pcf8574-caterpillar-f3.rs:67-82 | `increment` makes one step |
| Caterpillar.RunLegacy | examples/pcf8574-caterpillar-f3.rs:40-46 | writing before incrementing, the expander is sent 1, 2, ..., 128, 64, ..., 2, repeating with period 14, as the file's doc comment says |
| BoundedLogs.ReplayKeepsFirst | stm32f1-bluepill/examples/iaq-core-c-gas-voc-usart-logger-bp.rs:144-148 | calls that append while there is room keep the first `capacity` offered records, in order, and drop the rest |
| BoundedLogs.RecordExtends | stm32f1-bluepill/examples/iaq-core-c-gas-voc-usart-logger-bp.rs:144-148 | a call never changes what is already logged and never grows the log beyond its capacity |
| IaqLogger.Stored | stm32f1-bluepill/examples/iaq-core-c-gas-voc-usart-logger-bp.rs:139-145 | a failed read stores the sentinel `{co2: 1, tvoc: 1, resistance: 1}`, and a successful one stores the reading |
| IaqLogger.Logger.constructor | stm32f1-bluepill/examples/iaq-core-c-gas-voc-usart-logger-bp.rs:123-129 | the statics start with the LED state false, an empty log and 2400 zeroed slots |
| IaqLogger.Logger.Measure | stm32f1-bluepill/examples/iaq-core-c-gas-voc-usart-logger-bp.rs:121-159 | `LED_STATE` toggles (the LED is driven high exactly when it was true); while `INDEX < 2400` exactly slot `INDEX` is written and `INDEX` grows by one, otherwise nothing changes; `INDEX` stays at most 2400; the replay prints `INDEX` rows in order, row `i` holding slot `i` |
| IaqLogger.Logger.Replay | stm32f1-bluepill/examples/iaq-core-c-gas-voc-usart-logger-bp.rs:149-157 | the replay prints one row per stored slot, in order, with its row number |
| IaqLogger.Session | stm32f1-bluepill/examples/iaq-core-c-gas-voc-usart-logger-bp.rs:120-159 | over successive calls the LED goes low, high, low, ..., and the last replay prints the first 2400 stored results in order |
| Ccs811Logger.Compensation | stm32f1-bluepill/examples/ccs811-gas-voc-usart-logger-bp.rs:186-189 | the stored and applied pair is the temperature and the humidity, or 0.0 when there is none |
| Ccs811Logger.Logger.constructor | stm32f1-bluepill/examples/ccs811-gas-voc-usart-logger-bp.rs:164-172 | the LED state starts false, `INDEX` at 0, 1200 default results and 1200 pairs `(0.0, 0.0)` |
| Ccs811Logger.Logger.Measure | stm32f1-bluepill/examples/ccs811-gas-voc-usart-logger-bp.rs:162-209 | `LED_STATE` toggles; while not full, `MEASUREMENTS[INDEX]` and `ENV[INDEX]` are both written in the same call and the pair is applied as compensation, otherwise nothing changes; the replay is `start` and then `INDEX` rows, where row 0 shows `(0.0, 0.0)` and row `i` shows `ENV[i - 1]` |
| Ccs811Logger.Logger.Replay | stm32f1-bluepill/examples/ccs811-gas-voc-usart-logger-bp.rs:197-207 | a `start` line, then one row per stored entry, each with the environment one entry behind |
| Ccs811Logger.Entries | stm32f1-bluepill/examples/ccs811-gas-voc-usart-logger-bp.rs:184-189 | what the first `n` calls store: the result or the default, and the environment pair |
| Ccs811Logger.Call | stm32f1-bluepill/examples/ccs811-gas-voc-usart-logger-bp.rs:162-209 | call `k` keeps the log equal to the first `min(k + 1, 1200)` entries, passes its environment on as compensation while there is room, and prints the matching replay |
| Ccs811Logger.Session | stm32f1-bluepill/examples/ccs811-gas-voc-usart-logger-bp.rs:161-209 | over a session the last replay prints `start` and one row per logged call, up to 1200; row `i` shows the result of call `i` and the environment read on call `i - 1`, which was the compensation in force when measurement `i` was taken |
| DigipotSweeps.Complement | stm32f3-discovery/examples/mcp42x-ads1115-display-f3.rs:155-158 | `255 - position` does not underflow, and the two wipers add up to 255 |
| DigipotSweeps.CoarsePosition | examples/f3-mcp42x-ads1115-display.rs:153-158 | the step-8 position is a multiple of 8 in `[0, 248]` |
| DigipotSweeps.CoarseStep | stm32f3-discovery/examples/mcp42x-ads1115-display-f3.rs:189-193 | the update (`+= 8` only below 248, else 0) moves the closed form one iteration on |
| DigipotSweeps.CoarseClosedForm | stm32f3-discovery/examples/mcp42x-ads1115-display-f3.rs:146-193 | on iteration `k` the wiper is at `8 (k mod 32)` |
| DigipotSweeps.CoarsePeriodic | examples/f3-mcp42x-ads1115-display.rs:153-158 | the step-8 sweep has period 32; it is 0 exactly at the start of each cycle and resets exactly after 248; channel 1 stays in `[7, 255]` |
| DigipotSweeps.CoarseSweep | stm32f3-discovery/examples/mcp42x-ads1115-display-f3.rs:146-194 | each iteration writes the position and `255 - position` and displays both ADC readings shifted right by 5 |
| DigipotSweeps.FineStep | stm32f3-discovery/examples/mcp42x-f3.rs:103-107 | the update (`+= 1` only below 255, else 0) moves the closed form one iteration on |
| DigipotSweeps.FineClosedForm | stm32f1-bluepill/examples/mcp41x-bp.rs:76-91 | on iteration `k` the wiper is at `k mod 256` |
| DigipotSweeps.FineSteps | stm32f1-bluepill/examples/mcp41x-bp.rs:87-91 | the position steps up by exactly one and wraps from 255 to 0 |
| DigipotSweeps.FineOncePerCycle | stm32f3-discovery/examples/mcp42x-f3.rs:91-107 | in each 256-iteration cycle every value 0..255 is written exactly once |
| DigipotSweeps.MirroredFineSweep | stm32f3-discovery/examples/mcp42x-f3.rs:91-108 | each iteration writes the position to Ch0 and `255 - position` to Ch1 |
| DigipotSweeps.SingleFineSweep | stm32f1-bluepill/examples/mcp41x-bp.rs:76-92 | each iteration writes only Ch0, with the position before the update |
| DacSweep.DacNext | stm32f3-discovery/examples/mcp4921-ads1115-display-f3.rs:172-175 | whatever the position, the value after the update is below `1 << 12`; below the limit it rises by 255, otherwise it resets to 0 |
| DacSweep.DacPosition | stm32f1-bluepill/examples/mcp4921-ads1115-display-bp.rs:157-160 | every value sent is a multiple of 255 in `[0, 4080]`, hence below 4096 |
| DacSweep.DacStep | stm32f3discovery/examples/mcp4921-ads1115-display-f3.rs:139-142 | the update moves the closed form one iteration on |
| DacSweep.DacClosedForm | stm32f3-discovery/examples/mcp4921-ads1115-display-f3.rs:172-175 | on iteration `k` the DAC is sent `255 (k mod 17)` |
| DacSweep.DacPeriodic | stm32f1-bluepill/examples/mcp4921-ads1115-display-bp.rs:157-160 | the value gets only as far as 4080 and resets right after it: period 17, 0 exactly at the start of each cycle |
| DacSweep.Sweep | stm32f3-discovery/examples/mcp4921-ads1115-display-f3.rs:142-176 | each iteration sends the position to the DAC and displays the ADC reading shifted right by 5 |
| AirQualityDisplay.Shown | stm32f1-bluepill/examples/ccs811-gas-voc-hdc2080-display-bp.rs:112-128 | a failed CCS811 read shows the sentinel `{9999, 9999, 255, 9999}` |
| AirQualityDisplay.Screen | stm32f1-bluepill/examples/ccs811-gas-voc-hdc2080-display-bp.rs:143-146 | four display lines are written |
| AirQualityDisplay.CounterNext | stm32f1-bluepill/examples/ccs811-gas-voc-hdc2080-display-bp.rs:130-133 | `counter` stays in `[0, 10]`, is reset to 0 exactly when it passes 10, and otherwise counts up |
| AirQualityDisplay.Monitor.constructor | stm32f1-bluepill/examples/ccs811-gas-voc-hdc2080-display-bp.rs:102-119 | the four empty line buffers, the first HDC2080 reading and a zero count |
| AirQualityDisplay.Monitor.Iterate | stm32f1-bluepill/examples/ccs811-gas-voc-hdc2080-display-bp.rs:128-146 | the environment is re-read and passed on as compensation exactly when the count passes 10; the four buffers are cleared and then hold exactly the new lines |
| AirQualityDisplay.CounterAtMod | stm32f1-bluepill/examples/ccs811-gas-voc-hdc2080-display-bp.rs:119-133 | the count before iteration `k` is `k mod 11` |
| AirQualityDisplay.EnvAtClosedForm | stm32f1-bluepill/examples/ccs811-gas-voc-hdc2080-display-bp.rs:106-138 | the environment shown is the first reading until the first refresh, then the reading of the latest refresh |
| AirQualityDisplay.Run | stm32f1-bluepill/examples/ccs811-gas-voc-hdc2080-display-bp.rs:119-155 | the compensation is refreshed on iterations 10, 21, 32, ... (every 11th) and on no others, and every iteration shows the result just read with the environment of the latest refresh |

## Left out

- The AD9833 frequency word is left out. The players compute it with
  `libm::pow` and `f64`, then `synth_value as u32`; this is floating point.
  The model records the MIDI number and the register written, not the
  frequency.
- The board bring-up, the external drivers and the bus sharing are left out.
  - Board bring-up means the clocks, GPIO, I2C, SPI and USART setup.
  - The external drivers are the AD9833, PCA9685, PCF8574, MCP41x/MCP42x,
    MCP4921, ADS1115, CCS811, HDC2080, iAQ-Core and SSD1306 crates.
  - Bus sharing is done by `shared_bus`/`shared_bus_rtic`.
  - All of these are foreign code. Sensor results are inputs to the model,
    and device writes are its output trace.
- The display rendering and the USART formatting are left out. Lines and rows
  are modelled as data: the fields a `write!`/`writeln!` formats. Numbers are
  not rendered as text.
- Temperatures and humidities are not interpreted. They are `f32` values that
  the programs only store, forward and print, so the model keeps their bit
  pattern.
- RTIC scheduling, the `PERIOD` rescheduling, the delays and the LED blinks
  of the main loops are left out. They are timing and output, not state.
- Overflow panics are left out. Integer arithmetic is modelled as a release
  build does it, wrapping where a cast or an add could wrap. The model shows
  that the controlled loops never reach such a wrap.
- Panicking `unwrap`s on driver results are not modelled: the HDC2080 reads,
  the CCS811 start-up, the device writes. Every such call is assumed to
  succeed.
- The CCS811 logger starts up by reading the HDC2080 once and applying that
  reading before the first measurement. This is not modelled: setup is not
  part of the `measure` task, and that reading never appears in the log.
  The display example's equivalent start-up reading is the `initial`
  environment of `AirQualityDisplay.Monitor`. Its `set_environment` call
  is not part of the output trace.
- When a logger's log is full, the firmware does not read its sensors. The
  model still takes a reading as an input, and ignores it.
- The other examples are not part of this model: the RTC and EEPROM
  check-and-blink, the PCF857x read-input, the bit-banged I2S, and the
  single-sensor display and log loops. They have no state of their own beyond
  calls into the drivers.
- AirQualityDisplay.Screen: its contract states only that four lines are
  written. Their contents are stated by `AirQualityDisplay.Monitor.Iterate`
  and `AirQualityDisplay.Run`, which compare the buffers with `Screen`.
- IaqLogger.Logger.Replay, Ccs811Logger.Logger.Replay: the replay loop at the
  end of `measure` is a separate method. It reads the state that the store
  half of the call leaves.
