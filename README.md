# grib: a verified model of the synthesizer's discrete core

grib is a wavetable synthesizer for a dual-core microcontroller. Core 0 recomputes a
2048-entry `int16` wave table by running oscillators, filters, a feedback delay and a
limiter once per table index. An I2S interrupt streams the table to the audio sink
through a 32-bit fixed-point playback position. It also feeds every 15th sample into a
128-slot telemetry ring; core 1 plots one ring value per display column. `grib.c` also
defines a Bresenham line walk, `bresenham`, which nothing in the program calls.

This project models the parts of that program that can be stated without IEEE floats.
Floats are modelled as `real`, integers as unbounded `int`, and C's 32-bit wrap-around,
truncating division and truncating float-to-int casts are written out where they
matter. It has one module per source file:

- `Containers` (`cell/containers.h`): the telemetry ring `wavering`.
- `Delay` (`cell/delay.h`): the feedback delay line.
- `Grib` (`grib.c`): the audio callback `i2s_callback_func` and `bresenham`.
- `Sequencer` (`cell/sequencer.h`): the step sequencer.
- `Envelope` (`cell/envelope.h`): the two-stage envelope.
- `Utility` (`cell/utility.h`): crossfade, minimum, sample and hold, smoother, envelope
  follower, limiter and the three trapezoidal filters.
- `Oscillator` (`cell/oscillator.h`): initialisation, the phase logic of every
  waveform and the two table fills.
- `Mux4051` (`4051.h`): the channel decoder of the 4051 multiplexer.
- `Numeric`: a few integer facts and C's float-to-int truncation, shared by the others.

Every C struct whose fields a function updates in place is a `class` with the same
fields. Each method's `ensures` ties the new state to a value-level step function, and
the lemmas beside it state what the source promises about that function: ring FIFO
order, the delay's slot contents, modular playback position, sequencer and envelope
periodicity, and the shape of the generated tables.

Transcendental functions (`sinf`, `cosf`, `sqrt`, `expf`, `tanf`) are parameters of
the methods that call them, or the coefficients they produce are given as reals.

## Model

| member | source | states |
|---|---|---|
| Containers.Next | cell/containers.h:28-29 | advancing a cursor always lands in [0, 128); from a cursor below 128 it is the successor modulo 128 |
| Containers.Put | cell/containers.h:26-31 | `wavering_set` on values: the new write cursor is in [0, 128), is the old one plus 1 modulo 128 when the old one was in range, and holds the value; the read cursor and every other slot are unchanged |
| Containers.Take | cell/containers.h:33-38 | `wavering_get` on values: only the read cursor moves, to [0, 128), and the result is the slot it now points at |
| Containers.PutAll | cell/containers.h:26-31 | a run of `wavering_set` calls keeps both cursors in [0, 128); `Containers.PutAllSlots` states where each value lands |
| Containers.TakeAll | cell/containers.h:33-38 | a run of k `wavering_get` calls keeps both cursors in [0, 128) and returns exactly k values; `Containers.TakeAllSlots` states which slots they are |
| Containers.PutAllSnoc | cell/containers.h:26-31 | a run of sets followed by one more set is the run extended by that value |
| Containers.PutAllSlots | cell/containers.h:26-31 | after k sets the write cursor has moved k places modulo 128, the read cursor is untouched, and each of the last 128 values sits in the slot one past its predecessor |
| Containers.TakeAllSlots | cell/containers.h:33-38 | k gets move only the read cursor, by k modulo 128, and return the k slots after it in order |
| Containers.FifoOrder | cell/containers.h:20-38 | with both cursors equal (as after init), up to 128 sets followed by as many gets return exactly the values set, in the same order |
| Containers.FirstWriteSlot | cell/containers.h:20-31 | from init the first value lands in slot 1, and slot 0 is not written |
| Containers.OverwriteAfterCapacity | cell/containers.h:26-38 | with no backpressure the 129th set overwrites slot 1, which held the first value, and the next get returns the 129th value |
| Containers.Wavering.constructor | cell/containers.h:20-24 | `wavering_init`: both cursors 0, slot contents unspecified |
| Containers.Wavering.Set | cell/containers.h:26-31 | `wavering_set` changes the ring exactly as `Put` says |
| Containers.Wavering.Get | cell/containers.h:33-38 | `wavering_get` changes the ring and returns exactly as `Take` says |
| Delay.Round | cell/delay.h:34 | `roundf` lands within one half of its argument and is non-negative for a non-negative argument |
| Delay.TapOffset | cell/delay.h:34 | for `time` in [0, 1] and `tmax` = 32768 the offset `roundf(time*tmax)` lies in [0, 32768] |
| Delay.EntryCursor | cell/delay.h:33 | the lazy wrap on entry leaves the cursor in [0, 32768), equal to the stored cursor modulo 32768 |
| Delay.TapIndex | cell/delay.h:34-35 | the tap index after the `+32768` fix-up is in [0, 32768), is cursor minus offset modulo 32768, and equals the cursor exactly when the offset is 0 or 32768 |
| Delay.Advance | cell/delay.h:33-37 | one call changes only the slot under the entry cursor, which gets `input + data[f]*feedback` read before the write, and leaves the cursor in [1, 32768] |
| Delay.Step | cell/delay.h:33-38 | the call's output is `written*amount + input*(1-amount)` and its new line is `Advance` |
| Delay.Written | cell/delay.h:36 | the value a call stores is the input plus the tapped slot scaled by the feedback, so with feedback 0 it is the input itself |
| Delay.Run | cell/delay.h:31-39 | a run of `delay_process` calls with fixed parameters keeps the line valid (32768 slots, cursor in [0, 32768]); `Delay.RunCursor` and `Delay.RunSlots` state cursor and contents |
| Delay.Stored | cell/delay.h:36 | the values stored by a run, one per call; `Delay.StoredFirst` and `Delay.StoredNoFeedback` state what they are |
| Delay.NoFeedbackIsDry | cell/delay.h:36-38 | with feedback 0 the call returns exactly the input and stores the input |
| Delay.RunCursor | cell/delay.h:33-37 | after a run of calls the entry cursor has moved by the number of calls modulo 32768 |
| Delay.StoredFirst | cell/delay.h:36 | the first value a run stores is the first call's written value |
| Delay.StoredNoFeedback | cell/delay.h:36 | with feedback 0 a run stores exactly its inputs |
| Delay.RunSlots | cell/delay.h:33-37 | after a run, each of the last 32768 written values sits in the slot of its call, counted from the entry cursor |
| Delay.FullOffsetEchoes | cell/delay.h:34-36 | with offset 0 or 32768, after any run of at least 32768 calls the next tap reads the value stored 32768 calls earlier |
| Delay.FullOffsetEchoesOneCycle | cell/delay.h:34-36 | with offset 0 or 32768, after exactly 32768 calls the next tap reads the first call's written value |
| Delay.NoFeedbackRecordsInput | cell/delay.h:36-37 | with feedback 0 the buffer holds each of the last 32768 inputs in the slot of its call |
| Delay.DelayLine.constructor | cell/delay.h:17-24 | `delay_init`: a zero-filled buffer, cursor 0, feedback and amount 0.5, `tmax` 32768 |
| Delay.DelayLine.Process | cell/delay.h:31-39 | `delay_process` updates the buffer and cursor and returns exactly as `Step` says |
| Grib.NextPos | grib.c:372-373 | the wrapped 32-bit position stays a 32-bit value |
| Grib.TableIndex | grib.c:367 | `pos >> 16` is non-negative and below 2048 whenever `pos < pos_max` |
| Grib.NextPosStaysInTable | grib.c:372-373 | with `pos < pos_max` and `step <= pos_max`, `pos + step` does not overflow, the new position is `(pos + step) mod pos_max`, and the next table index is in [0, 2048) |
| Grib.PosAfter | grib.c:372-373 | the position after any number of frames stays below `pos_max` |
| Grib.PosAfterIsModular | grib.c:365-374 | after n frames the position is `(pos + n*step) mod pos_max` |
| Grib.ToInt32 | grib.c:367-368 | the store into `int32_t` is the two's-complement reading of the 32-bit word: in range and congruent modulo 2^32 |
| Grib.Word | grib.c:367-368 | the sample word `(vol * wave_table[k]) << 8`, computed in unsigned 32-bit arithmetic, is a valid `int32` |
| Grib.WordIsScaledProduct | grib.c:367-368 | for `vol <= 255` the sample word is exactly `vol * wave_table[k] * 256` |
| Grib.FrameWord | grib.c:367-368 | the word of frame i is a valid `int32` and, for `vol <= 255`, equals `vol * wave_table[((pos + i*step) mod pos_max) >> 16] * 256` |
| Grib.Fed | grib.c:370 | the words pushed to the ring by the first n frames; `Grib.FedFrames` states their number and which frames they come from |
| Grib.FedFrames | grib.c:370 | a callback of n frames feeds ceil(n/15) words to the ring, and the j-th is the word of frame 15j |
| Grib.StereoExtend | grib.c:367-368 | writing frame i's word to both `samples[2i]` and `samples[2i+1]` keeps the earlier frames and adds frame i |
| Grib.Synth.constructor | grib.c:37-49 | the globals at start: zero table, `pos` 0, `step` 0x200000, `vol` 0x5F, ring cursors 0 |
| Grib.Synth.PlayFrame | grib.c:367-373 | one loop iteration: both words of frame i, a ring push exactly when `i % 15 == 0`, and the position advanced and wrapped |
| Grib.Synth.Callback | grib.c:360-378 | with no buffer nothing changes; otherwise every frame holds its word in both channels, the ring receives the fed words in order, `pos` is the modular position after n frames and `sample_count` is n |
| Grib.Half | grib.c:116 | C's `/ 2` truncates toward zero, for negative operands too |
| Grib.IntAbs | grib.c:114-115 | `abs` is non-negative and equals x or -x |
| Grib.Max | grib.c:118-122 | the number of loop iterations is max(dx, dy): the walk lemmas and `Grib.Bresenham` count max + 1 pixels with it; its contract makes it the larger of the two |
| Grib.XMajorEndsTogether | grib.c:116-122 | on an x-major walk the error term forces y to finish when x does |
| Grib.XMajorYStops | grib.c:121-122 | on an x-major walk y cannot step past its end while x is still moving |
| Grib.YMajorEndsTogether | grib.c:116-122 | on a y-major walk the error term forces x to finish when y does |
| Grib.YMajorXStops | grib.c:121-122 | on a y-major walk x cannot step past its end while y is still moving |
| Grib.WalkErrorStep | grib.c:120-122 | one loop iteration keeps the error term tied to the steps taken and always steps along the major axis |
| Grib.WalkErrorEnd | grib.c:118-122 | once the major coordinate reaches its end, so has the minor one |
| Grib.ExtendWalk | grib.c:118-122 | appending the next point keeps every move 0 or one unit toward the end on each axis, and the major axis advances on each step |
| Grib.EndNotEarlier | grib.c:118 | because the major axis moves every iteration, the end point is not set before the last point |
| Grib.WalkStep | grib.c:118-122 | one iteration keeps the loop invariant and strictly decreases the distance left, which is the termination measure |
| Grib.WalkStart | grib.c:114-118 | the invariant holds after the first `oledSetPixel` |
| Grib.WalkDone | grib.c:118 | at loop exit the walk has max(dx, dy) + 1 points, from `(x0, y0)` to `(x1, y1)`, with the end point only last |
| Grib.Bresenham | grib.c:112-124 | the pixels set: `(x0, y0)` first and `(x1, y1)` last and only last, max(abs(dx), abs(dy)) + 1 of them, each step moving 0 or one unit toward the end on each axis and always one on the major axis |
| Sequencer.Step | cell/sequencer.h:23-32 | one `process_sequence` call: the count is reset to 0 or grows by 1, the step changes only when the incremented count equals `length` (and the count is then reset), and a step in [0, 16) stays there |
| Sequencer.Run | cell/sequencer.h:23-32 | n calls keep a step in [0, 16) and, with `length >= 1`, a count in [0, length) |
| Sequencer.StepInRange | cell/sequencer.h:23-32 | with `length >= 1` and the count below it, a call keeps the count in [0, length) and the step in [0, 16) |
| Sequencer.RunAdd | cell/sequencer.h:23-32 | m calls then n calls are m + n calls |
| Sequencer.RunSnoc | cell/sequencer.h:23-32 | n + 1 calls are n calls followed by one |
| Sequencer.RunFromInit | cell/sequencer.h:16-32 | from init, after n calls the count is `n % length` and the step is `(n / length) % 16` |
| Sequencer.SequencePeriod | cell/sequencer.h:16-32 | 16 * length calls from init return to step 0, count 0, and every later state repeats with that period |
| Sequencer.StuckPastLength | cell/sequencer.h:26 | since the test is `==`, once the count is at or past `length` (always, when `length <= 0`) the step never changes and the count grows by one per call |
| Sequencer.StepSequencer.constructor | cell/sequencer.h:16-21 | `init_sequence`: both counters 0 and `length = l` |
| Sequencer.StepSequencer.Init | cell/sequencer.h:16-21 | `init_sequence` on an existing sequencer: both counters 0 and `length = l` |
| Sequencer.StepSequencer.Process | cell/sequencer.h:23-32 | `process_sequence` updates the counters exactly as `Step` says |
| Sequencer.StepSequencer.Gate | cell/sequencer.h:34-37 | `get_gate` reads the gate of the current step only |
| Sequencer.StepSequencer.Note | cell/sequencer.h:39-42 | `get_note` is the current step's note truncated toward zero |
| Numeric.Trunc | cell/sequencer.h:41 | float-to-int conversion truncates toward zero on both sides of 0 |
| Envelope.Slope | cell/envelope.h:20-25 | the coefficient `init_envelope` computes for a stage; `Envelope.ScaledSlope` states that it times the timing is the level rise |
| Envelope.Run | cell/envelope.h:28-39 | n `process_envelope` calls keep the stage in [0, 2); `Envelope.RunAdd`, `Envelope.WithinStage` and `Envelope.CyclesAdd` state how `feed` grows |
| Envelope.Step | cell/envelope.h:28-39 | `process_envelope` on values: the stage advances (wrapping at 2) exactly when the count is at or past the stage's timing, the count restarts at 1 or grows by 1, and `feed` grows by the coefficient of the stage after the advance |
| Envelope.StepKeepsCount | cell/envelope.h:28-39 | with all timings at least 1, a call keeps the count in [1, t[stage]] |
| Envelope.RunAdd | cell/envelope.h:28-39 | m calls then n calls are m + n calls |
| Envelope.WithinStage | cell/envelope.h:30-37 | while the count stays within the timing, n calls stay in the stage and add n times its coefficient |
| Envelope.TimesIsProduct | cell/envelope.h:36 | n repeated additions of x add n*x |
| Envelope.NextStage | cell/envelope.h:30-37 | at the end of a stage the next stage (stages cycle 0, 1, 0, …) lasts exactly its timing and adds its coefficient that many times |
| Envelope.ScaledSlope | cell/envelope.h:20-25 | a stage's coefficient times its timing is its level minus the previous level truncated to int (0 for the first stage) |
| Envelope.CyclesAdd | cell/envelope.h:28-39 | each full cycle of t[0] + t[1] calls adds the same gain to `feed`, which is never reset |
| Envelope.OneCycle | cell/envelope.h:28-39 | one cycle from the end of stage 1 returns to the end of stage 1 and adds `a[0] + a[1] - trunc(a[0])` |
| Envelope.FirstStageFromInit | cell/envelope.h:15-39 | from init, after t[0] calls `feed` is a[0] |
| Envelope.FirstCycleFromInit | cell/envelope.h:15-39 | from init, after t[0] + t[1] calls the envelope is at the end of stage 1 with `feed = a[0] + a[1] - trunc(a[0])` |
| Envelope.LevelsFromInit | cell/envelope.h:15-39 | from init, after c + 1 whole cycles `feed` is c + 1 times the cycle gain |
| Envelope.Env.constructor | cell/envelope.h:4-13 | an envelope with the given timings and levels, counters and `feed` zero |
| Envelope.Env.Init | cell/envelope.h:15-26 | `init_envelope`: counters and `feed` zero, and each coefficient is `(a[i] - ai)/t[i]` with `ai` the previous level truncated to int |
| Envelope.Env.Process | cell/envelope.h:28-39 | `process_envelope` updates the state exactly as `Step` says and returns the new `feed` |
| Utility.Abs | cell/utility.h:298 | `fabs` is non-negative and equals x or -x |
| Utility.Crossfade | cell/utility.h:258-261 | `crossfade(a, b, 1) == a`, `crossfade(a, b, 0) == b`, equal inputs pass through, and for f in [0, 1] the result lies between a and b |
| Utility.BlendBetween | cell/utility.h:258-261 | a blend with weight in [0, 1] lies between its two ends |
| Utility.Minimum | cell/utility.h:54-57 | the result is at most both arguments and is one of them |
| Utility.SampleHold.constructor | cell/utility.h:239-243 | `snh_init`: counter 0, held value 0 |
| Utility.SampleHold.Process | cell/utility.h:245-254 | re-samples exactly on calls that enter with `t > time` (counter reset then incremented to 1), otherwise keeps the value and increments the counter; the new counter is `HoldCounter` of the old one, the function `HoldPeriod` is about; returns the held value |
| Utility.HoldCounter | cell/utility.h:247-252 | the counter update of `snh_process`: reset to 0 and incremented to 1 when it has passed `time`, otherwise incremented; `Utility.SampleHold.Process` ties the method to it and `Utility.HoldPeriod` states its period, `time + 1` calls from one re-sample to the next |
| Utility.HoldPeriod | cell/utility.h:245-254 | after a re-sample and with `time >= 0`, the next `time` calls hold and the one after them re-samples |
| Utility.Smoother.constructor | cell/utility.h:207-212 | `psf_init` with the coefficient given: `b = 1 - a`, output 0 |
| Utility.Smoother.Process | cell/utility.h:214-218 | `psf_process` sets `o` to `in*b + o*a` and returns it |
| Utility.SmoothIsConvex | cell/utility.h:207-218 | with `b = 1 - a` and a in [0, 1] the new output lies between the old one and the input, and an input equal to the output is a fixed point |
| Utility.Follower.constructor | cell/utility.h:289-294 | `ef_init` with the coefficients given, envelope 0 |
| Utility.Follower.Process | cell/utility.h:296-301 | `ef_process` moves the envelope by the attack or release coefficient |
| Utility.FollowNext | cell/utility.h:296-301 | the envelope after one `ef_process` call; `Utility.FollowIsConvex` states that it lies between the old envelope and abs(in) |
| Utility.FollowIsConvex | cell/utility.h:296-301 | with both coefficients in [0, 1] the envelope moves to a point between its old value and abs(in), so it stays non-negative |
| Utility.Limiter.constructor | cell/utility.h:313-317 | `limiter_init`: a fresh follower with the given coefficients and the threshold |
| Utility.Limiter.Limit | cell/utility.h:320-329 | updates the envelope first; at or below the threshold the output is the input, above it abs(out) < abs(in) for non-zero input |
| Utility.LimitOutput | cell/utility.h:322-328 | the output of `limit` for the updated envelope; `Utility.LimitAttenuates` states that it passes the input at or below the threshold and shrinks it above |
| Utility.LimitAttenuates | cell/utility.h:320-329 | the pass branch returns the input; the attenuating branch shrinks a non-zero input and keeps its sign |
| Utility.StateVariable.Clear | cell/utility.h:89-93 | `svflto_clr` zeroes both integrators |
| Utility.StateVariable.Init | cell/utility.h:95-101 | `svflto_init` with `g` given: `k = 1/Q`, `a = 1/(1 + g(g + k))`, `b = g*a` |
| Utility.StateVariable.Process | cell/utility.h:103-115 | the integrators follow `SvfIntegrators`; beyond that update the contract states that band and low are the means of the old and new integrator values, that `low + k*band + high == in`, and that `all == in - 2k*band`; `Utility.SvfRest` states that the zero state is at rest |
| Utility.SvfRest | cell/utility.h:103-108 | zero input on zero state leaves the state zero |
| Utility.Resonant.Clear | cell/utility.h:129-133 | `ltoskf_clr` zeroes both integrators |
| Utility.Resonant.Init | cell/utility.h:136-147 | `ltoskf_init` with `g` given: the six coefficients satisfy their defining equations |
| Utility.Resonant.Process | cell/utility.h:149-156 | `ltoskf_process` changes only the integrators, by `ResonantIntegrators`; beyond that update the contract states that the output is the mean of the old and new `ic2eq`; `Utility.ResonantRest` states that the zero state is at rest |
| Utility.ResonantRest | cell/utility.h:149-156 | zero input on zero state leaves the state zero |
| Utility.TwoCoefficient.Clear | cell/utility.h:169-173 | `ltfskf_clr` zeroes both integrators |
| Utility.TwoCoefficient.Init | cell/utility.h:175-184 | `ltfskf_init` with `sin(w)` and `sin(2w)` given: the three coefficients times `2 + Q*s2` are the stated numerators |
| Utility.TwoCoefficient.Process | cell/utility.h:186-195 | `ltfskf_process` changes only the integrators, by `TwoCoefficientIntegrators`; beyond that update the contract states that the output is the mean of the old and new `ic2eq`; `Utility.TwoCoefficientRest` states that the zero state is at rest |
| Utility.TwoCoefficientRest | cell/utility.h:186-195 | zero input on zero state leaves the state zero |
| Oscillator.Advance | cell/oscillator.h:88-89 | the phase update with one wrap: the phase moves by the increment or the increment minus TAO, and lands below `limit` whenever the sum is below `limit + TAO` |
| Oscillator.AdvanceKeepsWindow | cell/oscillator.h:88-89 | a phase in [limit - TAO, limit) advanced by an increment in [0, TAO] and wrapped once stays in that window (limit TAO for `oSine`, PI for the others) |
| Oscillator.AdvanceMovesByIncrement | cell/oscillator.h:88-89 | the wrap changes the phase by whole periods only: it moves by the increment or the increment minus TAO |
| Oscillator.NegativeIncrementLeavesWindow | cell/oscillator.h:88-89 | there is no lower wrap: a negative increment that crosses the bottom leaves the window |
| Oscillator.Delta | cell/oscillator.h:55-59 | `delta * SAMPLE_RATE == Hz * TAO`, and delta is in [0, TAO] exactly when Hz is in [0, SAMPLE_RATE] |
| Oscillator.RampOut | cell/oscillator.h:133 | `oRamp`'s output from the phase; `Oscillator.RampOutRange` states its range |
| Oscillator.SawOut | cell/oscillator.h:140 | `oSawtooth`'s output from the phase; `Oscillator.SawOutRange` states its range |
| Oscillator.SquareOut | cell/oscillator.h:147-150 | `oSquare`'s output mixes the ramp of `phase` and the reversed ramp of `eax` by `warp`; `Oscillator.SquareOutRange` states its range |
| Oscillator.RampOutRange | cell/oscillator.h:131-136 | from a phase in [-PI, PI) the ramp output lies in [-amp, amp) |
| Oscillator.SawOutRange | cell/oscillator.h:138-143 | from a phase in [-PI, PI) the sawtooth output lies in (-amp, amp] |
| Oscillator.SquareKeepsDistance | cell/oscillator.h:152-156 | `phase` and `eax` take the same increment, so their distance changes by 0 or one period |
| Oscillator.SquareOutRange | cell/oscillator.h:147-156 | with `phase` in [-PI, PI), `eax` in its window, `warp` in [0, 1] and `pwm >= 0`, the square output lies in [-1 - pwm/PI, 1] |
| Oscillator.PiInEaxWindow | cell/oscillator.h:156 | the start value PI lies in the `eax` window [PI + pwm - TAO, PI + pwm) exactly when 0 < pwm <= TAO |
| Oscillator.EaxRun | cell/oscillator.h:153-156 | `eax` after a run of `oSquare` calls; `Oscillator.EaxRunKeepsWindow` states that it stays in its window |
| Oscillator.EaxRunKeepsWindow | cell/oscillator.h:153-156 | from inside its window, `eax` stays inside it through every run of `oSquare` calls with increments in [0, TAO] |
| Oscillator.SquareEaxFromPi | cell/oscillator.h:153-156 | started at PI, `eax` stays in its window through every such run when 0 < pwm <= TAO, and otherwise starts outside it |
| Oscillator.Coefficient | cell/oscillator.h:162-164 | the Tomisawa coefficient is `max(0, 1 - 0.0001*frequency)`: non-negative, at most 1 for non-negative frequency, 0 from 10000 Hz up |
| Oscillator.FeedbackBounded | cell/oscillator.h:169-173 | averaging a cosine with a memory in [-1, 1] keeps the memory in [-1, 1] |
| Oscillator.Guarded | cell/oscillator.h:181-182 | the guarded division is a true quotient for a non-zero segment length and 0 otherwise |
| Oscillator.TrianglePhase | cell/oscillator.h:184 | the phase `oTriangle` uses moves by 0 or one period, stays non-negative, and is at most TAO when the phase was at most 2 TAO |
| Oscillator.TriangleOut | cell/oscillator.h:179-186 | `oTriangle`'s output for the phase it uses; `Oscillator.TriangleGuards` states its values at the guarded edges |
| Oscillator.TrianglePhaseWindow | cell/oscillator.h:184-187 | TAO is subtracted at most once and only when the phase exceeds TAO, so a phase in [0, 2 TAO] is used in [0, TAO] |
| Oscillator.TriangleGuards | cell/oscillator.h:179-186 | with `pwm = 0` the zero-length rise is skipped and the fall formula applies; with `pwm = 1` and the phase at TAO the zero-length fall gives `amp`; otherwise the rise starts at `-amp` with slope `2 amp / rise` |
| Oscillator.SegmentLength | cell/oscillator.h:113 | `m = trunc(SAMPLE_RATE / (2 frequency))` is at least 1 for frequencies up to half the sample rate |
| Oscillator.ParabolValue | cell/oscillator.h:118-127 | the table value `oParabolWT` writes at i; `Oscillator.ParabolStep` ties the loop to it and the parabola lemmas state its zeros, signs and bound |
| Oscillator.ParabolZeroAtMultiples | cell/oscillator.h:118-127 | the table is 0 at every multiple of m |
| Oscillator.ParabolAlternates | cell/oscillator.h:118-127 | the value m samples later is the negation, so the sign alternates per segment |
| Oscillator.CurveRange | cell/oscillator.h:126 | within a segment `(i - a)(i - b)` lies in [-m²/4, 0] |
| Oscillator.ParabolSign | cell/oscillator.h:117-127 | for non-negative amplitude the segments are non-negative and non-positive in turn, starting non-negative |
| Oscillator.ParabolBounded | cell/oscillator.h:117-127 | every table value is at most abs(amplitude) in magnitude |
| Oscillator.PeakTimesCurve | cell/oscillator.h:117-126 | the scaled parabola `amp * 4/m² * (i - a)(i - b)` is at most abs(amplitude) in magnitude |
| Oscillator.ParabolMagnitude | cell/oscillator.h:118-127 | the magnitude of a table value depends only on its position within its segment |
| Oscillator.ParabolStep | cell/oscillator.h:118-126 | one loop iteration keeps `a = (i/m)*m`, `b = a + m` and the segment's sign, and writes the table value |
| Oscillator.RotateKeepsRadius | cell/oscillator.h:103-105 | a rotation step with `cs² + sn² = 1` keeps the radius |
| Oscillator.Rotation | cell/oscillator.h:101-107 | the phasor after n iterations of the `oSineWT` loop; `Oscillator.RotationKeepsRadius` states that it keeps the radius |
| Oscillator.RotationKeepsRadius | cell/oscillator.h:101-107 | any number of rotation steps keep the radius |
| Oscillator.PhasorRadius | cell/oscillator.h:96-97 | the start point `(a cos p, a sin p)` has radius abs(a) |
| Oscillator.SineTableOnCircle | cell/oscillator.h:93-108 | every point of the sine fill lies on the circle of radius abs(amplitude), so every table value is at most abs(amplitude) in magnitude |
| Oscillator.Osc.constructor | cell/oscillator.h:21-38 | a zero-initialised `oscillator` over the given table |
| Oscillator.Osc.Init | cell/oscillator.h:42-51 | `oscillator_init`: `nharm` 8, phase 0, amplitude 1, fm, am, pwm and warp 0 |
| Oscillator.Osc.SetDelta | cell/oscillator.h:55-59 | `set_delta`: frequency is Hz and delta is `Delta(Hz)` |
| Oscillator.Osc.Sine | cell/oscillator.h:85-90 | output from the old phase; the phase advances by `delta + fm` with the wrap at TAO |
| Oscillator.Osc.Ramp | cell/oscillator.h:131-136 | ramp output from the old phase; the phase advances with the wrap at PI |
| Oscillator.Osc.Sawtooth | cell/oscillator.h:138-143 | sawtooth output from the old phase; the phase advances with the wrap at PI |
| Oscillator.Osc.Square | cell/oscillator.h:145-157 | `out = saw*warp + ramp*(1 - warp)` from the old phase and `eax`; both advance by the same increment, wrapping at PI and at PI + pwm |
| Oscillator.Osc.Tomisawa | cell/oscillator.h:160-175 | `ecx` is the clamped coefficient; the phase advances before use with the wrap at PI; both memories average in their cosines, and the output is their difference times amplitude |
| Oscillator.Osc.Triangle | cell/oscillator.h:177-188 | the phase is wrapped at most once before use, the output is the guarded triangle formula at that phase, and the phase then advances |
| Oscillator.Osc.ParabolWT | cell/oscillator.h:110-128 | fills `data[0..width-1]` with the segment parabola values and leaves the rest untouched |
| Oscillator.Osc.SineWT | cell/oscillator.h:93-108 | writes only `data[1..width-1]`, entry i being the sine of the i-th rotation of the start point; `data[0]` and the rest are untouched |
| Mux4051.Set4051 | 4051.h:8-58 | `set4051(n)` writes something exactly when n is in 0..7, and then three writes, to A, B and C in that order |
| Mux4051.Set4051Bits | 4051.h:8-57 | for n in 0..7 A gets bit 2, B bit 1 and C bit 0, and the branch writes A, B and C once each, in that order, with 0 or 1 |
| Mux4051.ChannelRoundTrip | 4051.h:8-57 | reading the pins back gives the channel: n == 4A + 2B + C |
| Mux4051.EveryTripleSelected | 4051.h:8-57 | every pin triple is produced by the channel 4a + 2b + c |
| Mux4051.Set4051Injective | 4051.h:10-57 | distinct channels drive distinct pin triples |
| Mux4051.OutOfRangeWritesNothing | 4051.h:8-58 | for n outside 0..7 no pin is written, because the if/else chain has no final else |

## Left out

- `cell/chaos.h` and `cell/spawner.h` are not part of this model: they are floating-point ODEs and a composition of an oscillator and a filter, with no discrete invariant to state.
- `dcb` and `allpass` of `cell/utility.h`: one-line float recurrences whose state lives in hidden `static` locals; neither has a property beyond its formula.
- `init_dssmf` and `process_dssmf` of `cell/utility.h`: the coefficient comes from `tanf`, and the update is a float smoothing step with no invariant to state; the program does not use this filter. Only `minimum`, which `process_dssmf` calls, is modelled.
- `saturate` of `cell/utility.h`: `sinf(tanhf(...))` blended by `crossfade`; it is transcendental apart from the crossfade, which is modelled.
- `DStoMS` of `cell/utility.h`: the conversion `samples*1000/sample_rate`; the program does not use it.
- `genRand` of `cell/sequencer.h`: it depends on `rand()`. The step contents are parameters of the constructor.
- `delay_clr`: it only frees the buffer, and Dafny arrays are garbage collected.
- `main`, `init_audio`, `core1_entry` and `core1_interrupt_handler` of `grib.c`: ADC and multiplexer reads, clocks, OLED, I2S/DMA setup and the multicore FIFO are I/O.
- The per-sample production loop at grib.c:329-351: a float composition of transcendental stages. The callback reads a fixed table.
- The unsynchronised sharing of `wave_table` between the two contexts is concurrency. The callback is modelled as one sequential call.
- `take_audio_buffer` and `give_audio_buffer` become a nullable `AudioBuffer` argument. `oledSetPixel` becomes the returned sequence of points. `gpio_put` becomes the returned sequence of `Put` writes.
- IEEE float rounding, infinities and NaN: all float arithmetic is exact `real` arithmetic.
- `sinf`, `cosf`, `sqrt`, `expf` and `tanf` are uninterpreted function parameters or given reals. For `expf` the only assumption is that `exp(x) > 1` for `x > 0`. The filter and follower initialisers take their computed coefficients as arguments.
- Delay.DelayLine.Process: takes the integer tap offset instead of the `time` field, because `roundf(time*tmax)` is float rounding. `TapOffset` shows the offset is in [0, 32768] for `time` in [0, 1]. The offset must be in that range, as the source reads outside the buffer otherwise.
- Envelope.Env.Init: requires non-zero timings, because a zero timing gives an infinite or NaN coefficient under IEEE and no real value.
- Oscillator.Osc.ParabolWT: requires `0 < frequency <= 22050`. Above 22050 Hz `m = trunc(44100/(2 frequency))` is 0, so `i % m` is undefined in C; at frequency 0 the quotient is infinite and its conversion to `int` is undefined. The requires also excludes negative frequencies, for which `m` is negative and the C loop is defined; those tables are not modelled. The `int` overflow of `m*m` at very low positive frequencies is not modelled either.
- Oscillator.Osc.Triangle and Oscillator.Osc.Tomisawa: the square root and cosine are parameters, so their outputs are stated through the formulas rather than as waveform shapes.
- Grib.Synth.Callback: requires `pos < pos_max` and `step <= pos_max`, which the initial globals satisfy. Outside that range the source can read past the table.
- Grib.Bresenham and the sequencer counters use unbounded integers: C `int` overflow for huge coordinates or counts is not modelled.
- grib.c:323 starts the square wave's `eax` at PI, with `pwm = (PW - 0.5)*TAO` at grib.c:325. `Oscillator.SquareEaxFromPi` shows that `eax` then stays in its wrap window exactly when 0 < pwm <= TAO; the caller itself is not modelled.
- `Grib.Synth.PlayFrame` is the body of the callback's loop written as its own method; the source has it inline.
- `delay_process` blends the input with the value it just wrote, `input + data[f]*feedback`, not with the bare tapped sample, so with feedback 0 the output is the input (`Delay.NoFeedbackIsDry`).
