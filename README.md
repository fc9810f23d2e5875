# Radio-propagation simulator core, modelled in Dafny

This project models the sequential, integer-indexed state machines of a
radio-propagation simulator, and the bit-decision logic of its OFDM plotting
script:

- `ring_buffer.dfy` (module `RingBuffers`) holds the fixed-capacity circular
  buffer. A modular `reader` offset gives O(1) `pop`, `get` and `get_mut`.
  The class keeps an array and a reader. Its logical view `View()` is the
  array rotated by `reader`.
- `ofdm.dfy` (module `Ofdm`) covers OFDM framing:
  - the emitter pads its bit stream to a multiple of eight and deals it
    round-robin onto eight carriers, then plays one 2048-sample symbol per
    column of bits and falls silent when the data runs out;
  - the receiver waits for the first non-zero sample, cuts the signal into
    2048-sample symbols and decides eight bits per symbol.

  Both classes are proved against pure step functions (`EmitNext`,
  `ReceiveNext`). The lemmas about those functions state what happens over
  many samples.
- `propagation.dfy` (module `Propagation`) models the delay line. Each tick,
  every transfer grows its receiver's queue to the transfer's horizon. Each
  event adds `current * gain` at its delay. Every receiver then pops the
  front of its queue into `current`. The system tick over all emitters and
  receivers is proved equal to a per-receiver tick function, `Tick`.
- `moving.dfy` (module `Moving`) holds the antenna cycle. A cursor over a list
  of antennas copies one antenna's sample into every proxy receiver and then
  advances with wrap-around.
- `ofdm_plot.dfy` (module `OfdmPlot`) covers the decision view of `ofdm.py`:
  the fixed analysis windows, the eight bars for spectrum bins 1 to 8, and
  each bar's label, colour and text position.
- `options.dfy` holds the `Option` type and `modular.dfy` holds remainder
  facts shared by the wrapping counters.

Samples (`f32` in the source) are `real`s. The sine tables are an abstract
`array2<real>` handed to the emitter. The Fourier transform is an opaque
function `binRe(window, k)` giving the real part of bin `k`. In the plotting
script the spectrum is simply an input sequence. A panic (`panic!`,
`expect`) is modelled as a `false` / `None` result whose condition is
stated exactly.

Three facts about the plotting script shape that part of the model:
- It draws eight bars, for spectrum bins 1 to 8 (`fft[1:9]`).
- Both time traces take their length from the received capture
  (`len(one) // 12`).
- The chart titles say "real parts", but what is plotted is `np.imag` of
  the transform. The model takes the spectrum as given, so it does not
  depend on which part is plotted.

## Model

| member | source | states |
|---|---|---|
| `Modular.ModSucc` | src/ring_buffer.rs:31-36 | taking the remainder before or after an increment gives the same result; used by both wrapping counters |
| `RingBuffers.NextReader` | src/ring_buffer.rs:31-36 | the optimised increment equals `(reader + 1) % len`, stays below `len`, and wraps to 0 exactly at `len - 1` |
| `RingBuffers.ReaderAfterIsModular` | src/ring_buffer.rs:33-36 | after `k` pops the reader is `(reader + k) % len` |
| `RingBuffers.PopCycleRestoresReader` | src/ring_buffer.rs:33-36 | popping `len` times brings the reader back to its starting value |
| `RingBuffers.PopShiftsView` | src/ring_buffer.rs:25-39 | clearing the head slot and stepping the reader shifts the logical view by one and appends the default value |
| `RingBuffers.RotatedAt` | src/ring_buffer.rs:41-53 | logical index `i` of the rotated view is physical slot `(reader + i) % len` |
| `RingBuffers.RingBuffer.Init` | src/ring_buffer.rs:20-22 | a new buffer has `reader == 0` and every slot holds the default value |
| `RingBuffers.RingBuffer.WithCapacity` | src/ring_buffer.rs:15-23 | capacity 0 fails (the panic); otherwise the result is a fresh buffer of `capacity` default values with `reader == 0` |
| `RingBuffers.RingBuffer.Pop` | src/ring_buffer.rs:25-39 | returns the old head `get(0)`, leaves the default in that physical slot, keeps `reader < len`, moves the view by one with the default at its end, and leaves `len` unchanged |
| `RingBuffers.RingBuffer.Get` | src/ring_buffer.rs:41-53 | `None` exactly when `index >= len`; otherwise the view's element at `index`, which is `buffer[(reader + index) % len]` (the single subtraction is the modulo) |
| `RingBuffers.RingBuffer.GetMut` | src/ring_buffer.rs:55-67 | resolves to no slot exactly when `index >= len`; otherwise to physical slot `(reader + index) % len`, which holds the value `Get(index)` returns |
| `RingBuffers.RingBuffer.Store` | src/ring_buffer.rs:55-67 | writing through `get_mut(index)` changes logical index `index` and no other; an out-of-range index changes nothing |
| `RingBuffers.SlotsDistinct` | src/ring_buffer.rs:55-67 | two logical indices resolve to the same physical slot only if they are equal |
| `RingBuffers.RingBuffer.Len` | src/ring_buffer.rs:69-71 | the length is positive and is the length of the logical view |
| `Ofdm.PadLength` | src/systems/ofdm.rs:37-39 | the padding is fewer than 8 bits and brings the length to a multiple of 8 |
| `Ofdm.Pad` | src/systems/ofdm.rs:37-39 | the padded stream keeps the input as prefix, adds only `false` bits, fewer than 8 of them, and has a length that is a multiple of 8 |
| `Ofdm.Deal` | src/systems/ofdm.rs:43-55 | eight carrier buffers, each of length `padded_len / 8`, with `carriers[k][j] == global[8*j + k]` |
| `Ofdm.SymbolCarriesGroup` | src/systems/ofdm.rs:50-55 | the column loaded for symbol `j` is bits `8j .. 8j+7` of the padded stream |
| `Ofdm.DealRoundTrip` | src/systems/ofdm.rs:50-55 | reading the carriers back column by column gives the padded stream, so dealing loses and reorders nothing |
| `Ofdm.SymbolBits` | src/systems/ofdm.rs:115-117 | the reference definition of the column load: eight bits, bit `k` taken from carrier `k` at position `j`; `Ofdm.SymbolCarriesGroup` proves it is bits `8j .. 8j+7` of the padded stream, and `Ofdm.EmitNext` and `Ofdm.Emitter.Emit` load it at a symbol boundary |
| `Ofdm.Emitter.New` | src/systems/ofdm.rs:34-64 | the carriers are the padded signal dealt round-robin; `buffer_pos == 0`, `clock == 0`, every phase bit `false` |
| `Ofdm.EmitterStart` | src/systems/ofdm.rs:57-63 | the initial control state: clock 0, no symbol sent, all eight phases false |
| `Ofdm.NextClock` | src/systems/ofdm.rs:131-134 | the symbol clock steps by one modulo 2048 and stays in `[0, 2048)` |
| `Ofdm.EmitNext` | src/systems/ofdm.rs:106-135 | one sample keeps `clock < 2048` and `buffer_pos <= len`; idle (clock 0, no data left) changes nothing; otherwise the clock advances modulo 2048; the phases and `buffer_pos` change only at clock 0, by loading column `buffer_pos` and adding one |
| `Ofdm.IdleForever` | src/systems/ofdm.rs:108-112 | once idle, any number of further samples leaves the emitter state unchanged |
| `Ofdm.MidSymbol` | src/systems/ofdm.rs:121-134 | inside a symbol only the clock moves |
| `Ofdm.OneSymbol` | src/systems/ofdm.rs:108-134 | from a symbol boundary with data left, 2048 samples load the next column, play it, and return to the boundary with one more symbol sent |
| `Ofdm.SymbolsSent` | src/systems/ofdm.rs:106-135 | after `2048*m` samples a fresh emitter is at a boundary, has sent `min(m, L)` symbols, and while data lasts holds the phases of symbol `m - 1` |
| `Ofdm.Contribution` | src/systems/ofdm.rs:123-127 | a carrier contributes `+1` or `-1` times its table value as its phase bit is set or clear, so its magnitude is that of the table value |
| `Ofdm.SignedSum` | src/systems/ofdm.rs:122-129 | the reference definition of the emitted sample, the carriers' contributions summed in carrier order; its magnitude never exceeds the sum of the table values' magnitudes. `Ofdm.FlipCarrier` and `Ofdm.FlipAll` prove how it responds to the phase bits, and `Ofdm.Emitter.Sample` computes it |
| `Ofdm.SignedSumStep` | src/systems/ofdm.rs:123-128 | one more carrier adds its own contribution to the sum of the carriers before it |
| `Ofdm.AmplitudeBound` | src/systems/ofdm.rs:122-129 | with every table value in `[-1, 1]`, as the sine tables of src/systems/ofdm.rs:14-23 are, the emitted sample lies within `[-8, 8]` |
| `Ofdm.FlipCarrier` | src/systems/ofdm.rs:122-129 | each carrier contributes `+w` when its bit is set and `-w` otherwise: flipping one bit moves the sample by twice that contribution |
| `Ofdm.FlipAll` | src/systems/ofdm.rs:122-129 | flipping every phase bit negates the emitted sample |
| `Ofdm.Emitter.Sample` | src/systems/ofdm.rs:122-129 | the summing loop returns `SignedSum` of the current phase bits and the table column at the current clock, and changes nothing |
| `Ofdm.Emitter.Emit` | src/systems/ofdm.rs:106-135 | the new control state is `EmitNext` of the old; the sample is 0 when idle and otherwise the signed sum of the carriers' table values at the old clock |
| `Ofdm.Decisions` | src/systems/ofdm.rs:172-180 | one symbol yields exactly eight decision bits |
| `Ofdm.ReceiverStart` | src/systems/ofdm.rs:84-94 | a new receiver has no bits, has not begun, has counted no silence, and has clock 0 |
| `Ofdm.Receiver.New` | src/systems/ofdm.rs:84-94 | the receiver's state is `ReceiverStart` |
| `Ofdm.ReceiveNext` | src/systems/ofdm.rs:144-184 | before the start a zero sample only counts silence; `began` becomes true on the first non-zero sample and is never reset; afterwards the clock advances modulo 2048; the bits grow by the eight decisions exactly when a symbol completes |
| `Ofdm.WaitsForSignal` | src/systems/ofdm.rs:146-154 | a run of zero samples before the start only adds its length to `before_start` |
| `Ofdm.BitsPerSymbol` | src/systems/ofdm.rs:156-183 | once started, `n` samples leave the clock at `(clock + n) % 2048` and append exactly `8 * ((clock + n) / 2048)` bits, keeping the earlier bits |
| `Ofdm.ReceiveRunAppend` | src/systems/ofdm.rs:144-184 | receiving two runs of samples one after the other is receiving their concatenation |
| `Ofdm.SymbolFills` | src/systems/ofdm.rs:146-158 | from a symbol boundary, the first `k < 2048` samples of a symbol land in slots `0 .. k-1`, the clock reads `k`, the decided bits are untouched, and a non-zero first sample starts a waiting receiver |
| `Ofdm.OneSymbolDecided` | src/systems/ofdm.rs:156-183 | a whole symbol received from a boundary rewrites every slot of the symbol buffer with its 2048 samples and appends exactly the eight decisions taken on them, returning to a boundary |
| `Ofdm.BlockDecisions` | src/systems/ofdm.rs:160-183 | the reference decoding of consecutive 2048-sample blocks: eight decision bits per block, block after block |
| `Ofdm.SymbolsDecided` | src/systems/ofdm.rs:144-184 | from a boundary, `m` whole symbols append `BlockDecisions` of those samples, end at a boundary, and leave the silence count as it was |
| `Ofdm.SilenceThen` | src/systems/ofdm.rs:146-154 | silence before a signal leaves only its count behind |
| `Ofdm.Decodes` | src/systems/ofdm.rs:144-184 | a fresh receiver given `n` zero samples and then whole symbols starting with a non-zero sample records `before_start == n` and decides exactly `BlockDecisions` of the signal |
| `Ofdm.Receiver.Receive` | src/systems/ofdm.rs:144-184 | the new receiver state is `ReceiveNext` of the old one for the antenna's current sample |
| `Propagation.Reception.constructor` | src/systems/propagation.rs:21-26 | a new reception has `current == 0` and an empty queue |
| `Propagation.Grow` | src/systems/propagation.rs:43-46 | the queue's new length is `max(old_len, max_time)`, the old contents are kept, and the new slots are 0 |
| `Propagation.Accumulate` | src/systems/propagation.rs:47-51 | the event loop: each event adds `current * gain` at its slot, in order; a success keeps the queue's length and implies that every event lay inside the queue (the `expect` failing otherwise). `Propagation.AccumulateSpec` gives the converse and the value of every slot |
| `Propagation.AccumulateSpec` | src/systems/propagation.rs:47-51 | adding the events fails exactly when an event lies at or beyond the queue's end; otherwise the length is kept and each slot gains the sum of `current * gain` over the events at that slot |
| `Propagation.ArrivedElsewhere` | src/systems/propagation.rs:47-51 | a slot that no event targets gains nothing, so it is unchanged |
| `Propagation.Deliver` | src/systems/propagation.rs:43-51 | one transfer applied to a queue, grow then add: it fails exactly when an event lies beyond the grown queue, and otherwise leaves a queue of length `max(old_len, max_time)` |
| `Propagation.Reception.Deliver` | src/systems/propagation.rs:43-51 | grows the queue, then adds the events; it fails (the `expect`) exactly when an event is out of range after growth |
| `Propagation.Reception.PopFront` | src/systems/propagation.rs:57-62 | fails exactly on an empty queue; otherwise `current` becomes the old front and the queue loses exactly its front |
| `Propagation.DeliverAll` | src/systems/propagation.rs:40-53 | after all deliveries a receiver's queue is as long as the largest horizon seen (or its old length) |
| `Propagation.HorizonAtLeast` | src/systems/propagation.rs:43-46 | that length is at least the old length and at least every transfer's `max_time`: queues only grow |
| `Propagation.DeliverAllFatal` | src/systems/propagation.rs:48-50 | a fatal event stays fatal whatever transfers follow it |
| `Propagation.Tick` | src/systems/propagation.rs:38-62 | a receiver's tick succeeds only if all its deliveries do, and then leaves the queue one shorter than the largest horizon |
| `Propagation.DelayLine` | src/systems/propagation.rs:57-62 | a sample `k` slots down the queue reaches `current` after `k + 1` ticks without deliveries |
| `Propagation.PathDelay` | src/systems/propagation.rs:38-62 | a single path of delay `d` and gain `g` into an empty receiver delivers `current * g` to its `current` at once if `d == 0`, otherwise exactly `d` ticks later |
| `Propagation.SinglePath` | src/systems/propagation.rs:43-51 | a single path of delay `d < max_time` into an empty queue leaves a queue of `max_time` slots with `current * g` at slot `d` |
| `Propagation.For` | src/systems/propagation.rs:40-42 | the deliveries selected for a receiver are all addressed to it |
| `Propagation.FatalTick` | src/systems/propagation.rs:48-50 | a fatal transfer part-way through a tick makes that receiver's whole tick fatal |
| `Propagation.DeliverOne` | src/systems/propagation.rs:41-52 | a transfer to an entity without a reception is skipped and changes nothing; otherwise it updates only its target, or fails for that target |
| `Propagation.DeliverEmission` | src/systems/propagation.rs:41-53 | one emitter's transfers are applied in order; on failure it names the receiver and the deliveries that made its tick fatal |
| `Propagation.PopAll` | src/systems/propagation.rs:57-62 | every receiver pops its front; this fails exactly when some receiver's tick is fatal |
| `Propagation.Run` | src/systems/propagation.rs:38-63 | the system tick succeeds exactly when every receiver's own tick does, and then each receiver ends in the state `Tick` gives for the transfers aimed at it |
| `Moving.ProxyReception.constructor` | src/systems/moving.rs:9-16 | a new proxy has `current == 0` and its label |
| `Moving.MovementHandler.constructor` | src/systems/moving.rs:28-33 | the cursor starts at 0 |
| `Moving.NextPos` | src/systems/moving.rs:51-54 | the cursor steps by one, returns to 0 when it reaches the cycle's length, and stays below that length when the cycle is non-empty |
| `Moving.PosAfterIsModular` | src/systems/moving.rs:51-54 | after `k` ticks the cursor is `(pos + k) % len` |
| `Moving.CycleReturns` | src/systems/moving.rs:51-54 | after `len` ticks the cursor is back at its starting value |
| `Moving.EmptyCycleStaysAtZero` | src/systems/moving.rs:51-54 | with an empty cycle the cursor resets to 0 and stays there |
| `Moving.MovementHandler.Run` | src/systems/moving.rs:39-55 | fails exactly when a proxy exists and the cursor is outside the cycle or its antenna has no reception; otherwise every proxy receives that antenna's `current` and the cursor advances with wrap-around |
| `OfdmPlot.Slice` | ofdm.py:9 | Python slicing with non-negative bounds: clipped to the sequence, element `i` is `s[a + i]` |
| `OfdmPlot.ToShow` | ofdm.py:6 | the trace length is the received length floor-divided by 12 |
| `OfdmPlot.EmittedWindow` | ofdm.py:8 | the emitted analysis window is samples `[0, 2048)` when the capture is long enough |
| `OfdmPlot.ReceivedWindow` | ofdm.py:9 | the received analysis window is samples `[1903, 3951)` when the capture is long enough |
| `OfdmPlot.Traces` | ofdm.py:27-32 | fails exactly when `to_show > 0` and either capture is too short for `to_show` samples (where plotting against `range(to_show)` raises); otherwise both traces have `to_show` samples, the received one from sample 1903 and the emitted one from sample 0 |
| `OfdmPlot.Bars` | ofdm.py:37 | exactly eight bars at positions 1..8 with the heights of bins 1..8 (bin 0 excluded), each centred on its position |
| `OfdmPlot.Label` | ofdm.py:17-22 | the label is "1" exactly when the height is negative and "0" exactly when it is non-negative, 0 included |
| `OfdmPlot.Color` | ofdm.py:16-21 | the colour is "black" exactly when `-0.5 < h < 0.5` and "white" otherwise |
| `OfdmPlot.TextY` | ofdm.py:19-22 | the text never lies strictly inside `(-0.5, 0.5)`, is on the bar's side of the axis, is `h/2` for tall bars and `±0.5` for short ones |
| `OfdmPlot.TextX` | ofdm.py:19 | the text is horizontally centred on the bar |
| `OfdmPlot.BarText` | ofdm.py:15-22 | a bar's caption is "1" exactly for a negative height and "0" otherwise; its colour is "black" exactly when `-0.5 < h < 0.5`; its height lies outside `(-0.5, 0.5)` on the bar's side of the axis; it is centred on the bar |
| `OfdmPlot.Autolabel` | ofdm.py:11-22 | the drawing loop gives one text per bar, in order, each as `BarText` prescribes, labelled "1" exactly for negative bars |
| `OfdmPlot.LabelsOnHarmonics` | ofdm.py:42 | the label of bar `k` sits at harmonic `k + 1` and shows "1" exactly when bin `k + 1` is negative |

## Left out

- The sine tables (`generate_wavetables`) are not computed: the emitter takes any 8 x 2048 table of reals.
- The Fourier transform is the opaque function `binRe`. The transform library uses the input buffer as scratch space, which the model does not capture; `Ofdm.OneSymbolDecided` shows that every slot is rewritten before the next transform. The `symbol_result` array is not kept as state.
- `BitVec::from_bytes` (the byte-to-bit order) is library behaviour: the emitter takes its input as a bit sequence.
- Floating point: samples, gains and heights are reals, so rounding, NaN and the order of the eight-term sum are not modelled.
- `Ofdm.Receiver.Receive`: `before_start` is an unbounded counter; the 32-bit overflow of the source after 2^32 silent samples is not modelled.
- The `println!` diagnostics (the padded bit vector, "Starts at") are output only and are left out.
- The component storage and join machinery is modelled as a map from entity to `Reception` object and a sequence of proxies. The sequential pop over receivers, in storage order, is modelled as a loop in an unspecified order; the receivers' pops touch disjoint state.
- `Propagation.Run`: on a fatal transfer or pop the source aborts the process, so the receivers' state after a `false` result is left unspecified; the same holds for `Propagation.Reception.Deliver`, `Propagation.DeliverOne`, `Propagation.DeliverEmission`, `Propagation.PopAll` and `Moving.MovementHandler.Run`.
- `Ofdm.Emitter.Emit` returns the sample that the source stores in the emission's `current` field, instead of writing that field.
- `OfdmPlot.Bars`: matplotlib's rectangle geometry (a centred bar of width 0.8 has its left edge at `position - 0.4`) is library behaviour and is written out. With fewer than nine spectrum bins the model reports failure; matplotlib broadcasting a single height over all eight bars is not modelled.
- File loading, plotting, titles and `plt.show()` in `ofdm.py`, and all of `results.py` and `sine.py`: I/O and display only.
- Ray tracing (`src/waves.rs`), scene and antenna geometry (`src/antennas.rs`, `src/world.rs`, `src/constants.rs`, `src/systems/mod.rs`), the sine emitter (`src/systems/simple_wave.rs`), the file tracker (`src/systems/tracker.rs`) and the wiring in `src/main.rs` and `src/simulation.rs` are not part of this model: they are floating-point geometry, concurrency, I/O or glue around foreign libraries.
- `RingBuffer<T>`: Rust's `T::default()` has no generic counterpart in Dafny, so it is passed to the constructor as `fill`. `get` returns the element rather than a reference, and a write through `get_mut` is the `Store` method.
