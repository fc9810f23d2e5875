/**
  OFDM framing (src/systems/ofdm.rs): an emitter that deals a bit stream
  round-robin onto eight sub-carriers and plays one symbol of 2048 samples
  per column of bits, and a receiver that waits for the signal, cuts it into
  symbols and decides eight bits per symbol from the spectrum.

  The sine tables are an abstract two-dimensional array and the Fourier
  transform is an opaque function `binRe(window, k)` giving the real part of
  bin `k` of the transform of `window`.
*/
module Ofdm {

  /** Number of sub-carriers, each carrying one bit per symbol. */
  const CarrierGroupSize: nat := 8
  /** Number of samples in one symbol. */
  const SymbolDuration: nat := 2048

  // ----------------------------------------------------------------------
  // Framing of the bit stream

  /** How many `false` bits bring a stream of `n` bits to a whole number of symbols. */
  function PadLength(n: nat): (p: nat)
    ensures p < CarrierGroupSize && (n + p) % CarrierGroupSize == 0
  {
    (CarrierGroupSize - n % CarrierGroupSize) % CarrierGroupSize
  }

  /** Appends `false` bits until the length is a multiple of the carrier count. */
  method Pad(bits: seq<bool>) returns (padded: seq<bool>)
    ensures |padded| % CarrierGroupSize == 0
    ensures |bits| <= |padded| < |bits| + CarrierGroupSize
    ensures |padded| == |bits| + PadLength(|bits|)
    ensures padded[..|bits|] == bits
    ensures forall i :: |bits| <= i < |padded| ==> !padded[i]
  {
    padded := bits;
    while |padded| % CarrierGroupSize != 0
      invariant |bits| <= |padded| <= |bits| + PadLength(|bits|)
      invariant padded[..|bits|] == bits
      invariant forall i :: |bits| <= i < |padded| ==> !padded[i]
      decreases |bits| + PadLength(|bits|) - |padded|
    {
      padded := padded + [false];
    }
  }

  /** `carriers` is `global` dealt round-robin: carrier `k` holds bits `k`, `k + 8`, `k + 16`, ... */
  ghost predicate Dealt(global: seq<bool>, carriers: seq<seq<bool>>)
  {
    && |carriers| == CarrierGroupSize
    && (forall k :: 0 <= k < CarrierGroupSize ==> |carriers[k]| == |global| / CarrierGroupSize)
    && (forall k, j :: 0 <= k < CarrierGroupSize && 0 <= j < |carriers[k]| ==>
          carriers[k][j] == global[CarrierGroupSize * j + k])
  }

  /** Splits a padded stream onto the eight carrier buffers. */
  method Deal(global: seq<bool>) returns (carriers: seq<seq<bool>>)
    requires |global| % CarrierGroupSize == 0
    ensures Dealt(global, carriers)
  {
    carriers := seq(CarrierGroupSize, _ => []);
    var pos := 0;
    while pos < |global|
      invariant pos <= |global| && pos % CarrierGroupSize == 0
      invariant |carriers| == CarrierGroupSize
      invariant forall c :: 0 <= c < CarrierGroupSize ==> |carriers[c]| == pos / CarrierGroupSize
      invariant forall c, j :: 0 <= c < CarrierGroupSize && 0 <= j < |carriers[c]| ==>
                  carriers[c][j] == global[CarrierGroupSize * j + c]
    {
      ghost var row := pos / CarrierGroupSize;
      for k := 0 to CarrierGroupSize
        invariant pos == CarrierGroupSize * row + k
        invariant |carriers| == CarrierGroupSize
        invariant forall c :: 0 <= c < k ==> |carriers[c]| == row + 1
        invariant forall c :: k <= c < CarrierGroupSize ==> |carriers[c]| == row
        invariant forall c, j :: 0 <= c < CarrierGroupSize && 0 <= j < |carriers[c]| ==>
                    carriers[c][j] == global[CarrierGroupSize * j + c]
      {
        carriers := carriers[k := carriers[k] + [global[pos]]];
        pos := pos + 1;
      }
    }
  }

  /** The carrier buffers hold the same number of bits each. */
  ghost predicate CarriersOk(data: seq<seq<bool>>)
  {
    |data| == CarrierGroupSize && forall k :: 0 <= k < CarrierGroupSize ==> |data[k]| == |data[0]|
  }

  /** The column of bits that symbol `j` carries, one per carrier. */
  function SymbolBits(data: seq<seq<bool>>, j: nat): (bits: seq<bool>)
    requires |data| == CarrierGroupSize
    requires forall k :: 0 <= k < CarrierGroupSize ==> j < |data[k]|
    ensures |bits| == CarrierGroupSize
  {
    seq(CarrierGroupSize, k requires 0 <= k < CarrierGroupSize => data[k][j])
  }

  /** The first `n` symbols read back column by column. */
  function Interleave(data: seq<seq<bool>>, n: nat): (bits: seq<bool>)
    requires |data| == CarrierGroupSize
    requires forall k :: 0 <= k < CarrierGroupSize ==> n <= |data[k]|
    ensures |bits| == CarrierGroupSize * n
  {
    if n == 0 then [] else Interleave(data, n - 1) + SymbolBits(data, n - 1)
  }

  /** Symbol `j` carries the `j`-th group of eight bits of the stream. */
  lemma SymbolCarriesGroup(global: seq<bool>, carriers: seq<seq<bool>>, j: nat)
    requires Dealt(global, carriers) && j < |global| / CarrierGroupSize
    ensures SymbolBits(carriers, j)
            == global[CarrierGroupSize * j .. CarrierGroupSize * j + CarrierGroupSize]
  {
    var bits := SymbolBits(carriers, j);
    var group := global[CarrierGroupSize * j .. CarrierGroupSize * j + CarrierGroupSize];
    forall k | 0 <= k < CarrierGroupSize ensures bits[k] == group[k] {
      assert bits[k] == carriers[k][j];
    }
  }

  /** Dealing loses nothing: reading the carriers column by column gives back the stream. */
  lemma {:induction false} DealRoundTrip(global: seq<bool>, carriers: seq<seq<bool>>, n: nat)
    requires Dealt(global, carriers) && n <= |global| / CarrierGroupSize
    ensures Interleave(carriers, n) == global[..CarrierGroupSize * n]
  {
    if n > 0 {
      DealRoundTrip(global, carriers, n - 1);
      SymbolCarriesGroup(global, carriers, n - 1);
      assert global[..CarrierGroupSize * n]
          == global[..CarrierGroupSize * (n - 1)]
           + global[CarrierGroupSize * (n - 1) .. CarrierGroupSize * n];
    }
  }

  // ----------------------------------------------------------------------
  // Emitter: the symbol clock

  /** The symbol clock after one sample: one step forward, wrapping at the symbol length. */
  function NextClock(clock: nat): (c: nat)
    requires clock < SymbolDuration
    ensures c < SymbolDuration && c == (clock + 1) % SymbolDuration
  {
    if clock + 1 == SymbolDuration then 0 else clock + 1
  }

  /** The control state of an emitter: symbol clock, next symbol to load, current phase bits. */
  datatype EmitterState = EmitterState(clock: nat, bufferPos: nat, phased: seq<bool>)

  ghost predicate EmitterInv(s: EmitterState, data: seq<seq<bool>>)
  {
    && CarriersOk(data)
    && s.clock < SymbolDuration
    && s.bufferPos <= |data[0]|
    && |s.phased| == CarrierGroupSize
  }

  /** At a symbol boundary with no symbol left to load, the emitter is silent. */
  ghost predicate Idle(s: EmitterState, data: seq<seq<bool>>)
    requires EmitterInv(s, data)
  {
    s.clock == 0 && s.bufferPos == |data[0]|
  }

  /** The control state after one emitted sample. */
  ghost function EmitNext(s: EmitterState, data: seq<seq<bool>>): (t: EmitterState)
    requires EmitterInv(s, data)
    ensures EmitterInv(t, data)
    ensures Idle(s, data) ==> t == s
    ensures !Idle(s, data) ==> t.clock == (s.clock + 1) % SymbolDuration
    ensures t.phased != s.phased || t.bufferPos != s.bufferPos ==>
              s.clock == 0 && t.bufferPos == s.bufferPos + 1 && t.phased == SymbolBits(data, s.bufferPos)
  {
    if Idle(s, data) then s
    else if s.clock == 0 then EmitterState(NextClock(0), s.bufferPos + 1, SymbolBits(data, s.bufferPos))
    else s.(clock := NextClock(s.clock))
  }

  /** The control state after `n` emitted samples. */
  ghost function EmitRun(s: EmitterState, data: seq<seq<bool>>, n: nat): (t: EmitterState)
    requires EmitterInv(s, data)
    ensures EmitterInv(t, data)
    decreases n
  {
    if n == 0 then s else EmitRun(EmitNext(s, data), data, n - 1)
  }

  /** Once idle, the emitter stays idle for ever. */
  lemma {:induction false} IdleForever(s: EmitterState, data: seq<seq<bool>>, n: nat)
    requires EmitterInv(s, data) && Idle(s, data)
    ensures EmitRun(s, data, n) == s
  {
    if n > 0 {
      IdleForever(s, data, n - 1);
    }
  }

  /** Inside a symbol only the clock moves. */
  lemma {:induction false} MidSymbol(s: EmitterState, data: seq<seq<bool>>, n: nat)
    requires EmitterInv(s, data) && s.clock + n <= SymbolDuration && (0 < s.clock || n == 0)
    ensures EmitRun(s, data, n) == s.(clock := (s.clock + n) % SymbolDuration)
    decreases n
  {
    if n > 0 {
      MidSymbol(EmitNext(s, data), data, n - 1);
    }
  }

  /**
    A symbol boundary with data left loads the next column, then plays it for
    a whole symbol and comes back to the boundary with one more symbol sent.
  */
  lemma OneSymbol(s: EmitterState, data: seq<seq<bool>>)
    requires EmitterInv(s, data) && s.clock == 0 && s.bufferPos < |data[0]|
    ensures EmitRun(s, data, SymbolDuration)
            == EmitterState(0, s.bufferPos + 1, SymbolBits(data, s.bufferPos))
  {
    var t := EmitNext(s, data);
    assert t == EmitterState(1, s.bufferPos + 1, SymbolBits(data, s.bufferPos));
    MidSymbol(t, data, SymbolDuration - 1);
  }

  /** Running `a` then `b` samples is running `a + b` samples. */
  lemma {:induction false} EmitRunAdd(s: EmitterState, data: seq<seq<bool>>, a: nat, b: nat)
    requires EmitterInv(s, data)
    ensures EmitRun(EmitRun(s, data, a), data, b) == EmitRun(s, data, a + b)
    decreases a
  {
    if a > 0 {
      EmitRunAdd(EmitNext(s, data), data, a - 1, b);
    }
  }

  /** The state of a freshly built emitter. */
  function EmitterStart(): (s: EmitterState)
    ensures s.clock == 0 && s.bufferPos == 0 && |s.phased| == CarrierGroupSize
    ensures forall k :: 0 <= k < CarrierGroupSize ==> !s.phased[k]
  {
    EmitterState(0, 0, seq(CarrierGroupSize, _ => false))
  }

  /**
    After `m` whole symbols' worth of samples a fresh emitter has sent
    `min(m, L)` symbols, where `L` is the number of symbols it holds, and is
    at a symbol boundary; while data lasts the current phases are those of
    symbol `m - 1`.
  */
  lemma {:induction false} SymbolsSent(data: seq<seq<bool>>, m: nat)
    requires CarriersOk(data)
    ensures var t := EmitRun(EmitterStart(), data, SymbolDuration * m);
            && t.clock == 0
            && t.bufferPos == (if m <= |data[0]| then m else |data[0]|)
            && (0 < m <= |data[0]| ==> t.phased == SymbolBits(data, m - 1))
  {
    if m > 0 {
      SymbolsSent(data, m - 1);
      var s := EmitRun(EmitterStart(), data, SymbolDuration * (m - 1));
      EmitRunAdd(EmitterStart(), data, SymbolDuration * (m - 1), SymbolDuration);
      assert SymbolDuration * (m - 1) + SymbolDuration == SymbolDuration * m;
      if s.bufferPos < |data[0]| {
        OneSymbol(s, data);
      } else {
        IdleForever(s, data, SymbolDuration);
      }
    }
  }

  // ----------------------------------------------------------------------
  // Emitter: the sample value

  /**
    Carrier contribution: its sine sample, negated when the phase bit is
    clear; the phase bit shifts the carrier by 0 or half a period.
  */
  function Contribution(phased: bool, wave: real): (c: real)
    ensures c == (if phased then 1.0 else -1.0) * wave
    ensures Abs(c) == Abs(wave)
  {
    if phased then wave else -wave
  }

  function Abs(x: real): real
  {
    if x < 0.0 then -x else x
  }

  /** The largest magnitude a signed sum of `wave` can reach. */
  function AbsSum(wave: seq<real>): real
  {
    if |wave| == 0 then 0.0 else AbsSum(wave[..|wave| - 1]) + Abs(wave[|wave| - 1])
  }

  /**
    The emitted sample: the signed sum of the carriers' sine samples. Its
    magnitude never exceeds the sum of the samples' magnitudes.
  */
  function SignedSum(phased: seq<bool>, wave: seq<real>): (r: real)
    requires |phased| == |wave|
    ensures -AbsSum(wave) <= r <= AbsSum(wave)
  {
    if |phased| == 0 then 0.0
    else SignedSum(phased[..|phased| - 1], wave[..|wave| - 1])
         + Contribution(phased[|phased| - 1], wave[|wave| - 1])
  }

  /** One more carrier adds its contribution to the sum of the carriers before it. */
  lemma SignedSumStep(phased: seq<bool>, wave: seq<real>, i: nat)
    requires |phased| == |wave| && i < |phased|
    ensures SignedSum(phased[..i + 1], wave[..i + 1])
            == SignedSum(phased[..i], wave[..i]) + Contribution(phased[i], wave[i])
  {
    assert phased[..i + 1][..i] == phased[..i];
    assert wave[..i + 1][..i] == wave[..i];
  }

  /** With every table value in `[-1, 1]`, the sample stays within the number of carriers. */
  lemma {:induction false} AmplitudeBound(phased: seq<bool>, wave: seq<real>)
    requires |phased| == |wave|
    requires forall k :: 0 <= k < |wave| ==> -1.0 <= wave[k] <= 1.0
    ensures -(|wave| as real) <= SignedSum(phased, wave) <= |wave| as real
  {
    AbsSumAtMost(wave);
  }

  lemma {:induction false} AbsSumAtMost(wave: seq<real>)
    requires forall k :: 0 <= k < |wave| ==> -1.0 <= wave[k] <= 1.0
    ensures AbsSum(wave) <= |wave| as real
  {
    if |wave| > 0 {
      AbsSumAtMost(wave[..|wave| - 1]);
    }
  }

  /** Flipping the phase bit of one carrier moves the sample by twice that carrier's contribution. */
  lemma {:induction false} FlipCarrier(phased: seq<bool>, wave: seq<real>, i: nat)
    requires |phased| == |wave| && i < |phased|
    ensures SignedSum(phased[i := !phased[i]], wave)
            == SignedSum(phased, wave) - 2.0 * Contribution(phased[i], wave[i])
  {
    var n := |phased| - 1;
    var flipped := phased[i := !phased[i]];
    if i == n {
      assert flipped[..n] == phased[..n];
    } else {
      assert flipped[..n] == phased[..n][i := !phased[i]];
      FlipCarrier(phased[..n], wave[..n], i);
    }
  }

  /** Flipping every phase bit negates the sample. */
  lemma {:induction false} FlipAll(phased: seq<bool>, wave: seq<real>)
    requires |phased| == |wave|
    ensures SignedSum(seq(|phased|, k requires 0 <= k < |phased| => !phased[k]), wave)
            == -SignedSum(phased, wave)
  {
    var n := |phased|;
    if n > 0 {
      var flipped := seq(n, k requires 0 <= k < n => !phased[k]);
      assert flipped[..n - 1] == seq(n - 1, k requires 0 <= k < n - 1 => !phased[..n - 1][k]);
      FlipAll(phased[..n - 1], wave[..n - 1]);
    }
  }

  class Emitter {
    /** One bit buffer per carrier; fixed once built. */
    const dataBuffer: seq<seq<bool>>
    /** The next symbol to load. */
    var bufferPos: nat
    /** Position inside the current symbol. */
    var clock: nat
    /** One sine table per carrier, `SymbolDuration` samples each. */
    const wavetables: array2<real>
    /** The phase bit of each carrier for the current symbol. */
    const isCurrentPhased: array<bool>

    ghost function State(): EmitterState
      reads this, isCurrentPhased
    {
      EmitterState(clock, bufferPos, isCurrentPhased[..])
    }

    ghost predicate Valid()
      reads this, isCurrentPhased
    {
      && EmitterInv(State(), dataBuffer)
      && wavetables.Length0 == CarrierGroupSize
      && wavetables.Length1 == SymbolDuration
    }

    /** The sine samples of all carriers at position `t` of a symbol. */
    ghost function WaveColumn(t: nat): (w: seq<real>)
      reads wavetables
      requires wavetables.Length0 == CarrierGroupSize && t < wavetables.Length1
      ensures |w| == CarrierGroupSize
    {
      seq(CarrierGroupSize, k requires 0 <= k < CarrierGroupSize reads wavetables => wavetables[k, t])
    }

    /** Pads `signal`, deals it onto the carriers and starts at the first symbol boundary. */
    constructor New(signal: seq<bool>, wavetables: array2<real>)
      requires wavetables.Length0 == CarrierGroupSize && wavetables.Length1 == SymbolDuration
      ensures Valid() && fresh(isCurrentPhased)
      ensures State() == EmitterStart()
      ensures this.wavetables == wavetables
      ensures Dealt(signal + seq(PadLength(|signal|), _ => false), dataBuffer)
    {
      var global := Pad(signal);
      assert global == signal + seq(PadLength(|signal|), _ => false);
      var carriers := Deal(global);
      dataBuffer := carriers;
      bufferPos := 0;
      clock := 0;
      this.wavetables := wavetables;
      isCurrentPhased := new bool[CarrierGroupSize](_ => false);
      new;
      assert isCurrentPhased[..] == seq(CarrierGroupSize, _ => false);
    }

    /** The signed sum of the carriers' table values at the current clock; changes nothing. */
    method Sample() returns (current: real)
      requires Valid()
      ensures current == SignedSum(isCurrentPhased[..], WaveColumn(clock))
    {
      ghost var wave := WaveColumn(clock);
      current := 0.0;
      for i := 0 to CarrierGroupSize
        invariant current == SignedSum(isCurrentPhased[..i], wave[..i])
      {
        SignedSumStep(isCurrentPhased[..], wave, i);
        current := current + if isCurrentPhased[i] then wavetables[i, clock] else -wavetables[i, clock];
      }
      assert isCurrentPhased[..] == isCurrentPhased[..CarrierGroupSize];
      assert wave == wave[..CarrierGroupSize];
    }

    /**
      One tick of the emitting system: returns the sample written to the
      emission's `current`.
    */
    method Emit() returns (current: real)
      requires Valid()
      modifies this`bufferPos, this`clock, isCurrentPhased
      ensures Valid()
      ensures State() == EmitNext(old(State()), dataBuffer)
      ensures current == if Idle(old(State()), dataBuffer) then 0.0
                         else SignedSum(isCurrentPhased[..], WaveColumn(old(clock)))
    {
      if clock == 0 {
        if bufferPos == |dataBuffer[0]| {
          return 0.0;
        }
        for i := 0 to CarrierGroupSize
          modifies isCurrentPhased
          invariant isCurrentPhased[..i] == SymbolBits(dataBuffer, bufferPos)[..i]
        {
          isCurrentPhased[i] := dataBuffer[i][bufferPos];
        }
        assert isCurrentPhased[..] == isCurrentPhased[..CarrierGroupSize];
        bufferPos := bufferPos + 1;
      }

      current := Sample();

      clock := clock + 1;
      if clock == SymbolDuration {
        clock := 0;
      }
    }
  }

  // ----------------------------------------------------------------------
  // Receiver

  /**
    The bits decided from one symbol: bit `k` is set unless the real part of
    bin `k + 1` is positive; bin 0 (the mean) is not used.
  */
  function Decisions(symbol: seq<real>, binRe: (seq<real>, nat) -> real): (bits: seq<bool>)
    ensures |bits| == CarrierGroupSize
  {
    seq(CarrierGroupSize, k requires 0 <= k < CarrierGroupSize => !(binRe(symbol, k + 1) > 0.0))
  }

  /** The state of a receiver: decided bits, position in the symbol, start detection, samples. */
  datatype ReceiverState = ReceiverState(
    data: seq<bool>, clock: nat, began: bool, beforeStart: nat, symbol: seq<real>)

  ghost predicate ReceiverInv(s: ReceiverState)
  {
    && s.clock < SymbolDuration
    && |s.symbol| == SymbolDuration
    && (!s.began ==> s.clock == 0)
  }

  /** A fresh receiver: nothing decided, waiting for the signal. */
  function ReceiverStart(): (s: ReceiverState)
    ensures ReceiverInv(s) && !s.began && s.data == [] && s.beforeStart == 0
  {
    ReceiverState([], 0, false, 0, seq(SymbolDuration, _ => 0.0))
  }

  /** The receiver state after one received sample. */
  ghost function ReceiveNext(s: ReceiverState, sample: real, binRe: (seq<real>, nat) -> real)
    : (t: ReceiverState)
    requires ReceiverInv(s)
    ensures ReceiverInv(t)
    ensures t.began <==> s.began || sample != 0.0
    ensures !s.began && sample == 0.0 ==> t == s.(beforeStart := s.beforeStart + 1)
    ensures t.began ==> t.clock == (s.clock + 1) % SymbolDuration && t.beforeStart == s.beforeStart
    ensures t.data == if t.began && s.clock == SymbolDuration - 1
                      then s.data + Decisions(s.symbol[s.clock := sample], binRe)
                      else s.data
  {
    if !s.began && sample == 0.0 then
      s.(beforeStart := s.beforeStart + 1)
    else
      var symbol := s.symbol[s.clock := sample];
      if s.clock + 1 == SymbolDuration then
        s.(began := true, symbol := symbol, clock := 0, data := s.data + Decisions(symbol, binRe))
      else
        s.(began := true, symbol := symbol, clock := s.clock + 1)
  }

  /** The receiver state after a run of samples. */
  ghost function ReceiveRun(s: ReceiverState, samples: seq<real>, binRe: (seq<real>, nat) -> real)
    : (t: ReceiverState)
    requires ReceiverInv(s)
    ensures ReceiverInv(t)
    decreases |samples|
  {
    if samples == [] then s else ReceiveRun(ReceiveNext(s, samples[0], binRe), samples[1..], binRe)
  }

  /** While only silence arrives, the receiver only counts it. */
  lemma {:induction false} WaitsForSignal(s: ReceiverState, samples: seq<real>, binRe: (seq<real>, nat) -> real)
    requires ReceiverInv(s) && !s.began
    requires forall i :: 0 <= i < |samples| ==> samples[i] == 0.0
    ensures ReceiveRun(s, samples, binRe) == s.(beforeStart := s.beforeStart + |samples|)
    decreases |samples|
  {
    if samples != [] {
      WaitsForSignal(s.(beforeStart := s.beforeStart + 1), samples[1..], binRe);
    }
  }

  lemma DivStep(c: nat, n: nat)
    requires c < SymbolDuration
    ensures (c + 1 + n) / SymbolDuration
            == (if c + 1 == SymbolDuration then 1 else 0) + ((c + 1) % SymbolDuration + n) / SymbolDuration
    ensures (c + 1 + n) % SymbolDuration == ((c + 1) % SymbolDuration + n) % SymbolDuration
  {
  }

  /**
    Once started, every completed block of `SymbolDuration` samples appends
    exactly eight bits and nothing else changes the decided bits.
  */
  lemma {:induction false} BitsPerSymbol(s: ReceiverState, samples: seq<real>, binRe: (seq<real>, nat) -> real)
    requires ReceiverInv(s) && s.began
    ensures var t := ReceiveRun(s, samples, binRe);
            && t.began
            && t.clock == (s.clock + |samples|) % SymbolDuration
            && |t.data| == |s.data| + CarrierGroupSize * ((s.clock + |samples|) / SymbolDuration)
            && t.data[..|s.data|] == s.data
    decreases |samples|
  {
    if samples != [] {
      var s' := ReceiveNext(s, samples[0], binRe);
      BitsPerSymbol(s', samples[1..], binRe);
      DivStep(s.clock, |samples| - 1);
      var t := ReceiveRun(s', samples[1..], binRe);
      assert t.data[..|s'.data|] == s'.data;
      assert s'.data[..|s.data|] == s.data;
      assert t.data[..|s.data|] == t.data[..|s'.data|][..|s.data|];
    }
  }

  /** Receiving `a` then `b` is receiving `a + b`. */
  lemma {:induction false} ReceiveRunAppend(s: ReceiverState, a: seq<real>, b: seq<real>,
                                            binRe: (seq<real>, nat) -> real)
    requires ReceiverInv(s)
    ensures ReceiveRun(s, a + b, binRe) == ReceiveRun(ReceiveRun(s, a, binRe), b, binRe)
    decreases |a|
  {
    if a == [] {
      assert a + b == b;
    } else {
      assert (a + b)[1..] == a[1..] + b;
      ReceiveRunAppend(ReceiveNext(s, a[0], binRe), a[1..], b, binRe);
    }
  }

  /**
    From a symbol boundary, the first `k < 2048` samples of a symbol are
    stored in slots `0 .. k-1` and only move the clock; the first of them
    starts the receiver if it is still waiting.
  */
  lemma {:induction false} SymbolFills(s: ReceiverState, w: seq<real>, k: nat,
                                       binRe: (seq<real>, nat) -> real)
    requires ReceiverInv(s) && s.clock == 0 && |w| == SymbolDuration && k < SymbolDuration
    requires s.began || w[0] != 0.0
    ensures ReceiveRun(s, w[..k], binRe)
            == s.(began := s.began || k > 0, clock := k, symbol := w[..k] + s.symbol[k..])
    decreases k
  {
    if k == 0 {
      assert w[..0] + s.symbol[0..] == s.symbol;
    } else {
      SymbolFills(s, w, k - 1, binRe);
      var u := ReceiveRun(s, w[..k - 1], binRe);
      assert w[..k] == w[..k - 1] + [w[k - 1]];
      ReceiveRunAppend(s, w[..k - 1], [w[k - 1]], binRe);
      assert ReceiveRun(ReceiveNext(u, w[k - 1], binRe), [], binRe) == ReceiveNext(u, w[k - 1], binRe);
      FillSlot(w, s.symbol, k - 1);
    }
  }

  /** Writing sample `i` of `w` over a buffer whose first `i` slots already hold `w` extends that prefix by one. */
  lemma FillSlot(w: seq<real>, buf: seq<real>, i: nat)
    requires i < |w| == |buf|
    ensures (w[..i] + buf[i..])[i := w[i]] == w[..i + 1] + buf[i + 1..]
  {
  }

  /**
    A whole symbol received from a boundary rewrites every slot of the
    symbol buffer and appends the eight decisions taken on exactly those
    2048 samples; the receiver is back at a boundary.
  */
  lemma OneSymbolDecided(s: ReceiverState, w: seq<real>, binRe: (seq<real>, nat) -> real)
    requires ReceiverInv(s) && s.clock == 0 && |w| == SymbolDuration
    requires s.began || w[0] != 0.0
    ensures ReceiveRun(s, w, binRe)
            == s.(began := true, clock := 0, symbol := w, data := s.data + Decisions(w, binRe))
  {
    var n := SymbolDuration - 1;
    SymbolFills(s, w, n, binRe);
    var u := ReceiveRun(s, w[..n], binRe);
    assert w == w[..n] + [w[n]];
    ReceiveRunAppend(s, w[..n], [w[n]], binRe);
    assert ReceiveRun(ReceiveNext(u, w[n], binRe), [], binRe) == ReceiveNext(u, w[n], binRe);
    assert u.symbol[n := w[n]] == w;
  }

  /** The bits decided from consecutive 2048-sample blocks, block by block. */
  function BlockDecisions(w: seq<real>, binRe: (seq<real>, nat) -> real): (bits: seq<bool>)
    requires |w| % SymbolDuration == 0
    ensures |bits| == CarrierGroupSize * (|w| / SymbolDuration)
    decreases |w|
  {
    if w == [] then []
    else Decisions(w[..SymbolDuration], binRe) + BlockDecisions(w[SymbolDuration..], binRe)
  }

  /**
    From a symbol boundary, `m` whole symbols append the decisions of each
    block in turn, and leave the receiver at a boundary.
  */
  lemma {:induction false} SymbolsDecided(s: ReceiverState, w: seq<real>, binRe: (seq<real>, nat) -> real)
    requires ReceiverInv(s) && s.clock == 0 && |w| % SymbolDuration == 0
    requires s.began || (w != [] && w[0] != 0.0)
    ensures ReceiveRun(s, w, binRe).data == s.data + BlockDecisions(w, binRe)
    ensures ReceiveRun(s, w, binRe).clock == 0
    ensures ReceiveRun(s, w, binRe).beforeStart == s.beforeStart
    decreases |w|
  {
    if w == [] {
      assert s.data + [] == s.data;
    } else {
      var first, rest := w[..SymbolDuration], w[SymbolDuration..];
      assert w == first + rest;
      ReceiveRunAppend(s, first, rest, binRe);
      OneSymbolDecided(s, first, binRe);
      var u := ReceiveRun(s, first, binRe);
      SymbolsDecided(u, rest, binRe);
      assert s.data + BlockDecisions(w, binRe) == u.data + BlockDecisions(rest, binRe);
    }
  }

  /** `n` silent samples. */
  function Silence(n: nat): (r: seq<real>)
    ensures |r| == n && forall i :: 0 <= i < n ==> r[i] == 0.0
  {
    seq(n, _ => 0.0)
  }

  /** Silence before a signal only leaves its count behind. */
  lemma SilenceThen(n: nat, w: seq<real>, binRe: (seq<real>, nat) -> real)
    ensures ReceiveRun(ReceiverStart(), Silence(n) + w, binRe)
            == ReceiveRun(ReceiverStart().(beforeStart := n), w, binRe)
  {
    ReceiveRunAppend(ReceiverStart(), Silence(n), w, binRe);
    WaitsForSignal(ReceiverStart(), Silence(n), binRe);
  }

  /**
    A fresh receiver given `n` silent samples and then a signal of whole
    symbols whose first sample is not zero counts the silence and decides
    exactly the bits of each symbol, in order.
  */
  lemma Decodes(n: nat, w: seq<real>, binRe: (seq<real>, nat) -> real)
    requires |w| % SymbolDuration == 0 && w != [] && w[0] != 0.0
    ensures ReceiveRun(ReceiverStart(), Silence(n) + w, binRe).beforeStart == n
    ensures ReceiveRun(ReceiverStart(), Silence(n) + w, binRe).data == BlockDecisions(w, binRe)
  {
    SilenceThen(n, w, binRe);
    var s := ReceiverStart().(beforeStart := n);
    SymbolsDecided(s, w, binRe);
    assert [] + BlockDecisions(w, binRe) == BlockDecisions(w, binRe);
  }

  class Receiver {
    /** The bits decided so far. */
    var dataBuffer: seq<bool>
    var clock: nat
    var began: bool
    /** How many silent samples arrived before the signal. */
    var beforeStart: nat
    /** The samples of the symbol being received. */
    const symbolBuffer: array<real>
    /** Real part of bin `k` of the Fourier transform of a symbol. */
    const binRe: (seq<real>, nat) -> real

    ghost function State(): ReceiverState
      reads this, symbolBuffer
    {
      ReceiverState(dataBuffer, clock, began, beforeStart, symbolBuffer[..])
    }

    ghost predicate Valid()
      reads this, symbolBuffer
    {
      ReceiverInv(State())
    }

    constructor New(binRe: (seq<real>, nat) -> real)
      ensures Valid() && fresh(symbolBuffer)
      ensures State() == ReceiverStart() && this.binRe == binRe
    {
      dataBuffer := [];
      clock := 0;
      beforeStart := 0;
      began := false;
      symbolBuffer := new real[SymbolDuration](_ => 0.0);
      this.binRe := binRe;
      new;
      assert symbolBuffer[..] == seq(SymbolDuration, _ => 0.0);
    }

    /** One tick of the receiving system, given the antenna's current sample. */
    method Receive(current: real)
      requires Valid()
      modifies this`dataBuffer, this`clock, this`began, this`beforeStart, symbolBuffer
      ensures Valid()
      ensures State() == ReceiveNext(old(State()), current, binRe)
    {
      if !began {
        if current != 0.0 {
          began := true;
        } else {
          beforeStart := beforeStart + 1;
          return;
        }
      }

      symbolBuffer[clock] := current;
      clock := clock + 1;

      if clock == SymbolDuration {
        var window := symbolBuffer[..];
        ghost var bits := Decisions(window, binRe);
        ghost var before := dataBuffer;
        for k := 0 to CarrierGroupSize
          modifies this`dataBuffer
          invariant dataBuffer == before + bits[..k]
        {
          assert bits[..k + 1] == bits[..k] + [bits[k]];
          if binRe(window, k + 1) > 0.0 {
            dataBuffer := dataBuffer + [false];
          } else {
            dataBuffer := dataBuffer + [true];
          }
        }
        assert bits[..CarrierGroupSize] == bits;
        clock := 0;
      }
    }
  }
}
