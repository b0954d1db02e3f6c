/** Background ambiance: a fixed-point resampler and a soft mixer. Levels are real numbers;
    the mixer works with the integer gain of 256ths. */
module Ambiance {
  import opened Primitives
  import opened Arithmetic
  import opened Media

  // ---------- the resampler ----------

  const ONE: nat := 0x1_0000

  /** Source positions per output sample, in 65536ths. */
  function StepFor(rate: nat): nat
    requires rate > 0
  {
    INTERNAL_SAMPLERATE * ONE / rate
  }

  /** The sample under a read position. */
  function SampleAt(samples: seq<I16>, position: nat): I16 {
    if samples == [] then 0 else samples[position / ONE % |samples|]
  }

  /** Neither the step nor the phase addition leaves 32 bits, and a phase advances the
      cursor at most 16000 times. */
  lemma PhaseFits(phase: nat, rate: nat)
    requires phase < ONE && rate > 0
    ensures StepFor(rate) <= INTERNAL_SAMPLERATE * ONE
    ensures phase + StepFor(rate) < U32
    ensures (phase + StepFor(rate)) / ONE <= INTERNAL_SAMPLERATE
  {
    var x := INTERNAL_SAMPLERATE * ONE;
    Division(x, rate);
    if x / rate > x {
      MulGap(rate, 0, 1);
      MulAtLeast(x / rate, rate);
    }
  }

  function Travelled(rates: seq<nat>): nat
    requires AllPositive(rates)
  {
    if rates == [] then 0 else Travelled(rates[..|rates| - 1]) + StepFor(rates[|rates| - 1])
  }

  /** At a constant rate the k-th read happens k steps in. */
  lemma {:induction false} TravelledConstant(rate: nat, k: nat)
    requires rate > 0
    ensures Travelled(Repeat(rate, k)) == k * StepFor(rate)
  {
    if k > 0 {
      TravelledConstant(rate, k - 1);
      assert Repeat(rate, k)[..k - 1] == Repeat(rate, k - 1);
      assert k * StepFor(rate) == (k - 1) * StepFor(rate) + StepFor(rate);
    }
  }

  /** At the internal rate the ambiance plays sample by sample, around and around. */
  lemma NativeRate(samples: seq<I16>, k: nat)
    requires samples != []
    ensures SampleAt(samples, Travelled(Repeat(INTERNAL_SAMPLERATE, k))) == samples[k % |samples|]
  {
    TravelledConstant(INTERNAL_SAMPLERATE, k);
  }

  // ---------- the mixer ----------

  function ToI16(x: int): I16 {
    (x + 0x8000) % 0x1_0000 - 0x8000
  }

  function Scaled(ambient: I16, gain: int): int {
    ambient * gain / 0x100
  }

  /** The mixed value before the cast to 16 bits. */
  function SoftMixed(signal: I16, ambient: I16, gain: int): int {
    var mixed := signal + Scaled(ambient, gain);
    if mixed > 32767 then 32767 - (mixed - 32767) / 4
    else if mixed < -32768 then -32768 + (-32768 - mixed) / 4
    else mixed
  }

  function SoftMix(signal: I16, ambient: I16, gain: int): I16 {
    ToI16(SoftMixed(signal, ambient, gain))
  }

  /** The cast to 32 bits truncates toward zero and saturates. */
  function Gain(level: real): int {
    var x := level * 256.0;
    var whole := if x >= 0.0 then x.Floor else -(-x).Floor;
    Max(-0x8000_0000, Min(whole, 0x7fff_ffff))
  }

  lemma ProductBound(a: nat, b: nat, c: nat, d: nat)
    requires a <= b && c <= d
    ensures 0 <= a * c <= b * d
  {
    assert b * d == a * c + a * (d - c) + (b - a) * d;
  }

  lemma ScaledBounds(ambient: I16, gain: int, limit: int)
    requires 0 <= gain <= limit
    ensures -128 * limit <= Scaled(ambient, gain) <= 32767 * limit / 0x100
  {
    var x: int := ambient;
    if x >= 0 {
      ProductBound(x, 32767, gain, limit);
    } else {
      ProductBound(-x, 32768, gain, limit);
      assert x * gain == -(-x * gain);
    }
  }

  /** A negative gain swaps the two sides. */
  lemma ScaledBoundsNegative(ambient: I16, gain: int, limit: int)
    requires -limit <= gain < 0
    ensures -128 * limit <= Scaled(ambient, gain) <= 128 * limit
  {
    var x: int := ambient;
    if x >= 0 {
      ProductBound(x, 32767, -gain, limit);
      assert x * gain == -(x * -gain);
    } else {
      ProductBound(-x, 32768, -gain, limit);
      assert x * gain == -x * -gain;
    }
  }

  lemma ScaledLowest(gain: int)
    ensures Scaled(-32768, gain) == -128 * gain
  {
    assert -32768 * gain == 0x100 * (-128 * gain);
  }

  /** The samples for which a gain beyond the bounds goes wrong first. */
  function Worst(gain: int): (I16, I16) {
    if gain >= 0 then (-32768, -32768) else (32767, -32768)
  }

  lemma WorstMix(gain: int)
    ensures var (s, a) := Worst(gain);
            && s + Scaled(a, gain) == s - 128 * gain
            && (gain >= 1 ==> SoftMixed(s, a, gain) == -32768 + 32 * gain)
            && (gain <= -1 ==> SoftMixed(s, a, gain) == 32767 + 32 * gain)
  {
    ScaledLowest(gain);
  }

  predicate Fits(s: I16, a: I16, gain: int) {
    -0x8000 <= SoftMixed(s, a, gain) < 0x8000
  }

  /** Mixing stays within 16 bits for every pair of samples exactly for gains from -2047 to 2047. */
  lemma NeverWrapsIff(gain: int)
    ensures (forall s: I16, a: I16 :: Fits(s, a, gain)) <==> -2047 <= gain <= 2047
  {
    if -2047 <= gain <= 2047 {
      forall s: I16, a: I16 ensures Fits(s, a, gain) {
        if gain >= 0 { ScaledBounds(a, gain, 2047); } else { ScaledBoundsNegative(a, gain, 2047); }
      }
    } else {
      WorstMix(gain);
      assert !Fits(Worst(gain).0, Worst(gain).1, gain);
    }
  }

  predicate KeepsSign(s: I16, a: I16, gain: int) {
    && (s + Scaled(a, gain) > 32767 ==> SoftMixed(s, a, gain) >= 0)
    && (s + Scaled(a, gain) < -32768 ==> SoftMixed(s, a, gain) <= 0)
  }

  /** A clipped mix keeps its sign for every pair of samples exactly for gains from -1023 to 1024. */
  lemma KeepsSignIff(gain: int)
    ensures (forall s: I16, a: I16 :: KeepsSign(s, a, gain)) <==> -1023 <= gain <= 1024
  {
    if -1023 <= gain <= 1024 {
      forall s: I16, a: I16 ensures KeepsSign(s, a, gain) {
        if gain >= 0 { ScaledBounds(a, gain, 1024); } else { ScaledBoundsNegative(a, gain, 1023); }
      }
    } else {
      WorstMix(gain);
      assert !KeepsSign(Worst(gain).0, Worst(gain).1, gain);
    }
  }

  /** Exact unless clipped, and clipped with the sign kept at magnitude 24576 or more. */
  predicate Gentle(s: I16, a: I16, gain: int) {
    var exact := s + Scaled(a, gain);
    && (exact > 32767 ==> 24576 <= SoftMix(s, a, gain) <= 32767)
    && (exact < -32768 ==> -32768 <= SoftMix(s, a, gain) <= -24576)
    && (-32768 <= exact <= 32767 ==> SoftMix(s, a, gain) == exact)
  }

  lemma GentleMix(s: I16, a: I16, gain: int)
    requires -0x100 < gain <= 0x100
    ensures Gentle(s, a, gain)
  {
    if gain >= 0 { ScaledBounds(a, gain, 0x100); } else { ScaledBoundsNegative(a, gain, 0xFF); }
  }

  lemma LowApart(x: int)
    ensures ToI16(x) > -24576 || ToI16(x - 8193) > -24576
  {
  }

  lemma HighApart(x: int)
    ensures ToI16(x) < 24576 || ToI16(x + 8192) < 24576
  {
  }

  /** Beyond, two clipped results lie too far apart for both to be gentle, even after wrapping. */
  lemma NotGentle(gain: int)
    requires gain <= -0x100 || gain > 0x100
    ensures exists s: I16, a: I16 :: !Gentle(s, a, gain)
  {
    if gain > 0x100 {
      NotGentleAbove(gain);
    } else {
      NotGentleBelow(gain);
    }
  }

  lemma NotGentleAbove(gain: int)
    requires gain > 0x100
    ensures !Gentle(-32768, -32768, gain) || !Gentle(4, -32768, gain)
  {
    ScaledLowest(gain);
    LowApart(-32768 + 32 * gain);
    assert SoftMixed(-32768, -32768, gain) == -32768 + 32 * gain;
    assert SoftMixed(4, -32768, gain) == -32768 + 32 * gain - 8193;
  }

  lemma NotGentleBelow(gain: int)
    requires gain <= -0x100
    ensures !Gentle(32767, -32768, gain) || !Gentle(-1, -32768, gain)
  {
    ScaledLowest(gain);
    HighApart(32767 + 32 * gain);
    assert SoftMixed(32767, -32768, gain) == 32767 + 32 * gain;
    assert gain < -0x100 ==> SoftMixed(-1, -32768, gain) == 32767 + 32 * gain + 8192;
  }

  /** Mixing is gentle for every pair of samples exactly for gains from -255 to 256. */
  lemma ClipsGentlyIff(gain: int)
    ensures (forall s: I16, a: I16 :: Gentle(s, a, gain)) <==> -0x100 < gain <= 0x100
  {
    if -0x100 < gain <= 0x100 {
      forall s: I16, a: I16 ensures Gentle(s, a, gain) {
        GentleMix(s, a, gain);
      }
    } else {
      NotGentle(gain);
    }
  }

  // ---------- frames ----------

  function MixBlock(block: seq<I16>, ambient: I16, gain: int): (mixed: seq<I16>)
    ensures |mixed| == |block|
    ensures forall c :: 0 <= c < |block| ==> mixed[c] == SoftMix(block[c], ambient, gain)
  {
    seq(|block|, c requires 0 <= c < |block| => SoftMix(block[c], ambient, gain))
  }

  /** The first n frames of a buffer mixed with the ambiance from a read position on; each
      frame takes one ambient sample for all of its channels. */
  function MixFrames(xs: seq<I16>, channels: nat, n: nat, ambience: seq<I16>, position: nat, step: nat, gain: int):
    (out: seq<I16>)
    requires n * channels <= |xs|
    ensures |out| == n * channels
  {
    if n == 0 then []
    else
      assert n * channels == (n - 1) * channels + channels;
      MixFrames(xs, channels, n - 1, ambience, position, step, gain)
      + MixBlock(xs[(n - 1) * channels..n * channels], SampleAt(ambience, position + (n - 1) * step), gain)
  }

  /** Ambiance alone, for a frame without audio. */
  function AmbientFrames(channels: nat, n: nat, ambience: seq<I16>, position: nat, step: nat, gain: int): seq<I16> {
    if n == 0 then []
    else
      AmbientFrames(channels, n - 1, ambience, position, step, gain)
      + Repeat(ToI16(Scaled(SampleAt(ambience, position + (n - 1) * step), gain)), channels)
  }

  function NextLevel(current: real, target: real, speed: real): real {
    if current - target > 0.001 || target - current > 0.001 then
      if current < target then (if current + speed < target then current + speed else target)
      else (if current - speed > target then current - speed else target)
    else current
  }

  predicate UnitLevel(level: real) {
    0.0 <= level <= 1.0
  }

  /** Levels set within [0, 1] stay there, so the gain stays within 0 .. 256. */
  lemma LevelStaysUnit(current: real, target: real, speed: real)
    requires UnitLevel(current) && UnitLevel(target) && speed >= 0.0
    ensures UnitLevel(NextLevel(current, target, speed))
    ensures 0 <= Gain(NextLevel(current, target, speed)) <= 0x100
  {
  }

  class AmbianceProcessor {
    const samples: seq<I16>
    const duckLevel: real
    const normalLevel: real
    const transitionSpeed: real
    var enabled: bool
    var currentLevel: real
    var cursor: nat
    var resamplePhase: nat
    var resampleStep: nat
    /** Distance travelled through the source, in 65536ths of a sample. */
    ghost var position: nat

    ghost predicate Valid()
      reads this
    {
      samples != [] ==> resamplePhase == position % ONE && cursor == position / ONE % |samples|
    }

    constructor (samples: seq<I16>, normal: real, duck: real, speed: real, enabled: bool)
      ensures Valid() && position == 0 && currentLevel == normal
      ensures this.samples == samples && normalLevel == normal && duckLevel == duck && transitionSpeed == speed
      ensures this.enabled == enabled
    {
      this.samples, normalLevel, duckLevel, transitionSpeed := samples, normal, duck, speed;
      this.enabled, currentLevel := enabled, normal;
      cursor, resamplePhase, resampleStep, position := 0, 0, ONE, 0;
    }

    method GetAmbientSampleWithRate(rate: nat) returns (sample: I16)
      requires Valid() && rate > 0
      modifies this`cursor, this`resamplePhase, this`resampleStep, this`position
      ensures Valid()
      ensures sample == SampleAt(samples, old(position))
      ensures samples != [] ==> position == old(position) + StepFor(rate) && resamplePhase < ONE
    {
      if samples == [] {
        return 0;
      }
      PhaseFits(resamplePhase, rate);
      resampleStep := INTERNAL_SAMPLERATE * 0x1_0000 / rate;
      sample := samples[cursor];
      ghost var before := position;
      position := position + resampleStep;
      resamplePhase := resamplePhase + resampleStep;
      AdvanceCursor(before / ONE);
    }

    /** The inner loop: whole samples of phase move the cursor around the source. */
    method AdvanceCursor(ghost start: nat)
      requires samples != [] && cursor == start % |samples| && resamplePhase + ONE * start == position
      modifies this`cursor, this`resamplePhase
      ensures Valid() && resamplePhase < ONE
    {
      ghost var at := start;
      while resamplePhase >= ONE
        invariant resamplePhase + ONE * at == position && cursor == at % |samples|
      {
        resamplePhase := resamplePhase - ONE;
        NextIndex(at, |samples|);
        cursor := (cursor + 1) % |samples|;
        at := at + 1;
      }
      assert position / ONE == at;
    }

    /** For any sequence of rates, read k is the source sample under the distance travelled
        by the reads before it. */
    method ReadAll(rates: seq<nat>) returns (out: seq<I16>)
      requires Valid() && samples != [] && AllPositive(rates)
      modifies this`cursor, this`resamplePhase, this`resampleStep, this`position
      ensures Valid() && |out| == |rates|
      ensures position == old(position) + Travelled(rates)
      ensures forall k :: 0 <= k < |rates| ==> out[k] == SampleAt(samples, old(position) + Travelled(rates[..k]))
    {
      out := [];
      for k := 0 to |rates|
        invariant Valid() && |out| == k
        invariant position == old(position) + Travelled(rates[..k])
        invariant forall i :: 0 <= i < k ==> out[i] == SampleAt(samples, old(position) + Travelled(rates[..i]))
      {
        assert rates[..k + 1][..k] == rates[..k];
        var sample := GetAmbientSampleWithRate(rates[k]);
        out := out + [sample];
      }
      assert rates[..|rates|] == rates;
    }

    method UpdateLevel(speaking: bool)
      modifies this`currentLevel
      ensures currentLevel == NextLevel(old(currentLevel), if speaking then duckLevel else normalLevel, transitionSpeed)
    {
      var target := if speaking then duckLevel else normalLevel;
      var distance := if currentLevel > target then currentLevel - target else target - currentLevel;
      if distance > 0.001 {
        if currentLevel < target {
          currentLevel := if currentLevel + transitionSpeed < target then currentLevel + transitionSpeed else target;
        } else {
          currentLevel := if currentLevel - transitionSpeed > target then currentLevel - transitionSpeed else target;
        }
      }
    }

    /** The loop over an audio frame; a trailing incomplete frame is left as it is. */
    method MixInto(xs: seq<I16>, channels: nat, rate: nat) returns (out: seq<I16>)
      requires Valid() && samples != [] && channels > 0 && rate > 0
      modifies this`cursor, this`resamplePhase, this`resampleStep, this`position
      ensures Valid()
      ensures var n := |xs| / channels;
              && n * channels <= |xs|
              && out == MixFrames(xs, channels, n, samples, old(position), StepFor(rate), Gain(currentLevel))
                        + xs[n * channels..]
              && position == old(position) + n * StepFor(rate)
    {
      Division(|xs|, channels);
      var mixed := MixWhole(xs, channels, |xs| / channels, rate);
      out := mixed + xs[|mixed|..];
    }

    method MixWhole(xs: seq<I16>, channels: nat, n: nat, rate: nat) returns (out: seq<I16>)
      requires Valid() && samples != [] && rate > 0 && n * channels <= |xs|
      modifies this`cursor, this`resamplePhase, this`resampleStep, this`position
      ensures Valid()
      ensures out == MixFrames(xs, channels, n, samples, old(position), StepFor(rate), Gain(currentLevel))
      ensures position == old(position) + n * StepFor(rate)
    {
      ghost var (start, step, gain) := (position, StepFor(rate), Gain(currentLevel));
      hide StepFor, SampleAt, Gain, MixBlock;
      out := [];
      var at := 0;
      for i := 0 to n
        invariant Valid() && at == i * channels <= n * channels
        invariant position == start + i * step
        invariant out == MixFrames(xs, channels, i, samples, start, step, gain)
      {
        NextMultiple(i, channels);
        NextMultiple(i, step);
        MulOrdered(i + 1, n, channels);
        var ambient := GetAmbientSampleWithRate(rate);
        var block := MixChannels(xs, at, channels, ambient);
        out := out + block;
        at := at + channels;
      }
    }

    method MixChannels(xs: seq<I16>, at: nat, channels: nat, ambient: I16) returns (block: seq<I16>)
      requires at + channels <= |xs|
      ensures block == MixBlock(xs[at..at + channels], ambient, Gain(currentLevel))
    {
      block := [];
      for c := 0 to channels
        invariant |block| == c
        invariant forall i :: 0 <= i < c ==> block[i] == SoftMix(xs[at + i], ambient, Gain(currentLevel))
      {
        block := block + [SoftMix(xs[at + c], ambient, Gain(currentLevel))];
      }
    }

    /** The loop that fills an empty frame with 20 ms of ambiance. */
    method FillEmpty(channels: nat, rate: nat) returns (out: seq<I16>)
      requires Valid() && samples != [] && rate > 0
      modifies this`cursor, this`resamplePhase, this`resampleStep, this`position
      ensures Valid()
      ensures var n := rate * 20 / 1000;
              && out == AmbientFrames(channels, n, samples, old(position), StepFor(rate), Gain(currentLevel))
              && position == old(position) + n * StepFor(rate)
    {
      var n := rate * 20 / 1000;
      ghost var (start, step, gain) := (position, StepFor(rate), Gain(currentLevel));
      out := [];
      for i := 0 to n
        invariant Valid()
        invariant position == start + i * step
        invariant out == AmbientFrames(channels, i, samples, start, step, gain)
      {
        NextMultiple(i, step);
        var ambient := GetAmbientSampleWithRate(rate);
        var scaled := ToI16(Scaled(ambient, Gain(currentLevel)));
        var block := [];
        for c := 0 to channels
          invariant block == Repeat(scaled, c)
        {
          block := block + [scaled];
        }
        out := out + block;
      }
    }

    method ProcessFrame(frame: AudioFrame) returns (out: AudioFrame)
      requires Valid()
      modifies this`currentLevel, this`cursor, this`resamplePhase, this`resampleStep, this`position
      ensures Valid()
      ensures !enabled || samples == [] ==> out == frame
      ensures enabled && samples != [] ==>
                var rate := if frame.sampleRate > 0 then frame.sampleRate else INTERNAL_SAMPLERATE;
                var channels := Max(frame.channels, 1);
                var speaking := frame.samples.Rtp? || (frame.samples.Pcm? && frame.samples.samples != []);
                var level := NextLevel(old(currentLevel), if speaking then duckLevel else normalLevel, transitionSpeed);
                && currentLevel == level
                && match frame.samples
                   case Pcm(xs) =>
                     var n := |xs| / channels;
                     && n * channels <= |xs|
                     && out == frame.(samples := Pcm(
                          MixFrames(xs, channels, n, samples, old(position), StepFor(rate), Gain(level))
                          + xs[n * channels..]))
                   case Rtp(_, _) => out == frame
                   case Empty =>
                     out == frame.(sampleRate := rate, channels := channels, samples := Pcm(
                       AmbientFrames(channels, rate * 20 / 1000, samples, old(position), StepFor(rate), Gain(level))))
    {
      if !enabled || samples == [] {
        return frame;
      }
      var speaking := match frame.samples
        case Pcm(xs) => xs != []
        case Rtp(_, _) => true
        case Empty => false;
      UpdateLevel(speaking);
      var rate := if frame.sampleRate > 0 then frame.sampleRate else INTERNAL_SAMPLERATE;
      var channels := Max(frame.channels, 1);
      match frame.samples {
        case Pcm(xs) =>
          var mixed := MixInto(xs, channels, rate);
          out := frame.(samples := Pcm(mixed));
        case Empty =>
          var filled := FillEmpty(channels, rate);
          out := frame.(samples := Pcm(filled), sampleRate := rate, channels := channels);
        case Rtp(_, _) =>
          out := frame;
      }
    }
  }

  predicate AllPositive(rates: seq<nat>) {
    forall i :: 0 <= i < |rates| ==> rates[i] > 0
  }

  lemma NextMultiple(i: nat, n: nat)
    ensures (i + 1) * n == i * n + n
  {
  }

  lemma MulOrdered(a: nat, b: nat, n: nat)
    requires a <= b
    ensures a * n <= b * n
  {
  }

  /** Sample c of frame i is mixed with the ambient sample of that frame and nothing else. */
  lemma {:induction false} MixFramesAt(xs: seq<I16>, channels: nat, n: nat, ambience: seq<I16>, position: nat,
                                       step: nat, gain: int, i: nat, c: nat)
    requires n * channels <= |xs| && i < n && c < channels
    ensures 0 <= i * channels + c < n * channels
    ensures MixFrames(xs, channels, n, ambience, position, step, gain)[i * channels + c]
         == SoftMix(xs[i * channels + c], SampleAt(ambience, position + i * step), gain)
  {
    assert n * channels == (n - 1) * channels + channels;
    if i < n - 1 {
      MixFramesAt(xs, channels, n - 1, ambience, position, step, gain, i, c);
    }
  }

  predicate Unwrapped(ambient: I16, gain: int) {
    ToI16(Scaled(ambient, gain)) == Scaled(ambient, gain)
  }

  /** An empty frame gets the scaled ambiance itself, without wrap-around, exactly for gains from -255 to 256. */
  lemma ScaledFitsIff(gain: int)
    ensures (forall ambient: I16 :: Unwrapped(ambient, gain)) <==> -0x100 < gain <= 0x100
  {
    if -0x100 < gain <= 0x100 {
      forall ambient: I16 ensures Unwrapped(ambient, gain) {
        if gain >= 0 { ScaledBounds(ambient, gain, 0x100); } else { ScaledBoundsNegative(ambient, gain, 0xFF); }
      }
    } else {
      ScaledLowest(gain);
      assert !Unwrapped(-32768, gain);
    }
  }
}
