/**
 * The sounds the horror audio engine schedules, recorded as values instead of
 * audio-graph nodes: what produces the sound, how it is filtered, the
 * parameter automation programmed on it, when it starts and when it stops.
 * Times are seconds on the audio clock, as exact reals.
 */
module AudioEffects {
  import opened Wrappers

  datatype EffectKind = Ambience | Whisper | Glitch | TypingTick | Heartbeat | Scream | Growl

  datatype Waveform = Sine | Sawtooth

  /** An oscillator (440 Hz is the platform's default frequency), or a noise buffer of the given length. */
  datatype Source =
    | Oscillator(wave: Waveform, frequency: real)
    | NoiseBuffer(seconds: real, amplitude: real, looping: bool)

  datatype Filter = NoFilter | LowPass(cutoff: real) | BandPass(centre: real)

  /** An oscillator of `rate` Hz, scaled by `depth`, added to the filter's cutoff. */
  datatype Modulation = NoModulation | CutoffLfo(rate: real, depth: real)

  datatype Param = GainParam | FrequencyParam

  /** The automation calls: set a value, ramp linearly or exponentially to it, or approach it. */
  datatype Curve = SetValue | LinearRamp | ExponentialRamp | ApproachTarget(timeConstant: real)

  /** One automation event: `param` goes to `value` at `time` along `curve`. */
  datatype Segment = Segment(param: Param, curve: Curve, value: real, time: real)

  /**
   * One scheduled sound. `gain` is the static value of its gain stage before any
   * automation; `stop` is when its source ends (`None`: it never ends).
   */
  datatype EffectRecord = EffectRecord(
    kind: EffectKind,
    source: Source,
    filter: Filter,
    modulation: Modulation,
    pan: Option<real>,
    gain: real,
    segments: seq<Segment>,
    start: real,
    stop: Option<real>)

  /** Exponential ramps never aim at zero or below. */
  predicate PositiveExponentials(segs: seq<Segment>) {
    forall i :: 0 <= i < |segs| ==> segs[i].curve == ExponentialRamp ==> segs[i].value > 0.0
  }

  /**
   * The scheduling discipline every sound obeys: only the ambience drones run
   * forever; every other sound has a stop time at or after its start; no
   * automation is programmed before the sound starts; and exponential ramps
   * aim at a strictly positive value.
   */
  predicate WellFormed(e: EffectRecord) {
    && (e.stop.None? <==> e.kind == Ambience)
    && (e.stop.Some? ==> e.start <= e.stop.value)
    && (forall i :: 0 <= i < |e.segments| ==> e.segments[i].time >= e.start)
    && PositiveExponentials(e.segments)
  }

  /** How long a sound lasts, when it ends at all. */
  function Lifetime(e: EffectRecord): real
    requires e.stop.Some?
  {
    e.stop.value - e.start
  }

  /** A random draw `Math.random()`: a number in [0, 1). */
  predicate IsDraw(r: real) {
    0.0 <= r < 1.0
  }

  function GainAt(curve: Curve, value: real, time: real): Segment {
    Segment(GainParam, curve, value, time)
  }

  function FrequencyAt(curve: Curve, value: real, time: real): Segment {
    Segment(FrequencyParam, curve, value, time)
  }

  /** One ambience drone: a sawtooth through a 120 Hz low-pass at gain 0.15, started and never stopped. */
  function Drone(freq: real, now: real): (e: EffectRecord)
    ensures WellFormed(e) && e.kind == Ambience && e.stop.None?
    ensures e.source == Oscillator(Sawtooth, freq) && e.filter == LowPass(120.0) && e.gain == 0.15
  {
    EffectRecord(Ambience, Oscillator(Sawtooth, freq), LowPass(120.0), NoModulation, None, 0.15, [], now, None)
  }

  /**
   * A whisper: 1.5 s of band-passed noise, placed at a random stereo position,
   * fading in to 0.3 over 0.5 s and out to 0 at the end of the buffer.
   */
  function WhisperEffect(now: real, centreDraw: real, panDraw: real): (e: EffectRecord)
    requires IsDraw(centreDraw) && IsDraw(panDraw)
    ensures WellFormed(e) && e.kind == Whisper && e.stop.Some? && Lifetime(e) == 1.5
    ensures e.filter.BandPass? && 800.0 <= e.filter.centre < 1300.0
    ensures e.pan.Some? && -1.0 <= e.pan.value < 1.0
  {
    EffectRecord(
      Whisper, NoiseBuffer(1.5, 0.5, false), BandPass(800.0 + centreDraw * 500.0), NoModulation,
      Some(panDraw * 2.0 - 1.0), 1.0,
      [GainAt(SetValue, 0.0, now), GainAt(LinearRamp, 0.3, now + 0.5), GainAt(LinearRamp, 0.0, now + 1.5)],
      now, Some(now + 1.5))
  }

  /** A glitch: a sawtooth between 100 and 300 Hz, decaying exponentially from 0.1 over 0.3 s. */
  function GlitchEffect(now: real, freqDraw: real): (e: EffectRecord)
    requires IsDraw(freqDraw)
    ensures WellFormed(e) && e.kind == Glitch && e.stop.Some? && Lifetime(e) == 0.3
    ensures e.source.Oscillator? && 100.0 <= e.source.frequency < 300.0
  {
    EffectRecord(
      Glitch, Oscillator(Sawtooth, 100.0 + freqDraw * 200.0), NoFilter, NoModulation, None, 1.0,
      [GainAt(SetValue, 0.1, now), GainAt(ExponentialRamp, 0.001, now + 0.3)],
      now, Some(now + 0.3))
  }

  /** A typing tick: 0.05 s of noise through an 800 Hz low-pass at fixed gain 0.2. */
  function TypingEffect(now: real): (e: EffectRecord)
    ensures WellFormed(e) && e.kind == TypingTick && e.stop.Some? && Lifetime(e) == 0.05
    ensures e.segments == [] && e.gain == 0.2
  {
    EffectRecord(TypingTick, NoiseBuffer(0.05, 0.8, false), LowPass(800.0), NoModulation, None, 0.2, [], now, Some(now + 0.05))
  }

  /** A heartbeat: a tone sweeping from 150 Hz towards 0.01 Hz while its gain decays from 0.5, for 0.5 s. */
  function HeartbeatEffect(now: real): (e: EffectRecord)
    ensures WellFormed(e) && e.kind == Heartbeat && e.stop.Some? && Lifetime(e) == 0.5
  {
    EffectRecord(
      Heartbeat, Oscillator(Sine, 440.0), NoFilter, NoModulation, None, 1.0,
      [FrequencyAt(SetValue, 150.0, now), FrequencyAt(ExponentialRamp, 0.01, now + 0.5),
       GainAt(SetValue, 0.5, now), GainAt(ExponentialRamp, 0.001, now + 0.5)],
      now, Some(now + 0.5))
  }

  /** A scream: a sawtooth rising to 1000 Hz in 0.1 s, gain up to 0.3 then decaying until it stops at 1 s. */
  function ScreamEffect(now: real): (e: EffectRecord)
    ensures WellFormed(e) && e.kind == Scream && e.stop.Some? && Lifetime(e) == 1.0
  {
    EffectRecord(
      Scream, Oscillator(Sawtooth, 440.0), NoFilter, NoModulation, None, 1.0,
      [FrequencyAt(ExponentialRamp, 1000.0, now + 0.1),
       GainAt(LinearRamp, 0.3, now + 0.1), GainAt(ExponentialRamp, 0.001, now + 1.0)],
      now, Some(now + 1.0))
  }

  /**
   * A growl: looping low-passed noise whose cutoff wobbles at 8 Hz by 300 Hz,
   * rising to 0.6 over 1 s and decaying until it stops after `durationMs`.
   */
  function GrowlEffect(now: real, durationMs: nat): (e: EffectRecord)
    ensures WellFormed(e) && e.kind == Growl && e.stop.Some?
    ensures Lifetime(e) == durationMs as real / 1000.0
    ensures e.modulation == CutoffLfo(8.0, 300.0)
  {
    var stopTime := now + durationMs as real / 1000.0;
    EffectRecord(
      Growl, NoiseBuffer(2.0, 0.8, true), LowPass(100.0), CutoffLfo(8.0, 300.0), None, 1.0,
      [GainAt(SetValue, 0.0, now), GainAt(LinearRamp, 0.6, now + 1.0), GainAt(ExponentialRamp, 0.001, stopTime)],
      now, Some(stopTime))
  }
}
