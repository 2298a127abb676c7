/**
 * The horror audio engine object. Its fields are the engine's own state: the
 * audio context with its master gain stage (`master`, absent until `Init`),
 * the mute flag and the time of the last accepted heartbeat; next to them the
 * state of the platform's speech synthesiser and the logs of utterances
 * started and sounds scheduled, which the engine changes through the platform.
 * Every method is specified by the transition of the same name in
 * `AudioState`, where the properties of the engine are proved.
 */
module HorrorAudioEngine {
  import opened Wrappers
  import opened JsText
  import opened SpeechText
  import opened AudioEffects
  import AudioState

  /** The value `(draw * 2 - 1) * amplitude` that the noise-buffer loops write. */
  function NoiseSample(draw: real, amplitude: real): (x: real)
    requires IsDraw(draw) && amplitude >= 0.0
    ensures -amplitude <= x <= amplitude
    ensures amplitude > 0.0 ==> x < amplitude
  {
    var d := draw * 2.0 - 1.0;
    assert (1.0 - d) * amplitude >= 0.0 && (d + 1.0) * amplitude >= 0.0;
    assert amplitude > 0.0 ==> (1.0 - d) * amplitude > 0.0;
    d * amplitude
  }

  /**
   * Fills a noise buffer with one random draw per sample, scaled into
   * [-amplitude, amplitude), as the whisper, typing and growl sounds do.
   */
  method FillNoise(data: array<real>, draws: seq<real>, amplitude: real)
    requires |draws| == data.Length && amplitude >= 0.0
    requires forall i :: 0 <= i < |draws| ==> IsDraw(draws[i])
    modifies data
    ensures forall i :: 0 <= i < data.Length ==> data[i] == NoiseSample(draws[i], amplitude)
    ensures forall i :: 0 <= i < data.Length ==> -amplitude <= data[i] <= amplitude
  {
    for i := 0 to data.Length
      invariant forall k :: 0 <= k < i ==> data[k] == NoiseSample(draws[k], amplitude)
    {
      data[i] := (draws[i] * 2.0 - 1.0) * amplitude;
    }
  }

  class HorrorAudio {
    var master: Option<AudioState.MasterBus>
    var isMuted: bool
    var lastHeartbeatTime: real
    var speech: AudioState.Speech
    var spoken: seq<AudioState.Utterance>
    var effects: seq<EffectRecord>

    function State(): AudioState.Snapshot
      reads this
    {
      AudioState.Snapshot(master, isMuted, lastHeartbeatTime, speech, spoken, effects)
    }

    constructor()
      ensures State() == AudioState.Fresh()
    {
      master := None;
      isMuted := false;
      lastHeartbeatTime := 0.0;
      speech := AudioState.Silent;
      spoken := [];
      effects := [];
    }

    method Init(now: real)
      modifies this
      ensures State() == AudioState.Init(old(State()), now)
    {
      if master.Some? {
        return;
      }
      master := Some(AudioState.MasterBus(1.0, []));
      StartDarkAmbience(now);
    }

    method SetMute(mute: bool, now: real)
      modifies this
      ensures State() == AudioState.SetMute(old(State()), mute, now)
    {
      isMuted := mute;
      if master.Some? {
        var bus := master.value;
        master := Some(bus.(schedule := bus.schedule + [GainAt(ApproachTarget(0.5), if mute then 0.0 else 1.0, now)]));
      }
      if mute {
        speech := AudioState.Silent;
      }
    }

    /** Starts one never-stopped drone per frequency. */
    method StartDarkAmbience(now: real)
      modifies this
      ensures State() == AudioState.StartAmbience(old(State()), now)
    {
      if master.None? {
        return;
      }
      var freqs := [55.0, 58.0];
      for i := 0 to |freqs|
        invariant effects == old(effects) + seq(i, k requires 0 <= k < i => Drone(freqs[k], now))
        invariant master == old(master) && isMuted == old(isMuted) && lastHeartbeatTime == old(lastHeartbeatTime)
        invariant speech == old(speech) && spoken == old(spoken)
      {
        effects := effects + [Drone(freqs[i], now)];
      }
      assert seq(2, k requires 0 <= k < 2 => Drone(freqs[k], now)) == AudioState.Drones(now);
    }

    method PlayWhisper(now: real, centreDraw: real, panDraw: real)
      requires IsDraw(centreDraw) && IsDraw(panDraw)
      modifies this
      ensures State() == AudioState.PlayWhisper(old(State()), now, centreDraw, panDraw)
    {
      if master.None? || isMuted {
        return;
      }
      effects := effects + [WhisperEffect(now, centreDraw, panDraw)];
    }

    method PlayGlitchSound(now: real, freqDraw: real)
      requires IsDraw(freqDraw)
      modifies this
      ensures State() == AudioState.PlayGlitch(old(State()), now, freqDraw)
    {
      if master.None? || isMuted {
        return;
      }
      effects := effects + [GlitchEffect(now, freqDraw)];
    }

    method PlayTypingSound(now: real)
      modifies this
      ensures State() == AudioState.PlayTyping(old(State()), now)
    {
      if master.None? || isMuted {
        return;
      }
      effects := effects + [TypingEffect(now)];
    }

    method PlayHeartbeat(now: real)
      modifies this
      ensures State() == AudioState.PlayHeartbeat(old(State()), now)
    {
      if master.None? || isMuted {
        return;
      }
      if now - lastHeartbeatTime < 0.2 {
        return;
      }
      lastHeartbeatTime := now;
      effects := effects + [HeartbeatEffect(now)];
    }

    method PlayScream(now: real)
      modifies this
      ensures State() == AudioState.PlayScream(old(State()), now)
    {
      if master.None? || isMuted {
        return;
      }
      effects := effects + [ScreamEffect(now)];
    }

    method SpeakDemon(text: string, voices: seq<AudioState.Voice>, now: real)
      modifies this
      ensures State() == AudioState.SpeakDemon(old(State()), text, voices, now)
    {
      if isMuted {
        return;
      }
      speech := AudioState.Silent;
      var cleanText := CleanTextForSpeech(text);
      var utterance := AudioState.Utterance(cleanText, 0.01, 0.4, 1.0, None);
      var voice := AudioState.PickVoice(voices);
      if voice.Some? {
        utterance := utterance.(voice := voice);
      }
      PlayGrowl(Utf16Length(text) * 100, now);
      speech := AudioState.Speaking(utterance);
      spoken := spoken + [utterance];
    }

    method PauseSpeaking()
      modifies this
      ensures State() == AudioState.PauseSpeaking(old(State()))
    {
      if speech.Speaking? {
        speech := AudioState.Paused(speech.current);
      }
    }

    method ResumeSpeaking()
      modifies this
      ensures State() == AudioState.ResumeSpeaking(old(State()))
    {
      if speech.Paused? {
        speech := AudioState.Speaking(speech.current);
      }
    }

    method StopSpeaking()
      modifies this
      ensures State() == AudioState.StopSpeaking(old(State()))
    {
      speech := AudioState.Silent;
    }

    method PlayGrowl(durationMs: nat, now: real)
      modifies this
      ensures State() == AudioState.PlayGrowl(old(State()), now, durationMs)
    {
      if master.None? || isMuted {
        return;
      }
      effects := effects + [GrowlEffect(now, durationMs)];
    }

    method PlayFeedMe(voices: seq<AudioState.Voice>, now: real)
      modifies this
      ensures State() == AudioState.PlayFeedMe(old(State()), voices, now)
    {
      SpeakDemon("Feeeed me.", voices, now);
    }
  }
}
