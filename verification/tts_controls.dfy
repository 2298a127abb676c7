/**
 * The play, pause and stop buttons of the result panel. They drive the audio
 * engine's speech and keep two interface flags, "speaking" and "paused",
 * which pick the button shown: pause while speaking and not paused, play
 * otherwise. The mute toggle also acts on the engine's speech.
 */
module TtsControls {
  import opened JsText
  import opened AudioState

  /** How much of the result is read aloud. */
  const SpokenLimit: nat := 500

  datatype Flags = Flags(isSpeaking: bool, isPaused: bool)

  /** The interface flags together with the engine they drive. */
  datatype Controls = Controls(flags: Flags, engine: Snapshot)

  /** `handlePlayTTS`: nothing without a result; resume when paused; otherwise speak the start of the result. */
  function Play(c: Controls, resultCode: string, voices: seq<Voice>, now: real): Controls {
    if resultCode == [] then c
    else if c.flags.isPaused then Controls(Flags(true, false), ResumeSpeaking(c.engine))
    else Controls(c.flags.(isSpeaking := true), SpeakDemon(c.engine, Prefix(resultCode, SpokenLimit), voices, now))
  }

  /** `handlePauseTTS`. */
  function Pause(c: Controls): Controls {
    Controls(Flags(false, true), PauseSpeaking(c.engine))
  }

  /** `handleStopTTS`. */
  function Stop(c: Controls): Controls {
    Controls(Flags(false, false), StopSpeaking(c.engine))
  }

  /** `toggleMute`: flips the engine's mute flag. */
  function ToggleMute(c: Controls, now: real): Controls {
    c.(engine := SetMute(c.engine, !c.engine.muted, now))
  }

  datatype Press =
    | PlayPress(resultCode: string, voices: seq<Voice>, now: real)
    | PausePress
    | StopPress
    | MutePress(now: real)

  function Handle(c: Controls, p: Press): Controls {
    match p
    case PlayPress(code, voices, now) => Play(c, code, voices, now)
    case PausePress => Pause(c)
    case StopPress => Stop(c)
    case MutePress(now) => ToggleMute(c, now)
  }

  function Replay(c: Controls, presses: seq<Press>): Controls
    decreases |presses|
  {
    if presses == [] then c else Replay(Handle(c, presses[0]), presses[1..])
  }

  /**
   * The flags never claim speaking and paused at once, and whenever the
   * engine holds paused speech the flags say paused, so the play button is
   * the one shown and it resumes that speech.
   */
  predicate Coherent(c: Controls) {
    && !(c.flags.isSpeaking && c.flags.isPaused)
    && (c.engine.speech.Paused? ==> c.flags.isPaused)
  }

  function Initial(): Controls {
    Controls(Flags(false, false), Fresh())
  }

  lemma HandleKeepsCoherent(c: Controls, p: Press)
    requires Coherent(c)
    ensures Coherent(Handle(c, p))
  {
  }

  /** Every sequence of presses keeps coherent controls coherent. */
  lemma {:induction false} ReplayKeepsCoherent(c: Controls, presses: seq<Press>)
    requires Coherent(c)
    ensures Coherent(Replay(c, presses))
    decreases |presses|
  {
    if presses != [] {
      HandleKeepsCoherent(c, presses[0]);
      ReplayKeepsCoherent(Handle(c, presses[0]), presses[1..]);
    }
  }

  /** From the initial screen, with a new engine, the controls are always coherent. */
  lemma ReachableCoherent(presses: seq<Press>)
    ensures Coherent(Replay(Initial(), presses))
  {
    ReplayKeepsCoherent(Initial(), presses);
  }

  /** Pause then play resumes the very utterance that was paused. */
  lemma PauseThenPlayResumes(c: Controls, resultCode: string, voices: seq<Voice>, now: real)
    requires c.engine.speech.Speaking? && resultCode != []
    ensures var r := Play(Pause(c), resultCode, voices, now);
      r.engine.speech == Speaking(c.engine.speech.current) && r.flags == Flags(true, false) &&
      r.engine.spoken == c.engine.spoken
  {
  }

  /** Playing when not paused and not muted speaks the first 500 characters of the result, sanitised. */
  lemma PlaySpeaksPrefix(c: Controls, resultCode: string, voices: seq<Voice>, now: real)
    requires resultCode != [] && !c.flags.isPaused && !c.engine.muted
    ensures var r := Play(c, resultCode, voices, now);
      && r.flags.isSpeaking
      && r.engine.spoken == c.engine.spoken + [DemonUtterance(Prefix(resultCode, SpokenLimit), voices)]
      && r.engine.speech == Speaking(DemonUtterance(Prefix(resultCode, SpokenLimit), voices))
  {
  }

  /**
   * Playing while muted sets the speaking flag although the engine says
   * nothing: the flags then disagree with the engine.
   */
  lemma PlayWhileMutedIsSilent(c: Controls, resultCode: string, voices: seq<Voice>, now: real)
    requires resultCode != [] && !c.flags.isPaused && c.engine.muted
    ensures var r := Play(c, resultCode, voices, now);
      r.flags.isSpeaking && r.engine == c.engine
  {
  }
}
