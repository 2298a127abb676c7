/**
 * The horror audio engine as a state machine. A `Snapshot` holds what the
 * engine object keeps: its audio context and master gain stage (absent until
 * the first initialisation), the mute flag, the time of the last accepted
 * heartbeat, the state of the platform's speech synthesiser, and the logs of
 * utterances started and sounds scheduled. Each operation is a function from
 * the old snapshot to the new one; the audio clock `now`, the random draws and
 * the list of installed voices are parameters.
 */
module AudioState {
  import opened Wrappers
  import opened JsText
  import opened SpeechText
  import opened AudioEffects

  /** Minimum spacing, in seconds, between two accepted heartbeats. */
  const HeartbeatGap: real := 0.2
  /** Time constant, in seconds, of the master gain's approach to its mute target. */
  const MuteTimeConstant: real := 0.5
  const DemonPitch: real := 0.01
  const DemonRate: real := 0.4
  const DemonVolume: real := 1.0
  const PreferredVoice: string := "Google US English"
  /** Milliseconds of growl per UTF-16 code unit of spoken text. */
  const GrowlMsPerUnit: nat := 100
  const FeedMeLine: string := "Feeeed me."

  datatype Voice = Voice(name: string)

  datatype Utterance = Utterance(text: string, pitch: real, rate: real, volume: real, voice: Option<Voice>)

  /** The speech synthesiser: silent, speaking an utterance, or paused in one. */
  datatype Speech = Silent | Speaking(current: Utterance) | Paused(current: Utterance)

  /** The master gain stage: its initial value and the mute transitions programmed on it. */
  datatype MasterBus = MasterBus(level: real, schedule: seq<Segment>) {
    /** The value the gain settles to once the programmed transitions have run. */
    function Target(): real {
      if schedule == [] then level else schedule[|schedule| - 1].value
    }
  }

  datatype Snapshot = Snapshot(
    master: Option<MasterBus>,
    muted: bool,
    lastHeartbeat: real,
    speech: Speech,
    spoken: seq<Utterance>,
    effects: seq<EffectRecord>)

  /** The engine as constructed: no context, not muted, heartbeat clock at 0. */
  function Fresh(): Snapshot {
    Snapshot(None, false, 0.0, Silent, [], [])
  }

  /** One-shot sounds are scheduled only with a context and while not muted. */
  predicate CanPlay(s: Snapshot) {
    s.master.Some? && !s.muted
  }

  function Drones(now: real): seq<EffectRecord> {
    [Drone(55.0, now), Drone(58.0, now)]
  }

  /** `startDarkAmbience`: the two detuned drones, if there is a context. */
  function StartAmbience(s: Snapshot, now: real): Snapshot {
    if s.master.None? then s else s.(effects := s.effects + Drones(now))
  }

  /** `init`: creates the context and a master gain at 1.0 and starts the ambience, once. */
  function Init(s: Snapshot, now: real): Snapshot {
    if s.master.Some? then s
    else StartAmbience(s.(master := Some(MasterBus(1.0, []))), now)
  }

  /** `setMute`: records the flag, steers the master gain when there is one, and silences speech when muting. */
  function SetMute(s: Snapshot, mute: bool, now: real): Snapshot {
    var target := if mute then 0.0 else 1.0;
    var master :=
      match s.master
      case None => None
      case Some(bus) => Some(bus.(schedule := bus.schedule + [GainAt(ApproachTarget(MuteTimeConstant), target, now)]));
    s.(muted := mute, master := master, speech := if mute then Silent else s.speech)
  }

  /** The guard shared by the one-shot sounds: schedule `e` only when playing is allowed. */
  function Schedule(s: Snapshot, e: EffectRecord): Snapshot {
    if CanPlay(s) then s.(effects := s.effects + [e]) else s
  }

  function PlayWhisper(s: Snapshot, now: real, centreDraw: real, panDraw: real): Snapshot
    requires IsDraw(centreDraw) && IsDraw(panDraw)
  {
    Schedule(s, WhisperEffect(now, centreDraw, panDraw))
  }

  function PlayGlitch(s: Snapshot, now: real, freqDraw: real): Snapshot
    requires IsDraw(freqDraw)
  {
    Schedule(s, GlitchEffect(now, freqDraw))
  }

  function PlayTyping(s: Snapshot, now: real): Snapshot {
    Schedule(s, TypingEffect(now))
  }

  function PlayScream(s: Snapshot, now: real): Snapshot {
    Schedule(s, ScreamEffect(now))
  }

  function PlayGrowl(s: Snapshot, now: real, durationMs: nat): Snapshot {
    Schedule(s, GrowlEffect(now, durationMs))
  }

  /** A heartbeat is accepted when playing is allowed and at least 0.2 s have passed since the last accepted one. */
  predicate HeartbeatAccepted(s: Snapshot, now: real) {
    CanPlay(s) && now - s.lastHeartbeat >= HeartbeatGap
  }

  /** `playHeartbeat`: the debounced heartbeat. */
  function PlayHeartbeat(s: Snapshot, now: real): Snapshot {
    if !CanPlay(s) then s
    else if now - s.lastHeartbeat < HeartbeatGap then s
    else s.(lastHeartbeat := now, effects := s.effects + [HeartbeatEffect(now)])
  }

  /** Index of the first voice whose name contains the preferred name (`Array.prototype.find`). */
  function FindPreferred(voices: seq<Voice>): (r: Option<nat>)
    ensures r.Some? ==> r.value < |voices| && Includes(voices[r.value].name, PreferredVoice)
    ensures r.Some? ==> forall j :: 0 <= j < r.value ==> !Includes(voices[j].name, PreferredVoice)
    ensures r.None? ==> forall j :: 0 <= j < |voices| ==> !Includes(voices[j].name, PreferredVoice)
  {
    if voices == [] then None
    else if Includes(voices[0].name, PreferredVoice) then Some(0)
    else match FindPreferred(voices[1..])
      case None => None
      case Some(i) => Some(i + 1)
  }

  /** The voice of the demon: the first preferred voice, else the first voice, else none. */
  function PickVoice(voices: seq<Voice>): (r: Option<Voice>)
    ensures r.None? <==> voices == []
    ensures r.Some? ==> r.value in voices
    ensures (exists i :: 0 <= i < |voices| && Includes(voices[i].name, PreferredVoice)) ==>
      r.Some? && Includes(r.value.name, PreferredVoice)
    ensures (forall i :: 0 <= i < |voices| ==> !Includes(voices[i].name, PreferredVoice)) && voices != [] ==>
      r == Some(voices[0])
    ensures FindPreferred(voices).Some? ==> r == Some(voices[FindPreferred(voices).value])
  {
    match FindPreferred(voices)
    case Some(i) => Some(voices[i])
    case None => if voices == [] then None else Some(voices[0])
  }

  /** The utterance `speakDemon` builds: sanitised text, fixed low pitch, slow rate, full volume. */
  function DemonUtterance(text: string, voices: seq<Voice>): Utterance {
    Utterance(CleanTextForSpeech(text), DemonPitch, DemonRate, DemonVolume, PickVoice(voices))
  }

  /**
   * `speakDemon`: unless muted, cancels any speech, schedules a growl lasting
   * 100 ms per UTF-16 unit of the raw text, and starts the new utterance.
   */
  function SpeakDemon(s: Snapshot, text: string, voices: seq<Voice>, now: real): Snapshot {
    if s.muted then s
    else
      var cancelled := s.(speech := Silent);
      var withGrowl := PlayGrowl(cancelled, now, Utf16Length(text) * GrowlMsPerUnit);
      var u := DemonUtterance(text, voices);
      withGrowl.(speech := Speaking(u), spoken := withGrowl.spoken + [u])
  }

  function PlayFeedMe(s: Snapshot, voices: seq<Voice>, now: real): Snapshot {
    SpeakDemon(s, FeedMeLine, voices, now)
  }

  /** `pauseSpeaking`: pauses only speech that is playing. */
  function PauseSpeaking(s: Snapshot): Snapshot {
    if s.speech.Speaking? then s.(speech := Paused(s.speech.current)) else s
  }

  /** `resumeSpeaking`: resumes only paused speech. */
  function ResumeSpeaking(s: Snapshot): Snapshot {
    if s.speech.Paused? then s.(speech := Speaking(s.speech.current)) else s
  }

  /** `stopSpeaking`: cancels unconditionally; a cancel is taken to end a pause as well. */
  function StopSpeaking(s: Snapshot): Snapshot {
    s.(speech := Silent)
  }

  /**
   * A call on the engine, with the clock reading and random draws it uses.
   * `playFeedMe` is the speech call on its fixed line, so `CSpeak` covers it.
   */
  datatype Cmd =
    | CInit(now: real)
    | CSetMute(mute: bool, now: real)
    | CWhisper(now: real, centreDraw: real, panDraw: real)
    | CGlitch(now: real, freqDraw: real)
    | CTyping(now: real)
    | CHeartbeat(now: real)
    | CScream(now: real)
    | CGrowl(now: real, durationMs: nat)
    | CSpeak(text: string, voices: seq<Voice>, now: real)
    | CPause
    | CResume
    | CStop

  predicate ValidCmd(c: Cmd) {
    match c
    case CWhisper(_, a, b) => IsDraw(a) && IsDraw(b)
    case CGlitch(_, a) => IsDraw(a)
    case _ => true
  }

  predicate IsOneShot(c: Cmd) {
    c.CWhisper? || c.CGlitch? || c.CTyping? || c.CHeartbeat? || c.CScream? || c.CGrowl?
  }

  /** The kind of sound a one-shot call schedules. */
  function SoundKind(c: Cmd): EffectKind
    requires IsOneShot(c)
  {
    match c
    case CWhisper(_, _, _) => Whisper
    case CGlitch(_, _) => Glitch
    case CTyping(_) => TypingTick
    case CHeartbeat(_) => Heartbeat
    case CScream(_) => Scream
    case CGrowl(_, _) => Growl
  }

  function Apply(s: Snapshot, c: Cmd): Snapshot
    requires ValidCmd(c)
  {
    match c
    case CInit(now) => Init(s, now)
    case CSetMute(m, now) => SetMute(s, m, now)
    case CWhisper(now, a, b) => PlayWhisper(s, now, a, b)
    case CGlitch(now, a) => PlayGlitch(s, now, a)
    case CTyping(now) => PlayTyping(s, now)
    case CHeartbeat(now) => PlayHeartbeat(s, now)
    case CScream(now) => PlayScream(s, now)
    case CGrowl(now, ms) => PlayGrowl(s, now, ms)
    case CSpeak(text, voices, now) => SpeakDemon(s, text, voices, now)
    case CPause => PauseSpeaking(s)
    case CResume => ResumeSpeaking(s)
    case CStop => StopSpeaking(s)
  }

  predicate AllValid(cmds: seq<Cmd>) {
    forall i :: 0 <= i < |cmds| ==> ValidCmd(cmds[i])
  }

  /** The state after a sequence of calls, in order. */
  function Run(s: Snapshot, cmds: seq<Cmd>): Snapshot
    requires AllValid(cmds)
    decreases |cmds|
  {
    if cmds == [] then s else Run(Apply(s, cmds[0]), cmds[1..])
  }

  predicate IsDrone(e: EffectRecord, freq: real) {
    e == Drone(freq, e.start)
  }

  /** Every mute transition approaches 0 or 1 on the gain with the 0.5 s time constant. */
  predicate MuteSchedule(segs: seq<Segment>) {
    forall i :: 0 <= i < |segs| ==>
      segs[i].param == GainParam && segs[i].curve == ApproachTarget(MuteTimeConstant) &&
      (segs[i].value == 0.0 || segs[i].value == 1.0)
  }

  /** Accepted heartbeats are at least 0.2 s apart, and none is later than the recorded last one. */
  predicate HeartbeatsSpaced(effects: seq<EffectRecord>, last: real) {
    && (forall i :: 0 <= i < |effects| && effects[i].kind == Heartbeat ==> effects[i].start <= last)
    && (forall i, j :: 0 <= i < j < |effects| && effects[i].kind == Heartbeat && effects[j].kind == Heartbeat ==>
          effects[i].start + HeartbeatGap <= effects[j].start)
  }

  predicate Demonic(u: Utterance) {
    u.pitch == DemonPitch && u.rate == DemonRate && u.volume == DemonVolume &&
    forall i :: 0 <= i < |u.text| ==> !Removed(u.text[i])
  }

  /** What holds of every state the engine can reach from construction. */
  predicate Inv(s: Snapshot) {
    // nothing is scheduled before the context exists
    && (s.master.None? ==> s.effects == [])
    // exactly the two drones run forever, and they come first
    && (s.master.Some? ==>
          |s.effects| >= 2 && IsDrone(s.effects[0], 55.0) && IsDrone(s.effects[1], 58.0) &&
          s.master.value.level == 1.0 && MuteSchedule(s.master.value.schedule))
    && (forall i :: 2 <= i < |s.effects| ==> s.effects[i].kind != Ambience)
    && (forall i :: 0 <= i < |s.effects| ==> WellFormed(s.effects[i]))
    // once a mute transition is programmed, the master gain heads where the flag says
    && (s.master.Some? && s.master.value.schedule != [] ==>
          s.master.value.Target() == if s.muted then 0.0 else 1.0)
    && HeartbeatsSpaced(s.effects, s.lastHeartbeat)
    // nothing is spoken while muted, and at most one utterance is current: the latest
    && (s.muted ==> s.speech == Silent)
    && (s.speech != Silent ==> |s.spoken| > 0 && s.speech.current == s.spoken[|s.spoken| - 1])
    && (forall i :: 0 <= i < |s.spoken| ==> Demonic(s.spoken[i]))
  }

  lemma FreshInv()
    ensures Inv(Fresh())
  {
  }

  /** Appending one well-formed non-drone sound that is not a heartbeat keeps the invariant. */
  lemma AppendKeepsInv(s: Snapshot, e: EffectRecord)
    requires Inv(s) && s.master.Some? && WellFormed(e) && e.kind != Ambience && e.kind != Heartbeat
    ensures Inv(s.(effects := s.effects + [e]))
  {
    var r := s.(effects := s.effects + [e]);
    assert forall i :: 0 <= i < |s.effects| ==> r.effects[i] == s.effects[i];
  }

  /** The utterance `speakDemon` builds is demonic. */
  lemma DemonUtteranceDemonic(text: string, voices: seq<Voice>)
    ensures Demonic(DemonUtterance(text, voices))
  {
  }

  /** Starting a demonic utterance while not muted keeps the invariant. */
  lemma StartUtteranceKeepsInv(s: Snapshot, u: Utterance)
    requires Inv(s) && !s.muted && Demonic(u)
    ensures Inv(s.(speech := Speaking(u), spoken := s.spoken + [u]))
  {
    var r := s.(speech := Speaking(u), spoken := s.spoken + [u]);
    assert forall i :: 0 <= i < |s.spoken| ==> r.spoken[i] == s.spoken[i];
  }

  lemma {:induction false} SpeakKeepsInv(s: Snapshot, text: string, voices: seq<Voice>, now: real)
    requires Inv(s)
    ensures Inv(SpeakDemon(s, text, voices, now))
  {
    if !s.muted {
      var cancelled := s.(speech := Silent);
      var withGrowl := PlayGrowl(cancelled, now, Utf16Length(text) * GrowlMsPerUnit);
      if CanPlay(cancelled) {
        AppendKeepsInv(cancelled, GrowlEffect(now, Utf16Length(text) * GrowlMsPerUnit));
      }
      assert Inv(withGrowl);
      DemonUtteranceDemonic(text, voices);
      StartUtteranceKeepsInv(withGrowl, DemonUtterance(text, voices));
    }
  }

  lemma {:induction false} HeartbeatKeepsInv(s: Snapshot, now: real)
    requires Inv(s)
    ensures Inv(PlayHeartbeat(s, now))
  {
    if HeartbeatAccepted(s, now) {
      var r := PlayHeartbeat(s, now);
      assert r.effects == s.effects + [HeartbeatEffect(now)];
      assert forall i :: 0 <= i < |s.effects| ==> r.effects[i] == s.effects[i];
    }
  }

  /** The two drones are well-formed ambience that no heartbeat precedes. */
  lemma DronesSound(now: real, last: real)
    ensures var d := Drones(now);
      && |d| == 2 && IsDrone(d[0], 55.0) && IsDrone(d[1], 58.0)
      && (forall i :: 0 <= i < |d| ==> WellFormed(d[i]) && d[i].kind == Ambience)
      && HeartbeatsSpaced(d, last)
  {
  }

  lemma InitKeepsInv(s: Snapshot, now: real)
    requires Inv(s)
    ensures Inv(Init(s, now))
  {
    if s.master.None? {
      var r := Init(s, now);
      assert r == s.(master := Some(MasterBus(1.0, [])), effects := Drones(now));
      DronesSound(now, s.lastHeartbeat);
    }
  }

  lemma SetMuteKeepsInv(s: Snapshot, mute: bool, now: real)
    requires Inv(s)
    ensures Inv(SetMute(s, mute, now))
  {
    if s.master.Some? {
      var bus := s.master.value;
      var segs := bus.schedule + [GainAt(ApproachTarget(MuteTimeConstant), if mute then 0.0 else 1.0, now)];
      assert forall i :: 0 <= i < |bus.schedule| ==> segs[i] == bus.schedule[i];
      assert MuteSchedule(segs);
    }
  }

  lemma ScheduleKeepsInv(s: Snapshot, e: EffectRecord)
    requires Inv(s) && WellFormed(e) && e.kind != Ambience && e.kind != Heartbeat
    ensures Inv(Schedule(s, e))
  {
    if CanPlay(s) {
      AppendKeepsInv(s, e);
    }
  }

  lemma SpeechControlKeepsInv(s: Snapshot)
    requires Inv(s)
    ensures Inv(PauseSpeaking(s)) && Inv(ResumeSpeaking(s)) && Inv(StopSpeaking(s))
  {
  }

  /** Every one-shot sound keeps the invariant. */
  lemma {:induction false} OneShotKeepsInv(s: Snapshot, c: Cmd)
    requires Inv(s) && ValidCmd(c) && IsOneShot(c)
    ensures Inv(Apply(s, c))
  {
    match c
    case CWhisper(now, a, b) => ScheduleKeepsInv(s, WhisperEffect(now, a, b));
    case CGlitch(now, a) => ScheduleKeepsInv(s, GlitchEffect(now, a));
    case CTyping(now) => ScheduleKeepsInv(s, TypingEffect(now));
    case CHeartbeat(now) => HeartbeatKeepsInv(s, now);
    case CScream(now) => ScheduleKeepsInv(s, ScreamEffect(now));
    case CGrowl(now, ms) => ScheduleKeepsInv(s, GrowlEffect(now, ms));
  }

  /** Every speech call keeps the invariant. */
  lemma {:induction false} SpeechCmdKeepsInv(s: Snapshot, c: Cmd)
    requires Inv(s) && ValidCmd(c) && (c.CSpeak? || c.CPause? || c.CResume? || c.CStop?)
    ensures Inv(Apply(s, c))
  {
    if c.CSpeak? {
      SpeakKeepsInv(s, c.text, c.voices, c.now);
    } else {
      SpeechControlKeepsInv(s);
    }
  }

  /** Every engine call keeps the invariant. */
  lemma {:induction false} ApplyKeepsInv(s: Snapshot, c: Cmd)
    requires Inv(s) && ValidCmd(c)
    ensures Inv(Apply(s, c))
  {
    if IsOneShot(c) {
      OneShotKeepsInv(s, c);
    } else if c.CInit? {
      InitKeepsInv(s, c.now);
    } else if c.CSetMute? {
      SetMuteKeepsInv(s, c.mute, c.now);
    } else {
      SpeechCmdKeepsInv(s, c);
    }
  }

  /** Any sequence of calls keeps the invariant. */
  lemma {:induction false} RunKeepsInv(s: Snapshot, cmds: seq<Cmd>)
    requires Inv(s) && AllValid(cmds)
    ensures Inv(Run(s, cmds))
    decreases |cmds|
  {
    if cmds != [] {
      ApplyKeepsInv(s, cmds[0]);
      RunKeepsInv(Apply(s, cmds[0]), cmds[1..]);
    }
  }

  /** Every state reachable from construction satisfies the invariant. */
  lemma ReachableInv(cmds: seq<Cmd>)
    requires AllValid(cmds)
    ensures Inv(Run(Fresh(), cmds))
  {
    FreshInv();
    RunKeepsInv(Fresh(), cmds);
  }

  /**
   * The first `init` creates a master gain at 1.0 and starts exactly the two
   * never-ending drones at 55 and 58 Hz; any later `init` changes nothing.
   */
  lemma InitOnce(s: Snapshot, now: real, later: real)
    requires Inv(s) && s.master.None?
    ensures var r := Init(s, now);
      && r.master == Some(MasterBus(1.0, []))
      && r.effects == [Drone(55.0, now), Drone(58.0, now)]
      && r.muted == s.muted && r.speech == s.speech && r.lastHeartbeat == s.lastHeartbeat
      && Init(r, later) == r
  {
  }

  /** `init` is idempotent in every state. */
  lemma InitIdempotent(s: Snapshot, now: real, later: real)
    ensures Init(Init(s, now), later) == Init(s, now)
  {
  }

  /** Without a context, or while muted, every one-shot sound is a no-op that changes no state. */
  lemma OneShotGuard(s: Snapshot, c: Cmd)
    requires ValidCmd(c) && IsOneShot(c) && !CanPlay(s)
    ensures Apply(s, c) == s
  {
  }

  /** An allowed one-shot sound appends exactly one well-formed record of its kind and changes nothing else. */
  lemma OneShotSchedules(s: Snapshot, c: Cmd)
    requires ValidCmd(c) && IsOneShot(c) && CanPlay(s) && (c.CHeartbeat? ==> HeartbeatAccepted(s, c.now))
    ensures var r := Apply(s, c);
      && |r.effects| == |s.effects| + 1 && r.effects[..|s.effects|] == s.effects
      && WellFormed(r.effects[|s.effects|]) && r.effects[|s.effects|].kind != Ambience
      && r.effects[|s.effects|].kind == SoundKind(c)
      && r.effects[|s.effects|].start == c.now
      && r.master == s.master && r.muted == s.muted && r.speech == s.speech && r.spoken == s.spoken
  {
  }

  /** The heartbeat debounce: a heartbeat changes the state exactly when it is accepted, and then stamps the clock. */
  lemma HeartbeatDebounce(s: Snapshot, now: real)
    ensures PlayHeartbeat(s, now) != s <==> HeartbeatAccepted(s, now)
    ensures HeartbeatAccepted(s, now) ==>
      PlayHeartbeat(s, now).lastHeartbeat == now &&
      PlayHeartbeat(s, now).effects == s.effects + [HeartbeatEffect(now)]
    ensures !HeartbeatAccepted(s, now) ==> PlayHeartbeat(s, now).lastHeartbeat == s.lastHeartbeat
  {
    if HeartbeatAccepted(s, now) {
      assert |PlayHeartbeat(s, now).effects| == |s.effects| + 1;
    }
  }

  /** After an accepted heartbeat, another within 0.2 s is dropped and one 0.2 s or more later is accepted. */
  lemma HeartbeatRetrigger(s: Snapshot, now: real, delay: real)
    requires HeartbeatAccepted(s, now) && delay >= 0.0
    ensures var r := PlayHeartbeat(s, now);
      && (delay < HeartbeatGap ==> PlayHeartbeat(r, now + delay) == r)
      && (delay >= HeartbeatGap ==> HeartbeatAccepted(r, now + delay))
  {
  }

  lemma SpeakKeepsClock(s: Snapshot, text: string, voices: seq<Voice>, now: real)
    ensures SpeakDemon(s, text, voices, now).lastHeartbeat == s.lastHeartbeat
  {
  }

  lemma ApplyKeepsClock(s: Snapshot, c: Cmd)
    requires ValidCmd(c) && !c.CHeartbeat?
    ensures Apply(s, c).lastHeartbeat == s.lastHeartbeat
  {
    match c
    case CSpeak(text, voices, now) => SpeakKeepsClock(s, text, voices, now);
    case _ =>
  }

  /** Calls that are not heartbeats never move the heartbeat clock. */
  lemma {:induction false} HeartbeatClockUntouched(s: Snapshot, cmds: seq<Cmd>)
    requires AllValid(cmds) && forall i :: 0 <= i < |cmds| ==> !cmds[i].CHeartbeat?
    ensures Run(s, cmds).lastHeartbeat == s.lastHeartbeat
    decreases |cmds|
  {
    if cmds != [] {
      ApplyKeepsClock(s, cmds[0]);
      HeartbeatClockUntouched(Apply(s, cmds[0]), cmds[1..]);
    }
  }

  /** Because the clock starts at 0, a first heartbeat requested before 0.2 s is dropped. */
  lemma EarlyHeartbeatDropped(cmds: seq<Cmd>, now: real)
    requires AllValid(cmds) && forall i :: 0 <= i < |cmds| ==> !cmds[i].CHeartbeat?
    requires now < HeartbeatGap
    ensures var s := Run(Fresh(), cmds); PlayHeartbeat(s, now) == s
  {
    HeartbeatClockUntouched(Fresh(), cmds);
  }

  /**
   * `setMute` always records the flag; with a context it programs a 0.5 s
   * approach of the master gain to 0 or 1; muting silences speech, unmuting
   * leaves it; no sound is scheduled.
   */
  lemma SetMuteEffect(s: Snapshot, mute: bool, now: real)
    ensures var r := SetMute(s, mute, now);
      && r.muted == mute
      && r.effects == s.effects && r.spoken == s.spoken && r.lastHeartbeat == s.lastHeartbeat
      && (s.master.None? ==> r.master.None?)
      && (s.master.Some? ==>
            r.master.Some? && r.master.value.level == s.master.value.level &&
            r.master.value.schedule == s.master.value.schedule +
              [Segment(GainParam, ApproachTarget(0.5), if mute then 0.0 else 1.0, now)] &&
            r.master.value.Target() == if mute then 0.0 else 1.0)
      && (mute ==> r.speech == Silent)
      && (!mute ==> r.speech == s.speech)
  {
  }

  /** Muting and then unmuting steers the master gain back to 1.0. */
  lemma MuteUnmuteRestoresGain(s: Snapshot, t1: real, t2: real)
    requires s.master.Some?
    ensures var r := SetMute(SetMute(s, true, t1), false, t2);
      r.master.Some? && r.master.value.Target() == 1.0 && !r.muted
  {
  }

  /**
   * Muting before the first `init` is recorded but not applied: `init` sets
   * the master gain to 1.0 even though the engine is muted.
   */
  lemma MuteBeforeInitNotApplied(now: real, later: real)
    ensures var r := Init(SetMute(Fresh(), true, now), later);
      r.muted && r.master.Some? && r.master.value.Target() == 1.0
  {
  }

  /** While muted, `speakDemon` does nothing at all. */
  lemma SpeakWhileMuted(s: Snapshot, text: string, voices: seq<Voice>, now: real)
    requires s.muted
    ensures SpeakDemon(s, text, voices, now) == s
  {
  }

  /** Muting and then speaking leaves nothing being spoken. */
  lemma MuteThenSpeak(s: Snapshot, text: string, voices: seq<Voice>, t1: real, t2: real)
    ensures SpeakDemon(SetMute(s, true, t1), text, voices, t2).speech == Silent
  {
  }

  /**
   * Unmuted, `speakDemon` starts exactly one utterance of the sanitised text
   * at pitch 0.01, rate 0.4 and volume 1 with the picked voice, which becomes
   * the only current speech, and schedules, when there is a context, one growl
   * of 100 ms per UTF-16 unit of the raw text.
   */
  lemma SpeakDemonEffect(s: Snapshot, text: string, voices: seq<Voice>, now: real)
    requires !s.muted
    ensures var r := SpeakDemon(s, text, voices, now);
      && r.spoken == s.spoken + [Utterance(CleanTextForSpeech(text), 0.01, 0.4, 1.0, PickVoice(voices))]
      && r.speech == Speaking(r.spoken[|r.spoken| - 1])
      && r.muted == s.muted && r.master == s.master && r.lastHeartbeat == s.lastHeartbeat
      && (s.master.None? ==> r.effects == s.effects)
      && (s.master.Some? ==> r.effects == s.effects + [GrowlEffect(now, Utf16Length(text) * 100)])
  {
  }

  /** The growl that accompanies speech lasts a tenth of a second per UTF-16 unit of the raw text. */
  lemma SpeechGrowlLength(text: string, now: real)
    ensures Lifetime(GrowlEffect(now, Utf16Length(text) * GrowlMsPerUnit)) == (Utf16Length(text) as real) / 10.0
  {
    var n := Utf16Length(text);
    assert (n * 100) as real == (n as real) * 100.0;
  }

  /** Speaking "A" then "B" leaves exactly one current utterance, the one for "B". */
  lemma LastSpeechWins(s: Snapshot, a: string, b: string, voices: seq<Voice>, t1: real, t2: real)
    requires !s.muted
    ensures SpeakDemon(SpeakDemon(s, a, voices, t1), b, voices, t2).speech == Speaking(DemonUtterance(b, voices))
  {
  }

  /** Pause and resume move only between speaking and paused, and undo each other. */
  lemma PauseResume(s: Snapshot)
    ensures s.speech.Speaking? ==> ResumeSpeaking(PauseSpeaking(s)) == s
    ensures s.speech.Paused? ==> PauseSpeaking(ResumeSpeaking(s)) == s
    ensures s.speech == Silent ==> PauseSpeaking(s) == s && ResumeSpeaking(s) == s
    ensures StopSpeaking(s).speech == Silent
  {
  }
}
