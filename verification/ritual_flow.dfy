/**
 * The main action: running the selected mode on the workspace's source code,
 * either as one call to the resurrection service or, for the full ritual, as a
 * chain of four calls, and recording the outcome. The text generator and the
 * millisecond clock are parameters.
 */
module RitualFlow {
  import opened Wrappers
  import opened JsText
  import opened Types
  import opened GeminiService
  import opened Graveyard

  const RitualFailedCode: string := "// THE RITUAL FAILED. THE DEAD REFUSE TO SPEAK."

  /** The status line shown while a single mode runs. */
  function StatusText(mode: TranslationMode): string {
    match mode
    case Autopsy => "AUTOPSYING CORPSE..."
    case CurseRemoval => "PURGING CURSES..."
    case SoulBinding => "BINDING SOUL..."
    case _ => "RESURRECTING..."
  }

  /** The status line shown while each step of the full ritual runs. */
  function StepStatus(step: TranslationMode): string {
    match step
    case Autopsy => "AUTOPSYING CORPSE..."
    case Resurrect => "RESURRECTING SPIRIT..."
    case CurseRemoval => "PURGING CURSES..."
    case SoulBinding => "BINDING SOUL..."
    case FullRitual => "RESURRECTING..."
  }

  /** The state a successful single mode ends in. */
  function DoneState(mode: TranslationMode): LoadingState {
    if mode == Autopsy then AutopsyCompleted
    else if mode == CurseRemoval then ExorcismCompleted
    else if mode == SoulBinding then BindingCompleted
    else Resurrected
  }

  predicate IsCompleted(s: LoadingState) {
    s in {Resurrected, AutopsyCompleted, ExorcismCompleted, BindingCompleted, RitualCompleted}
  }

  /**
   * The single modes share their status line with the matching ritual step,
   * except resurrection; each single mode ends in its own completed state.
   */
  lemma StatusAndDoneStates(m: TranslationMode, n: TranslationMode)
    requires m != FullRitual && n != FullRitual
    ensures m != Resurrect ==> StatusText(m) == StepStatus(m)
    ensures StatusText(Resurrect) != StepStatus(Resurrect)
    ensures IsCompleted(DoneState(m)) && DoneState(m) != RitualCompleted
    ensures DoneState(m) == DoneState(n) <==> m == n
  {
  }

  /** The outputs of the four ritual steps. */
  datatype RitualData = RitualData(autopsy: string, resurrected: string, exorcised: string, bound: string)

  /** What the main screen holds. */
  datatype Workspace = Workspace(
    sourceCode: string,
    sourceLang: string,
    targetLang: string,
    mode: TranslationMode,
    resultCode: string,
    loadingState: LoadingState,
    autopsyReport: Option<string>,
    fullRitualData: Option<RitualData>,
    history: seq<HistoryItem>,
    sanity: int)

  /** A ritual step: mode, input code, input language and output language to the service's answer. */
  type StepFn = (TranslationMode, string, string, string) -> Result<string, string>

  /** `performStep`: one call to the resurrection service. */
  function PerformStep(
    stepMode: TranslationMode, inputCode: string, langIn: string, langOut: string,
    generate: string -> GenReply): (r: Result<string, string>)
    ensures r.Failure? ==> r.error == RitualFailure
    ensures r.Success? ==> Trim(r.value) == r.value
  {
    ResurrectCode(TranslationRequest(inputCode, langIn, langOut, Some(stepMode)), generate)
  }

  /** The service as a step function, for a given text generator. */
  function ServiceStep(generate: string -> GenReply): StepFn {
    (m, input, langIn, langOut) => PerformStep(m, input, langIn, langOut, generate)
  }

  /** The screen after a failed call. */
  function Fail(w: Workspace): Workspace {
    w.(resultCode := RitualFailedCode, loadingState := Cursed)
  }

  /** The screen after a successful call that produced `result`. */
  function Complete(w: Workspace, result: string, done: LoadingState, modeUsed: TranslationMode, idClock: nat, stampClock: nat): Workspace {
    w.(resultCode := result, loadingState := done,
       history := AddToGraveyard(w.history, result, modeUsed, w.sourceCode, w.sourceLang, w.targetLang, idClock, stampClock))
  }

  /**
   * The full ritual: an autopsy of the source, whose report is shown at once,
   * then resurrection into the target language, curse removal and soul
   * binding, each of the last two on the previous step's output in the target
   * language. The first failure ends the ritual.
   */
  function RunFullRitual(w: Workspace, step: StepFn, idClock: nat, stampClock: nat): Workspace {
    var src, sl, tl := w.sourceCode, w.sourceLang, w.targetLang;
    match step(Autopsy, src, sl, tl)
    case Failure(_) => Fail(w)
    case Success(autopsy) =>
      var reported := w.(autopsyReport := Some(autopsy));
      match step(Resurrect, src, sl, tl)
      case Failure(_) => Fail(reported)
      case Success(resurrected) =>
        match step(CurseRemoval, resurrected, tl, tl)
        case Failure(_) => Fail(reported)
        case Success(exorcised) =>
          match step(SoulBinding, exorcised, tl, tl)
          case Failure(_) => Fail(reported)
          case Success(bound) =>
            Complete(reported.(fullRitualData := Some(RitualData(autopsy, resurrected, exorcised, bound))),
                     bound, RitualCompleted, FullRitual, idClock, stampClock)
  }

  /** `handleResurrect`: nothing for blank source; otherwise reset the screen and run the selected mode. */
  function HandleResurrect(w: Workspace, step: StepFn, idClock: nat, stampClock: nat): Workspace {
    if Trim(w.sourceCode) == [] then w
    else
      var reset := w.(sanity := 100, loadingState := Summoning, resultCode := [],
                      autopsyReport := None, fullRitualData := None);
      if w.mode == FullRitual then RunFullRitual(reset, step, idClock, stampClock)
      else match step(w.mode, w.sourceCode, w.sourceLang, w.targetLang)
        case Failure(_) => Fail(reset)
        case Success(result) => Complete(reset, result, DoneState(w.mode), w.mode, idClock, stampClock)
  }

  /**
   * The code the full ritual produces, defined without the autopsy: binding of
   * the exorcism of the resurrection, the last two in the target language.
   */
  function TransformChain(src: string, sl: string, tl: string, step: StepFn): Result<string, string> {
    match step(Resurrect, src, sl, tl)
    case Failure(e) => Failure(e)
    case Success(r) =>
      match step(CurseRemoval, r, tl, tl)
      case Failure(e) => Failure(e)
      case Success(x) => step(SoulBinding, x, tl, tl)
  }

  /** Source that is empty or only whitespace changes nothing. */
  lemma BlankSourceIgnored(w: Workspace, step: StepFn, idClock: nat, stampClock: nat)
    requires forall k :: 0 <= k < |w.sourceCode| ==> IsWs(w.sourceCode[k])
    ensures HandleResurrect(w, step, idClock, stampClock) == w
  {
  }

  /** A completed call shows its result and adds exactly one history entry for it. */
  lemma CompleteAddsEntry(w: Workspace, result: string, done: LoadingState, modeUsed: TranslationMode, idClock: nat, stampClock: nat)
    ensures var r := Complete(w, result, done, modeUsed, idClock, stampClock);
      && r == w.(resultCode := result, loadingState := done, history := r.history)
      && |r.history| == |w.history| + 1 && r.history[1..] == w.history
      && r.history[0].resultCode == result && r.history[0].mode == modeUsed
  {
    AddPrepends(w.history, result, modeUsed, w.sourceCode, w.sourceLang, w.targetLang, idClock, stampClock);
  }

  /** How a run that started from `w` may end; `modeUsed` is the mode the history records. */
  predicate WellEnded(w: Workspace, r: Workspace, modeUsed: TranslationMode) {
    && r.sanity == w.sanity
    && r.sourceCode == w.sourceCode && r.sourceLang == w.sourceLang && r.targetLang == w.targetLang && r.mode == w.mode
    && (r.loadingState == Cursed || IsCompleted(r.loadingState))
    && (r.loadingState == Cursed ==>
          r.resultCode == RitualFailedCode && r.history == w.history && r.fullRitualData == w.fullRitualData)
    && (IsCompleted(r.loadingState) ==>
          |r.history| == |w.history| + 1 && r.history[1..] == w.history &&
          r.history[0].resultCode == r.resultCode && r.history[0].mode == modeUsed)
  }

  lemma {:induction false} FullRitualEndsWell(w: Workspace, step: StepFn, idClock: nat, stampClock: nat)
    requires w.fullRitualData.None?
    ensures WellEnded(w, RunFullRitual(w, step, idClock, stampClock), FullRitual)
  {
    var src, sl, tl := w.sourceCode, w.sourceLang, w.targetLang;
    match step(Autopsy, src, sl, tl)
    case Failure(_) =>
    case Success(autopsy) =>
      var reported := w.(autopsyReport := Some(autopsy));
      match step(Resurrect, src, sl, tl)
      case Failure(_) =>
      case Success(resurrected) =>
        match step(CurseRemoval, resurrected, tl, tl)
        case Failure(_) =>
        case Success(exorcised) =>
          match step(SoulBinding, exorcised, tl, tl)
          case Failure(_) =>
          case Success(bound) =>
            var data := reported.(fullRitualData := Some(RitualData(autopsy, resurrected, exorcised, bound)));
            assert RunFullRitual(w, step, idClock, stampClock) == Complete(data, bound, RitualCompleted, FullRitual, idClock, stampClock);
            CompleteAddsEntry(data, bound, RitualCompleted, FullRitual, idClock, stampClock);
  }

  /**
   * Every run on non-blank source restores sanity and ends either completed or
   * cursed. A cursed run shows the failure text, leaves the history and the
   * inputs alone and keeps no ritual data; a completed run adds exactly one
   * history entry for the shown result.
   */
  lemma {:induction false} RunOutcome(w: Workspace, step: StepFn, idClock: nat, stampClock: nat)
    requires Trim(w.sourceCode) != []
    ensures var r := HandleResurrect(w, step, idClock, stampClock);
      && r.sanity == 100
      && r.sourceCode == w.sourceCode && r.sourceLang == w.sourceLang && r.targetLang == w.targetLang && r.mode == w.mode
      && (r.loadingState == Cursed || IsCompleted(r.loadingState))
      && (r.loadingState == Cursed ==>
            r.resultCode == RitualFailedCode && r.history == w.history && r.fullRitualData.None?)
      && (IsCompleted(r.loadingState) ==>
            |r.history| == |w.history| + 1 && r.history[1..] == w.history &&
            r.history[0].resultCode == r.resultCode && r.history[0].mode == w.mode)
  {
    var reset := w.(sanity := 100, loadingState := Summoning, resultCode := [],
                    autopsyReport := None, fullRitualData := None);
    var r := HandleResurrect(w, step, idClock, stampClock);
    if w.mode == FullRitual {
      assert r == RunFullRitual(reset, step, idClock, stampClock);
      FullRitualEndsWell(reset, step, idClock, stampClock);
    } else {
      match step(w.mode, w.sourceCode, w.sourceLang, w.targetLang)
      case Failure(_) =>
      case Success(result) => CompleteAddsEntry(reset, result, DoneState(w.mode), w.mode, idClock, stampClock);
      assert WellEnded(reset, r, w.mode);
    }
  }

  /**
   * A single mode completes exactly when its one call succeeds, shows that
   * call's output in the mode's completed state, and never sets an autopsy
   * report.
   */
  lemma SingleModeOutcome(w: Workspace, step: StepFn, idClock: nat, stampClock: nat)
    requires Trim(w.sourceCode) != [] && w.mode != FullRitual
    ensures var r := HandleResurrect(w, step, idClock, stampClock);
      var call := step(w.mode, w.sourceCode, w.sourceLang, w.targetLang);
      && (IsCompleted(r.loadingState) <==> call.Success?)
      && (call.Success? ==> r.resultCode == call.value && r.loadingState == DoneState(w.mode))
      && r.autopsyReport.None?
  {
  }

  /**
   * The full ritual completes exactly when the autopsy and the whole
   * transformation chain succeed; it then shows the chain's output, which is
   * also the recorded bound code, and the autopsy report. The autopsy's output
   * never feeds the later steps.
   */
  lemma {:induction false} FullRitualOutcome(w: Workspace, step: StepFn, idClock: nat, stampClock: nat)
    requires Trim(w.sourceCode) != [] && w.mode == FullRitual
    ensures var r := HandleResurrect(w, step, idClock, stampClock);
      var autopsy := step(Autopsy, w.sourceCode, w.sourceLang, w.targetLang);
      var chain := TransformChain(w.sourceCode, w.sourceLang, w.targetLang, step);
      && (r.loadingState == RitualCompleted <==> autopsy.Success? && chain.Success?)
      && (r.loadingState == RitualCompleted ==>
            r.resultCode == chain.value && r.fullRitualData.Some? && r.fullRitualData.value.bound == chain.value &&
            r.autopsyReport == Some(autopsy.value))
  {
    var reset := w.(sanity := 100, loadingState := Summoning, resultCode := [],
                    autopsyReport := None, fullRitualData := None);
    assert HandleResurrect(w, step, idClock, stampClock) == RunFullRitual(reset, step, idClock, stampClock);
  }

  /**
   * A ritual whose autopsy succeeds but whose chain fails is cursed yet still
   * shows the autopsy report; one whose autopsy fails shows none.
   */
  lemma {:induction false} AutopsyReportOnFailure(w: Workspace, step: StepFn, idClock: nat, stampClock: nat)
    requires Trim(w.sourceCode) != [] && w.mode == FullRitual
    ensures var r := HandleResurrect(w, step, idClock, stampClock);
      var autopsy := step(Autopsy, w.sourceCode, w.sourceLang, w.targetLang);
      var chain := TransformChain(w.sourceCode, w.sourceLang, w.targetLang, step);
      && (autopsy.Success? && chain.Failure? ==> r.loadingState == Cursed && r.autopsyReport == Some(autopsy.value))
      && (autopsy.Failure? ==> r.loadingState == Cursed && r.autopsyReport.None?)
  {
    var reset := w.(sanity := 100, loadingState := Summoning, resultCode := [],
                    autopsyReport := None, fullRitualData := None);
    assert HandleResurrect(w, step, idClock, stampClock) == RunFullRitual(reset, step, idClock, stampClock);
  }
}
