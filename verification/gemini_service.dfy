/**
 * The request side and the reply side of the code-resurrection service: which
 * prompt template a request selects, how missing languages are filled in, how
 * the source code is fenced inside the prompt, and how the model's reply is
 * cleaned of a stray markdown fence and trimmed. The text generator itself is
 * a parameter: a function from prompt to reply.
 */
module GeminiService {
  import opened Wrappers
  import opened JsText
  import opened Types

  const RitualFailure: string := "The ritual failed. The spirits refused to answer."

  /** The indentation every line of the prompt templates carries. */
  const Indent: string := "        "
  const Fence: string := "```"

  datatype Template = AutopsyTemplate | CurseRemovalTemplate | SoulBindingTemplate | ResurrectionTemplate

  /** An absent mode means resurrection. */
  function EffectiveMode(req: TranslationRequest): TranslationMode {
    req.mode.GetOr(Resurrect)
  }

  /** Three modes have their own template; every other mode, the full ritual included, uses the resurrection one. */
  function TemplateFor(mode: TranslationMode): Template {
    match mode
    case Autopsy => AutopsyTemplate
    case CurseRemoval => CurseRemovalTemplate
    case SoulBinding => SoulBindingTemplate
    case _ => ResurrectionTemplate
  }

  /** JavaScript's `s || fallback` on a string: the fallback replaces only the empty string. */
  function OrElse(s: string, fallback: string): (r: string)
    ensures r != [] || fallback == []
    ensures s != [] ==> r == s
    ensures s == [] ==> r == fallback
  {
    if s == [] then fallback else s
  }

  /** A prompt: its template, the language lines it shows, the code it embeds and its instructions. */
  datatype Prompt = Prompt(template: Template, languageLines: seq<string>, code: string, instructions: seq<string>)

  const SourceLabel: string := "Source Language: "
  const TargetLabel: string := "Target Language: "
  const LanguageLabel: string := "Language: "

  /** The language lines each template shows, with its fallback for a missing source language. */
  function LanguageLines(t: Template, sourceLanguage: string, targetLanguage: string): seq<string> {
    match t
    case AutopsyTemplate => [SourceLabel + OrElse(sourceLanguage, "Unknown Corpse")]
    case CurseRemovalTemplate =>
      [SourceLabel + OrElse(sourceLanguage, "Unknown"),
       TargetLabel + targetLanguage + " (Keep same if not specified, but modernized)"]
    case SoulBindingTemplate => [LanguageLabel + targetLanguage]
    case ResurrectionTemplate =>
      [SourceLabel + OrElse(sourceLanguage, "Auto-detect"), TargetLabel + targetLanguage]
  }

  /** The template's instructions; only the resurrection instructions name the target language. */
  function Instructions(t: Template, targetLanguage: string): seq<string> {
    match t
    case AutopsyTemplate => ["Report the cause and time of death; do not translate the code."]
    case CurseRemovalTemplate => ["Remove vulnerabilities, refactor and optimise; return only the code."]
    case SoulBindingTemplate => ["Document the code and add a unit test suite; return only code and tests."]
    case ResurrectionTemplate =>
      ["Translate the code logic faithfully to " + targetLanguage + ".",
       "Do not include markdown code block formatting (like " + Fence + targetLanguage + " ... " + Fence + ")."]
  }

  function BuildPrompt(req: TranslationRequest): (p: Prompt)
    ensures p.code == req.sourceCode
    ensures p.languageLines == LanguageLines(p.template, req.sourceLanguage, req.targetLanguage)
  {
    var t := TemplateFor(EffectiveMode(req));
    Prompt(t, LanguageLines(t, req.sourceLanguage, req.targetLanguage), req.sourceCode,
           Instructions(t, req.targetLanguage))
  }

  /** The role the template casts the model in, and the caption above the code. */
  function Role(t: Template): string {
    match t
    case AutopsyTemplate => "You are a demonic forensic pathologist."
    case CurseRemovalTemplate => "You are a Code Exorcist."
    case SoulBindingTemplate => "You are a Soul Binder."
    case ResurrectionTemplate => "You are an expert programming necromancer."
  }

  function Caption(t: Template): string {
    match t
    case AutopsyTemplate => "The Corpse (Code):"
    case CurseRemovalTemplate => "The Cursed Code:"
    case SoulBindingTemplate => "The Unbound Code:"
    case ResurrectionTemplate => "The Code to Resurrect:"
  }

  /** Each line indented and ended by a newline. */
  function Lines(ls: seq<string>): string {
    if ls == [] then [] else Indent + ls[0] + "\n" + Lines(ls[1..])
  }

  /** What precedes the code: the fence line and the indentation of the code's first line. */
  const Opening: string := Fence + "\n" + Indent
  /** What follows the code: a newline and the indented closing fence. */
  const Closing: string := "\n" + Indent + Fence

  function Head(p: Prompt): string {
    "\n" + Lines([Role(p.template)]) + Lines(p.languageLines) + Lines([Caption(p.template)]) + Indent
  }

  function Tail(p: Prompt): string {
    "\n" + Lines(p.instructions)
  }

  function Render(p: Prompt): string {
    Head(p) + Opening + p.code + Closing + Tail(p)
  }

  /** The offset of the code in the rendered prompt. */
  function CodeOffset(p: Prompt): nat {
    |Head(p)| + |Opening|
  }

  /** Slicing a five-part concatenation back into its middle three parts. */
  lemma MiddleParts(h: string, o: string, c: string, cl: string, tl: string)
    ensures var text := h + o + c + cl + tl;
      var k := |h| + |o|;
      && k + |c| + |cl| <= |text|
      && text[k - |o|..k] == o && text[k..k + |c|] == c && text[k + |c|..k + |c| + |cl|] == cl
  {
    var text := h + o + c + cl + tl;
    var k := |h| + |o|;
    assert forall i :: 0 <= i < |o| ==> text[|h| + i] == o[i];
    assert forall i :: 0 <= i < |c| ==> text[k + i] == c[i];
    assert forall i :: 0 <= i < |cl| ==> text[k + |c| + i] == cl[i];
  }

  /** Every prompt embeds its code verbatim, right after an opening fence line and right before a closing fence line. */
  lemma CodeEmbedded(p: Prompt)
    ensures var text := Render(p);
      var k := CodeOffset(p);
      var n := |p.code|;
      && |Opening| <= k && k + n + |Closing| <= |text|
      && text[k - |Opening|..k] == Opening
      && text[k..k + n] == p.code
      && text[k + n..k + n + |Closing|] == Closing
  {
    var h, t := Head(p), Tail(p);
    MiddleParts(h, Opening, p.code, Closing, t);
    assert Render(p) == h + Opening + p.code + Closing + t;
    assert CodeOffset(p) == |h| + |Opening|;
  }

  /** An absent mode selects resurrection; the full ritual has no template of its own and also gets the resurrection template. */
  lemma TemplateSelection(req: TranslationRequest)
    ensures req.mode.None? ==> BuildPrompt(req).template == ResurrectionTemplate
    ensures BuildPrompt(req).template == ResurrectionTemplate <==>
      (req.mode.None? || req.mode == Some(Resurrect) || req.mode == Some(FullRitual))
  {
  }

  /**
   * An empty source language falls back to "Unknown Corpse" for an autopsy,
   * "Unknown" for curse removal and "Auto-detect" for resurrection; soul
   * binding shows only the target language.
   */
  lemma LanguageFallbacks(targetLanguage: string)
    ensures LanguageLines(AutopsyTemplate, [], targetLanguage)[0] == SourceLabel + "Unknown Corpse"
    ensures LanguageLines(CurseRemovalTemplate, [], targetLanguage)[0] == SourceLabel + "Unknown"
    ensures LanguageLines(ResurrectionTemplate, [], targetLanguage)[0] == SourceLabel + "Auto-detect"
    ensures LanguageLines(SoulBindingTemplate, [], targetLanguage) == [LanguageLabel + targetLanguage]
  {
  }

  /** A non-empty source language is shown as given by every template that shows one. */
  lemma LanguageShown(t: Template, sourceLanguage: string, targetLanguage: string)
    requires sourceLanguage != [] && t != SoulBindingTemplate
    ensures LanguageLines(t, sourceLanguage, targetLanguage)[0] == SourceLabel + sourceLanguage
  {
  }

  /** The opening fence line a reply may start with: three backticks, ASCII letters of either case, a newline. */
  predicate IsOpeningFence(f: string) {
    && |f| >= 4
    && f[..3] == Fence
    && f[|f| - 1] == '\n'
    && (forall i :: 3 <= i < |f| - 1 ==> IsAsciiLetter(f[i]))
  }

  /** Length of the longest prefix of ASCII letters. */
  function LetterRun(s: string): (n: nat)
    ensures n <= |s|
    ensures forall i :: 0 <= i < n ==> IsAsciiLetter(s[i])
    ensures n < |s| ==> !IsAsciiLetter(s[n])
  {
    if s != [] && IsAsciiLetter(s[0]) then 1 + LetterRun(s[1..]) else 0
  }

  /** The letter run is determined by where the letters stop. */
  lemma LetterRunIs(s: string, n: nat)
    requires n <= |s| && (forall i :: 0 <= i < n ==> IsAsciiLetter(s[i]))
    requires n < |s| ==> !IsAsciiLetter(s[n])
    ensures LetterRun(s) == n
  {
  }

  /** Removes one opening fence line, only at the very start of the reply. */
  function StripOpeningFence(t: string): string {
    if |t| >= 3 && t[..3] == Fence then
      var n := LetterRun(t[3..]);
      if 3 + n < |t| && t[3 + n] == '\n' then t[3 + n + 1..] else t
    else t
  }

  /** Removes one closing fence, only at the very end of the reply. */
  function StripClosingFence(t: string): string {
    if |t| >= 4 && t[|t| - 4..] == "\n" + Fence then t[..|t| - 4] else t
  }

  /** The reply's clean-up: the two fence removals, independently, then a trim. */
  function StripFences(text: string): string {
    Trim(StripClosingFence(StripOpeningFence(text)))
  }

  /**
   * The opening strip removes exactly a prefix that is an opening fence line,
   * and it removes one whenever the reply starts with one.
   */
  lemma OpeningFenceStripped(t: string)
    ensures var r := StripOpeningFence(t);
      && |r| <= |t| && t[|t| - |r|..] == r
      && (r != t ==> IsOpeningFence(t[..|t| - |r|]))
      && ((exists k :: 0 <= k <= |t| && IsOpeningFence(t[..k])) ==> r != t)
  {
    var r := StripOpeningFence(t);
    if k :| 0 <= k <= |t| && IsOpeningFence(t[..k]) {
      var f := t[..k];
      assert t[..3] == f[..3];
      var n := LetterRun(t[3..]);
      assert forall i :: 0 <= i < k - 4 ==> t[3..][i] == f[3 + i];
      assert t[3..][k - 4] == f[k - 1] == '\n';
      LetterRunIs(t[3..], k - 4);
      assert t[3 + n] == '\n';
      assert |r| < |t|;
    }
    if r != t {
      var n := LetterRun(t[3..]);
      var f := t[..|t| - |r|];
      assert |f| == 4 + n;
      assert forall i :: 3 <= i < |f| - 1 ==> f[i] == t[3..][i - 3];
    }
  }

  /** The closing strip removes exactly a final newline and fence, and only when the reply ends with them. */
  lemma ClosingFenceStripped(t: string)
    ensures var r := StripClosingFence(t);
      && (r == t || t == r + "\n" + Fence)
      && (r != t <==> (|t| >= 4 && t[|t| - 4..] == "\n" + Fence))
  {
    var r := StripClosingFence(t);
    if r != t {
      assert t == t[..|t| - 4] + t[|t| - 4..];
    }
  }

  /** A reply with no fences is only trimmed. */
  lemma NoFenceOnlyTrimmed(text: string)
    requires forall k :: 0 <= k <= |text| ==> !IsOpeningFence(text[..k])
    requires !(|text| >= 4 && text[|text| - 4..] == "\n" + Fence)
    ensures StripFences(text) == Trim(text)
  {
    OpeningFenceStripped(text);
    ClosingFenceStripped(text);
  }

  /** A fence whose tag is not made of letters, such as "c++", is not stripped. */
  lemma NonLetterTagKept()
    ensures StripOpeningFence("```c++\nint x;") == "```c++\nint x;"
  {
    var t := "```c++\nint x;";
    assert t[..3] == Fence;
    assert t[3..][0] == 'c' && t[3..][1] == '+';
    assert LetterRun(t[3..][1..]) == 0;
  }

  /** The opening strip turns an empty fenced block into its bare closing fence. */
  lemma EmptyBlockOpening()
    ensures StripOpeningFence("```python\n```") == Fence
  {
    var t := "```python\n```";
    var s := t[3..];
    assert t[..3] == Fence;
    assert s == "python\n```";
    LetterRunIs(s, 6);
    assert t[3 + 6] == '\n';
    assert t[10..] == Fence;
  }

  /** The two strips are independent: a reply made of an empty fenced block leaves one fence behind. */
  lemma EmptyBlockLeavesFence()
    ensures StripFences("```python\n```") == Fence
  {
    EmptyBlockOpening();
    assert StripClosingFence(Fence) == Fence;
    assert Fence[0] == '`' && Fence[|Fence| - 1] == '`';
    TrimFixpoint(Fence);
  }

  /** The reply of the text generator: some text, no text at all, or a failure of the call. */
  datatype GenReply = Replied(text: Option<string>) | Failed

  /** `resurrectCode`: build the prompt, ask the generator, clean the reply; any failure becomes one fixed error. */
  function ResurrectCode(req: TranslationRequest, generate: string -> GenReply): (r: Result<string, string>)
    ensures r.Failure? <==> generate(Render(BuildPrompt(req))).Failed?
    ensures r.Failure? ==> r.error == RitualFailure
    ensures r.Success? ==> r.value == Trim(r.value)
    ensures r.Success? ==> r.value == StripFences(generate(Render(BuildPrompt(req))).text.GetOr(""))
  {
    match generate(Render(BuildPrompt(req)))
    case Failed => Failure(RitualFailure)
    case Replied(text) =>
      var s := StripFences(text.GetOr(""));
      TrimFixpoint(s);
      Success(s)
  }

  /** A reply without text yields the empty string. */
  lemma MissingTextIsEmpty(req: TranslationRequest, generate: string -> GenReply)
    requires generate(Render(BuildPrompt(req))) == Replied(None)
    ensures ResurrectCode(req, generate) == Success([])
  {
  }
}
