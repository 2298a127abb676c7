/** The history log ("graveyard"): each completed ritual is recorded at its head. */
module Graveyard {
  import opened JsText
  import opened Types

  /** How much of the source code an entry stores, and how much its preview shows. */
  const StoredCodeLimit: nat := 500
  const PreviewLength: nat := 50
  const Ellipsis: string := "..."

  predicate IsDigit(c: char) {
    '0' <= c <= '9'
  }

  function DigitChar(d: nat): (c: char)
    requires d < 10
    ensures IsDigit(c) && c as int - '0' as int == d
  {
    ('0' as int + d) as char
  }

  function DigitValue(c: char): nat
    requires IsDigit(c)
  {
    assert c as int >= '0' as int;
    c as int - '0' as int
  }

  /** `Number.prototype.toString()` of a non-negative integer: its decimal digits, no leading zero. */
  function DecimalString(n: nat): (r: string)
    ensures |r| >= 1
    ensures forall i :: 0 <= i < |r| ==> IsDigit(r[i])
    ensures |r| > 1 ==> r[0] != '0'
  {
    if n < 10 then [DigitChar(n)] else DecimalString(n / 10) + [DigitChar(n % 10)]
  }

  /** The number a string of decimal digits denotes. */
  function DecimalValue(s: string): nat
    requires forall i :: 0 <= i < |s| ==> IsDigit(s[i])
  {
    if s == [] then 0 else DecimalValue(s[..|s| - 1]) * 10 + DigitValue(s[|s| - 1])
  }

  /** Reading back an entry's id gives the clock value it was made from. */
  lemma {:induction false} DecimalRoundTrip(n: nat)
    ensures DecimalValue(DecimalString(n)) == n
    decreases n
  {
    var s := DecimalString(n);
    if n >= 10 {
      var p := DecimalString(n / 10);
      assert s[..|s| - 1] == p;
      DecimalRoundTrip(n / 10);
    }
  }

  /** Different clock values give different ids. */
  lemma DecimalStringInjective(a: nat, b: nat)
    requires DecimalString(a) == DecimalString(b)
    ensures a == b
  {
    DecimalRoundTrip(a);
    DecimalRoundTrip(b);
  }

  /**
   * `addToGraveyard`: a new entry for `result` goes in front of the history.
   * The id and the timestamp come from two separate readings of the
   * millisecond clock.
   */
  function AddToGraveyard(
    history: seq<HistoryItem>, result: string, modeUsed: TranslationMode,
    sourceCode: string, sourceLang: string, targetLang: string,
    idClock: nat, stampClock: nat): seq<HistoryItem>
  {
    var item := HistoryItem(
      DecimalString(idClock), stampClock, sourceLang, targetLang,
      Prefix(sourceCode, PreviewLength) + Ellipsis, modeUsed,
      Prefix(sourceCode, StoredCodeLimit), result);
    [item] + history
  }

  /**
   * The history grows by exactly one entry at its head and keeps every older
   * entry in order; the entry records the result, mode and languages given.
   */
  lemma AddPrepends(
    history: seq<HistoryItem>, result: string, modeUsed: TranslationMode,
    sourceCode: string, sourceLang: string, targetLang: string, idClock: nat, stampClock: nat)
    ensures var h := AddToGraveyard(history, result, modeUsed, sourceCode, sourceLang, targetLang, idClock, stampClock);
      && |h| == |history| + 1 && h[1..] == history
      && h[0].resultCode == result && h[0].mode == modeUsed
      && h[0].sourceLang == sourceLang && h[0].targetLang == targetLang
      && h[0].timestamp == stampClock
  {
  }

  /**
   * The stored code is the first 500 characters of the source, all of it when
   * shorter; the preview is the first 50 characters followed by "...", so its
   * head is also a prefix of the stored code.
   */
  lemma StoredCodeAndPreview(
    history: seq<HistoryItem>, result: string, modeUsed: TranslationMode,
    sourceCode: string, sourceLang: string, targetLang: string, idClock: nat, stampClock: nat)
    ensures var e := AddToGraveyard(history, result, modeUsed, sourceCode, sourceLang, targetLang, idClock, stampClock)[0];
      && |e.sourceCode| == (if |sourceCode| <= StoredCodeLimit then |sourceCode| else StoredCodeLimit)
      && e.sourceCode == sourceCode[..|e.sourceCode|]
      && (|sourceCode| <= StoredCodeLimit ==> e.sourceCode == sourceCode)
      && e.preview == sourceCode[..(if |sourceCode| <= PreviewLength then |sourceCode| else PreviewLength)] + Ellipsis
      && |e.preview| <= PreviewLength + |Ellipsis|
      && e.preview[|e.preview| - |Ellipsis|..] == Ellipsis
      && e.preview[..|e.preview| - |Ellipsis|] == e.sourceCode[..|e.preview| - |Ellipsis|]
  {
  }

  /** The entry's id decodes to the first clock reading, and to the timestamp when both readings agree. */
  lemma IdMatchesClock(
    history: seq<HistoryItem>, result: string, modeUsed: TranslationMode,
    sourceCode: string, sourceLang: string, targetLang: string, idClock: nat, stampClock: nat)
    ensures var e := AddToGraveyard(history, result, modeUsed, sourceCode, sourceLang, targetLang, idClock, stampClock)[0];
      && (forall i :: 0 <= i < |e.id| ==> IsDigit(e.id[i]))
      && DecimalValue(e.id) == idClock
      && (idClock == stampClock ==> DecimalValue(e.id) == e.timestamp)
  {
    DecimalRoundTrip(idClock);
  }
}
