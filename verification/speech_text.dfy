/**
 * The text sanitiser the audio engine applies before speaking: a chain of
 * global regular-expression replacements that removes emoji blocks and
 * markdown punctuation and turns every web address into the word "link".
 */
module SpeechText {
  import opened Wrappers
  import opened JsText

  /** The character classes the chain deletes, one per `replace` call, in order. */
  datatype Strip = Emoticons | MiscSymbols | Transport | Supplement | Backtick | Markdown

  predicate InClass(c: char, cls: Strip) {
    var n := c as int;
    match cls
    case Emoticons => 0x1_F600 <= n <= 0x1_F6FF
    case MiscSymbols => 0x1_F300 <= n <= 0x1_F5FF
    case Transport => 0x1_F680 <= n <= 0x1_F6FF
    case Supplement => 0x1_F900 <= n <= 0x1_F9FF
    case Backtick => c == '`'
    case Markdown => c == '*' || c == '{' || c == '}' || c == '[' || c == ']' || c == '#'
  }

  /** Everything the sanitiser deletes, stated as ranges rather than per `replace` call. */
  predicate Removed(c: char) {
    var n := c as int;
    (0x1_F300 <= n <= 0x1_F6FF) || (0x1_F900 <= n <= 0x1_F9FF) ||
    c == '`' || c == '*' || c == '{' || c == '}' || c == '[' || c == ']' || c == '#'
  }

  lemma RemovedIsUnionOfClasses(c: char)
    ensures Removed(c) <==>
      (InClass(c, Emoticons) || InClass(c, MiscSymbols) || InClass(c, Transport) ||
       InClass(c, Supplement) || InClass(c, Backtick) || InClass(c, Markdown))
  {
  }

  /** One `replace(/[class]/g, '')`: deletes every character of the class and keeps the rest in order. */
  function Drop(s: string, cls: Strip): (r: string)
    ensures |r| <= |s|
    ensures forall i :: 0 <= i < |r| ==> !InClass(r[i], cls)
    ensures forall i :: 0 <= i < |r| ==> r[i] in s
    ensures (forall i :: 0 <= i < |s| ==> !InClass(s[i], cls)) ==> r == s
    ensures |r| == |s| ==> r == s
  {
    if s == [] then []
    else if InClass(s[0], cls) then Drop(s[1..], cls)
    else [s[0]] + Drop(s[1..], cls)
  }

  /** Deleting one character: it goes exactly when it is in the class. */
  lemma DropSingle(c: char, cls: Strip)
    ensures Drop([c], cls) == if InClass(c, cls) then [] else [c]
  {
    assert [c][1..] == [];
  }

  /** Deleting from a concatenation deletes from each part, so what survives keeps its order. */
  lemma {:induction false} DropAppend(a: string, b: string, cls: Strip)
    ensures Drop(a + b, cls) == Drop(a, cls) + Drop(b, cls)
    decreases |a|
  {
    if a == [] {
      assert a + b == b;
    } else {
      assert (a + b)[0] == a[0];
      assert (a + b)[1..] == a[1..] + b;
      DropAppend(a[1..], b, cls);
    }
  }

  /** `s` begins with `scheme` followed by at least one non-white-space character. */
  predicate HasScheme(s: string, scheme: string) {
    |s| > |scheme| && s[..|scheme|] == scheme && !IsWs(s[|scheme|])
  }

  /** A match of `https?:\/\/\S+` starts at the beginning of `s`. */
  predicate StartsUrl(s: string) {
    HasScheme(s, "https://") || HasScheme(s, "http://")
  }

  /** No match of the address pattern starts anywhere in `s`. */
  predicate NoUrl(s: string) {
    forall i :: 0 <= i < |s| ==> !StartsUrl(s[i..])
  }

  /** Length of the longest prefix of `t` that has no white space (the greedy `\S*`). */
  function NonWsRun(t: string): (r: nat)
    ensures r <= |t|
    ensures forall k :: 0 <= k < r ==> !IsWs(t[k])
    ensures r == |t| || IsWs(t[r])
  {
    if t == [] || IsWs(t[0]) then 0 else 1 + NonWsRun(t[1..])
  }

  /** The length of the address match at the start of `s`, if there is one. */
  function UrlMatchLen(s: string): (r: Option<nat>)
    ensures r.Some? <==> StartsUrl(s)
    ensures r.Some? ==>
      var scheme := if HasScheme(s, "https://") then 8 else 7;
      && scheme < r.value <= |s|
      && (forall k :: scheme <= k < r.value ==> !IsWs(s[k]))
      && (r.value == |s| || IsWs(s[r.value]))
  {
    if HasScheme(s, "https://") then Some(8 + NonWsRun(s[8..]))
    else if HasScheme(s, "http://") then Some(7 + NonWsRun(s[7..]))
    else None
  }

  /** `replace(/https?:\/\/\S+/g, 'link')`, scanning left to right without overlap. */
  function ReplaceUrls(s: string): (r: string)
    ensures |r| <= |s|
    ensures forall i :: 0 <= i < |r| ==> r[i] in s || r[i] in "link"
    decreases |s|
  {
    if s == [] then []
    else match UrlMatchLen(s)
      case Some(n) => "link" + ReplaceUrls(s[n..])
      case None => [s[0]] + ReplaceUrls(s[1..])
  }

  /** The six deleting replacements of the chain, applied in their order. */
  function StripMarkup(text: string): (r: string)
    ensures |r| <= |text|
    ensures forall i :: 0 <= i < |r| ==> !Removed(r[i])
    ensures (forall i :: 0 <= i < |text| ==> !Removed(text[i])) ==> r == text
  {
    var r := Drop(Drop(Drop(Drop(Drop(Drop(text, Emoticons), MiscSymbols), Transport), Supplement), Backtick), Markdown);
    StripMarkupSound(text);
    r
  }

  /** The six deletions on one character: it goes exactly when the sanitiser removes it. */
  lemma StripMarkupSingle(c: char)
    ensures StripMarkup([c]) == if Removed(c) then [] else [c]
  {
    RemovedIsUnionOfClasses(c);
    DropSingle(c, Emoticons);
    var s1 := Drop([c], Emoticons);
    assert Drop([], MiscSymbols) == [];
    DropSingle(c, MiscSymbols);
    var s2 := Drop(s1, MiscSymbols);
    DropSingle(c, Transport);
    var s3 := Drop(s2, Transport);
    DropSingle(c, Supplement);
    var s4 := Drop(s3, Supplement);
    DropSingle(c, Backtick);
    var s5 := Drop(s4, Backtick);
    DropSingle(c, Markdown);
  }

  /** The six deletions work on each part of a concatenation alone: every other character is kept, in order. */
  lemma StripMarkupAppend(a: string, b: string)
    ensures StripMarkup(a + b) == StripMarkup(a) + StripMarkup(b)
  {
    var a1, b1 := Drop(a, Emoticons), Drop(b, Emoticons);
    DropAppend(a, b, Emoticons);
    var a2, b2 := Drop(a1, MiscSymbols), Drop(b1, MiscSymbols);
    DropAppend(a1, b1, MiscSymbols);
    var a3, b3 := Drop(a2, Transport), Drop(b2, Transport);
    DropAppend(a2, b2, Transport);
    var a4, b4 := Drop(a3, Supplement), Drop(b3, Supplement);
    DropAppend(a3, b3, Supplement);
    var a5, b5 := Drop(a4, Backtick), Drop(b4, Backtick);
    DropAppend(a4, b4, Backtick);
    DropAppend(a5, b5, Markdown);
  }

  /** No character of `s` is in the class. */
  predicate Free(s: string, cls: Strip) {
    forall i :: 0 <= i < |s| ==> !InClass(s[i], cls)
  }

  /** Deleting one class keeps every other class absent. */
  lemma DropKeepsFree(s: string, cls: Strip, other: Strip)
    requires Free(s, other)
    ensures Free(Drop(s, cls), other)
  {
    var r := Drop(s, cls);
    forall i | 0 <= i < |r| ensures !InClass(r[i], other) {
      var j :| 0 <= j < |s| && s[j] == r[i];
    }
  }

  lemma StripMarkupSound(text: string)
    ensures var r := Drop(Drop(Drop(Drop(Drop(Drop(text, Emoticons), MiscSymbols), Transport), Supplement), Backtick), Markdown);
      && (forall i :: 0 <= i < |r| ==> !Removed(r[i]))
      && ((forall i :: 0 <= i < |text| ==> !Removed(text[i])) ==> r == text)
  {
    var s1 := Drop(text, Emoticons);
    var s2 := Drop(s1, MiscSymbols);
    var s3 := Drop(s2, Transport);
    var s4 := Drop(s3, Supplement);
    var s5 := Drop(s4, Backtick);
    var s6 := Drop(s5, Markdown);
    DropKeepsFree(s1, MiscSymbols, Emoticons);
    DropKeepsFree(s2, Transport, Emoticons);
    DropKeepsFree(s2, Transport, MiscSymbols);
    DropKeepsFree(s3, Supplement, Emoticons);
    DropKeepsFree(s3, Supplement, MiscSymbols);
    DropKeepsFree(s3, Supplement, Transport);
    DropKeepsFree(s4, Backtick, Emoticons);
    DropKeepsFree(s4, Backtick, MiscSymbols);
    DropKeepsFree(s4, Backtick, Transport);
    DropKeepsFree(s4, Backtick, Supplement);
    DropKeepsFree(s5, Markdown, Emoticons);
    DropKeepsFree(s5, Markdown, MiscSymbols);
    DropKeepsFree(s5, Markdown, Transport);
    DropKeepsFree(s5, Markdown, Supplement);
    DropKeepsFree(s5, Markdown, Backtick);
    forall i | 0 <= i < |s6| ensures !Removed(s6[i]) {
      RemovedIsUnionOfClasses(s6[i]);
    }
  }

  /** Every address begins with the letter 'h'. */
  lemma UrlStartsWithH(u: string)
    ensures StartsUrl(u) ==> |u| > 7 && u[0] == 'h' && forall k :: 0 <= k < 8 ==> !IsWs(u[k])
  {
    if HasScheme(u, "https://") {
      assert forall k :: 0 <= k < 8 ==> u[k] == u[..8][k];
    } else if HasScheme(u, "http://") {
      assert forall k :: 0 <= k < 7 ==> u[k] == u[..7][k];
    }
  }

  /** At an address, the whole match becomes "link" and scanning resumes after it. */
  lemma ReplaceAtUrl(s: string)
    requires StartsUrl(s)
    ensures var n := UrlMatchLen(s).value;
      0 < n <= |s| && ReplaceUrls(s) == "link" + ReplaceUrls(s[n..])
  {
  }

  /** Elsewhere, the character is copied and scanning moves one character on. */
  lemma ReplaceNotUrl(s: string)
    requires s != [] && !StartsUrl(s)
    ensures ReplaceUrls(s) == [s[0]] + ReplaceUrls(s[1..])
  {
  }

  /** The address replacement brings in only the letters of "link", none of them removed characters. */
  lemma ReplaceUrlsKeepsClean(s: string)
    requires forall i :: 0 <= i < |s| ==> !Removed(s[i])
    ensures var r := ReplaceUrls(s); forall i :: 0 <= i < |r| ==> !Removed(r[i])
  {
    var r := ReplaceUrls(s);
    forall i | 0 <= i < |r| ensures !Removed(r[i]) {
      if r[i] !in s {
        assert r[i] in "link";
      } else {
        var j :| 0 <= j < |s| && s[j] == r[i];
      }
    }
  }

  /** What the chain guarantees, stated on its two stages. */
  lemma CleanTextSound(text: string)
    ensures var r := ReplaceUrls(StripMarkup(text));
      && (forall i :: 0 <= i < |r| ==> !Removed(r[i]))
      && ((forall i :: 0 <= i < |text| ==> !Removed(text[i])) && NoUrl(text) ==> r == text)
  {
    var s := StripMarkup(text);
    ReplaceUrlsKeepsClean(s);
    if (forall i :: 0 <= i < |text| ==> !Removed(text[i])) && NoUrl(text) {
      assert s == text;
      NoUrlFixed(text);
    }
  }

  /** `cleanTextForSpeech`: the seven replacements of the chain, applied in their order. */
  function CleanTextForSpeech(text: string): (r: string)
    ensures forall i :: 0 <= i < |r| ==> !Removed(r[i])
    ensures |r| <= |text|
    ensures (forall i :: 0 <= i < |text| ==> !Removed(text[i])) && NoUrl(text) ==> r == text
    ensures NoUrl(r)
  {
    CleanTextSound(text);
    NoUrlAfterReplace(StripMarkup(text));
    ReplaceUrls(StripMarkup(text))
  }

  /** Copying the first element in front of a split of the rest splits the whole. */
  lemma ConsSplit<T>(s: seq<T>, m: nat, whole: seq<T>, rest: seq<T>, tail: seq<T>)
    requires 0 < m <= |s|
    requires whole == [s[0]] + rest && rest == s[1..][..m - 1] + tail
    ensures whole == s[..m] + tail
  {
    assert s[1..][..m - 1] == s[1..m];
    assert [s[0]] + s[1..m] == s[..m];
  }

  /** Where no match starts before index `m`, the prefix up to `m` is copied unchanged. */
  lemma {:induction false} ReplaceUrlsSplit(s: string, m: nat)
    requires m <= |s|
    requires forall j :: 0 <= j < m ==> !StartsUrl(s[j..])
    ensures ReplaceUrls(s) == s[..m] + ReplaceUrls(s[m..])
    decreases m
  {
    if m == 0 {
      assert s[..0] == [] && s[0..] == s;
    } else {
      assert s[0..] == s;
      ReplaceNotUrl(s);
      var t := s[1..];
      forall j | 0 <= j < m - 1 ensures !StartsUrl(t[j..]) {
        assert t[j..] == s[j + 1..];
      }
      ReplaceUrlsSplit(t, m - 1);
      assert t[m - 1..] == s[m..];
      ConsSplit(s, m, ReplaceUrls(s), ReplaceUrls(t), ReplaceUrls(s[m..]));
    }
  }

  /** Text in which no address starts is left unchanged by the replacement. */
  lemma NoUrlFixed(s: string)
    requires NoUrl(s)
    ensures ReplaceUrls(s) == s
  {
    ReplaceUrlsSplit(s, |s|);
    assert s[..|s|] == s;
  }

  /** Index of the first match of the address pattern in `s`, or `|s|` when there is none. */
  function FirstUrl(s: string): (m: nat)
    ensures m <= |s|
    ensures forall j :: 0 <= j < m ==> !StartsUrl(s[j..])
    ensures m < |s| ==> StartsUrl(s[m..])
    decreases |s|
  {
    if s == [] || StartsUrl(s) then 0
    else
      var m := 1 + FirstUrl(s[1..]);
      assert forall j :: 1 <= j < m ==> s[j..] == s[1..][j - 1..];
      assert m < |s| ==> s[m..] == s[1..][m - 1..];
      m
  }

  /** Whether `t` starts an address is decided by its first nine characters. */
  lemma StartsUrlByPrefix(t: string, u: string, k: nat)
    requires k <= |t| && k <= |u| && t[..k] == u[..k]
    requires k >= 9 || (k == |t| && k == |u|)
    ensures StartsUrl(t) == StartsUrl(u)
  {
    if k >= 9 {
      assert t[..7] == u[..7] && t[..8] == u[..8];
      assert t[7] == u[7] && t[8] == u[8];
    } else {
      assert t == u;
    }
  }

  /**
   * If `s` does not start an address but one starts at index `m`, then the
   * text `s[..m] + "link" + x` does not start one either: the 'l' of "link"
   * cannot stand in the scheme, and where it stands after the scheme the
   * original 'h' there would already have made `s` an address.
   */
  lemma NotUrlBeforeLink(s: string, m: nat, x: string)
    requires 0 < m < |s| && !StartsUrl(s) && s[m] == 'h'
    ensures !StartsUrl(s[..m] + ("link" + x))
  {
    var t := s[..m] + ("link" + x);
    assert t[m] == 'l';
    assert forall k :: 0 <= k < m ==> t[k] == s[k];
    if m >= 9 {
      assert t[..9] == s[..9];
      StartsUrlByPrefix(t, s, 9);
    } else if m < 7 {
      assert |t| > 7 ==> t[..7][m] == 'l' && t[..7] != "http://";
      assert |t| > 8 ==> t[..8][m] == 'l' && t[..8] != "https://";
    } else if m == 7 {
      assert t[..7] == s[..7];
      assert HasScheme(t, "http://") == HasScheme(s, "http://");
      assert |t| > 8 ==> t[..8][7] == 'l' && t[..8] != "https://";
    } else {
      assert t[..7] == s[..7] && t[..8] == s[..8] && t[7] == s[7];
      assert HasScheme(t, "http://") == HasScheme(s, "http://");
      assert HasScheme(t, "https://") == HasScheme(s, "https://");
    }
  }

  /** The replaced text never starts an address where the input did not start one. */
  lemma NotUrlAtStart(s: string)
    requires s != [] && !StartsUrl(s)
    ensures !StartsUrl(ReplaceUrls(s))
  {
    var m := FirstUrl(s);
    ReplaceUrlsSplit(s, m);
    if m == |s| {
      assert s[..m] == s && s[m..] == [];
    } else {
      var u := s[m..];
      ReplaceAtUrl(u);
      var n := UrlMatchLen(u).value;
      UrlStartsWithH(u);
      assert u[0] == s[m];
      NotUrlBeforeLink(s, m, ReplaceUrls(u[n..]));
    }
  }

  /** "link" in front of address-free text starts no address. */
  lemma LinkThenNoUrl(rest: string)
    requires NoUrl(rest)
    ensures NoUrl("link" + rest)
  {
    var r := "link" + rest;
    forall i | 0 <= i < |r| ensures !StartsUrl(r[i..]) {
      if i < 4 {
        assert r[i..][0] == "link"[i];
        UrlStartsWithH(r[i..]);
      } else {
        assert r[i..] == rest[i - 4..];
      }
    }
  }

  /** A character that starts no address, in front of address-free text, keeps it address-free. */
  lemma ConsNoUrl(r: string)
    requires r != [] && !StartsUrl(r) && NoUrl(r[1..])
    ensures NoUrl(r)
  {
    forall i | 0 <= i < |r| ensures !StartsUrl(r[i..]) {
      if i == 0 {
        assert r[0..] == r;
      } else {
        assert r[i..] == r[1..][i - 1..];
      }
    }
  }

  /** No address survives the replacement: the output holds no match of the pattern. */
  lemma {:induction false} NoUrlAfterReplace(s: string)
    ensures NoUrl(ReplaceUrls(s))
    decreases |s|
  {
    if s == [] {
    } else if StartsUrl(s) {
      ReplaceAtUrl(s);
      var n := UrlMatchLen(s).value;
      NoUrlAfterReplace(s[n..]);
      LinkThenNoUrl(ReplaceUrls(s[n..]));
    } else {
      ReplaceNotUrl(s);
      NoUrlAfterReplace(s[1..]);
      NotUrlAtStart(s);
      var r := ReplaceUrls(s);
      assert r[1..] == ReplaceUrls(s[1..]);
      ConsNoUrl(r);
    }
  }

  /** A whole address followed by white space or the end is matched exactly. */
  lemma WholeUrlMatched(url: string, rest: string)
    requires StartsUrl(url) && forall k :: 0 <= k < |url| ==> !IsWs(url[k])
    requires rest == [] || IsWs(rest[0])
    ensures ReplaceUrls(url + rest) == "link" + ReplaceUrls(rest)
  {
    var u := url + rest;
    assert HasScheme(u, "https://") == HasScheme(url, "https://") by {
      assert |url| > 8 ==> u[..8] == url[..8];
    }
    assert HasScheme(u, "http://") == HasScheme(url, "http://") by {
      assert u[..7] == url[..7];
    }
    ReplaceAtUrl(u);
    var n := UrlMatchLen(u).value;
    assert forall k :: 0 <= k < |url| ==> u[k] == url[k];
    assert |rest| > 0 ==> u[|url|] == rest[0];
    assert n == |url|;
    assert u[n..] == rest;
  }

  /** No address starts inside a text free of addresses that ends in white space, whatever follows it. */
  lemma NoUrlInsidePrefix(p: string, x: string)
    requires NoUrl(p) && (p == [] || IsWs(p[|p| - 1]))
    ensures forall j :: 0 <= j < |p| ==> !StartsUrl((p + x)[j..])
  {
    var s := p + x;
    forall j | 0 <= j < |p| ensures !StartsUrl(s[j..]) {
      if |p| - j >= 9 {
        assert s[j..][..9] == p[j..][..9];
        StartsUrlByPrefix(s[j..], p[j..], 9);
      } else {
        UrlStartsWithH(s[j..]);
        assert s[j..][|p| - 1 - j] == p[|p| - 1];
      }
    }
  }

  /**
   * Each address, that is a scheme with its whole following run of
   * non-white-space characters, is replaced by the single word "link", and
   * the text around it is kept.
   */
  lemma UrlBecomesLink(p: string, url: string, rest: string)
    requires NoUrl(p) && (p == [] || IsWs(p[|p| - 1]))
    requires StartsUrl(url) && forall k :: 0 <= k < |url| ==> !IsWs(url[k])
    requires rest == [] || IsWs(rest[0])
    ensures ReplaceUrls(p + (url + rest)) == p + ("link" + ReplaceUrls(rest))
  {
    var x := url + rest;
    var s := p + x;
    NoUrlInsidePrefix(p, x);
    ReplaceUrlsSplit(s, |p|);
    assert s[..|p|] == p;
    assert s[|p|..] == x;
    WholeUrlMatched(url, rest);
  }

  /** Text that holds no address once its markup is gone is only stripped of its markup. */
  lemma CleanWithoutUrl(text: string)
    requires NoUrl(StripMarkup(text))
    ensures CleanTextForSpeech(text) == StripMarkup(text)
  {
    NoUrlFixed(StripMarkup(text));
  }

  /** Stripping keeps a last character that is white space. */
  lemma StripKeepsLastWs(p: string)
    requires p != [] && IsWs(p[|p| - 1])
    ensures var q := StripMarkup(p); q != [] && q[|q| - 1] == p[|p| - 1]
  {
    var n := |p| - 1;
    assert p == p[..n] + [p[n]];
    StripMarkupAppend(p[..n], [p[n]]);
    StripMarkupSingle(p[n]);
  }

  /** Stripping keeps a first character that is white space. */
  lemma StripKeepsFirstWs(r: string)
    requires r != [] && IsWs(r[0])
    ensures var q := StripMarkup(r); q != [] && q[0] == r[0]
  {
    assert r == [r[0]] + r[1..];
    StripMarkupAppend([r[0]], r[1..]);
    StripMarkupSingle(r[0]);
  }

  /**
   * The sanitiser turns an address into the word "link": markup before it is
   * stripped, and the text after it is sanitised on its own.
   */
  lemma CleanUrlBecomesLink(p: string, url: string, rest: string)
    requires NoUrl(StripMarkup(p)) && (p == [] || IsWs(p[|p| - 1]))
    requires StartsUrl(url) && forall k :: 0 <= k < |url| ==> !IsWs(url[k]) && !Removed(url[k])
    requires rest == [] || IsWs(rest[0])
    ensures CleanTextForSpeech(p + (url + rest)) == StripMarkup(p) + ("link" + CleanTextForSpeech(rest))
  {
    var q, sr := StripMarkup(p), StripMarkup(rest);
    StripMarkupAppend(p, url + rest);
    StripMarkupAppend(url, rest);
    assert StripMarkup(url) == url;
    if p != [] {
      StripKeepsLastWs(p);
    } else {
      assert q == [];
    }
    if rest != [] {
      StripKeepsFirstWs(rest);
    } else {
      assert sr == [];
    }
    UrlBecomesLink(q, url, sr);
  }

  /** Sanitising already sanitised text changes nothing. */
  lemma CleanTextIdempotent(text: string)
    ensures CleanTextForSpeech(CleanTextForSpeech(text)) == CleanTextForSpeech(text)
  {
    NoUrlAfterReplace(StripMarkup(text));
  }
}
