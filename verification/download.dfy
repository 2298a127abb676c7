/** The choice of file extension when the result is downloaded. */
module Download {
  import opened JsText

  /** The recognised target languages, in lower case, with their extensions, in the order they are tested. */
  const ExtTable: seq<(string, string)> := [
    ("python", "py"), ("typescript", "ts"), ("javascript", "js"), ("rust", "rs"),
    ("go", "go"), ("c", "c"), ("c++", "cpp"), ("java", "java")]

  /** The extension of every other language. */
  const DefaultExt: string := "txt"

  /** `getExt`: the extension for a target language, compared case-insensitively. */
  function GetExt(lang: string): string {
    var l := AsciiLower(lang);
    if l == "python" then "py"
    else if l == "typescript" then "ts"
    else if l == "javascript" then "js"
    else if l == "rust" then "rs"
    else if l == "go" then "go"
    else if l == "c" then "c"
    else if l == "c++" then "cpp"
    else if l == "java" then "java"
    else DefaultExt
  }

  /**
   * The extension is the table's entry for the lower-cased language, and the
   * default exactly when the language is not in the table.
   */
  lemma GetExtByTable(lang: string)
    ensures forall i :: 0 <= i < |ExtTable| ==> (AsciiLower(lang) == ExtTable[i].0 <==> GetExt(lang) == ExtTable[i].1)
    ensures (forall i :: 0 <= i < |ExtTable| ==> AsciiLower(lang) != ExtTable[i].0) <==> GetExt(lang) == DefaultExt
  {
    var l := AsciiLower(lang);
    var e := GetExt(lang);
    var exts := ["py", "ts", "js", "rs", "go", "c", "cpp", "java"];
    assert forall i :: 0 <= i < |ExtTable| ==> ExtTable[i].1 == exts[i];
    assert forall i, j :: 0 <= i < j < |exts| ==> exts[i] != exts[j];
    assert forall i :: 0 <= i < |exts| ==> exts[i] != DefaultExt;
    if l == "python" {
      assert l == ExtTable[0].0 && e == exts[0];
    } else if l == "typescript" {
      assert l == ExtTable[1].0 && e == exts[1];
    } else if l == "javascript" {
      assert l == ExtTable[2].0 && e == exts[2];
    } else if l == "rust" {
      assert l == ExtTable[3].0 && e == exts[3];
    } else if l == "go" {
      assert l == ExtTable[4].0 && e == exts[4];
    } else if l == "c" {
      assert l == ExtTable[5].0 && e == exts[5];
    } else if l == "c++" {
      assert l == ExtTable[6].0 && e == exts[6];
    } else if l == "java" {
      assert l == ExtTable[7].0 && e == exts[7];
    } else {
      assert e == DefaultExt;
    }
  }

  lemma LowerCharIdempotent(c: char)
    ensures LowerChar(LowerChar(c)) == LowerChar(c)
  {
  }

  /** Lower-casing the language first changes nothing: the choice ignores case. */
  lemma {:induction false} GetExtIgnoresCase(lang: string)
    ensures AsciiLower(AsciiLower(lang)) == AsciiLower(lang)
    ensures GetExt(AsciiLower(lang)) == GetExt(lang)
  {
    var l := AsciiLower(lang);
    forall i | 0 <= i < |l|
      ensures AsciiLower(l)[i] == l[i]
    {
      LowerCharIdempotent(lang[i]);
    }
  }

  lemma MixedCaseNames()
    ensures GetExt("TypeScript") == "ts" && GetExt("C++") == "cpp" && GetExt("COBOL") == DefaultExt
  {
    assert AsciiLower("TypeScript") == "typescript";
    assert AsciiLower("C++") == "c++";
    assert AsciiLower("COBOL") == "cobol";
  }
}
