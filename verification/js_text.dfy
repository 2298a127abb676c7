/**
 * The JavaScript string primitives the application relies on: the whitespace
 * class shared by the regular-expression escape `\s` and `String.prototype.trim`,
 * `trim`, `toLowerCase` on the letters that matter, `includes`, and the
 * UTF-16 `length` of a string whose characters are Unicode scalar values.
 */
module JsText {

  /** The characters JavaScript treats as white space or line terminators. */
  predicate IsWs(c: char) {
    var n := c as int;
    (0x09 <= n <= 0x0D) || n == 0x20 || n == 0xA0 || n == 0x1680 ||
    (0x2000 <= n <= 0x200A) || n == 0x2028 || n == 0x2029 || n == 0x202F ||
    n == 0x205F || n == 0x3000 || n == 0xFEFF
  }

  predicate IsAsciiLetter(c: char) {
    ('a' <= c <= 'z') || ('A' <= c <= 'Z')
  }

  /** The number of white-space characters `s` starts with. */
  function LeadingWs(s: string): (n: nat)
    ensures n <= |s|
    ensures forall k :: 0 <= k < n ==> IsWs(s[k])
    ensures n == |s| || !IsWs(s[n])
  {
    if s == [] || !IsWs(s[0]) then 0 else 1 + LeadingWs(s[1..])
  }

  /** The number of white-space characters `s` ends with. */
  function TrailingWs(s: string): (n: nat)
    ensures n <= |s|
    ensures forall k :: |s| - n <= k < |s| ==> IsWs(s[k])
    ensures n == |s| || !IsWs(s[|s| - n - 1])
  {
    if s == [] || !IsWs(s[|s| - 1]) then 0 else 1 + TrailingWs(s[..|s| - 1])
  }

  /** `String.prototype.trim`: white space removed from both ends. */
  function Trim(s: string): (r: string)
    ensures |r| <= |s|
    ensures r == [] || (!IsWs(r[0]) && !IsWs(r[|r| - 1]))
    ensures r == [] <==> forall k :: 0 <= k < |s| ==> IsWs(s[k])
  {
    var t := s[LeadingWs(s)..];
    var r := t[..|t| - TrailingWs(t)];
    assert r != [] ==> r[0] == t[0];
    assert t != [] ==> !IsWs(t[0]);
    assert t == [] ==> r == [];
    r
  }

  /** A prefix of a suffix is a slice. */
  lemma SliceOfSuffix<T>(s: seq<T>, i: nat, m: nat)
    requires i + m <= |s|
    ensures s[i..][..m] == s[i..i + m]
  {
  }

  /** White space at the end of a suffix is white space at the end of the whole. */
  lemma TrailingWsOfSuffix(s: string, i: nat)
    requires i <= |s|
    ensures var n := TrailingWs(s[i..]);
      forall k :: |s| - n <= k < |s| ==> IsWs(s[k])
  {
    var t := s[i..];
    var n := TrailingWs(t);
    forall k | |s| - n <= k < |s| ensures IsWs(s[k]) {
      assert s[k] == t[k - i];
    }
  }

  /** What `trim` removes is white space, and what it keeps is one contiguous piece of the input. */
  lemma TrimIsInfix(s: string)
    ensures var i := LeadingWs(s);
      var j := i + |Trim(s)|;
      && 0 <= i <= j <= |s| && Trim(s) == s[i..j]
      && (forall k :: 0 <= k < i ==> IsWs(s[k]))
      && (forall k :: j <= k < |s| ==> IsWs(s[k]))
  {
    var i := LeadingWs(s);
    var t := s[i..];
    var m := |t| - TrailingWs(t);
    SliceOfSuffix(s, i, m);
    assert Trim(s) == s[i..i + m];
    TrailingWsOfSuffix(s, i);
  }

  /** A string with no white space at either end is left alone, and trimming twice is trimming once. */
  lemma TrimFixpoint(s: string)
    ensures (s == [] || (!IsWs(s[0]) && !IsWs(s[|s| - 1]))) <==> Trim(s) == s
    ensures Trim(Trim(s)) == Trim(s)
  {
    if s == [] || (!IsWs(s[0]) && !IsWs(s[|s| - 1])) {
      TrimOfClean(s);
    }
    TrimOfClean(Trim(s));
  }

  /** Trimming a string without white space at either end changes nothing. */
  lemma TrimOfClean(s: string)
    requires s == [] || (!IsWs(s[0]) && !IsWs(s[|s| - 1]))
    ensures Trim(s) == s
  {
    assert LeadingWs(s) == 0;
    assert s[0..] == s;
    assert TrailingWs(s) == 0;
    assert s[..|s|] == s;
  }

  function LowerChar(c: char): (r: char)
    ensures IsAsciiLetter(c) ==> 'a' <= r <= 'z' && (r == c || r as int == c as int + 32)
    ensures !('A' <= c <= 'Z') ==> r == c
  {
    if 'A' <= c <= 'Z' then (c as int + 32) as char else c
  }

  /**
   * `toLowerCase` on the ASCII letters. The only non-ASCII character whose lower
   * case is ASCII is the Kelvin sign (to 'k'); every other non-ASCII character
   * lowers to non-ASCII text, so comparing the result with an ASCII literal
   * that has no 'k' gives the same answer either way.
   */
  function AsciiLower(s: string): (r: string)
    ensures |r| == |s|
    ensures forall i :: 0 <= i < |s| ==> r[i] == LowerChar(s[i])
  {
    seq(|s|, i requires 0 <= i < |s| => LowerChar(s[i]))
  }

  /** `slice(0, n)` for a non-negative `n`: the first `n` characters, or all of them when there are fewer. */
  function Prefix(s: string, n: nat): (r: string)
    ensures |r| == if |s| <= n then |s| else n
    ensures r == s[..|r|]
  {
    if |s| <= n then s else s[..n]
  }

  /** `sub` occurs in `s` starting at index `i`. */
  predicate OccursAt(s: string, sub: string, i: int) {
    0 <= i && i + |sub| <= |s| && s[i..i + |sub|] == sub
  }

  /** `String.prototype.includes`. */
  predicate Includes(s: string, sub: string) {
    exists i | 0 <= i <= |s| :: OccursAt(s, sub, i)
  }

  /** Number of UTF-16 code units of one scalar value. */
  function Utf16Units(c: char): nat {
    if c as int >= 0x1_0000 then 2 else 1
  }

  /** The JavaScript `length` of a string: its count of UTF-16 code units. */
  function Utf16Length(s: string): (r: nat)
    ensures |s| <= r <= 2 * |s|
    ensures (forall i :: 0 <= i < |s| ==> (s[i] as int) < 0x1_0000) ==> r == |s|
  {
    if s == [] then 0 else Utf16Units(s[0]) + Utf16Length(s[1..])
  }
}
