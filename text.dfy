/** The JavaScript string operations the component relies on: `trim`,
    `toLowerCase`, `indexOf`/`includes` and `replace` with a string pattern. */
module Text {

  type String = seq<char>

  /** The code points ECMAScript's `String.prototype.trim` removes: WhiteSpace
      (tab, vertical tab, form feed, space, no-break space, byte order mark and
      the Unicode space separators) and LineTerminator. */
  predicate IsWhiteSpace(c: char) {
    || c == '\t' || c == '\n' || c == '\U{000B}' || c == '\U{000C}' || c == '\r'
    || c == ' ' || c == '\U{00A0}' || c == '\U{1680}'
    || ('\U{2000}' <= c <= '\U{200A}')
    || c == '\U{2028}' || c == '\U{2029}' || c == '\U{202F}' || c == '\U{205F}'
    || c == '\U{3000}' || c == '\U{FEFF}'
  }

  /** Every character of `s` is white space (the empty string included). */
  predicate IsBlank(s: String) {
    forall i :: 0 <= i < |s| ==> IsWhiteSpace(s[i])
  }

  /** Drops leading white space: the result is the suffix of `s` that starts
      at its first non-white-space character. */
  function TrimStart(s: String): (r: String)
    ensures |r| <= |s| && r == s[|s| - |r|..]
    ensures forall i :: 0 <= i < |s| - |r| ==> IsWhiteSpace(s[i])
    ensures r == [] || !IsWhiteSpace(r[0])
    decreases |s|
  {
    if s != [] && IsWhiteSpace(s[0]) then TrimStart(s[1..]) else s
  }

  /** Drops trailing white space: the result is the prefix of `s` that ends
      at its last non-white-space character. */
  function TrimEnd(s: String): (r: String)
    ensures |r| <= |s| && r == s[..|r|]
    ensures forall i :: |r| <= i < |s| ==> IsWhiteSpace(s[i])
    ensures r == [] || !IsWhiteSpace(r[|r| - 1])
    decreases |s|
  {
    if s != [] && IsWhiteSpace(s[|s| - 1]) then TrimEnd(s[..|s| - 1]) else s
  }

  /** `s.trim()`. It is empty exactly when `s` is blank. */
  function Trim(s: String): (r: String)
    ensures r == [] <==> IsBlank(s)
  {
    var t := TrimStart(s);
    if t == [] then
      t
    else
      assert !IsWhiteSpace(s[|s| - |t|]) && !IsWhiteSpace(t[0]);
      TrimEnd(t)
  }

  /** ASCII-only stand-in for the per-character mapping of `toLowerCase`. */
  function LowerChar(c: char): (r: char)
    ensures !('A' <= r <= 'Z')
    ensures 'A' <= c <= 'Z' ==> 'a' <= r <= 'z' && r as int == c as int + 32
    ensures 'A' <= c <= 'Z' || r == c
  {
    if 'A' <= c <= 'Z' then (c as int + 32) as char else c
  }

  /** `s.toLowerCase()`, character by character. */
  function Lower(s: String): (r: String)
    ensures |r| == |s|
    ensures forall i :: 0 <= i < |r| ==> !('A' <= r[i] <= 'Z')
    ensures forall i :: 0 <= i < |s| && !('A' <= s[i] <= 'Z') ==> r[i] == s[i]
  {
    seq(|s|, i requires 0 <= i < |s| => LowerChar(s[i]))
  }

  /** Lowering is idempotent, so lowering the search term once more is harmless. */
  lemma LowerIdempotent(s: String)
    ensures Lower(Lower(s)) == Lower(s)
  {
  }

  /** `t` occurs in `s` starting at index `i`. */
  predicate OccursAt(s: String, t: String, i: int) {
    0 <= i && i + |t| <= |s| && s[i..i + |t|] == t
  }

  /** An occurrence in the tail `s[1..]` is an occurrence in `s` one place later. */
  lemma OccursInTail(s: String, t: String, j: int)
    requires s != []
    ensures OccursAt(s, t, j) && j >= 1 <==> OccursAt(s[1..], t, j - 1)
  {
  }

  /** `s.indexOf(t)`: the first index at which `t` occurs in `s`, or -1. */
  function IndexOf(s: String, t: String): (r: int)
    ensures r == -1 || OccursAt(s, t, r)
    ensures r == -1 ==> forall i :: !OccursAt(s, t, i)
    ensures forall i :: 0 <= i < r ==> !OccursAt(s, t, i)
    decreases |s|
  {
    if |t| > |s| then -1
    else if s[..|t|] == t then 0
    else
      var k := IndexOf(s[1..], t);
      assert !OccursAt(s, t, 0);
      assert forall j :: OccursAt(s, t, j) <==> j >= 1 && OccursAt(s[1..], t, j - 1) by {
        forall j { OccursInTail(s, t, j); }
      }
      if k == -1 then -1 else k + 1
  }

  /** `s.includes(t)`: `t` occurs somewhere in `s`. */
  function Includes(s: String, t: String): (r: bool)
    ensures r <==> exists i :: OccursAt(s, t, i)
  {
    IndexOf(s, t) >= 0
  }

  /** `s.replace(pattern, '')`: only the first occurrence of `pattern` is removed. */
  function RemoveFirst(s: String, pattern: String): (r: String)
    ensures IndexOf(s, pattern) == -1 ==> r == s
    ensures IndexOf(s, pattern) >= 0 ==>
              var i := IndexOf(s, pattern);
              |r| + |pattern| == |s| && r[..i] + pattern + r[i..] == s
  {
    var i := IndexOf(s, pattern);
    if i == -1 then s else s[..i] + s[i + |pattern|..]
  }
}
