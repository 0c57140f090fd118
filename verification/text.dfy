/** The two string tests the achievement client relies on: `String.Trim()`
    and "every character is a digit" (`name.All(char.IsDigit)`). */
module Text {

  /** `char.IsWhiteSpace`: the Unicode space, line and paragraph separators
      plus the control characters U+0009..U+000D and U+0085. */
  predicate IsWhiteSpace(c: char) {
    || c == ' ' || ('\t' <= c <= '\r') || c == '\U{0085}' || c == '\U{00A0}'
    || c == '\U{1680}' || ('\U{2000}' <= c <= '\U{200A}') || c == '\U{2028}'
    || c == '\U{2029}' || c == '\U{202F}' || c == '\U{205F}' || c == '\U{3000}'
  }

  /** `char.IsDigit`, restricted to the ASCII decimal digits. */
  predicate IsDigit(c: char) {
    '0' <= c <= '9'
  }

  /** A non-empty name made only of digits, as the saved-games folders of
      a Steam app id are. */
  predicate IsNumericName(s: string) {
    s != [] && forall i :: 0 <= i < |s| ==> IsDigit(s[i])
  }

  /** Every character of `s` in the index range [lo, hi) is white space. */
  predicate WhiteBetween(s: string, lo: int, hi: int)
    requires 0 <= lo && hi <= |s|
  {
    forall k :: lo <= k < hi ==> IsWhiteSpace(s[k])
  }

  /** The index of the first character at or after `from` that is not white
      space, or `|s|` if there is none. */
  function SkipWhiteForward(s: string, from: nat): (r: nat)
    requires from <= |s|
    ensures from <= r <= |s| && WhiteBetween(s, from, r)
    ensures r < |s| ==> !IsWhiteSpace(s[r])
    decreases |s| - from
  {
    if from < |s| && IsWhiteSpace(s[from]) then SkipWhiteForward(s, from + 1) else from
  }

  /** The index just past the last character before `hi` and at or after
      `lo` that is not white space, or `lo` if there is none. */
  function SkipWhiteBackward(s: string, lo: nat, hi: nat): (r: nat)
    requires lo <= hi <= |s|
    ensures lo <= r <= hi && WhiteBetween(s, r, hi)
    ensures r > lo ==> !IsWhiteSpace(s[r - 1])
    decreases hi
  {
    if hi > lo && IsWhiteSpace(s[hi - 1]) then SkipWhiteBackward(s, lo, hi - 1) else hi
  }

  /** `String.Trim()`: the contiguous middle of `s` left after removing
      white space from both ends; it neither starts nor ends with white
      space and is empty exactly when `s` is all white space. */
  function Trim(s: string): (r: string)
    ensures exists i, j :: 0 <= i <= j <= |s| && r == s[i..j]
                           && WhiteBetween(s, 0, i) && WhiteBetween(s, j, |s|)
    ensures r != [] ==> !IsWhiteSpace(r[0]) && !IsWhiteSpace(r[|r| - 1])
    ensures r == [] <==> WhiteBetween(s, 0, |s|)
  {
    var i := SkipWhiteForward(s, 0);
    var j := SkipWhiteBackward(s, i, |s|);
    assert i < j ==> s[i..j][0] == s[i];
    s[i..j]
  }

  /** Trimming twice changes nothing more than trimming once. */
  lemma TrimIdempotent(s: string)
    ensures Trim(Trim(s)) == Trim(s)
  {
    var t := Trim(s);
    var u := Trim(t);
    var i, j :| 0 <= i <= j <= |t| && u == t[i..j] && WhiteBetween(t, 0, i) && WhiteBetween(t, j, |t|);
    if t != [] {
      assert u == t[0..|t|];
    }
  }
}
