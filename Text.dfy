/**
 * The JavaScript string primitives the core relies on: the white-space and
 * line-terminator classes shared by `String.prototype.trim`, the regular
 * expression classes `\s`, `\d` and `.`, and `split`/`join` on a fixed
 * separator. Characters are Unicode scalar values.
 */
module Text {
  import opened Common

  /** `\s` in a regular expression, and what `trim` strips: WhiteSpace and LineTerminator. */
  predicate IsSpace(c: char) {
    c == '\t' || c == '\n' || c == '\U{B}' || c == '\U{C}' || c == '\r' || c == ' '
    || c == '\U{A0}' || c == '\U{1680}' || ('\U{2000}' <= c <= '\U{200A}')
    || c == '\U{2028}' || c == '\U{2029}' || c == '\U{202F}' || c == '\U{205F}'
    || c == '\U{3000}' || c == '\U{FEFF}'
  }

  /** The characters that `.` in a regular expression does not match. */
  predicate IsLineTerminator(c: char) {
    c == '\n' || c == '\r' || c == '\U{2028}' || c == '\U{2029}'
  }

  /** A proof aid: `\s` covers every line terminator. */
  lemma LineTerminatorIsSpace(c: char)
    ensures IsLineTerminator(c) ==> IsSpace(c)
  {
  }

  /** `\d`: the ASCII decimal digits only. */
  predicate IsDigit(c: char) {
    '0' <= c <= '9'
  }

  predicate AllSpace(s: string) {
    forall k :: 0 <= k < |s| ==> IsSpace(s[k])
  }

  predicate NoLineTerminator(s: string) {
    forall k :: 0 <= k < |s| ==> !IsLineTerminator(s[k])
  }

  predicate StartsWith(s: string, prefix: string) {
    |prefix| <= |s| && s[..|prefix|] == prefix
  }

  predicate EndsWith(s: string, suffix: string) {
    |suffix| <= |s| && s[|s| - |suffix|..] == suffix
  }

  /** The length of the run of white space that starts at `i`: the longest choice of `\s*` there. */
  function SpaceRun(s: string, i: nat): (n: nat)
    requires i <= |s|
    ensures i + n <= |s|
    ensures i + n == |s| || !IsSpace(s[i + n])
    decreases |s| - i
  {
    if i < |s| && IsSpace(s[i]) then 1 + SpaceRun(s, i + 1) else 0
  }

  /** Every character of the run is white space. */
  lemma {:induction false} SpaceRunSpaces(s: string, i: nat)
    requires i <= |s|
    ensures forall k :: i <= k < i + SpaceRun(s, i) ==> IsSpace(s[k])
    decreases |s| - i
  {
    if i < |s| && IsSpace(s[i]) {
      SpaceRunSpaces(s, i + 1);
    }
  }

  lemma SpaceRunIsSpace(s: string, i: nat)
    requires i <= |s|
    ensures AllSpace(s[i..i + SpaceRun(s, i)])
  {
    SpaceRunSpaces(s, i);
    var t := s[i..i + SpaceRun(s, i)];
    assert forall k :: 0 <= k < |t| ==> t[k] == s[i + k];
  }

  /** The run of white space from `i` ends at `j`: what lies between is white space. */
  lemma SpaceRunTo(s: string, i: nat, j: nat)
    requires i <= |s| && j == i + SpaceRun(s, i)
    ensures AllSpace(s[i..j])
  {
    SpaceRunIsSpace(s, i);
  }

  /** A stretch of white space from `a` that stops before a character that is not: the run from `a`. */
  lemma {:induction false} SpaceRunExact(s: string, a: nat, b: nat)
    requires a <= b <= |s| && AllSpace(s[a..b]) && (b == |s| || !IsSpace(s[b]))
    ensures SpaceRun(s, a) == b - a
    decreases b - a
  {
    if a < b {
      assert IsSpace(s[a..b][0]);
      assert s[a + 1..b] == s[a..b][1..];
      SpaceRunExact(s, a + 1, b);
    }
  }

  /** Each character of a stretch of white space is white space. */
  lemma SpaceIn(s: string, a: nat, b: nat, k: nat)
    requires a <= k < b <= |s| && AllSpace(s[a..b])
    ensures IsSpace(s[k])
  {
    assert s[a..b][k - a] == s[k];
  }

  /** The length of the run of white space that ends just before `j`. */
  function SpaceRunBack(s: string, j: nat): (n: nat)
    requires j <= |s|
    ensures n <= j
    ensures forall k :: j - n <= k < j ==> IsSpace(s[k])
    ensures n == j || !IsSpace(s[j - n - 1])
    decreases j
  {
    if j > 0 && IsSpace(s[j - 1]) then 1 + SpaceRunBack(s, j - 1) else 0
  }

  /** What the backward run from the end of `s` covers is white space. */
  lemma TrailingSpace(s: string)
    ensures AllSpace(s[|s| - SpaceRunBack(s, |s|)..])
  {
    var j := |s| - SpaceRunBack(s, |s|);
    assert forall k :: 0 <= k < |s| - j ==> s[j..][k] == s[j + k];
  }

  /**
   * `String.prototype.trim`: the infix of `s` left once the leading and the
   * trailing white space are dropped. It neither starts nor ends with white
   * space, and it is empty exactly when `s` is all white space.
   */
  function Trim(s: string): (r: string)
    ensures r == [] || (!IsSpace(r[0]) && !IsSpace(r[|r| - 1]))
    ensures r == [] <==> AllSpace(s)
    ensures var i := SpaceRun(s, 0); i + |r| <= |s| && r == s[i..i + |r|]
    ensures AllSpace(s[..SpaceRun(s, 0)]) && AllSpace(s[SpaceRun(s, 0) + |r|..])
  {
    SpaceRunTo(s, 0, SpaceRun(s, 0));
    SpaceRunSpaces(s, 0);
    var i := SpaceRun(s, 0);
    if i == |s| then
      []
    else
      var j := |s| - SpaceRunBack(s, |s|);
      assert i < j && !IsSpace(s[j - 1]);
      TrailingSpace(s);
      s[i..j]
  }

  /** The first position of `c` in `s`, as `indexOf` finds it. */
  function IndexOf(s: string, c: char): (r: Option<nat>)
    ensures r.None? ==> c !in s
    ensures r.Some? ==> r.value < |s| && s[r.value] == c && c !in s[..r.value]
    decreases |s|
  {
    if s == [] then None
    else if s[0] == c then Some(0)
    else
      match IndexOf(s[1..], c)
      case None => None
      case Some(i) =>
        assert s[..i + 1] == [s[0]] + s[1..][..i];
        Some(i + 1)
  }

  /** `s.split(sep)` for a one-character separator. */
  function SplitOn(s: string, sep: char): (parts: seq<string>)
    ensures |parts| >= 1
    ensures forall k :: 0 <= k < |parts| ==> sep !in parts[k]
    decreases |s|
  {
    match IndexOf(s, sep)
    case None => [s]
    case Some(i) => [s[..i]] + SplitOn(s[i + 1..], sep)
  }

  /** `parts.join(sep)`. */
  function Join(parts: seq<string>, sep: string): string
    decreases |parts|
  {
    if |parts| == 0 then ""
    else if |parts| == 1 then parts[0]
    else parts[0] + sep + Join(parts[1..], sep)
  }

  /** Splitting on a character and joining on it again gives back the text. */
  lemma {:induction false} SplitJoin(s: string, sep: char)
    ensures Join(SplitOn(s, sep), [sep]) == s
    decreases |s|
  {
    match IndexOf(s, sep)
    case None =>
    case Some(i) =>
      var rest := SplitOn(s[i + 1..], sep);
      var parts := SplitOn(s, sep);
      assert parts == [s[..i]] + rest;
      assert parts[1..] == rest;
      SplitJoin(s[i + 1..], sep);
      assert Join(parts, [sep]) == s[..i] + [sep] + s[i + 1..];
      assert s == s[..i] + [sep] + s[i + 1..];
  }

  /** `s.substring(0, n)`. */
  function Prefix(s: string, n: nat): (r: string)
    ensures |r| <= n && StartsWith(s, r)
    ensures |r| == if |s| < n then |s| else n
  {
    if |s| <= n then s else s[..n]
  }
}
