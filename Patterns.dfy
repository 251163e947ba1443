/**
 * The regular expressions of src/utils/openai.ts, hand-coded with the
 * semantics of the JavaScript engine that runs them: a backtracking matcher
 * that tries a greedy quantifier's longest choice first, a lazy quantifier's
 * shortest choice first and the alternatives of `|` from left to right, and
 * returns the first way that succeeds. Where backtracking cannot change the
 * outcome, the functions take the one choice that can succeed and say why.
 */
module Patterns {
  import opened Common
  import opened Text

  /** The number of digits from position `i` on (the longest choice of `\d+`). */
  function DigitRun(s: string, i: nat): (n: nat)
    requires i <= |s|
    ensures i + n <= |s|
    ensures i + n == |s| || !IsDigit(s[i + n])
    decreases |s| - i
  {
    if i < |s| && IsDigit(s[i]) then 1 + DigitRun(s, i + 1) else 0
  }

  /** Every character of the run is a digit. */
  lemma {:induction false} DigitRunDigits(s: string, i: nat)
    requires i <= |s|
    ensures forall k :: i <= k < i + DigitRun(s, i) ==> IsDigit(s[k])
    decreases |s| - i
  {
    if i < |s| && IsDigit(s[i]) {
      DigitRunDigits(s, i + 1);
    }
  }

  // ---------------------------------------------------------------------
  // /^\d+\.\s*(.+?)(?:\s*-\s*(.+))?$/   (openai.ts, numbered exercise lines)
  // ---------------------------------------------------------------------

  /** The two capture groups; `details` is `None` when the optional group took no part. */
  datatype LineMatch = LineMatch(name: string, details: Option<string>)

  /** Where the captures lie: the name is `s[nameStart..nameEnd]`, the details run to the end. */
  datatype Spans = Spans(nameStart: nat, nameEnd: nat, detailsStart: Option<nat>)

  /**
   * The optional group `\s*-\s*(.+)` followed by `$`, tried at position `e`.
   * The first `\s*` can only succeed with its longest choice: a shorter one
   * leaves a white-space character where `-` is required.
   */
  function DashTail(s: string, e: nat): (r: Option<nat>)
    requires e <= |s|
    ensures r.Some? ==> e < r.value < |s|
  {
    var w1 := SpaceRun(s, e);
    if e + w1 == |s| || s[e + w1] != '-' then None
    else GreedyTail(s, e + w1 + 1, SpaceRun(s, e + w1 + 1))
  }

  /**
   * The second `\s*` with `w` characters, then `(.+)$`, then shorter choices of
   * the `\s*`. `(.+)` takes every character up to the first line terminator,
   * and `$` then needs the end of the text: a shorter `(.+)` cannot reach it.
   */
  function GreedyTail(s: string, a: nat, w: nat): (r: Option<nat>)
    requires a + w <= |s|
    ensures r.Some? ==> a <= r.value < |s|
    decreases w
  {
    if a + w < |s| && NoLineTerminator(s[a + w..]) then Some(a + w)
    else if w == 0 then None
    else GreedyTail(s, a, w - 1)
  }

  /**
   * The lazy `(.+?)` starting at `q` with `n` characters, the optional group
   * (tried first, as `?` is greedy), then `$`; on failure one more character.
   */
  function LazyName(s: string, q: nat, n: nat): (r: Option<Spans>)
    requires q <= |s| && 1 <= n
    ensures r.Some? ==> Ordered(s, r.value) && r.value.nameStart == q && q + n <= r.value.nameEnd
    decreases |s| - (q + n)
  {
    if q + n > |s| || IsLineTerminator(s[q + n - 1]) then None
    else
      match DashTail(s, q + n)
      case Some(d) => Some(Spans(q, q + n, Some(d)))
      case None =>
        if q + n == |s| then Some(Spans(q, q + n, None))
        else LazyName(s, q, n + 1)
  }

  /** The `\s*` after the dot with `k` characters, then shorter choices. */
  function AfterDot(s: string, p: nat, k: nat): (r: Option<Spans>)
    requires p + k <= |s|
    ensures r.Some? ==> Ordered(s, r.value) && p <= r.value.nameStart <= p + k
    decreases k
  {
    match LazyName(s, p + k, 1)
    case Some(sp) => Some(sp)
    case None => if k == 0 then None else AfterDot(s, p, k - 1)
  }

  /**
   * `^\d+\.`: the digits must start in column 0; a shorter `\d+` than the
   * longest leaves a digit where the dot is required.
   */
  function LineSpans(s: string): (r: Option<Spans>)
    ensures r.Some? ==> Ordered(s, r.value)
  {
    var d := DigitRun(s, 0);
    if d == 0 || d == |s| || s[d] != '.' then None
    else AfterDot(s, d + 1, SpaceRun(s, d + 1))
  }

  /**
   * From `e` to `r`: a run of white space, a dash, and white space again (the
   * text `\s*-\s*` can match).
   */
  predicate DashSeparatorAt(s: string, e: nat, r: nat)
    requires e <= r <= |s|
  {
    var w := SpaceRun(s, e);
    e + w < r && s[e + w] == '-' && AllSpace(s[e + w + 1..r])
  }

  /** The line is `<digits>.<white space><name><separator><details>` or `<digits>.<white space><name>`. */
  predicate ValidSpans(s: string, sp: Spans) {
    var d := DigitRun(s, 0);
    && 0 < d < |s| && s[d] == '.'
    && d + 1 <= sp.nameStart < sp.nameEnd <= |s|
    && AllSpace(s[d + 1..sp.nameStart])
    && NoLineTerminator(s[sp.nameStart..sp.nameEnd])
    && (sp.detailsStart.None? ==> sp.nameEnd == |s|)
    && (sp.detailsStart.Some? ==>
          && sp.nameEnd < sp.detailsStart.value < |s|
          && DashSeparatorAt(s, sp.nameEnd, sp.detailsStart.value)
          && NoLineTerminator(s[sp.detailsStart.value..]))
  }

  /** Capture positions that lie inside the line in this order. */
  predicate Ordered(s: string, sp: Spans) {
    && sp.nameStart < sp.nameEnd <= |s|
    && (sp.detailsStart.Some? ==> sp.nameEnd < sp.detailsStart.value < |s|)
  }

  /** `line.match(…)` as the parser reads it: the two groups, or no match. */
  function MatchNumberedLine(s: string): (r: Option<LineMatch>)
    ensures r.Some? <==> LineSpans(s).Some?
    ensures r.Some? ==> var sp := LineSpans(s).value;
      && r.value.name == s[sp.nameStart..sp.nameEnd]
      && r.value.details == (if sp.detailsStart.Some? then Some(s[sp.detailsStart.value..]) else None)
  {
    match LineSpans(s)
    case None => None
    case Some(sp) =>
      Some(LineMatch(s[sp.nameStart..sp.nameEnd],
                     if sp.detailsStart.Some? then Some(s[sp.detailsStart.value..]) else None))
  }

  // Soundness: what the matcher accepts has the shape of the pattern.

  lemma GreedyTailSound(s: string, a: nat, w: nat)
    requires a + w <= |s| && AllSpace(s[a..a + w])
    ensures var r := GreedyTail(s, a, w);
      r.Some? ==> AllSpace(s[a..r.value]) && NoLineTerminator(s[r.value..])
    decreases w
  {
    if !(a + w < |s| && NoLineTerminator(s[a + w..])) && w > 0 {
      assert s[a..a + (w - 1)] == s[a..a + w][..w - 1];
      GreedyTailSound(s, a, w - 1);
    }
  }

  lemma DashTailSound(s: string, e: nat)
    requires e <= |s|
    ensures var r := DashTail(s, e);
      r.Some? ==> DashSeparatorAt(s, e, r.value) && NoLineTerminator(s[r.value..])
  {
    var w1 := SpaceRun(s, e);
    if e + w1 < |s| && s[e + w1] == '-' {
      var a := e + w1 + 1;
      var w := SpaceRun(s, a);
      SpaceRunIsSpace(s, a);
      GreedyTailSound(s, a, w);
      var r := GreedyTail(s, a, w);
      assert DashTail(s, e) == r;
      if r.Some? {
        assert AllSpace(s[a..r.value]);
      }
    }
  }

  /** Soundness carries over from a name one character longer to the one it extends. */
  lemma LazyNameSoundStep(s: string, q: nat, n: nat)
    requires 1 <= n && q + n < |s| && !IsLineTerminator(s[q + n - 1]) && DashTail(s, q + n).None?
    requires var r := LazyName(s, q, n + 1); r.Some? ==> ValidTail(s, r.value)
    ensures var r := LazyName(s, q, n); r.Some? ==> ValidTail(s, r.value)
  {
    LazyNameGrows(s, q, n);
  }

  /** Where the name stops, before a separator or at the end of the line, the split is a valid tail. */
  lemma StopTailValid(s: string, q: nat, e: nat)
    requires q < e <= |s| && NoLineTerminator(s[q..e]) && (DashTail(s, e).Some? || e == |s|)
    ensures ValidTail(s, Spans(q, e, DashTail(s, e)))
  {
    DashTailSound(s, e);
  }

  lemma {:induction false} LazyNameSound(s: string, q: nat, n: nat)
    requires q <= |s| && 1 <= n && q + n - 1 <= |s|
    requires NoLineTerminator(s[q..q + n - 1])
    ensures var r := LazyName(s, q, n);
      r.Some? ==> ValidTail(s, r.value)
    decreases |s| - (q + n)
  {
    if q + n <= |s| && !IsLineTerminator(s[q + n - 1]) {
      CleanExtends(s, q, q + n - 1);
      if DashTail(s, q + n).Some? || q + n == |s| {
        LazyNameStops(s, q, n);
        StopTailValid(s, q, q + n);
      } else {
        LazyNameSound(s, q, n + 1);
        LazyNameSoundStep(s, q, n);
      }
    } else {
      LazyNameEnds(s, q, n);
    }
  }

  /** A clean stretch followed by a character that is no line terminator is one character longer. */
  lemma CleanExtends(s: string, a: nat, b: nat)
    requires a <= b < |s| && NoLineTerminator(s[a..b]) && !IsLineTerminator(s[b])
    ensures NoLineTerminator(s[a..b + 1])
  {
    var t := s[a..b + 1];
    forall k | 0 <= k < |t| ensures !IsLineTerminator(t[k]) {
      if k < b - a {
        assert t[k] == s[a..b][k];
      } else {
        assert t[k] == s[b];
      }
    }
  }

  /** The name cannot run past the end of the line or over a line terminator. */
  lemma LazyNameEnds(s: string, q: nat, n: nat)
    requires q <= |s| && 1 <= n
    requires q + n > |s| || IsLineTerminator(s[q + n - 1])
    ensures LazyName(s, q, n).None?
  {
  }

  /** The part of `ValidSpans` from the start of the name on. */
  predicate ValidTail(s: string, sp: Spans) {
    && sp.nameStart < sp.nameEnd <= |s|
    && NoLineTerminator(s[sp.nameStart..sp.nameEnd])
    && (sp.detailsStart.None? ==> sp.nameEnd == |s|)
    && (sp.detailsStart.Some? ==>
          && sp.nameEnd < sp.detailsStart.value < |s|
          && DashSeparatorAt(s, sp.nameEnd, sp.detailsStart.value)
          && NoLineTerminator(s[sp.detailsStart.value..]))
  }

  lemma {:induction false} AfterDotSound(s: string, p: nat, k: nat)
    requires p + k <= |s| && AllSpace(s[p..p + k])
    ensures var r := AfterDot(s, p, k);
      r.Some? ==> ValidTail(s, r.value) && AllSpace(s[p..r.value.nameStart])
    decreases k
  {
    LazyNameSound(s, p + k, 1);
    if LazyName(s, p + k, 1).None? && k > 0 {
      assert s[p..p + (k - 1)] == s[p..p + k][..k - 1];
      AfterDotSound(s, p, k - 1);
    }
  }

  /** Every match the matcher reports splits the line as the pattern says. */
  lemma LineSpansSound(s: string)
    ensures LineSpans(s).Some? ==> ValidSpans(s, LineSpans(s).value)
  {
    var d := DigitRun(s, 0);
    if 0 < d < |s| && s[d] == '.' {
      SpaceRunIsSpace(s, d + 1);
      AfterDotSound(s, d + 1, SpaceRun(s, d + 1));
    }
  }

  // Completeness: every line with the shape of the pattern is matched.

  lemma {:induction false} GreedyTailComplete(s: string, a: nat, w: nat, w0: nat)
    requires w0 <= w && a + w <= |s|
    requires a + w0 < |s| && NoLineTerminator(s[a + w0..])
    ensures GreedyTail(s, a, w).Some?
    decreases w
  {
    if !(a + w < |s| && NoLineTerminator(s[a + w..])) {
      if w == w0 {
        assert false;
      }
      GreedyTailComplete(s, a, w - 1, w0);
    }
  }

  lemma DashTailComplete(s: string, e: nat, r: nat)
    requires e < r < |s| && DashSeparatorAt(s, e, r) && NoLineTerminator(s[r..])
    ensures DashTail(s, e).Some?
  {
    var w1 := SpaceRun(s, e);
    var a := e + w1 + 1;
    var w := SpaceRun(s, a);
    var w0 := r - a;
    GreedyTailComplete(s, a, w, w0);
  }

  lemma {:induction false} LazyNameComplete(s: string, q: nat, n: nat, e: nat)
    requires 1 <= n && q + n <= e <= |s|
    requires NoLineTerminator(s[q..e])
    requires DashTail(s, e).Some? || e == |s|
    ensures LazyName(s, q, n).Some?
    decreases e - (q + n)
  {
    assert s[q + n - 1] == s[q..e][n - 1];
    if q + n == e || DashTail(s, q + n).Some? {
      LazyNameStops(s, q, n);
    } else {
      LazyNameGrows(s, q, n);
      LazyNameComplete(s, q, n + 1, e);
    }
  }

  /** A name of `n` characters followed by a separator and details, or by the end of the line, is taken. */
  lemma LazyNameStops(s: string, q: nat, n: nat)
    requires 1 <= n && q + n <= |s| && !IsLineTerminator(s[q + n - 1])
    requires DashTail(s, q + n).Some? || q + n == |s|
    ensures LazyName(s, q, n) == Some(Spans(q, q + n, DashTail(s, q + n)))
  {
  }

  /** A name of `n` characters followed by neither is extended by one character. */
  lemma LazyNameGrows(s: string, q: nat, n: nat)
    requires 1 <= n && q + n < |s| && !IsLineTerminator(s[q + n - 1])
    requires DashTail(s, q + n).None?
    ensures LazyName(s, q, n) == LazyName(s, q, n + 1)
  {
  }

  lemma {:induction false} AfterDotComplete(s: string, p: nat, k: nat, q: nat)
    requires p <= q <= p + k <= |s|
    requires LazyName(s, q, 1).Some?
    ensures AfterDot(s, p, k).Some?
    decreases k
  {
    if LazyName(s, p + k, 1).None? {
      if p + k == q {
        assert false;
      }
      AfterDotComplete(s, p, k - 1, q);
    }
  }

  /** A line with the shape of the pattern is matched, whatever split witnesses it. */
  lemma LineSpansComplete(s: string, sp: Spans)
    requires ValidSpans(s, sp)
    ensures LineSpans(s).Some?
  {
    var p := DigitRun(s, 0) + 1;
    var k := SpaceRun(s, p);
    SpaceRunCovers(s, p, sp.nameStart);
    if sp.detailsStart.Some? {
      DashTailComplete(s, sp.nameEnd, sp.detailsStart.value);
    }
    LazyNameComplete(s, sp.nameStart, 1, sp.nameEnd);
    AfterDotComplete(s, p, k, sp.nameStart);
  }

  /** A stretch of white space from `i` lies within the longest run from `i`. */
  lemma SpaceRunCovers(s: string, i: nat, j: nat)
    requires i <= j <= |s| && AllSpace(s[i..j])
    ensures j <= i + SpaceRun(s, i)
  {
  }

  /**
   * The numbered-line pattern matches a line exactly when the line has its
   * shape, and the groups it captures are the name and the details of such a
   * split.
   */
  lemma MatchIffShape(s: string)
    ensures MatchNumberedLine(s).Some? <==> exists sp :: ValidSpans(s, sp)
    ensures MatchNumberedLine(s).Some? ==>
      exists sp :: ValidSpans(s, sp)
        && MatchNumberedLine(s).value.name == s[sp.nameStart..sp.nameEnd]
        && MatchNumberedLine(s).value.details == (if sp.detailsStart.Some? then Some(s[sp.detailsStart.value..]) else None)
  {
    LineSpansSound(s);
    if exists sp :: ValidSpans(s, sp) {
      var sp :| ValidSpans(s, sp);
      LineSpansComplete(s, sp);
    }
  }

  /**
   * The lazy name ends at the first position where the rest of the line reads
   * as a separator followed by details: no shorter name would do.
   */
  lemma {:induction false} LazyNameShortest(s: string, q: nat, n: nat)
    requires q <= |s| && 1 <= n
    ensures var r := LazyName(s, q, n);
      r.Some? ==> forall e :: q + n <= e < r.value.nameEnd ==> e < |s| && DashTail(s, e).None?
    decreases |s| - (q + n)
  {
    if q + n <= |s| && !IsLineTerminator(s[q + n - 1]) && DashTail(s, q + n).None? && q + n < |s| {
      LazyNameShortest(s, q, n + 1);
    }
  }

  lemma {:induction false} AfterDotShortest(s: string, p: nat, k: nat)
    requires p + k <= |s|
    ensures var r := AfterDot(s, p, k);
      r.Some? ==> forall e :: r.value.nameStart < e < r.value.nameEnd ==> DashTail(s, e).None?
    decreases k
  {
    LazyNameShortest(s, p + k, 1);
    if LazyName(s, p + k, 1).None? && k > 0 {
      AfterDotShortest(s, p, k - 1);
    }
  }

  /**
   * The name group is lazy: no position strictly inside the captured name is
   * followed by a dash separator and details reaching the end of the line.
   */
  lemma NameEndsAtFirstSeparator(s: string)
    ensures var r := LineSpans(s);
      r.Some? ==> forall e, t :: r.value.nameStart < e < t < |s| ==>
        e < r.value.nameEnd ==> !(DashSeparatorAt(s, e, t) && NoLineTerminator(s[t..]))
  {
    var d := DigitRun(s, 0);
    if 0 < d < |s| && s[d] == '.' {
      var p := d + 1;
      AfterDotShortest(s, p, SpaceRun(s, p));
      var r := LineSpans(s);
      if r.Some? {
        forall e, t | r.value.nameStart < e < t < |s| && e < r.value.nameEnd
          ensures !(DashSeparatorAt(s, e, t) && NoLineTerminator(s[t..]))
        {
          if DashSeparatorAt(s, e, t) && NoLineTerminator(s[t..]) {
            DashTailComplete(s, e, t);
          }
        }
      }
    }
  }

  /** Only a line whose first character is a digit can match: an indented number does not. */
  lemma MatchStartsWithDigit(s: string)
    ensures MatchNumberedLine(s).Some? ==> |s| > 0 && IsDigit(s[0])
  {
    LineSpansSound(s);
  }

  /** A line that ends in a line terminator (a CRLF line keeps its `\r`) never matches. */
  lemma TerminatedLineNeverMatches(s: string)
    requires |s| > 0 && IsLineTerminator(s[|s| - 1])
    ensures MatchNumberedLine(s).None?
  {
    MatchedLineEndsClean(s);
  }

  /** The last character of a matched line belongs to a `.+` group, so it is no line terminator. */
  lemma MatchedLineEndsClean(s: string)
    ensures LineSpans(s).Some? ==> |s| > 0 && !IsLineTerminator(s[|s| - 1])
  {
    LineSpansSound(s);
    var r := LineSpans(s);
    if r.Some? {
      var sp := r.value;
      if sp.detailsStart.Some? {
        LastOfClean(s, sp.detailsStart.value, |s|);
      } else {
        LastOfClean(s, sp.nameStart, sp.nameEnd);
      }
    }
  }

  lemma LastOfClean(s: string, a: nat, b: nat)
    requires a < b == |s| && NoLineTerminator(s[a..b])
    ensures !IsLineTerminator(s[|s| - 1])
  {
    assert s[a..b][b - 1 - a] == s[|s| - 1];
  }

  /**
   * The lazy name stops at the first hyphen: whatever follows `1. Push-`, as
   * long as it is a line that does not start with white space, the name
   * captured is `Push` and the details are the rest.
   */
  lemma HyphenatedNameIsCut(rest: string)
    requires |rest| > 0 && !IsSpace(rest[0]) && NoLineTerminator(rest)
    ensures MatchNumberedLine("1. Push-" + rest) == Some(LineMatch("Push", Some(rest)))
  {
    var s := "1. Push-" + rest;
    PushPrefix(rest);
    PushNameFound(s);
    HyphenLineStart(s);
    AfterDotTakes(s, 2, 1);
  }

  lemma PushPrefix(rest: string)
    ensures var s := "1. Push-" + rest;
      && s[0] == '1' && s[1] == '.' && s[2] == ' ' && s[3] == 'P'
      && s[4] == 'u' && s[5] == 's' && s[6] == 'h' && s[7] == '-'
      && s[8..] == rest && s[3..7] == "Push"
  {
  }

  /** `Push` is cut at its hyphen: the lazy name grows over `Push` and stops there. */
  lemma PushNameFound(s: string)
    requires |s| > 8 && s[3] == 'P' && s[4] == 'u' && s[5] == 's' && s[6] == 'h' && s[7] == '-'
    requires !IsSpace(s[8]) && NoLineTerminator(s[8..])
    ensures LazyName(s, 3, 1) == Some(Spans(3, 7, Some(8)))
  {
    DashTailAtLetter(s, 4);
    LazyNameGrows(s, 3, 1);
    DashTailAtLetter(s, 5);
    LazyNameGrows(s, 3, 2);
    DashTailAtLetter(s, 6);
    LazyNameGrows(s, 3, 3);
    DashTailAtDash(s, 7);
    LazyNameStops(s, 3, 4);
  }

  lemma HyphenLineStart(s: string)
    requires |s| > 3 && s[0] == '1' && s[1] == '.' && s[2] == ' ' && !IsSpace(s[3])
    ensures LineSpans(s) == AfterDot(s, 2, 1)
  {
    assert DigitRun(s, 1) == 0;
    assert SpaceRun(s, 3) == 0;
  }

  /** A hyphenated name, as in the line `1. Push-ups - 3 sets x 15 reps`, is cut at its hyphen: the name is `Push`. */
  lemma HyphenNameIsPush(line: string)
    requires line == "1. Push-ups - 3 sets x 15 reps"
    ensures MatchNumberedLine(line) == Some(LineMatch("Push", Some("ups - 3 sets x 15 reps")))
  {
    var rest := "ups - 3 sets x 15 reps";
    assert NoLineTerminator(rest);
    assert line == "1. Push-" + rest;
    HyphenatedNameIsCut(rest);
  }

  /** A name found after `k` characters of white space is taken: shorter runs are not tried. */
  lemma AfterDotTakes(s: string, p: nat, k: nat)
    requires p + k <= |s| && LazyName(s, p + k, 1).Some?
    ensures AfterDot(s, p, k) == LazyName(s, p + k, 1)
  {
  }

  /** A dash directly followed by details that reach the end of the line completes the optional group. */
  lemma DashTailAtDash(s: string, e: nat)
    requires e + 1 < |s| && s[e] == '-' && !IsSpace(s[e + 1]) && NoLineTerminator(s[e + 1..])
    ensures DashTail(s, e) == Some(e + 1)
  {
  }

  /** Neither white space nor a dash: the optional group cannot start here. */
  lemma DashTailAtLetter(s: string, e: nat)
    requires e < |s| && !IsSpace(s[e]) && s[e] != '-'
    ensures DashTail(s, e).None?
  {
  }

  // ---------------------------------------------------------------------
  // Case-insensitive literals (the `i` flag, without the `u` flag: only
  // ASCII letters compare equal to an ASCII letter of the other case).
  // ---------------------------------------------------------------------

  predicate CiChar(c: char, lower: char) {
    c == lower || ('a' <= lower <= 'z' && c as int == lower as int - 32)
  }

  /** `word`, in lower case, occurs at position `i` up to the case of its letters. */
  predicate CiWordAt(s: string, i: nat, word: string) {
    i + |word| <= |s| && forall k {:trigger word[k]} :: 0 <= k < |word| ==> CiChar(s[i + k], word[k])
  }

  predicate AllDigits(t: string) {
    forall k :: 0 <= k < |t| ==> IsDigit(t[k])
  }

  lemma DigitRunIsDigits(s: string, i: nat)
    requires i <= |s|
    ensures AllDigits(s[i..i + DigitRun(s, i)])
  {
    DigitRunDigits(s, i);
    var t := s[i..i + DigitRun(s, i)];
    assert forall k :: 0 <= k < |t| ==> t[k] == s[i + k];
  }

  /** A stretch of digits from `a` that stops before a character that is not one: the run from `a`. */
  lemma {:induction false} DigitRunExact(s: string, a: nat, b: nat)
    requires a <= b <= |s| && AllDigits(s[a..b]) && (b == |s| || !IsDigit(s[b]))
    ensures DigitRun(s, a) == b - a
    decreases b - a
  {
    if a < b {
      assert IsDigit(s[a..b][0]);
      assert s[a + 1..b] == s[a..b][1..];
      DigitRunExact(s, a + 1, b);
    }
  }

  /** A character that stands for a lower-case letter is neither white space nor a digit, nor another letter. */
  /** The digit run from `i` ends at `j`: what lies between is digits. */
  lemma DigitRunTo(s: string, i: nat, j: nat)
    requires i <= |s| && j == i + DigitRun(s, i)
    ensures AllDigits(s[i..j])
  {
    DigitRunIsDigits(s, i);
  }

  lemma CiLetter(c: char, lower: char)
    requires 'a' <= lower <= 'z' && CiChar(c, lower)
    ensures !IsSpace(c) && !IsDigit(c)
    ensures forall other :: 'a' <= other <= 'z' && other != lower ==> !CiChar(c, other)
  {
  }

  // ---------------------------------------------------------------------
  // /(\d+)\s*sets?\s*x\s*(\d+)\s*reps?/i   (openai.ts, sets and reps)
  // ---------------------------------------------------------------------

  datatype SetsReps = SetsReps(sets: string, reps: string)

  /**
   * An attempt anchored at `i`. No quantifier here can succeed with a shorter
   * choice than its longest: a shorter `\d+` leaves a digit, a shorter `\s*` a
   * space, where a letter is required; and not taking the optional `s` of
   * `sets?` leaves that `s` where `\s*x` is required. The final `s?` always
   * succeeds.
   */
  function SetsRepsAt(s: string, i: nat): (r: Option<SetsReps>)
    requires i <= |s|
    ensures r.Some? ==> |r.value.sets| > 0 && AllDigits(r.value.sets) && |r.value.reps| > 0 && AllDigits(r.value.reps)
    ensures r.Some? ==> exists c :: i < c < |s| && CiChar(s[c], 'x')
  {
    match SetsThenX(s, i)
    case None => None
    case Some(c) =>
      match RepsAfterX(s, c)
      case None => None
      case Some(reps) =>
        DigitRunIsDigits(s, i);
        Some(SetsReps(s[i..i + DigitRun(s, i)], reps))
  }

  /** The part of the pattern up to its `x`: `(\d+)\s*sets?\s*x`, answering where the `x` is. */
  function SetsThenX(s: string, i: nat): (c: Option<nat>)
    requires i <= |s|
    ensures c.Some? ==> DigitRun(s, i) > 0 && i < c.value < |s| && CiChar(s[c.value], 'x')
  {
    var j := i + DigitRun(s, i);
    if j == i then None else SetThenX(s, j + SpaceRun(s, j))
  }

  /** `sets?\s*x` at `a`; `s?` takes its `s` when there is one. */
  function SetThenX(s: string, a: nat): (c: Option<nat>)
    requires a <= |s|
    ensures c.Some? ==> a < c.value < |s| && CiChar(s[c.value], 'x')
  {
    if !CiWordAt(s, a, "set") then None
    else XAfterSpace(s, if a + 3 < |s| && CiChar(s[a + 3], 's') then a + 4 else a + 3)
  }

  /** `\s*x` at `b`. */
  function XAfterSpace(s: string, b: nat): (c: Option<nat>)
    requires b <= |s|
    ensures c.Some? ==> b <= c.value < |s| && CiChar(s[c.value], 'x')
  {
    var c := b + SpaceRun(s, b);
    if c < |s| && CiChar(s[c], 'x') then Some(c) else None
  }

  /** The part of the pattern after its `x`: `\s*(\d+)\s*reps?`, the `x` being at `c`. */
  function RepsAfterX(s: string, c: nat): (r: Option<string>)
    requires c < |s|
    ensures r.Some? ==> |r.value| > 0 && AllDigits(r.value)
  {
    DigitsThenRep(s, c + 1 + SpaceRun(s, c + 1))
  }

  /** `(\d+)\s*reps?` at `e`, answering the digits. */
  function DigitsThenRep(s: string, e: nat): (r: Option<string>)
    requires e <= |s|
    ensures r.Some? ==> |r.value| > 0 && AllDigits(r.value)
  {
    var g := e + DigitRun(s, e);
    if g == e || !RepAfterSpace(s, g) then None
    else
      DigitRunIsDigits(s, e);
      Some(s[e..g])
  }

  /** `\s*reps?` at `g`; the final `s?` always matches. */
  predicate RepAfterSpace(s: string, g: nat)
    requires g <= |s|
  {
    CiWordAt(s, g + SpaceRun(s, g), "rep")
  }

  /** The first attempt that succeeds, scanning start positions from `i` on. */
  function SetsRepsFrom(s: string, i: nat): (r: Option<SetsReps>)
    requires i <= |s|
    ensures r.Some? ==> |r.value.sets| > 0 && AllDigits(r.value.sets) && |r.value.reps| > 0 && AllDigits(r.value.reps)
    ensures r.Some? ==> exists c :: i < c < |s| && CiChar(s[c], 'x')
    decreases |s| - i
  {
    if i == |s| then None
    else
      match SetsRepsAt(s, i)
      case Some(m) => Some(m)
      case None => SetsRepsFrom(s, i + 1)
  }

  /** `details.match(/(\d+)\s*sets?\s*x\s*(\d+)\s*reps?/i)`: both groups, or no match. */
  function FindSetsReps(s: string): Option<SetsReps> {
    SetsRepsFrom(s, 0)
  }

  /** Only the letter x, in either case, separates sets from reps: `3 sets × 15 reps` does not match. */
  lemma SetsRepsNeedX(s: string)
    requires forall k {:trigger CiChar(s[k], 'x')} :: 0 <= k < |s| ==> !CiChar(s[k], 'x')
    ensures FindSetsReps(s).None?
  {
  }

  /**
   * Where the pieces of a text the pattern matches from `i` lie: the first
   * digits end at `digitsEnd`, `set` starts at `setWord`, the optional `s`
   * of `sets?` ends at `afterSet`, the `x` is at `xAt`, the second digits are
   * `repsStart..repsEnd`, and `rep` starts at `repWord`.
   */
  datatype SetsRepsSpans = SetsRepsSpans(
    digitsEnd: nat, setWord: nat, afterSet: nat, xAt: nat,
    repsStart: nat, repsEnd: nat, repWord: nat)

  /**
   * `(\d+)\s*sets?\s*x` from `i`: digits up to `j`, white space up to `a`,
   * `set` at `a` and its optional `s` up to `b`, white space up to the `x` at `c`.
   */
  predicate SetsPart(s: string, i: nat, j: nat, a: nat, b: nat, c: nat) {
    && i < j <= a && a + 3 <= b <= c < |s|
    && AllDigits(s[i..j]) && AllSpace(s[j..a])
    && CiWordAt(s, a, "set")
    && (b == a + 3 || (b == a + 4 && CiChar(s[a + 3], 's')))
    && AllSpace(s[b..c]) && CiChar(s[c], 'x')
  }

  /**
   * `\s*(\d+)\s*rep` after the `x` at `c`: white space up to `e`, digits up
   * to `g`, white space up to `rep` at `f`. The final `s?` always matches.
   */
  predicate RepsPart(s: string, c: nat, e: nat, g: nat, f: nat) {
    && c < e < g <= f && f + 3 <= |s|
    && AllSpace(s[c + 1..e]) && AllDigits(s[e..g])
    && AllSpace(s[g..f]) && CiWordAt(s, f, "rep")
  }

  /** The text from `i` on starts with what the sets-and-reps pattern matches, split as `w` says. */
  predicate SetsRepsShape(s: string, i: nat, w: SetsRepsSpans) {
    && SetsPart(s, i, w.digitsEnd, w.setWord, w.afterSet, w.xAt)
    && RepsPart(s, w.xAt, w.repsStart, w.repsEnd, w.repWord)
  }

  lemma WordStart(s: string, i: nat, word: string)
    requires CiWordAt(s, i, word) && |word| > 0
    ensures CiChar(s[i], word[0])
  {
    assert s[i + 0] == s[i];
  }

  lemma DigitIn(s: string, a: nat, b: nat, k: nat)
    requires a <= k < b <= |s| && AllDigits(s[a..b])
    ensures IsDigit(s[k])
  {
    assert s[a..b][k - a] == s[k];
  }

  /** White space and digits stand for no letter. */
  lemma NotLetter(c: char, lower: char)
    requires 'a' <= lower <= 'z' && (IsSpace(c) || IsDigit(c))
    ensures !CiChar(c, lower)
  {
  }

  /** `sets?` takes its `s` whenever one follows `set`: leaving it would put it where `\s*x` is required. */
  lemma AfterSetIsGreedy(s: string, i: nat, j: nat, a: nat, b: nat, c: nat)
    requires SetsPart(s, i, j, a, b, c)
    ensures b == if a + 3 < |s| && CiChar(s[a + 3], 's') then a + 4 else a + 3
  {
    if b == a + 3 {
      if a + 3 < c {
        SpaceIn(s, a + 3, c, a + 3);
        NotLetter(s[a + 3], 's');
      } else {
        CiLetter(s[c], 'x');
      }
    }
  }

  lemma SetsThenXStep(s: string, i: nat, j: nat, a: nat)
    requires i < j <= a <= |s| && DigitRun(s, i) == j - i && SpaceRun(s, j) == a - j
    ensures SetsThenX(s, i) == SetThenX(s, a)
  {
  }

  lemma SetThenXStep(s: string, a: nat, b: nat)
    requires a <= |s| && CiWordAt(s, a, "set")
    requires b == if a + 3 < |s| && CiChar(s[a + 3], 's') then a + 4 else a + 3
    ensures SetThenX(s, a) == XAfterSpace(s, b)
  {
  }

  lemma XAfterSpaceStep(s: string, b: nat, c: nat)
    requires b <= c < |s| && SpaceRun(s, b) == c - b
    ensures XAfterSpace(s, b) == if CiChar(s[c], 'x') then Some(c) else None
  {
  }

  /** Each piece of the first half is as long as the matcher's longest choice for it. */
  lemma SetsThenXComplete(s: string, i: nat, j: nat, a: nat, b: nat, c: nat)
    requires SetsPart(s, i, j, a, b, c)
    ensures DigitRun(s, i) == j - i && SetsThenX(s, i) == Some(c)
  {
    WordStart(s, a, "set");
    CiLetter(s[a], 's');
    if j < a {
      SpaceIn(s, j, a, j);
    }
    DigitRunExact(s, i, j);
    SpaceRunExact(s, j, a);
    AfterSetIsGreedy(s, i, j, a, b, c);
    CiLetter(s[c], 'x');
    SpaceRunExact(s, b, c);
    XAfterSpaceStep(s, b, c);
    SetThenXStep(s, a, b);
    SetsThenXStep(s, i, j, a);
  }

  lemma RepsAfterXComplete(s: string, c: nat, e: nat, g: nat, f: nat)
    requires RepsPart(s, c, e, g, f)
    ensures RepsAfterX(s, c) == Some(s[e..g])
  {
    DigitIn(s, e, g, e);
    SpaceRunExact(s, c + 1, e);
    WordStart(s, f, "rep");
    CiLetter(s[f], 'r');
    if g < f {
      SpaceIn(s, g, f, g);
    }
    DigitRunExact(s, e, g);
    SpaceRunExact(s, g, f);
    RepAfterSpaceStep(s, g, f);
    DigitsThenRepStep(s, e, g);
    RepsAfterXStep(s, c, e);
  }

  lemma RepsAfterXStep(s: string, c: nat, e: nat)
    requires c < e <= |s| && SpaceRun(s, c + 1) == e - c - 1
    ensures RepsAfterX(s, c) == DigitsThenRep(s, e)
  {
  }

  lemma DigitsThenRepStep(s: string, e: nat, g: nat)
    requires e <= g <= |s| && DigitRun(s, e) == g - e
    ensures DigitsThenRep(s, e) == if g == e || !RepAfterSpace(s, g) then None else Some(s[e..g])
  {
  }

  lemma RepAfterSpaceStep(s: string, g: nat, f: nat)
    requires g <= f <= |s| && SpaceRun(s, g) == f - g
    ensures RepAfterSpace(s, g) == CiWordAt(s, f, "rep")
  {
  }

  /** An attempt at `i` on text of the pattern's shape succeeds, and captures the two digit runs of that shape. */
  lemma SetsRepsAtComplete(s: string, i: nat, w: SetsRepsSpans)
    requires SetsRepsShape(s, i, w)
    ensures SetsRepsAt(s, i) == Some(SetsReps(s[i..w.digitsEnd], s[w.repsStart..w.repsEnd]))
  {
    SetsThenXComplete(s, i, w.digitsEnd, w.setWord, w.afterSet, w.xAt);
    RepsAfterXComplete(s, w.xAt, w.repsStart, w.repsEnd, w.repWord);
    SetsRepsAtStep(s, i, w.digitsEnd, w.xAt, s[w.repsStart..w.repsEnd]);
  }

  lemma SetsRepsAtStep(s: string, i: nat, j: nat, c: nat, reps: string)
    requires i <= |s| && DigitRun(s, i) == j - i && SetsThenX(s, i) == Some(c) && c < |s| && RepsAfterX(s, c) == Some(reps)
    ensures SetsRepsAt(s, i) == Some(SetsReps(s[i..j], reps))
  {
    assert i + DigitRun(s, i) == j;
  }

  /** The runs the matcher takes from `i` up to the `x` at `c` split the text as `SetsPart` says. */
  lemma SetsPartOfRuns(s: string, i: nat, j: nat, a: nat, b: nat, c: nat)
    requires i <= |s| && j == i + DigitRun(s, i) && i < j && a == j + SpaceRun(s, j) && CiWordAt(s, a, "set")
    requires b == (if a + 3 < |s| && CiChar(s[a + 3], 's') then a + 4 else a + 3)
    requires c == b + SpaceRun(s, b) && c < |s| && CiChar(s[c], 'x')
    ensures SetsPart(s, i, j, a, b, c)
  {
    DigitRunTo(s, i, j);
    SpaceRunTo(s, j, a);
    SpaceRunTo(s, b, c);
  }

  lemma SetsThenXSound(s: string, i: nat) returns (j: nat, a: nat, b: nat)
    requires i <= |s| && SetsThenX(s, i).Some?
    ensures SetsPart(s, i, j, a, b, SetsThenX(s, i).value) && j == i + DigitRun(s, i)
  {
    j := i + DigitRun(s, i);
    a := j + SpaceRun(s, j);
    b := if a + 3 < |s| && CiChar(s[a + 3], 's') then a + 4 else a + 3;
    var c := b + SpaceRun(s, b);
    SetsThenXStep(s, i, j, a);
    SetThenXStep(s, a, b);
    XAfterSpaceStep(s, b, c);
    assert i < j && CiWordAt(s, a, "set") && CiChar(s[c], 'x') && SetsThenX(s, i) == Some(c);
    SetsPartOfRuns(s, i, j, a, b, c);
  }

  /** The runs the matcher takes after the `x` at `c` split the text as `RepsPart` says. */
  lemma RepsPartOfRuns(s: string, c: nat, e: nat, g: nat, f: nat)
    requires c < |s| && e == c + 1 + SpaceRun(s, c + 1) && g == e + DigitRun(s, e) && e < g
    requires f == g + SpaceRun(s, g) && CiWordAt(s, f, "rep")
    ensures RepsPart(s, c, e, g, f)
  {
    SpaceRunTo(s, c + 1, e);
    DigitRunTo(s, e, g);
    SpaceRunTo(s, g, f);
  }

  lemma RepsAfterXSound(s: string, c: nat) returns (e: nat, g: nat, f: nat)
    requires c < |s| && RepsAfterX(s, c).Some?
    ensures RepsPart(s, c, e, g, f) && RepsAfterX(s, c).value == s[e..g]
  {
    e := c + 1 + SpaceRun(s, c + 1);
    g := e + DigitRun(s, e);
    f := g + SpaceRun(s, g);
    RepsAfterXStep(s, c, e);
    DigitsThenRepStep(s, e, g);
    RepAfterSpaceStep(s, g, f);
    assert e < g && CiWordAt(s, f, "rep") && RepsAfterX(s, c) == Some(s[e..g]);
    RepsPartOfRuns(s, c, e, g, f);
  }

  /** Where an attempt at `i` succeeds, the split of the text it matched. */
  lemma SetsRepsAtSpans(s: string, i: nat) returns (w: SetsRepsSpans)
    requires i <= |s| && SetsRepsAt(s, i).Some?
    ensures SetsRepsShape(s, i, w) && SetsRepsAt(s, i).value == SetsReps(s[i..w.digitsEnd], s[w.repsStart..w.repsEnd])
  {
    var j, a, b := SetsThenXSound(s, i);
    var c := SetsThenX(s, i).value;
    var e, g, f := RepsAfterXSound(s, c);
    w := SetsRepsSpans(j, a, b, c, e, g, f);
  }

  /** An attempt at `i` succeeds only on text of the pattern's shape, and captures its two digit runs. */
  lemma SetsRepsAtSound(s: string, i: nat)
    requires i <= |s|
    ensures SetsRepsAt(s, i).Some? ==>
      exists w :: SetsRepsShape(s, i, w) && SetsRepsAt(s, i).value == SetsReps(s[i..w.digitsEnd], s[w.repsStart..w.repsEnd])
  {
    if SetsRepsAt(s, i).Some? {
      var w := SetsRepsAtSpans(s, i);
    }
  }

  /** Where the scan from `i` finds something, the first position whose attempt succeeds. */
  lemma {:induction false} SetsRepsFromFirst(s: string, i: nat) returns (p: nat)
    requires i <= |s| && SetsRepsFrom(s, i).Some?
    ensures i <= p < |s| && SetsRepsAt(s, p) == SetsRepsFrom(s, i) && forall q :: i <= q < p ==> SetsRepsAt(s, q).None?
    decreases |s| - i
  {
    if SetsRepsAt(s, i).Some? {
      p := i;
      SetsRepsFromHere(s, i);
    } else {
      p := SetsRepsFromFirst(s, i + 1);
      SetsRepsFromLater(s, i, p);
    }
  }

  lemma SetsRepsFromHere(s: string, i: nat)
    requires i < |s| && SetsRepsAt(s, i).Some?
    ensures SetsRepsAt(s, i) == SetsRepsFrom(s, i)
  {
  }

  lemma SetsRepsFromLater(s: string, i: nat, p: nat)
    requires i < p < |s| && SetsRepsAt(s, i).None?
    requires SetsRepsAt(s, p) == SetsRepsFrom(s, i + 1) && forall q :: i + 1 <= q < p ==> SetsRepsAt(s, q).None?
    ensures SetsRepsAt(s, p) == SetsRepsFrom(s, i) && forall q :: i <= q < p ==> SetsRepsAt(s, q).None?
  {
    SetsRepsFromSkip(s, i);
    forall q | i <= q < p
      ensures SetsRepsAt(s, q).None?
    {
      if q == i {
      }
    }
  }

  lemma SetsRepsFromSkip(s: string, i: nat)
    requires i < |s| && SetsRepsAt(s, i).None?
    ensures SetsRepsFrom(s, i) == SetsRepsFrom(s, i + 1)
  {
  }

  /** The scan from `i` returns the attempt at the first position where one succeeds. */
  lemma SetsRepsFromLeftmost(s: string, i: nat)
    requires i <= |s|
    ensures var r := SetsRepsFrom(s, i);
      r.Some? ==> exists p :: i <= p < |s| && SetsRepsAt(s, p) == r && forall q :: i <= q < p ==> SetsRepsAt(s, q).None?
  {
    if SetsRepsFrom(s, i).Some? {
      var p := SetsRepsFromFirst(s, i);
    }
  }

  /** The scan from `i` finds something when an attempt at some later position succeeds. */
  lemma {:induction false} SetsRepsFromFinds(s: string, i: nat, p: nat)
    requires i <= p < |s| && SetsRepsAt(s, p).Some?
    ensures SetsRepsFrom(s, i).Some?
    decreases p - i
  {
    if SetsRepsAt(s, i).None? {
      SetsRepsFromFinds(s, i + 1, p);
    }
  }

  /** No position before `p` starts a text of the pattern's shape. */
  ghost predicate NoSetsRepsBefore(s: string, p: nat) {
    forall q, w :: 0 <= q < p ==> !SetsRepsShape(s, q, w)
  }

  /** Where no attempt before `p` succeeds, no text of the shape starts before `p`. */
  lemma NoSetsRepsBeforeOf(s: string, p: nat)
    requires p <= |s| && forall q :: 0 <= q < p ==> SetsRepsAt(s, q).None?
    ensures NoSetsRepsBefore(s, p)
  {
    forall q, v | 0 <= q < p ensures !SetsRepsShape(s, q, v) {
      if SetsRepsShape(s, q, v) {
        SetsRepsAtComplete(s, q, v);
      }
    }
  }

  /**
   * `match` finds the leftmost text of the pattern's shape: the captures
   * returned are the digit runs of a shape at `p`, and none starts earlier.
   */
  lemma FindSetsRepsLeftmost(s: string)
    ensures FindSetsReps(s).Some? ==>
      exists p: nat, w :: SetsRepsShape(s, p, w) && NoSetsRepsBefore(s, p)
        && FindSetsReps(s).value == SetsReps(s[p..w.digitsEnd], s[w.repsStart..w.repsEnd])
  {
    if FindSetsReps(s).Some? {
      var p, w := FindSetsRepsSpans(s);
    }
  }

  /** Where `match` finds something, the position and the split of the leftmost text of the shape. */
  lemma FindSetsRepsSpans(s: string) returns (p: nat, w: SetsRepsSpans)
    requires FindSetsReps(s).Some?
    ensures SetsRepsShape(s, p, w) && NoSetsRepsBefore(s, p) && FindSetsReps(s).value == SetsReps(s[p..w.digitsEnd], s[w.repsStart..w.repsEnd])
  {
    p := SetsRepsFromFirst(s, 0);
    w := SetsRepsAtSpans(s, p);
    NoSetsRepsBeforeOf(s, p);
  }

  /** Text of the pattern's shape anywhere in `s` is found. */
  lemma FindSetsRepsComplete(s: string, p: nat, w: SetsRepsSpans)
    requires SetsRepsShape(s, p, w)
    ensures FindSetsReps(s).Some?
  {
    SetsRepsAtComplete(s, p, w);
    SetsRepsFromFinds(s, 0, p);
  }

  // ---------------------------------------------------------------------
  // /(\d+)\s*(min|minutes|sec|seconds)/i   (openai.ts, duration)
  // ---------------------------------------------------------------------

  datatype Duration = Duration(amount: string, unit: string)

  /**
   * An attempt anchored at `i`: the alternatives are tried from left to right,
   * so `min` is taken before `minutes` and `sec` before `seconds`.
   */
  function DurationAt(s: string, i: nat): (r: Option<Duration>)
    requires i <= |s|
    ensures r.Some? ==> |r.value.amount| > 0 && AllDigits(r.value.amount)
    ensures r.Some? ==> ShortUnit(r.value.unit)
  {
    var d := DigitRun(s, i);
    var a := i + d + SpaceRun(s, i + d);
    if d == 0 then None
    else
      match UnitAt(s, a)
      case None => None
      case Some(n) =>
        DigitRunIsDigits(s, i);
        UnitIsShort(s, a);
        Some(Duration(s[i..i + d], s[a..a + n]))
  }

  /** `min` or `sec` in any case of its letters: never `minutes` or `seconds`. */
  predicate ShortUnit(unit: string) {
    |unit| == 3 && (CiWordAt(unit, 0, "min") || CiWordAt(unit, 0, "sec"))
  }

  /** The alternation `(min|minutes|sec|seconds)` at `a`: the length of the first alternative that matches. */
  function UnitAt(s: string, a: nat): (n: Option<nat>)
    requires a <= |s|
    ensures n.Some? ==> a + n.value <= |s|
  {
    if CiWordAt(s, a, "min") then Some(3)
    else if CiWordAt(s, a, "minutes") then Some(7)
    else if CiWordAt(s, a, "sec") then Some(3)
    else if CiWordAt(s, a, "seconds") then Some(7)
    else None
  }

  /**
   * The longer alternatives are never reached: each starts with the shorter
   * one tried before it, so what `UnitAt` measures is a short unit.
   */
  lemma UnitIsShort(s: string, a: nat)
    requires a <= |s| && UnitAt(s, a).Some?
    ensures UnitAt(s, a).value == 3 && ShortUnit(s[a..a + 3])
  {
    assert "minutes"[..3] == "min" && "seconds"[..3] == "sec";
    CiWordPrefix(s, a, "minutes", 3);
    CiWordPrefix(s, a, "seconds", 3);
    if CiWordAt(s, a, "min") {
      CiWordInSlice(s, a, "min");
    } else {
      CiWordInSlice(s, a, "sec");
    }
  }

  /** The leftmost attempt that succeeds; its unit is short too, whatever the text says after it. */
  function DurationFrom(s: string, i: nat): (r: Option<Duration>)
    requires i <= |s|
    ensures r.Some? ==> |r.value.amount| > 0 && AllDigits(r.value.amount)
    ensures r.Some? ==> ShortUnit(r.value.unit)
    decreases |s| - i
  {
    if i == |s| then None
    else
      match DurationAt(s, i)
      case Some(m) => Some(m)
      case None => DurationFrom(s, i + 1)
  }

  /** `details.match(/(\d+)\s*(min|minutes|sec|seconds)/i)`: both groups, or no match. */
  function FindDuration(s: string): Option<Duration> {
    DurationFrom(s, 0)
  }

  /** One of the four alternatives of `(min|minutes|sec|seconds)` occurs at `a`. */
  predicate UnitWordAt(s: string, a: nat) {
    CiWordAt(s, a, "min") || CiWordAt(s, a, "minutes") || CiWordAt(s, a, "sec") || CiWordAt(s, a, "seconds")
  }

  /** Where the pieces of a text the duration pattern matches from `i` lie: the digits end at `digitsEnd`, the unit starts at `unitAt`. */
  datatype DurationSpans = DurationSpans(digitsEnd: nat, unitAt: nat)

  /** The text from `i` on starts with what `(\d+)\s*(min|minutes|sec|seconds)` matches, split as `w` says. */
  predicate DurationShape(s: string, i: nat, w: DurationSpans) {
    && i < w.digitsEnd <= w.unitAt && w.unitAt + 3 <= |s|
    && AllDigits(s[i..w.digitsEnd]) && AllSpace(s[w.digitsEnd..w.unitAt])
    && UnitWordAt(s, w.unitAt)
  }

  /** Every unit starts with a letter, which ends both the digit run and the white-space run before it. */
  lemma UnitStartsWithLetter(s: string, a: nat)
    requires UnitWordAt(s, a)
    ensures a + 3 <= |s| && !IsSpace(s[a]) && !IsDigit(s[a]) && UnitAt(s, a).Some?
  {
    if CiWordAt(s, a, "min") || CiWordAt(s, a, "minutes") {
      if CiWordAt(s, a, "min") { WordStart(s, a, "min"); } else { WordStart(s, a, "minutes"); }
      CiLetter(s[a], 'm');
    } else {
      if CiWordAt(s, a, "sec") { WordStart(s, a, "sec"); } else { WordStart(s, a, "seconds"); }
      CiLetter(s[a], 's');
    }
  }

  lemma DurationAtStep(s: string, i: nat, j: nat, a: nat)
    requires i < j <= a <= |s| && DigitRun(s, i) == j - i && SpaceRun(s, j) == a - j
    ensures DurationAt(s, i) == if UnitAt(s, a).None? then None else Some(Duration(s[i..j], s[a..a + UnitAt(s, a).value]))
  {
    assert i + DigitRun(s, i) == j;
    match UnitAt(s, a)
    case None =>
    case Some(n) =>
  }

  /** An attempt at `i` on text of the pattern's shape succeeds, and captures the digits and the three letters the first fitting alternative spans. */
  lemma DurationAtComplete(s: string, i: nat, w: DurationSpans)
    requires DurationShape(s, i, w)
    ensures DurationAt(s, i) == Some(Duration(s[i..w.digitsEnd], s[w.unitAt..w.unitAt + 3]))
  {
    var j, a := w.digitsEnd, w.unitAt;
    UnitStartsWithLetter(s, a);
    if j < a {
      SpaceIn(s, j, a, j);
    }
    DigitRunExact(s, i, j);
    SpaceRunExact(s, j, a);
    UnitIsShort(s, a);
    DurationAtStep(s, i, j, a);
  }

  /** The runs the matcher takes from `i` split the text as `DurationShape` says once a unit follows them. */
  lemma DurationShapeOfRuns(s: string, i: nat, j: nat, a: nat)
    requires i <= |s| && j == i + DigitRun(s, i) && i < j && a == j + SpaceRun(s, j) && UnitWordAt(s, a) && a + 3 <= |s|
    ensures DurationShape(s, i, DurationSpans(j, a))
  {
    DigitRunTo(s, i, j);
    SpaceRunTo(s, j, a);
  }

  /** Where an attempt at `i` succeeds, the split of the text it matched. */
  lemma DurationAtSpans(s: string, i: nat) returns (w: DurationSpans)
    requires i <= |s| && DurationAt(s, i).Some?
    ensures DurationShape(s, i, w) && DurationAt(s, i).value == Duration(s[i..w.digitsEnd], s[w.unitAt..w.unitAt + 3])
  {
    var j := i + DigitRun(s, i);
    var a := j + SpaceRun(s, j);
    DurationAtStep(s, i, j, a);
    UnitIsShort(s, a);
    assert UnitWordAt(s, a);
    UnitStartsWithLetter(s, a);
    DurationShapeOfRuns(s, i, j, a);
    w := DurationSpans(j, a);
  }

  /** An attempt at `i` succeeds only on text of the pattern's shape, and captures its digits and the unit's first three letters. */
  lemma DurationAtSound(s: string, i: nat)
    requires i <= |s|
    ensures DurationAt(s, i).Some? ==>
      exists w :: DurationShape(s, i, w) && DurationAt(s, i).value == Duration(s[i..w.digitsEnd], s[w.unitAt..w.unitAt + 3])
  {
    if DurationAt(s, i).Some? {
      var w := DurationAtSpans(s, i);
    }
  }

  /** Where the scan from `i` finds something, the first position whose attempt succeeds. */
  lemma {:induction false} DurationFromFirst(s: string, i: nat) returns (p: nat)
    requires i <= |s| && DurationFrom(s, i).Some?
    ensures i <= p < |s| && DurationAt(s, p) == DurationFrom(s, i) && forall q :: i <= q < p ==> DurationAt(s, q).None?
    decreases |s| - i
  {
    if DurationAt(s, i).Some? {
      p := i;
      DurationFromHere(s, i);
    } else {
      p := DurationFromFirst(s, i + 1);
      DurationFromLater(s, i, p);
    }
  }

  lemma DurationFromHere(s: string, i: nat)
    requires i < |s| && DurationAt(s, i).Some?
    ensures DurationAt(s, i) == DurationFrom(s, i)
  {
  }

  lemma DurationFromLater(s: string, i: nat, p: nat)
    requires i < p < |s| && DurationAt(s, i).None?
    requires DurationAt(s, p) == DurationFrom(s, i + 1) && forall q :: i + 1 <= q < p ==> DurationAt(s, q).None?
    ensures DurationAt(s, p) == DurationFrom(s, i) && forall q :: i <= q < p ==> DurationAt(s, q).None?
  {
    DurationFromSkip(s, i);
    forall q | i <= q < p
      ensures DurationAt(s, q).None?
    {
      if q == i {
      }
    }
  }

  lemma DurationFromSkip(s: string, i: nat)
    requires i < |s| && DurationAt(s, i).None?
    ensures DurationFrom(s, i) == DurationFrom(s, i + 1)
  {
  }

  /** The scan from `i` returns the attempt at the first position where one succeeds. */
  lemma DurationFromLeftmost(s: string, i: nat)
    requires i <= |s|
    ensures var r := DurationFrom(s, i);
      r.Some? ==> exists p :: i <= p < |s| && DurationAt(s, p) == r && forall q :: i <= q < p ==> DurationAt(s, q).None?
  {
    if DurationFrom(s, i).Some? {
      var p := DurationFromFirst(s, i);
    }
  }

  /** The scan from `i` finds something when an attempt at some later position succeeds. */
  lemma {:induction false} DurationFromFinds(s: string, i: nat, p: nat)
    requires i <= p < |s| && DurationAt(s, p).Some?
    ensures DurationFrom(s, i).Some?
    decreases p - i
  {
    if DurationAt(s, i).None? {
      DurationFromFinds(s, i + 1, p);
    }
  }

  /** No position before `p` starts a text of the duration pattern's shape. */
  ghost predicate NoDurationBefore(s: string, p: nat) {
    forall q, w :: 0 <= q < p ==> !DurationShape(s, q, w)
  }

  /** Where no attempt before `p` succeeds, no text of the shape starts before `p`. */
  lemma NoDurationBeforeOf(s: string, p: nat)
    requires p <= |s| && forall q :: 0 <= q < p ==> DurationAt(s, q).None?
    ensures NoDurationBefore(s, p)
  {
    forall q, v | 0 <= q < p ensures !DurationShape(s, q, v) {
      if DurationShape(s, q, v) {
        DurationAtComplete(s, q, v);
      }
    }
  }

  /**
   * `match` finds the leftmost text of the duration pattern's shape: the
   * captures returned are the digits and the unit's first three letters of a
   * shape at `p`, and none starts earlier.
   */
  lemma FindDurationLeftmost(s: string)
    ensures FindDuration(s).Some? ==>
      exists p: nat, w :: DurationShape(s, p, w) && NoDurationBefore(s, p)
        && FindDuration(s).value == Duration(s[p..w.digitsEnd], s[w.unitAt..w.unitAt + 3])
  {
    if FindDuration(s).Some? {
      var p, w := FindDurationSpans(s);
    }
  }

  /** Where `match` finds something, the position and the split of the leftmost text of the shape. */
  lemma FindDurationSpans(s: string) returns (p: nat, w: DurationSpans)
    requires FindDuration(s).Some?
    ensures DurationShape(s, p, w) && NoDurationBefore(s, p) && FindDuration(s).value == Duration(s[p..w.digitsEnd], s[w.unitAt..w.unitAt + 3])
  {
    p := DurationFromFirst(s, 0);
    w := DurationAtSpans(s, p);
    NoDurationBeforeOf(s, p);
  }

  /** Text of the duration pattern's shape anywhere in `s` is found. */
  lemma FindDurationComplete(s: string, p: nat, w: DurationSpans)
    requires DurationShape(s, p, w)
    ensures FindDuration(s).Some?
  {
    DurationAtComplete(s, p, w);
    DurationFromFinds(s, 0, p);
  }

  /** A word that occurs at `a` also occurs in the slice cut out at `a`. */
  lemma CiWordInSlice(s: string, a: nat, word: string)
    requires CiWordAt(s, a, word)
    ensures CiWordAt(s[a..a + |word|], 0, word)
  {
    var u := s[a..a + |word|];
    assert forall k :: 0 <= k < |u| ==> u[k] == s[a + k];
  }

  /** A word that occurs at `a` carries each of its prefixes there too. */
  lemma CiWordPrefix(s: string, a: nat, word: string, n: nat)
    requires n <= |word|
    ensures CiWordAt(s, a, word) ==> CiWordAt(s, a, word[..n])
  {
  }

  // ---------------------------------------------------------------------
  // text.split(/\n\n|\. /)   (openai.ts, fallback)
  // ---------------------------------------------------------------------

  /** A blank-line or sentence-end separator starts at position `i`. */
  predicate SeparatorAt(s: string, i: nat) {
    i + 2 <= |s| && ((s[i] == '\n' && s[i + 1] == '\n') || (s[i] == '.' && s[i + 1] == ' '))
  }

  /** The leftmost separator at or after `i`. */
  function NextSeparator(s: string, i: nat): (r: Option<nat>)
    requires i <= |s|
    ensures r.None? ==> forall j :: i <= j < |s| ==> !SeparatorAt(s, j)
    ensures r.Some? ==> i <= r.value && SeparatorAt(s, r.value)
    ensures r.Some? ==> forall j :: i <= j < r.value ==> !SeparatorAt(s, j)
    decreases |s| - i
  {
    if i + 2 > |s| then None
    else if SeparatorAt(s, i) then Some(i)
    else NextSeparator(s, i + 1)
  }

  /** `s.split(/\n\n|\. /)`: the text between consecutive leftmost separators. */
  function SplitParagraphs(s: string): (parts: seq<string>)
    ensures |parts| >= 1
    ensures forall k, j :: 0 <= k < |parts| && 0 <= j ==> !SeparatorAt(parts[k], j)
    decreases |s|
  {
    match NextSeparator(s, 0)
    case None => [s]
    case Some(i) =>
      assert forall j :: 0 <= j ==> !SeparatorAt(s[..i], j) by {
        forall j | 0 <= j ensures !SeparatorAt(s[..i], j) {
          if SeparatorAt(s[..i], j) {
            assert SeparatorAt(s, j);
          }
        }
      }
      [s[..i]] + SplitParagraphs(s[i + 2..])
  }

  /** The separators the split consumed, in order. */
  function SplitSeparators(s: string): (seps: seq<string>)
    ensures |seps| + 1 == |SplitParagraphs(s)|
    ensures forall k :: 0 <= k < |seps| ==> |seps[k]| == 2 && SeparatorAt(seps[k], 0)
    decreases |s|
  {
    match NextSeparator(s, 0)
    case None => []
    case Some(i) =>
      assert SeparatorAt(s[i..i + 2], 0);
      [s[i..i + 2]] + SplitSeparators(s[i + 2..])
  }

  function Interleave(parts: seq<string>, seps: seq<string>): string
    requires |parts| == |seps| + 1
    decreases |seps|
  {
    if seps == [] then parts[0] else parts[0] + seps[0] + Interleave(parts[1..], seps[1..])
  }

  /** Putting the separators back between the parts gives back the text. */
  lemma {:induction false} SplitParagraphsRoundTrip(s: string)
    ensures Interleave(SplitParagraphs(s), SplitSeparators(s)) == s
    decreases |s|
  {
    match NextSeparator(s, 0)
    case None =>
    case Some(i) =>
      SplitParagraphsRoundTrip(s[i + 2..]);
      assert s == s[..i] + s[i..i + 2] + s[i + 2..];
  }
}
