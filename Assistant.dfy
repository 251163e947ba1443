/**
 * The text side of the assistant integration (src/utils/openai.ts): the
 * prompt sent for a workout request, and the parser that turns the
 * assistant's free-text reply into exercises. The parser reads numbered lines
 * first; only when no line yields an exercise does it fall back to cutting
 * the reply into paragraphs and sentences.
 *
 * `crypto.randomUUID()` is the parameter `newId`: the `k`-th exercise pushed
 * by a pass gets the id `newId(k)`.
 */
module Assistant {
  import opened Common
  import opened Text
  import opened Types
  import opened Patterns

  // ---------------------------------------------------------------------
  // buildPrompt
  // ---------------------------------------------------------------------

  const UsingLead := " using: "
  const ContextLead := "\n\n" + "Additional context: "
  /** The fixed closing request, written in three pieces: it is one string literal in the source. */
  const Closing := "\n\nPlease" + " provide a structured workout with exercises."
    + " For each exercise include: name, sets, reps (or duration), and any relevant notes."

  function EquipmentNames(equipment: seq<Equipment>): (names: seq<string>)
    ensures |names| == |equipment|
    ensures forall k :: 0 <= k < |equipment| ==> names[k] == EquipmentName(equipment[k])
  {
    seq(|equipment|, k requires 0 <= k < |equipment| => EquipmentName(equipment[k]))
  }

  function Opening(t: WorkoutType): string {
    "Generate a " + TypeName(t) + " workout"
  }

  /** `if (request.context)`: an absent context and an empty one are both false. */
  predicate HasContext(context: Option<string>) {
    context.Some? && context.value != ""
  }

  function UsingClause(equipment: seq<Equipment>): string {
    if |equipment| > 0 then UsingLead + Join(EquipmentNames(equipment), ", ") else ""
  }

  function ContextClause(context: Option<string>): string {
    if HasContext(context) then ContextLead + context.value else ""
  }

  /** The prompt as the clauses it is made of. */
  function PromptText(request: WorkoutRequest): string {
    Opening(request.workoutType) + UsingClause(request.equipment) + ContextClause(request.context) + Closing
  }

  /** `buildPrompt`: the prompt accumulated clause by clause. */
  method BuildPrompt(request: WorkoutRequest) returns (prompt: string)
    ensures prompt == PromptText(request)
  {
    prompt := Opening(request.workoutType);
    if |request.equipment| > 0 {
      prompt := prompt + (UsingLead + Join(EquipmentNames(request.equipment), ", "));
    } else {
      AppendNothing(prompt);
    }
    assert prompt == Opening(request.workoutType) + UsingClause(request.equipment);
    if request.context.Some? && request.context.value != "" {
      prompt := prompt + (ContextLead + request.context.value);
    } else {
      AppendNothing(prompt);
    }
    prompt := prompt + Closing;
  }

  // ---------------------------------------------------------------------
  // Proof aids: facts about concatenation and the fixed pieces of the prompt
  // ---------------------------------------------------------------------

  /** `lead` occurs in `p` at position `i`. */
  predicate LeadAt(p: string, i: nat, lead: string) {
    i + |lead| <= |p| && p[i..i + |lead|] == lead
  }

  lemma AppendNothing(s: string)
    ensures s + "" == s
  {
  }

  /** Appending two pieces one after the other appends the clause they make. */
  lemma AppendPair(head: string, lead: string, body: string)
    ensures head + lead + body == head + (lead + body)
  {
  }

  lemma StartsWithConcat(a: string, b: string)
    ensures StartsWith(a + b, a)
  {
    assert (a + b)[..|a|] == a;
  }

  lemma EndsWithConcat(a: string, b: string)
    ensures EndsWith(a + b, b)
  {
    assert (a + b)[|a|..] == b;
  }

  lemma SliceOfConcat(a: string, b: string, c: string)
    ensures |a| + |b| <= |a + b + c| && (a + b + c)[|a|..|a| + |b|] == b
  {
    assert (a + b + c)[|a|..|a| + |b|] == b;
  }

  lemma ClosingStart()
    ensures |Closing| > 2 && Closing[0] == '\n' && Closing[2] == 'P'
  {
    var head := "\n\nPlease";
    assert Closing == head + (Closing[|head|..]);
  }

  lemma ContextLeadStart()
    ensures |ContextLead| > 2 && ContextLead[0] == '\n' && ContextLead[2] == 'A'
  {
  }

  lemma UsingLeadStart()
    ensures |UsingLead| == 8 && UsingLead[0] == ' '
  {
  }

  lemma FrameOfConcat(o: string, u: string, c: string, closing: string)
    ensures StartsWith(o + u + c + closing, o) && EndsWith(o + u + c + closing, closing)
  {
    assert o + u + c + closing == o + (u + c + closing);
    StartsWithConcat(o, u + c + closing);
    EndsWithConcat(o + u + c, closing);
  }

  lemma LeadAtConcat(head: string, lead: string, rest: string)
    ensures LeadAt(head + lead + rest, |head|, lead)
  {
    assert (head + lead + rest)[|head|..|head| + |lead|] == lead;
  }

  /** A clause `lead + body` placed after `head` shows its lead, then its body, right after `head`. */
  lemma ClauseAfterHead(head: string, lead: string, body: string, rest: string)
    ensures var p := head + (lead + body) + rest; var i := |head| + |lead|;
      && LeadAt(p, |head|, lead)
      && i + |body| <= |p| && p[i..i + |body|] == body
  {
    var p := head + (lead + body) + rest;
    assert p == head + lead + body + rest;
    LeadAtConcat(head, lead, body + rest);
    assert p == (head + lead) + body + rest;
    SliceOfConcat(head + lead, body, rest);
  }

  lemma NotLeadAt(p: string, i: nat, lead: string)
    requires i < |p| && |lead| > 0 && p[i] != lead[0]
    ensures !LeadAt(p, i, lead)
  {
  }

  lemma CharAfterHead(o: string, c: string, closing: string)
    requires c == [] || c[0] == '\n'
    requires |closing| > 0 && closing[0] == '\n'
    ensures |o| < |o + c + closing| && (o + c + closing)[|o|] == '\n'
  {
  }

  lemma ThirdCharDiffers(head: string, closing: string, lead: string)
    requires |closing| > 2 && |lead| > 2 && closing[2] != lead[2]
    ensures !LeadAt(head + closing, |head|, lead)
  {
    if LeadAt(head + closing, |head|, lead) {
      LeadAtFirst(head + closing, |head|, lead);
    }
  }

  // ---------------------------------------------------------------------
  // What the prompt promises
  // ---------------------------------------------------------------------

  /** Every prompt names the workout type first and ends with the fixed request for structure. */
  lemma PromptFrame(request: WorkoutRequest)
    ensures StartsWith(PromptText(request), "Generate a " + TypeName(request.workoutType) + " workout")
    ensures EndsWith(PromptText(request), Closing)
  {
    FrameOfConcat(Opening(request.workoutType), UsingClause(request.equipment), ContextClause(request.context), Closing);
  }

  lemma LeadAtFirst(p: string, i: nat, lead: string)
    requires LeadAt(p, i, lead) && |lead| > 2
    ensures p[i] == lead[0] && p[i + 2] == lead[2]
  {
    assert p[i..i + |lead|][0] == p[i];
    assert p[i..i + |lead|][2] == p[i + 2];
  }

  lemma UsingClausePresent(request: WorkoutRequest)
    requires |request.equipment| > 0
    ensures LeadAt(PromptText(request), |Opening(request.workoutType)|, UsingLead)
  {
    var names := Join(EquipmentNames(request.equipment), ", ");
    assert UsingClause(request.equipment) == UsingLead + names;
    PromptAroundUsing(request);
    ClauseAfterHead(Opening(request.workoutType), UsingLead, names, ContextClause(request.context) + Closing);
  }

  /** The prompt as its opening, its equipment clause, and all that follows. */
  lemma PromptAroundUsing(request: WorkoutRequest)
    ensures PromptText(request)
      == Opening(request.workoutType) + UsingClause(request.equipment) + (ContextClause(request.context) + Closing)
  {
    AppendPair(Opening(request.workoutType) + UsingClause(request.equipment), ContextClause(request.context), Closing);
  }

  lemma ContextClauseStart(context: Option<string>)
    ensures ContextClause(context) == [] || ContextClause(context)[0] == '\n'
  {
    if HasContext(context) {
      ContextLeadStart();
      assert ContextClause(context)[0] == ContextLead[0];
    }
  }

  /** Without equipment, the opening is followed by a blank line (context or closing). */
  lemma BlankLineAfterOpening(request: WorkoutRequest)
    requires |request.equipment| == 0
    ensures |Opening(request.workoutType)| < |PromptText(request)|
    ensures PromptText(request)[|Opening(request.workoutType)|] == '\n'
  {
    ContextClauseStart(request.context);
    ClosingStart();
    CharAfterHead(Opening(request.workoutType), ContextClause(request.context), Closing);
  }

  lemma UsingClauseAbsent(request: WorkoutRequest)
    requires |request.equipment| == 0
    ensures !LeadAt(PromptText(request), |Opening(request.workoutType)|, UsingLead)
  {
    BlankLineAfterOpening(request);
    UsingLeadStart();
    NotLeadAt(PromptText(request), |Opening(request.workoutType)|, UsingLead);
  }

  /** The equipment clause directly follows the opening exactly when some equipment was chosen. */
  lemma UsingClauseIff(request: WorkoutRequest)
    ensures LeadAt(PromptText(request), |Opening(request.workoutType)|, UsingLead) <==> |request.equipment| > 0
  {
    if |request.equipment| > 0 {
      UsingClausePresent(request);
    } else {
      UsingClauseAbsent(request);
    }
  }

  /** Where the context clause, if any, starts: after the opening and the equipment clause. */
  function ContextOffset(request: WorkoutRequest): nat {
    |Opening(request.workoutType)| + |UsingClause(request.equipment)|
  }

  lemma ContextClausePresent(request: WorkoutRequest)
    requires HasContext(request.context)
    ensures LeadAt(PromptText(request), ContextOffset(request), ContextLead)
  {
    var head := Opening(request.workoutType) + UsingClause(request.equipment);
    var rest := request.context.value + Closing;
    assert PromptText(request) == head + ContextLead + rest;
    LeadAtConcat(head, ContextLead, rest);
  }

  lemma ContextClauseAbsent(request: WorkoutRequest)
    requires !HasContext(request.context)
    ensures !LeadAt(PromptText(request), ContextOffset(request), ContextLead)
  {
    var head := Opening(request.workoutType) + UsingClause(request.equipment);
    assert PromptText(request) == head + Closing;
    ClosingStart();
    ContextLeadStart();
    ThirdCharDiffers(head, Closing, ContextLead);
  }

  /** The context clause follows exactly when the context is a non-empty string. */
  lemma ContextClauseIff(request: WorkoutRequest)
    ensures LeadAt(PromptText(request), ContextOffset(request), ContextLead) <==> HasContext(request.context)
  {
    if HasContext(request.context) {
      ContextClausePresent(request);
    } else {
      ContextClauseAbsent(request);
    }
  }

  /** The context is quoted verbatim: it can be read back between its lead and the closing. */
  lemma ContextReadBack(request: WorkoutRequest)
    requires HasContext(request.context)
    ensures var p := PromptText(request); var i := ContextOffset(request) + |ContextLead|;
      i <= |p| - |Closing| && p[i..|p| - |Closing|] == request.context.value
  {
    var head := Opening(request.workoutType) + UsingClause(request.equipment) + ContextLead;
    assert PromptText(request) == head + request.context.value + Closing;
    SliceOfConcat(head, request.context.value, Closing);
  }

  /** The chosen equipment is listed verbatim, joined by `", "`, between its lead and the rest. */
  lemma EquipmentReadBack(request: WorkoutRequest)
    requires |request.equipment| > 0
    ensures var p := PromptText(request); var i := |Opening(request.workoutType)| + |UsingLead|;
      var names := Join(EquipmentNames(request.equipment), ", ");
      i + |names| <= |p| && p[i..i + |names|] == names
  {
    var names := Join(EquipmentNames(request.equipment), ", ");
    assert UsingClause(request.equipment) == UsingLead + names;
    PromptAroundUsing(request);
    ClauseAfterHead(Opening(request.workoutType), UsingLead, names, ContextClause(request.context) + Closing);
  }

  // ---------------------------------------------------------------------
  // parseWorkoutResponse
  // ---------------------------------------------------------------------

  /** `filter((x) => x.trim())`: the parts that are not blank, in their order. */
  function NonBlank(parts: seq<string>): (kept: seq<string>)
    ensures |kept| <= |parts|
    ensures forall k :: 0 <= k < |kept| ==> Trim(kept[k]) != ""
    ensures forall x :: x in kept <==> x in parts && Trim(x) != ""
    decreases |parts|
  {
    if parts == [] then []
    else (if Trim(parts[0]) != "" then [parts[0]] else []) + NonBlank(parts[1..])
  }

  /** A single part is kept exactly when it is not blank. */
  lemma NonBlankSingle(x: string)
    ensures NonBlank([x]) == if Trim(x) != "" then [x] else []
  {
    assert [x][1..] == [];
  }

  lemma Regroup(x: seq<string>, y: seq<string>, z: seq<string>)
    ensures x + (y + z) == (x + y) + z
  {
  }

  /** One step of the filter: the first part is kept or dropped on its own. */
  lemma NonBlankCons(x: string, rest: seq<string>)
    ensures NonBlank([x] + rest) == NonBlank([x]) + NonBlank(rest)
  {
    assert ([x] + rest)[0] == x && ([x] + rest)[1..] == rest;
    NonBlankSingle(x);
  }

  /** Filtering distributes over concatenation, so the kept parts keep their order and multiplicity. */
  lemma {:induction false} NonBlankConcat(a: seq<string>, b: seq<string>)
    ensures NonBlank(a + b) == NonBlank(a) + NonBlank(b)
    decreases |a|
  {
    if a == [] {
      assert a + b == b;
    } else {
      var rest := a[1..];
      assert a == [a[0]] + rest && a + b == [a[0]] + (rest + b);
      var x, y, z := NonBlank([a[0]]), NonBlank(rest), NonBlank(b);
      NonBlankCons(a[0], rest + b);
      NonBlankConcat(rest, b);
      NonBlankCons(a[0], rest);
      Regroup(x, y, z);
    }
  }

  /** `match[2]?.trim() || ''`: the trimmed details, or the empty text when the group took no part. */
  function DetailsText(m: LineMatch): string {
    if m.details.Some? then Trim(m.details.value) else ""
  }

  /** The exercise a matched numbered line gives. */
  function ExerciseFromMatch(m: LineMatch, id: string): Exercise {
    var details := DetailsText(m);
    var setsReps := FindSetsReps(details);
    var duration := FindDuration(details);
    Exercise(
      id,
      Trim(m.name),
      if setsReps.Some? then Some(setsReps.value.sets) else None,
      if setsReps.Some? then Some(setsReps.value.reps) else None,
      if duration.Some? then Some(duration.value.amount + " " + duration.value.unit) else None,
      Some(details),
      false)
  }

  /** The primary pass over `lines`: one exercise per line the numbered-line pattern matches. */
  function Primary(lines: seq<string>, newId: nat -> string): seq<Exercise>
    decreases |lines|
  {
    if lines == [] then []
    else
      var prev := Primary(lines[..|lines| - 1], newId);
      match MatchNumberedLine(lines[|lines| - 1])
      case Some(m) => prev + [ExerciseFromMatch(m, newId(|prev|))]
      case None => prev
  }

  /** The exercise a fallback part gives: its trimmed text cut to 100 characters as the name. */
  function ExerciseFromPart(part: string, id: string): Exercise {
    Exercise(id, Prefix(Trim(part), 100), None, None, None, None, false)
  }

  /** The fallback pass over `parts`: one exercise per part that is not blank. */
  function Fallback(parts: seq<string>, newId: nat -> string): seq<Exercise>
    decreases |parts|
  {
    if parts == [] then []
    else
      var prev := Fallback(parts[..|parts| - 1], newId);
      var part := parts[|parts| - 1];
      if Trim(part) != "" then prev + [ExerciseFromPart(part, newId(|prev|))] else prev
  }

  function Lines(text: string): seq<string> {
    NonBlank(SplitOn(text, '\n'))
  }

  function Paragraphs(text: string): seq<string> {
    NonBlank(SplitParagraphs(text))
  }

  /** What the parser returns: the primary pass, or the fallback when the primary pass found nothing. */
  function Parse(text: string, newId: nat -> string): seq<Exercise> {
    var primary := Primary(Lines(text), newId);
    if |primary| == 0 then Fallback(Paragraphs(text), newId) else primary
  }

  /** The `for … of lines` loop: pushes an exercise for each matching line. */
  method PrimaryPass(lines: seq<string>, newId: nat -> string) returns (exercises: seq<Exercise>)
    ensures exercises == Primary(lines, newId)
  {
    exercises := [];
    var i := 0;
    while i < |lines|
      invariant 0 <= i <= |lines|
      invariant exercises == Primary(lines[..i], newId)
    {
      assert lines[..i + 1][..i] == lines[..i];
      var found := MatchNumberedLine(lines[i]);
      if found.Some? {
        exercises := exercises + [ExerciseFromMatch(found.value, newId(|exercises|))];
      }
      i := i + 1;
    }
    assert lines[..i] == lines;
  }

  /** The `parts.forEach` loop: pushes an exercise for each part that is not blank. */
  method FallbackPass(parts: seq<string>, newId: nat -> string) returns (exercises: seq<Exercise>)
    ensures exercises == Fallback(parts, newId)
  {
    exercises := [];
    var j := 0;
    while j < |parts|
      invariant 0 <= j <= |parts|
      invariant exercises == Fallback(parts[..j], newId)
    {
      assert parts[..j + 1][..j] == parts[..j];
      var part := parts[j];
      if Trim(part) != "" {
        exercises := exercises + [ExerciseFromPart(part, newId(|exercises|))];
      }
      j := j + 1;
    }
    assert parts[..j] == parts;
  }

  /** `parseWorkoutResponse`: the numbered-line pass, then the fallback when it found nothing. */
  method ParseWorkoutResponse(responseText: string, newId: nat -> string) returns (exercises: seq<Exercise>)
    ensures exercises == Parse(responseText, newId)
  {
    var lines := NonBlank(SplitOn(responseText, '\n'));
    exercises := PrimaryPass(lines, newId);
    if |exercises| == 0 {
      var parts := NonBlank(SplitParagraphs(responseText));
      exercises := FallbackPass(parts, newId);
    }
  }

  // ---------------------------------------------------------------------
  // What the parser promises
  // ---------------------------------------------------------------------

  /** The match of one line, as a list of zero or one elements. */
  function MatchOf(line: string): seq<LineMatch> {
    match MatchNumberedLine(line)
    case Some(m) => [m]
    case None => []
  }

  /** The matches of the numbered-line pattern, line after line. */
  function Matches(lines: seq<string>): (ms: seq<LineMatch>)
    ensures |ms| <= |lines|
    decreases |lines|
  {
    if lines == [] then [] else MatchOf(lines[0]) + Matches(lines[1..])
  }

  lemma {:induction false} MatchesSnoc(lines: seq<string>, line: string)
    ensures Matches(lines + [line]) == Matches(lines) + MatchOf(line)
    decreases |lines|
  {
    if lines == [] {
      assert [] + [line] == [line];
      assert [line][1..] == [];
    } else {
      assert (lines + [line])[1..] == lines[1..] + [line];
      MatchesSnoc(lines[1..], line);
    }
  }

  /**
   * The primary pass gives exactly one exercise per matching line, in line
   * order, and the `k`-th of them gets the `k`-th fresh id.
   */
  lemma {:induction false} PrimaryIsOnePerMatch(lines: seq<string>, newId: nat -> string)
    ensures var ms := Matches(lines); var r := Primary(lines, newId);
      |r| == |ms| && forall k :: 0 <= k < |ms| ==> r[k] == ExerciseFromMatch(ms[k], newId(k))
    decreases |lines|
  {
    if lines != [] {
      var init := lines[..|lines| - 1];
      var line := lines[|lines| - 1];
      assert lines == init + [line];
      MatchesSnoc(init, line);
      PrimaryIsOnePerMatch(init, newId);
      var prev := Primary(init, newId);
      var ms := Matches(lines);
      var r := Primary(lines, newId);
      assert ms == Matches(init) + MatchOf(line);
      match MatchNumberedLine(line)
      case None =>
        assert r == prev;
        assert ms == Matches(init);
      case Some(m) =>
        var e := ExerciseFromMatch(m, newId(|prev|));
        assert r == prev + [e];
        assert ms == Matches(init) + [m];
        forall k | 0 <= k < |ms| ensures r[k] == ExerciseFromMatch(ms[k], newId(k)) {
          if k < |prev| {
            assert r[k] == prev[k] && ms[k] == Matches(init)[k];
          } else {
            assert k == |prev| && ms[k] == m && r[k] == e;
          }
        }
    }
  }

  /** Some line of `lines` gives the match `m`. */
  predicate MatchedBy(lines: seq<string>, m: LineMatch) {
    exists j :: 0 <= j < |lines| && MatchNumberedLine(lines[j]) == Some(m)
  }

  /** Every match comes from a line, and every matching line contributes its match. */
  lemma MatchesFromLines(lines: seq<string>)
    ensures forall k :: 0 <= k < |Matches(lines)| ==> MatchedBy(lines, Matches(lines)[k])
    ensures forall j :: 0 <= j < |lines| && MatchNumberedLine(lines[j]).Some? ==>
      MatchNumberedLine(lines[j]).value in Matches(lines)
  {
    MatchesComeFromLines(lines);
    MatchingLinesContribute(lines);
  }

  lemma {:induction false} MatchesComeFromLines(lines: seq<string>)
    ensures forall k :: 0 <= k < |Matches(lines)| ==> MatchedBy(lines, Matches(lines)[k])
    decreases |lines|
  {
    if lines != [] {
      var tail := lines[1..];
      MatchesComeFromLines(tail);
      var head := MatchOf(lines[0]);
      var rest := Matches(tail);
      var ms := Matches(lines);
      assert ms == head + rest;
      forall k | 0 <= k < |ms|
        ensures MatchedBy(lines, ms[k])
      {
        if k < |head| {
          assert MatchNumberedLine(lines[0]) == Some(ms[k]);
        } else {
          assert ms[k] == rest[k - |head|];
          assert MatchedBy(tail, rest[k - |head|]);
          var j :| 0 <= j < |tail| && MatchNumberedLine(tail[j]) == Some(rest[k - |head|]);
          assert tail[j] == lines[j + 1];
          assert MatchNumberedLine(lines[j + 1]) == Some(ms[k]);
        }
      }
    }
  }

  lemma {:induction false} MatchingLinesContribute(lines: seq<string>)
    ensures forall j :: 0 <= j < |lines| && MatchNumberedLine(lines[j]).Some? ==>
      MatchNumberedLine(lines[j]).value in Matches(lines)
    decreases |lines|
  {
    if lines != [] {
      var tail := lines[1..];
      MatchingLinesContribute(tail);
      var head := MatchOf(lines[0]);
      var rest := Matches(tail);
      var ms := Matches(lines);
      assert ms == head + rest;
      forall j | 0 <= j < |lines| && MatchNumberedLine(lines[j]).Some?
        ensures MatchNumberedLine(lines[j]).value in ms
      {
        if j > 0 {
          assert lines[j] == tail[j - 1];
          assert MatchNumberedLine(tail[j - 1]).value in rest;
        } else {
          assert head == [MatchNumberedLine(lines[0]).value];
        }
      }
    }
  }

  /** The primary pass finds nothing exactly when no line matches: only then does the fallback run. */
  lemma PrimaryEmptyIff(lines: seq<string>, newId: nat -> string)
    ensures Primary(lines, newId) == [] <==> forall j :: 0 <= j < |lines| ==> MatchNumberedLine(lines[j]).None?
  {
    PrimaryIsOnePerMatch(lines, newId);
    MatchesFromLines(lines);
    if Matches(lines) != [] {
      assert MatchedBy(lines, Matches(lines)[0]);
    }
  }

  /** A blank line never matches, so dropping blank lines does not change the primary pass's matches. */
  lemma BlankLineNeverMatches(line: string)
    requires AllSpace(line)
    ensures MatchNumberedLine(line).None?
  {
    LineSpansSound(line);
    if |line| > 0 {
      assert IsSpace(line[0]);
    }
  }

  /**
   * What a numbered line gives: the trimmed name; notes equal to the trimmed
   * details; sets and reps both present or both absent, as digit strings;
   * a duration exactly when the duration pattern matches; not completed.
   */
  lemma ExerciseFromMatchFields(m: LineMatch, id: string)
    ensures var e := ExerciseFromMatch(m, id); var details := DetailsText(m);
      && e.id == id && !e.completed
      && e.name == Trim(m.name) && (e.name == [] || (!IsSpace(e.name[0]) && !IsSpace(e.name[|e.name| - 1])))
      && e.notes == Some(details)
      && (m.details.None? ==> details == "")
      && (e.sets.Some? <==> e.reps.Some?)
      && (e.sets.Some? <==> FindSetsReps(details).Some?)
      && (FindSetsReps(details).Some? ==>
            e.sets == Some(FindSetsReps(details).value.sets) && e.reps == Some(FindSetsReps(details).value.reps))
      && (e.sets.Some? ==> |e.sets.value| > 0 && AllDigits(e.sets.value) && |e.reps.value| > 0 && AllDigits(e.reps.value))
      && (e.duration.Some? <==> FindDuration(details).Some?)
  {
  }

  /**
   * Sets and reps come from the leftmost place in the details where the text
   * has the shape of the sets-and-reps pattern: they are present exactly when
   * such a place exists, and are then its two digit runs.
   */
  lemma ExerciseSetsRepsLeftmost(m: LineMatch, id: string)
    ensures var e := ExerciseFromMatch(m, id); var details := DetailsText(m);
      && (e.sets.Some? <==> exists p: nat, w :: SetsRepsShape(details, p, w))
      && (e.sets.Some? ==>
            exists p: nat, w :: SetsRepsShape(details, p, w) && NoSetsRepsBefore(details, p)
              && e.sets.value == details[p..w.digitsEnd] && e.reps.value == details[w.repsStart..w.repsEnd])
  {
    var details := DetailsText(m);
    if FindSetsReps(details).Some? {
      var p, w := FindSetsRepsSpans(details);
    }
    if exists p: nat, w :: SetsRepsShape(details, p, w) {
      var p: nat, w :| SetsRepsShape(details, p, w);
      FindSetsRepsComplete(details, p, w);
    }
  }

  lemma DurationField(m: LineMatch, id: string)
    ensures var found := FindDuration(DetailsText(m));
      ExerciseFromMatch(m, id).duration == if found.Some? then Some(found.value.amount + " " + found.value.unit) else None
  {
  }

  /**
   * The duration comes from the leftmost place in the details where the text
   * has the shape of the duration pattern: it is present exactly when such a
   * place exists, and is then its digits, a space and the first three letters
   * of its unit.
   */
  lemma ExerciseDurationLeftmost(m: LineMatch, id: string)
    ensures var e := ExerciseFromMatch(m, id); var details := DetailsText(m);
      && (e.duration.Some? <==> exists p: nat, w :: DurationShape(details, p, w))
      && (e.duration.Some? ==>
            exists p: nat, w :: DurationShape(details, p, w) && NoDurationBefore(details, p)
              && e.duration.value == details[p..w.digitsEnd] + " " + details[w.unitAt..w.unitAt + 3])
  {
    var details := DetailsText(m);
    DurationField(m, id);
    if FindDuration(details).Some? {
      var p, w := FindDurationSpans(details);
    }
    if exists p: nat, w :: DurationShape(details, p, w) {
      var p: nat, w :| DurationShape(details, p, w);
      FindDurationComplete(details, p, w);
    }
  }

  /** The duration field is `<digits> <unit>`, with the three-letter unit the pattern captures. */
  lemma ExerciseDuration(m: LineMatch, id: string)
    ensures var e := ExerciseFromMatch(m, id); var found := FindDuration(DetailsText(m));
      found.Some? ==>
        var amount := found.value.amount; var unit := found.value.unit;
        && e.duration == Some(amount + " " + unit)
        && |amount| > 0 && AllDigits(amount)
        && ShortUnit(unit)
  {
  }

  /** Details without the letter x in either case never yield sets or reps. */
  lemma NoXNoSetsReps(m: LineMatch, id: string)
    requires forall k :: 0 <= k < |DetailsText(m)| ==> !CiChar(DetailsText(m)[k], 'x')
    ensures ExerciseFromMatch(m, id).sets.None? && ExerciseFromMatch(m, id).reps.None?
  {
    SetsRepsNeedX(DetailsText(m));
  }

  /** A last part that is not blank adds its exercise after those of the parts before it. */
  lemma FallbackLast(parts: seq<string>, newId: nat -> string)
    requires parts != [] && Trim(parts[|parts| - 1]) != ""
    ensures var prev := Fallback(parts[..|parts| - 1], newId);
      Fallback(parts, newId) == prev + [ExerciseFromPart(parts[|parts| - 1], newId(|prev|))]
  {
  }

  /**
   * Over parts that are not blank, the fallback gives one exercise per part,
   * in order, named by the part's trimmed text cut to 100 characters.
   */
  lemma {:induction false} FallbackIsOnePerPart(parts: seq<string>, newId: nat -> string)
    requires forall k :: 0 <= k < |parts| ==> Trim(parts[k]) != ""
    ensures var r := Fallback(parts, newId);
      |r| == |parts| && forall k :: 0 <= k < |parts| ==> r[k] == ExerciseFromPart(parts[k], newId(k))
    decreases |parts|
  {
    if parts != [] {
      var init := parts[..|parts| - 1];
      var part := parts[|parts| - 1];
      assert forall k :: 0 <= k < |init| ==> init[k] == parts[k];
      FallbackIsOnePerPart(init, newId);
      assert Trim(part) != "";
      FallbackLast(parts, newId);
      var prev := Fallback(init, newId);
      var e := ExerciseFromPart(part, newId(|prev|));
      var r := Fallback(parts, newId);
      forall k | 0 <= k < |parts| ensures r[k] == ExerciseFromPart(parts[k], newId(k)) {
        if k < |prev| {
          assert r[k] == prev[k];
        } else {
          assert k == |prev| && parts[k] == part && r[k] == e;
        }
      }
    }
  }

  /** A fallback exercise has a name of 1 to 100 characters taken from the part, and nothing else. */
  lemma ExerciseFromPartFields(part: string, id: string)
    requires Trim(part) != ""
    ensures var e := ExerciseFromPart(part, id);
      && e.id == id && !e.completed
      && 0 < |e.name| <= 100 && StartsWith(Trim(part), e.name)
      && (|Trim(part)| <= 100 ==> e.name == Trim(part))
      && e.sets.None? && e.reps.None? && e.duration.None? && e.notes.None?
  {
  }

  /** Every exercise the parser returns gets the fresh id of its position and starts not completed. */
  lemma ParseIdsAndCompletion(text: string, newId: nat -> string)
    ensures var r := Parse(text, newId);
      forall k :: 0 <= k < |r| ==> r[k].id == newId(k) && !r[k].completed
  {
    var primary := Primary(Lines(text), newId);
    var r := Parse(text, newId);
    if |primary| == 0 {
      var parts := Paragraphs(text);
      FallbackIsOnePerPart(parts, newId);
      assert r == Fallback(parts, newId);
      forall k | 0 <= k < |r| ensures r[k].id == newId(k) && !r[k].completed {
        assert r[k] == ExerciseFromPart(parts[k], newId(k));
      }
    } else {
      var ms := Matches(Lines(text));
      PrimaryIsOnePerMatch(Lines(text), newId);
      assert r == primary;
      forall k | 0 <= k < |r| ensures r[k].id == newId(k) && !r[k].completed {
        assert r[k] == ExerciseFromMatch(ms[k], newId(k));
      }
    }
  }

  /** The parser returns nothing exactly when no line matches and every paragraph or sentence is blank. */
  lemma ParseEmptyIff(text: string, newId: nat -> string)
    ensures Parse(text, newId) == [] <==>
      (forall j :: 0 <= j < |Lines(text)| ==> MatchNumberedLine(Lines(text)[j]).None?) && Paragraphs(text) == []
  {
    var lines := Lines(text);
    var parts := Paragraphs(text);
    var primary := Primary(lines, newId);
    assert Parse(text, newId) == if primary == [] then Fallback(parts, newId) else primary;
    PrimaryEmptyIff(lines, newId);
    FallbackEmptyIff(parts, newId);
  }

  lemma FallbackEmptyIff(parts: seq<string>, newId: nat -> string)
    requires forall k :: 0 <= k < |parts| ==> Trim(parts[k]) != ""
    ensures Fallback(parts, newId) == [] <==> parts == []
  {
    FallbackIsOnePerPart(parts, newId);
  }
}
