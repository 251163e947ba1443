# RepIt workout tracker — a Dafny model of its core

RepIt is a single-page workout tracker. Here the user describes a session
(workout type, equipment, free-text context). An assistant service is
asked for a workout, and its free-text reply is parsed into a checklist of
exercises. The user checks the exercises off, starts and finishes the
session, and browses a history kept in the browser's key-value storage.
The history view shows statistics: the number of finished sessions, the
current streak of consecutive days, and the five most frequent workout
types.

This project models that core, one module per source file:

| module | source | form |
|---|---|---|
| `Common`, `Types` | `src/types.ts` | datatypes (`Option`, `Outcome`, the records) |
| `Storage` | `src/utils/storage.ts` | class `WorkoutStore` over the stored blob; each writing method reads the whole list, changes it and writes it back |
| `Text`, `Patterns` | `String.prototype.trim`/`split` and the regular expressions of `src/utils/openai.ts` | pure functions; backtracking is written out and proved sound and complete |
| `Assistant` | `src/utils/openai.ts` | `BuildPrompt` and `ParseWorkoutResponse` as loop methods, each proved equal to a specification function whose properties are lemmas |
| `Lifecycle` | `src/App.tsx` | class `WorkoutApp` holding the page state; its handlers are methods that write to the store, then to the page state |
| `Stats` | `src/components/StatsCards.tsx` | `CalculateStreak` as a loop method; totals, breakdown and top five as functions |
| `Form` | `src/components/WorkoutForm.tsx` | the equipment toggle and the submit rule as pure functions |

The boundaries of the system are parameters:

- Whether the browser accepts a write is `writeOk`. A refused write is the source's quota exception.
- The assistant's reply is `generated`. `None` means the network call failed.
- The clock is `now`, in milliseconds.
- `crypto.randomUUID()` is an `id` argument, or `newId(k)` for the k-th parsed exercise.
- The confirmation dialog's answer is `confirmed`.
- The local midnight of an instant, in milliseconds, is a function `midnightOf`. It is what `setHours(0, 0, 0, 0)` gives in the browser's time zone. The days between two instants are then `Stats.DaysBetween`: the difference of their midnights divided by the 86400000 milliseconds of a 24-hour day, rounded down, as src/components/StatsCards.tsx:26 and :39 compute it. A night on which the clocks go forward is 23 hours long, so two calendar days in a row can be 0 days apart; `Stats.ShortNightIsSkipped` states what the streak then does.

The case-insensitive patterns of src/utils/openai.ts:115-116 are written out for ASCII letters only. Without the `u` flag, a case-insensitive regular expression never matches a character at or above code point 128 against one below it (`ſ` does not match `s`), so this comparison is exact for the ASCII letters those patterns contain.

## Model

| member | source | states |
|---|---|---|
| Storage.FirstIndexWithId | src/utils/storage.ts:43 | `None` exactly when no workout has the id; otherwise a position holding the id with none before it (`findIndex`) |
| Storage.WithoutId | src/utils/storage.ts:71 | a workout is kept iff it was present and its id differs (`filter`) |
| Storage.WithoutIdAppend | src/utils/storage.ts:71 | filtering distributes over concatenation, so the kept workouts stay in their relative order |
| Storage.WithoutIdLength | src/utils/storage.ts:71 | deleting removes exactly as many entries as carry the id |
| Storage.WithoutAbsentId | src/utils/storage.ts:71 | deleting an id nobody carries leaves the list as it was |
| Storage.WorkoutStore.constructor | src/utils/storage.ts:5 | the store starts from the given blob |
| Storage.WorkoutStore.GetWorkoutHistory | src/utils/storage.ts:10-21 | the stored list; an absent or unparsable blob reads as empty |
| Storage.WorkoutStore.SaveWorkout | src/utils/storage.ts:26-35 | on success the blob is the old readable list plus `w` at the end; a refused write fails with "Could not save workout" and leaves the blob unchanged |
| Storage.WorkoutStore.UpdateWorkout | src/utils/storage.ts:40-55 | an unknown id or a refused write fails with "Could not update workout" and writes nothing; otherwise the first entry with the id becomes `u` and nothing else changes |
| Storage.WorkoutStore.GetWorkoutById | src/utils/storage.ts:60-63 | the first entry with the id, or none exactly when no entry carries it |
| Storage.WorkoutStore.DeleteWorkout | src/utils/storage.ts:68-77 | on success the blob is the old list without every entry carrying the id; a refused write fails with "Could not delete workout" and leaves the blob unchanged |
| Text.Trim | src/utils/openai.ts:104 | `trim`: an infix of the input that starts and ends with non-white-space, empty exactly when the input is all white space; what it drops before and after is white space |
| Text.LineTerminatorIsSpace | src/utils/openai.ts:108 | every character `.` refuses is one `\s` accepts |
| Text.IndexOf | src/utils/openai.ts:104 | the first position of the character, or none exactly when it does not occur |
| Text.SplitOn | src/utils/openai.ts:104 | `split('\n')`: at least one part, and no part contains the separator |
| Text.SplitJoin | src/utils/openai.ts:104 | joining the parts with the separator gives back the text |
| Text.Prefix | src/utils/openai.ts:139 | `substring(0, n)`: a prefix of length min(length, n) |
| Patterns.DigitRun | src/utils/openai.ts:108 | the maximal run of `\d` from a position |
| Text.SpaceRun | src/utils/openai.ts:108 | the maximal run of `\s` from a position |
| Text.SpaceRunBack | src/utils/openai.ts:111 | the maximal run of white space that ends at a position, which `trim` drops at the end |
| Patterns.MatchNumberedLine | src/utils/openai.ts:108 | the line regex matches exactly when the backtracking search finds spans; the name group is the text between the name's bounds and the details group the rest of the line from the details' start, or absent |
| Patterns.LineSpansSound | src/utils/openai.ts:108 | every match found has the regex's shape: digits from column 0, a dot, a non-empty name and an optional `-` tail, with no line terminator in a `.+` part |
| Patterns.LineSpansComplete | src/utils/openai.ts:108 | whenever the line has that shape, the search finds a match |
| Patterns.MatchIffShape | src/utils/openai.ts:108 | the line matches iff spans of the regex's shape exist, and the groups of a match are the name and the details of such spans |
| Patterns.LazyNameSound | src/utils/openai.ts:108 | a name found by lazy `(.+?)` has no line terminator and is followed by a valid dash tail or the end of the line |
| Patterns.LazyNameComplete | src/utils/openai.ts:108 | if some name end is followed by a valid tail, lazy search succeeds |
| Patterns.LazyNameShortest | src/utils/openai.ts:108 | the lazy group stops at the first end after which the rest matches |
| Patterns.AfterDotSound | src/utils/openai.ts:108 | a name found after the dot has no line terminator, is followed by a valid tail or the end of the line, and only white space precedes it |
| Patterns.AfterDotComplete | src/utils/openai.ts:108 | if the name can start after some shorter run of white space, the search succeeds |
| Patterns.AfterDotShortest | src/utils/openai.ts:108 | no position strictly inside the name found is followed by a dash tail, so the name is the shortest that lets the rest match |
| Patterns.GreedyTailSound | src/utils/openai.ts:108 | only white space lies before the details group `(.+)`, and the details contain no line terminator |
| Patterns.GreedyTailComplete | src/utils/openai.ts:108 | if some split leaves a non-empty, terminator-free rest, the details group is found |
| Patterns.DashTailSound | src/utils/openai.ts:108 | a found tail is `\s*-\s*` followed by a non-empty rest without line terminators |
| Patterns.DashTailComplete | src/utils/openai.ts:108 | whenever such a separator exists at the name's end, the tail is found |
| Patterns.NameEndsAtFirstSeparator | src/utils/openai.ts:108 | the name ends at the first position where a dash separator with a valid rest begins |
| Patterns.MatchStartsWithDigit | src/utils/openai.ts:108 | only a line whose first character is a digit matches; an indented number does not |
| Patterns.MatchedLineEndsClean | src/utils/openai.ts:108 | the last character of a matched line is never a line terminator, since it belongs to a `.+` group |
| Patterns.TerminatedLineNeverMatches | src/utils/openai.ts:104-108 | a line ending in `\r` (a CRLF reply) never matches, since `.` and `$` refuse it |
| Patterns.HyphenatedNameIsCut | src/utils/openai.ts:108 | for any line `1. Push-<rest>` whose rest is non-empty, has no line terminator and does not start with white space, the name is `Push` and the details are the rest |
| Patterns.HyphenNameIsPush | src/utils/openai.ts:108 | on `1. Push-ups - 3 sets x 15 reps` the name is `Push` and the details are `ups - 3 sets x 15 reps` |
| Patterns.SetsRepsAt | src/utils/openai.ts:115 | a match at a position yields two non-empty digit strings with an `x`/`X` between them |
| Patterns.SetsRepsFrom | src/utils/openai.ts:115 | the leftmost match yields non-empty digit strings, and an `x`/`X` occurs after the start of the scan |
| Patterns.AfterSetIsGreedy | src/utils/openai.ts:115 | in any split of the pattern's shape, `sets?` takes its `s` whenever one follows `set` |
| Patterns.SetsRepsAtComplete | src/utils/openai.ts:115 | wherever the text from a position has the shape of `(\d+)\s*sets?\s*x\s*(\d+)\s*reps?` (letters in either case), the attempt there succeeds and captures that shape's two digit runs |
| Patterns.SetsRepsAtSound | src/utils/openai.ts:115 | an attempt succeeds only where the text has that shape, and captures its two digit runs |
| Patterns.SetsRepsFromLeftmost | src/utils/openai.ts:115 | the scan returns the attempt at the first position where one succeeds, none before it succeeding |
| Patterns.SetsRepsFromFinds | src/utils/openai.ts:115 | the scan finds something whenever an attempt at a later position succeeds |
| Patterns.FindSetsRepsLeftmost | src/utils/openai.ts:115 | a match returns the two digit runs of a text of the shape at some position, and no text of the shape starts earlier |
| Patterns.FindSetsRepsComplete | src/utils/openai.ts:115 | text of the shape anywhere in the details is matched |
| Patterns.SetsRepsNeedX | src/utils/openai.ts:115 | text without `x` or `X` never yields sets and reps (a `×` sign does not separate them) |
| Patterns.DurationAt | src/utils/openai.ts:116 | a duration at a position has a non-empty digit amount, and its unit is `min` or `sec` in some case of its letters, never `minutes` or `seconds` |
| Patterns.DurationFrom | src/utils/openai.ts:116 | the leftmost duration has a non-empty digit amount and a three-letter unit, `min` or `sec` |
| Patterns.DurationAtComplete | src/utils/openai.ts:116 | wherever the text from a position has the shape of `(\d+)\s*(min\|minutes\|sec\|seconds)` (letters in either case), the attempt there succeeds and captures the digits and the unit's first three letters |
| Patterns.DurationAtSound | src/utils/openai.ts:116 | an attempt succeeds only where the text has that shape, and captures its digits and the unit's first three letters |
| Patterns.DurationFromLeftmost | src/utils/openai.ts:116 | the scan returns the attempt at the first position where one succeeds, none before it succeeding |
| Patterns.DurationFromFinds | src/utils/openai.ts:116 | the scan finds something whenever an attempt at a later position succeeds |
| Patterns.FindDurationLeftmost | src/utils/openai.ts:116 | a match returns the digits and unit of a text of the shape at some position, and no text of the shape starts earlier |
| Patterns.FindDurationComplete | src/utils/openai.ts:116 | text of the shape anywhere in the details is matched |
| Patterns.UnitIsShort | src/utils/openai.ts:116 | the alternation never reaches `minutes` or `seconds`: each starts with the shorter alternative tried before it, so the unit captured has three letters |
| Patterns.NextSeparator | src/utils/openai.ts:133 | the first `\n\n` or `. ` at or after a position, with none before it |
| Patterns.SplitParagraphs | src/utils/openai.ts:133 | `split(/\n\n\|\. /)`: at least one part, and no part contains a separator |
| Patterns.SplitSeparators | src/utils/openai.ts:133 | one separator between each two consecutive parts, each exactly `\n\n` or `. ` |
| Patterns.SplitParagraphsRoundTrip | src/utils/openai.ts:133 | interleaving the parts with the separators gives back the text |
| Assistant.EquipmentNames | src/utils/openai.ts:80 | the equipment literals, position by position |
| Assistant.BuildPrompt | src/utils/openai.ts:76-90 | the prompt built by appending equals the prompt text specified clause by clause |
| Assistant.PromptFrame | src/utils/openai.ts:76-90 | the prompt starts with `Generate a <type> workout` and ends with the closing instruction |
| Assistant.UsingClauseIff | src/utils/openai.ts:79-81 | ` using: ` follows the opening iff some equipment is selected |
| Assistant.UsingClausePresent | src/utils/openai.ts:79-81 | with equipment, ` using: ` follows the opening |
| Assistant.UsingClauseAbsent | src/utils/openai.ts:79-81 | without equipment, ` using: ` does not follow the opening |
| Assistant.BlankLineAfterOpening | src/utils/openai.ts:79-87 | without equipment, a line break follows the opening |
| Assistant.EquipmentReadBack | src/utils/openai.ts:80 | after ` using: ` the prompt holds the equipment names joined by `, ` |
| Assistant.ContextClauseIff | src/utils/openai.ts:83-85 | the context clause is present iff the context is given and non-empty |
| Assistant.ContextClausePresent | src/utils/openai.ts:83-85 | a non-empty context puts the context clause at its offset |
| Assistant.ContextClauseAbsent | src/utils/openai.ts:83-85 | an absent or empty context puts no context clause there |
| Assistant.ContextReadBack | src/utils/openai.ts:84 | after `Additional context: ` the prompt holds the context verbatim |
| Assistant.NonBlank | src/utils/openai.ts:104 | `filter(x => x.trim())`: keeps exactly the parts that are not all white space |
| Assistant.NonBlankSingle | src/utils/openai.ts:104 | a single part is kept iff it is not blank |
| Assistant.NonBlankConcat | src/utils/openai.ts:104 | filtering distributes over concatenation, so the kept lines keep their order and multiplicity |
| Assistant.PrimaryPass | src/utils/openai.ts:103-128 | the line loop yields the primary parse of the lines |
| Assistant.FallbackPass | src/utils/openai.ts:135-143 | the paragraph loop yields the fallback parse of the parts |
| Assistant.ParseWorkoutResponse | src/utils/openai.ts:97-147 | the exercises are the primary parse, or the fallback parse when the primary parse is empty |
| Assistant.Matches | src/utils/openai.ts:106-110 | at most one match per line |
| Assistant.MatchesSnoc | src/utils/openai.ts:106-110 | one more line adds exactly that line's match, if any |
| Assistant.PrimaryIsOnePerMatch | src/utils/openai.ts:118-126 | one exercise per matching line, in order, the k-th with id `newId(k)` |
| Assistant.MatchesFromLines | src/utils/openai.ts:106-110 | every match comes from a line, and every matching line contributes its match |
| Assistant.PrimaryEmptyIff | src/utils/openai.ts:131 | the primary parse is empty iff no line matches |
| Assistant.BlankLineNeverMatches | src/utils/openai.ts:104-108 | a white-space line cannot match, so filtering blank lines loses no exercise |
| Assistant.ExerciseFromMatchFields | src/utils/openai.ts:111-126 | the name is the trimmed capture; notes are the trimmed details; sets and reps are the two groups of the sets-and-reps match, both present or both absent, digit strings; a duration exactly when the duration pattern matches; the exercise is not completed |
| Assistant.ExerciseSetsRepsLeftmost | src/utils/openai.ts:115-122 | sets and reps are present iff the details contain text of the sets-and-reps shape, and are then the two digit runs of the leftmost such text |
| Assistant.ExerciseDurationLeftmost | src/utils/openai.ts:116-123 | the duration is present iff the details contain text of the duration shape, and is then the digits of the leftmost such text, a space and the first three letters of its unit |
| Assistant.ExerciseDuration | src/utils/openai.ts:116-123 | the duration is the captured digits, a space and the captured unit, which is always the three letters `min` or `sec` |
| Assistant.NoXNoSetsReps | src/utils/openai.ts:115-122 | details without `x`/`X` give no sets and no reps |
| Assistant.FallbackIsOnePerPart | src/utils/openai.ts:135-143 | one exercise per non-blank part, in order, the k-th with id `newId(k)` |
| Assistant.ExerciseFromPartFields | src/utils/openai.ts:139-140 | a fallback name has 1 to 100 characters and is a prefix of the trimmed part; no other detail is set |
| Assistant.ParseIdsAndCompletion | src/utils/openai.ts:118-143 | every parsed exercise has id `newId(k)` at position k and starts uncompleted |
| Assistant.ParseEmptyIff | src/utils/openai.ts:131-144 | the parse is empty iff no line matches and every paragraph is blank |
| Lifecycle.CreatedWorkoutFields | src/App.tsx:63-94 | a sports workout has no equipment, no exercises and the description; a generated one carries the request's equipment and context and the exercises |
| Lifecycle.ExercisesLostAsWritten | src/App.tsx:84 | destructuring `{exercises, quote}` from the returned exercise array yields neither |
| Lifecycle.ExercisesKeptAsIntended | src/App.tsx:84-94 | with the array taken as the exercises, the new workout holds exactly the reply's exercises |
| Lifecycle.ToggleExercises | src/App.tsx:121-125 | same length and the same ids, position by position |
| Lifecycle.ToggleChangesOnlyMatching | src/App.tsx:121-130 | exactly the exercises with the id flip `completed`; every other field of them and of the workout is kept |
| Lifecycle.ToggleTwice | src/App.tsx:121-130 | toggling the same id twice restores the workout |
| Lifecycle.ElapsedSecondsIsFloor | src/App.tsx:180 | the duration d is the floor of elapsed ms / 1000: `1000 d <= end - start < 1000 d + 1000`, non-negative when the end is not before the start |
| Lifecycle.FinishedFields | src/App.tsx:165-187 | a finished workout gets `completedAt`; its duration is the elapsed seconds only for a started non-sports workout; all else is kept |
| Lifecycle.ReplaceById | src/App.tsx:137-139 | the in-memory `map` keeps the length |
| Lifecycle.ReplaceAgreesWithStore | src/App.tsx:133-139 | with unique ids, replacing by id in memory equals the store's replacement of the first entry with that id |
| Lifecycle.WorkoutApp.constructor | src/App.tsx:25-29 | the history view, no open workout, an empty history, no error |
| Lifecycle.WorkoutApp.LoadHistory | src/App.tsx:42-53 | the in-memory history becomes what the store reads |
| Lifecycle.WorkoutApp.GenerateWorkout | src/App.tsx:56-115 | a sports request or a reply makes the workout; it is appended to the store, put in front of the history and opened in the checklist; a failed call or refused write only sets the matching error message |
| Lifecycle.WorkoutApp.ToggleExercise | src/App.tsx:118-140 | outside the checklist view nothing happens; with an open workout, the toggled workout replaces it in the store, in memory and as the open workout; an update failure escapes and changes nothing |
| Lifecycle.WorkoutApp.StartWorkout | src/App.tsx:143-159 | outside the checklist view nothing happens; the open workout gets `startedAt = now` in the store, in memory and on screen; an update failure escapes and changes nothing |
| Lifecycle.WorkoutApp.FinishWorkout | src/App.tsx:162-200 | outside the checklist view nothing happens; an unfinished non-sports workout raises the alert and changes nothing; otherwise the finished workout is stored, mirrored, and the page returns to the history |
| Lifecycle.WorkoutApp.SelectWorkout | src/App.tsx:203-206 | opens the workout in the checklist |
| Lifecycle.WorkoutApp.NewWorkout | src/App.tsx:209-213 | closes the workout, clears the error, shows the form |
| Lifecycle.WorkoutApp.Back | src/App.tsx:216-222 | from the form or checklist, returns to the history with nothing open and no error; from the history, changes nothing |
| Lifecycle.WorkoutApp.DeleteWorkout | src/App.tsx:237-259 | outside the checklist view nothing happens; unconfirmed or with nothing open, nothing changes; otherwise every entry with the id leaves the store and memory and the page returns to the history; a failure only sets the error |
| Stats.Completed | src/components/StatsCards.tsx:13-14 | a sub-multiset of the workouts, all with `completedAt` |
| Stats.CompletedSingle | src/components/StatsCards.tsx:13-14 | a single workout is kept iff it has `completedAt` |
| Stats.CompletedConcat | src/components/StatsCards.tsx:13-14 | filtering distributes over concatenation, so the finished workouts keep their order and multiplicity |
| Stats.TotalWorkoutsCountsFinished | src/components/StatsCards.tsx:9 | the total is the number of positions holding a finished workout |
| Stats.InsertDesc | src/components/StatsCards.tsx:63 | insertion adds exactly the element |
| Stats.InsertDescSorted | src/components/StatsCards.tsx:63 | inserting into a descending list keeps it descending |
| Stats.SortDesc | src/components/StatsCards.tsx:63 | sorting is a permutation |
| Stats.SortDescSorted | src/components/StatsCards.tsx:63 | the result is sorted by descending key and is a permutation of the input |
| Stats.DaysBetween | src/components/StatsCards.tsx:26 | the days between two instants are the largest whole number of 24-hour days that fits between their local midnights, so `Math.floor` of the quotient |
| Stats.StepsFromBound | src/components/StatsCards.tsx:33-47 | the loop adds at most one per remaining workout |
| Stats.StreakBounds | src/components/StatsCards.tsx:17-30 | the streak never exceeds the finished workouts, and is at least 1 when the latest is today or yesterday |
| Stats.ConsecutiveDaysAllCount | src/components/StatsCards.tsx:40-43 | neighbours whose `DaysBetween` is 1 each add one |
| Stats.SameDayIsSkipped | src/components/StatsCards.tsx:42-46 | two workouts on the same day neither add nor break |
| Stats.ShortNightIsSkipped | src/components/StatsCards.tsx:33-46 | neighbours whose midnights are 23 hours apart, as across a spring-forward night, are 0 days apart and are skipped like same-day workouts |
| Stats.GapEndsStreak | src/components/StatsCards.tsx:44-45 | a gap of more than one day ends the count |
| Stats.CalculateStreak | src/components/StatsCards.tsx:12-50 | the loop with its `break` computes the streak of the finished workouts, most recent first; 0 without any; never more than the total |
| Stats.Tally | src/components/StatsCards.tsx:58 | counting one workout adds at most one new entry |
| Stats.TypesOf | src/components/StatsCards.tsx:58 | the workout types, position by position |
| Stats.TallyCount | src/components/StatsCards.tsx:58 | counting a type adds one to that type's count only |
| Stats.TallySum | src/components/StatsCards.tsx:58 | counting adds one to the sum |
| Stats.TallyKeys | src/components/StatsCards.tsx:58 | counting a type adds it to the keys |
| Stats.TallyUnique | src/components/StatsCards.tsx:58 | counting keeps keys unique and counts positive |
| Stats.BreakdownCounts | src/components/StatsCards.tsx:55-60 | each type's count is its number of occurrences; a type is a key iff it occurs; counts are positive, keys unique, and they sum to the number of workouts |
| Stats.TypeCountsSumToTotal | src/components/StatsCards.tsx:55-60 | the breakdown sums to the total of finished workouts |
| Stats.SortedTypesTopFive | src/components/StatsCards.tsx:62-64 | at most five entries, sorted by count, none lower than any entry left out |
| Form.Without | src/components/WorkoutForm.tsx:41 | keeps exactly the other equipment |
| Form.WithoutSingle | src/components/WorkoutForm.tsx:41 | a single item is kept iff it is not the one removed |
| Form.WithoutConcat | src/components/WorkoutForm.tsx:41 | filtering distributes over concatenation, so the kept equipment keeps its order and multiplicity |
| Form.ToggleEquipmentEffect | src/components/WorkoutForm.tsx:38-44 | a selected item is removed; an unselected one is appended at the end; membership flips for it only |
| Form.WithoutShrinks | src/components/WorkoutForm.tsx:41 | removing a present item shortens the selection |
| Form.WithoutAbsent | src/components/WorkoutForm.tsx:41 | removing an absent item changes nothing |
| Form.WithoutAppend | src/components/WorkoutForm.tsx:41-42 | removing what was just appended restores the selection |
| Form.ToggleTwiceRestores | src/components/WorkoutForm.tsx:38-44 | toggling an unselected item twice restores the selection |
| Form.ToggleTwiceMovesLast | src/components/WorkoutForm.tsx:38-44 | toggling a selected item twice moves it to the end |
| Form.WithoutDistinct | src/components/WorkoutForm.tsx:41 | removal keeps the selection free of duplicates |
| Form.ToggleKeepsDistinct | src/components/WorkoutForm.tsx:38-44 | toggling keeps the selection free of duplicates |
| Form.SubmitSpec | src/components/WorkoutForm.tsx:46-60 | submission is refused iff a sports form has a blank description; the context is the trimmed text or absent when blank; the description is trimmed for sports only; type and equipment are passed as they are |
| Form.SubmittedContextReachesPrompt | src/components/WorkoutForm.tsx:55 | the prompt gets a context clause iff the typed context is not all white space |

## Left out

- `generateWorkout` (src/utils/openai.ts:17-71) talks to the assistant service: client set-up, thread, run, polling and reply extraction. Its outcome is the parameter `generated`. Any failure becomes the one message it rethrows. The fallback message in `handleGenerateWorkout`, for a thrown non-`Error`, is therefore not reachable and is not modelled.
- JSON serialization and the storage itself are not modelled. The blob is modelled by what it parses to. A blob that parses but has no `workouts` array makes the source throw later, and is modelled as `Corrupt`, which reads as empty.
- Dates are integer milliseconds. The local-midnight truncation (`setHours(0,0,0,0)`), with its time zone and daylight-saving rules, is the `midnightOf` parameter. `Math.floor` over a floating-point division is exact integer floor division.
- `crypto.randomUUID()` values are parameters, and are not assumed distinct.
- The `loading` flag, and `alert`/`confirm` as UI side effects, are not modelled. A confirmation is the input `confirmed`; an alert is a result value.
- Authentication (`PasswordScreen.tsx`, `auth.ts`) is not part of this model. Neither are the goal and progress handlers of `App.tsx`, whose storage functions are not defined in `src/utils/storage.ts`. The rendering components (`StrengthRadar.tsx`, `WorkoutHistory.tsx`, `WorkoutChecklist.tsx`) are also left out.
- Text.Prefix: `substring` counts UTF-16 code units. The model counts Unicode scalar values, so a name cut inside a surrogate pair is not modelled.
- Stats.SortDesc: `Array.prototype.sort` is stable. The model's insertion sort is stable by construction, but stability is not stated as a proved property.
- Lifecycle.WorkoutApp.GenerateWorkout: follows the intended reading of src/App.tsx:84, taking the returned exercise array as the workout's exercises. As written, the destructuring yields no exercises and no quote (`Lifecycle.ExercisesLostAsWritten`), so the saved workout would have none and the checklist would fail on it; that failure is not modelled.
- Lifecycle.WorkoutApp: the in-memory history is not proved to stay equal to the stored list. They can differ, since the source prepends in memory and appends in storage. `Lifecycle.ReplaceAgreesWithStore` relates one update of each under unique ids.
- Lifecycle.WorkoutApp.ToggleExercise, `StartWorkout` and `FinishWorkout`: the source does not catch the exception from `updateWorkout`. The model returns it as `Thrown` and leaves the page state unchanged; React's error handling beyond that is not modelled.

## Findings

| source | as written | input that shows it | evidently intended | confidence | as-written member | corrected member |
|---|---|---|---|---|---|---|
| src/App.tsx:84 | `const { exercises, quote } = await generateWorkout(request)` destructures an `Exercise[]` (src/utils/openai.ts:17,66), so both names are `undefined` and the saved workout has no exercises | any non-sports request whose reply parses to at least one exercise | the returned array becomes the workout's exercises | high, not executed | Lifecycle.ExercisesLostAsWritten | Lifecycle.ExercisesKeptAsIntended |

The comment above the parser (src/utils/openai.ts:99-101) shows only lines
of the form `1. Exercise Name - 3 sets x 10 reps`. Two consequences of the
patterns for other lines are proved here; they are properties of the code,
not departures from a documented example. On a hyphenated name such as the
hypothetical line `1. Push-ups - 3 sets x 15 reps`, the lazy name group
stops at the first `-`, so the name is `Push` (`Patterns.HyphenatedNameIsCut`,
`Patterns.HyphenNameIsPush`). Only `x` or `X` separates sets from reps, so a
line written with `×` yields neither (`Patterns.SetsRepsNeedX`).
