/**
 * The figures of src/components/StatsCards.tsx, computed from the workout
 * history: how many workouts were finished, the run of consecutive training
 * days, and how the finished workouts divide among the workout types.
 *
 * A workout's `date` is the integer millisecond time of its creation. The
 * parameter `midnightOf` gives the local midnight of a time, in milliseconds,
 * as `setHours(0, 0, 0, 0)` does in the local time zone; the number of days
 * between two times is the floored quotient of their midnights' difference by
 * the milliseconds of a 24-hour day.
 */
module Stats {
  import opened Common
  import opened Types

  // ---------------------------------------------------------------------
  // Finished workouts
  // ---------------------------------------------------------------------

  /** `filter((w) => w.completedAt)`: the finished workouts, in their order. */
  function Completed(ws: seq<Workout>): (r: seq<Workout>)
    ensures |r| <= |ws|
    ensures forall k :: 0 <= k < |r| ==> r[k].completedAt.Some?
    ensures multiset(r) <= multiset(ws)
    decreases |ws|
  {
    if ws == [] then []
    else
      var init := ws[..|ws| - 1];
      var last := ws[|ws| - 1];
      assert ws == init + [last];
      if last.completedAt.Some? then Completed(init) + [last] else Completed(init)
  }

  /** A single workout is kept exactly when it is finished. */
  lemma CompletedSingle(w: Workout)
    ensures Completed([w]) == if w.completedAt.Some? then [w] else []
  {
    assert [w][..0] == [];
  }

  /** Filtering distributes over concatenation, so the finished workouts keep their order and multiplicity. */
  lemma {:induction false} CompletedConcat(a: seq<Workout>, b: seq<Workout>)
    ensures Completed(a + b) == Completed(a) + Completed(b)
    decreases |b|
  {
    if b == [] {
      assert a + b == a;
    } else {
      var init := b[..|b| - 1];
      assert a + b == (a + init) + [b[|b| - 1]];
      assert (a + b)[..|a + b| - 1] == a + init;
      CompletedConcat(a, init);
    }
  }

  /** `totalWorkouts`. */
  function TotalWorkouts(ws: seq<Workout>): nat {
    |Completed(ws)|
  }

  /** The positions of the finished workouts. */
  function CompletedPositions(ws: seq<Workout>): set<nat> {
    set k: nat | k < |ws| && ws[k].completedAt.Some?
  }

  /** The total is the number of positions that hold a finished workout. */
  lemma {:induction false} TotalWorkoutsCountsFinished(ws: seq<Workout>)
    ensures TotalWorkouts(ws) == |CompletedPositions(ws)|
    decreases |ws|
  {
    if ws == [] {
      assert CompletedPositions(ws) == {};
    } else {
      var n := |ws| - 1;
      var init := ws[..n];
      TotalWorkoutsCountsFinished(init);
      PositionsSnoc(ws);
      assert ws == init + [ws[n]];
      if ws[n].completedAt.Some? {
        assert Completed(ws) == Completed(init) + [ws[n]];
      } else {
        assert Completed(ws) == Completed(init);
      }
    }
  }

  /** The last position joins the finished positions of the rest exactly when its workout is finished. */
  lemma PositionsSnoc(ws: seq<Workout>)
    requires ws != []
    ensures var n := |ws| - 1; var before := CompletedPositions(ws[..n]);
      && n !in before
      && CompletedPositions(ws) == if ws[n].completedAt.Some? then before + {n} else before
  {
    var n := |ws| - 1;
    var init := ws[..n];
    var before := CompletedPositions(init);
    var after := CompletedPositions(ws);
    forall k | k in before ensures k in after {
      assert ws[k] == init[k];
    }
    forall k | k in after && k != n ensures k in before {
      assert ws[k] == init[k];
    }
  }

  // ---------------------------------------------------------------------
  // A stable sort on a descending integer key (Array.prototype.sort is
  // stable; the comparators order by a key, largest first)
  // ---------------------------------------------------------------------

  predicate SortedDesc<T>(s: seq<T>, key: T -> int) {
    forall i, j :: 0 <= i < j < |s| ==> key(s[i]) >= key(s[j])
  }

  /** Puts `x` after every element whose key is at least its own. */
  function InsertDesc<T>(x: T, s: seq<T>, key: T -> int): (r: seq<T>)
    ensures multiset(r) == multiset(s) + multiset{x} && |r| == |s| + 1
    decreases |s|
  {
    if s == [] then [x]
    else if key(s[0]) >= key(x) then
      assert s == [s[0]] + s[1..];
      [s[0]] + InsertDesc(x, s[1..], key)
    else [x] + s
  }

  lemma {:induction false} InsertDescSorted<T>(x: T, s: seq<T>, key: T -> int)
    requires SortedDesc(s, key)
    ensures SortedDesc(InsertDesc(x, s, key), key)
    decreases |s|
  {
    if s != [] && key(s[0]) >= key(x) {
      var rest := InsertDesc(x, s[1..], key);
      InsertDescSorted(x, s[1..], key);
      InsertDescFirst(x, s[1..], key);
      PrependSorted(s[0], rest, key);
    } else {
      PrependSorted(x, s, key);
    }
  }

  /** An element whose key is at least the front's keeps a descending list descending. */
  lemma PrependSorted<T>(x: T, s: seq<T>, key: T -> int)
    requires SortedDesc(s, key) && (s == [] || key(x) >= key(s[0]))
    ensures SortedDesc([x] + s, key)
  {
    var r := [x] + s;
    forall i, j | 0 <= i < j < |r| ensures key(r[i]) >= key(r[j]) {
      assert r[j] == s[j - 1];
      if i > 0 {
        assert r[i] == s[i - 1];
      } else if j > 1 {
        assert key(s[0]) >= key(s[j - 1]);
      }
    }
  }

  /** The front of an insertion is the inserted element or the old front. */
  lemma InsertDescFirst<T>(x: T, s: seq<T>, key: T -> int)
    ensures InsertDesc(x, s, key)[0] == if s != [] && key(s[0]) >= key(x) then s[0] else x
  {
  }

  /** The elements inserted one after the other, in their order, into a sorted list. */
  function SortDesc<T>(s: seq<T>, key: T -> int): (r: seq<T>)
    ensures multiset(r) == multiset(s) && |r| == |s|
    decreases |s|
  {
    if s == [] then []
    else
      assert s == s[..|s| - 1] + [s[|s| - 1]];
      InsertDesc(s[|s| - 1], SortDesc(s[..|s| - 1], key), key)
  }

  /** The sort orders by the key, largest first, and keeps exactly the elements it was given. */
  lemma {:induction false} SortDescSorted<T>(s: seq<T>, key: T -> int)
    ensures SortedDesc(SortDesc(s, key), key)
    ensures multiset(SortDesc(s, key)) == multiset(s)
    decreases |s|
  {
    if s != [] {
      SortDescSorted(s[..|s| - 1], key);
      InsertDescSorted(s[|s| - 1], SortDesc(s[..|s| - 1], key), key);
    }
  }

  function DateOf(w: Workout): int {
    w.date
  }

  /** The finished workouts, most recently created first. */
  function RecentFirst(ws: seq<Workout>): seq<Workout> {
    SortDesc(Completed(ws), DateOf)
  }

  // ---------------------------------------------------------------------
  // calculateStreak
  // ---------------------------------------------------------------------

  /** `1000 * 60 * 60 * 24`: the milliseconds the source divides by. */
  const MsPerDay: int := 86400000

  /**
   * `Math.floor((a - b) / (1000 * 60 * 60 * 24))` on the local midnights of
   * two times: the whole number of 24-hour spans between the midnights,
   * rounded down.
   */
  function DaysBetween(later: int, earlier: int, midnightOf: int -> int): (days: int)
    ensures days * MsPerDay <= midnightOf(later) - midnightOf(earlier) < (days + 1) * MsPerDay
  {
    (midnightOf(later) - midnightOf(earlier)) / MsPerDay
  }

  /**
   * From position `i` on, the one-day steps between neighbours before the
   * first gap of more than a day; neighbours less than a day apart add nothing.
   */
  function StepsFrom(ws: seq<Workout>, i: nat, midnightOf: int -> int): nat
    requires 1 <= i
    decreases |ws| - i
  {
    if i >= |ws| then 0
    else
      var gap := DaysBetween(ws[i - 1].date, ws[i].date, midnightOf);
      if gap > 1 then 0
      else (if gap == 1 then 1 else 0) + StepsFrom(ws, i + 1, midnightOf)
  }

  /** The streak of a most-recent-first list at time `now`: none when it is empty or its first day is before yesterday. */
  function StreakOf(ws: seq<Workout>, now: int, midnightOf: int -> int): nat {
    if |ws| == 0 then 0
    else if DaysBetween(now, ws[0].date, midnightOf) > 1 then 0
    else 1 + StepsFrom(ws, 1, midnightOf)
  }

  lemma {:induction false} StepsFromBound(ws: seq<Workout>, i: nat, midnightOf: int -> int)
    requires 1 <= i
    ensures StepsFrom(ws, i, midnightOf) <= if i >= |ws| then 0 else |ws| - i
    decreases |ws| - i
  {
    if i < |ws| {
      StepsFromBound(ws, i + 1, midnightOf);
    }
  }

  /** A streak counts one per day: it never exceeds the number of finished workouts. */
  lemma StreakBounds(ws: seq<Workout>, now: int, midnightOf: int -> int)
    ensures StreakOf(ws, now, midnightOf) <= |ws|
    ensures |ws| > 0 && DaysBetween(now, ws[0].date, midnightOf) <= 1 ==> StreakOf(ws, now, midnightOf) >= 1
  {
    StepsFromBound(ws, 1, midnightOf);
  }

  /** Workouts on consecutive days, each the day before the previous one, all count. */
  lemma {:induction false} ConsecutiveDaysAllCount(ws: seq<Workout>, i: nat, midnightOf: int -> int)
    requires 1 <= i
    requires forall k :: i <= k < |ws| ==> DaysBetween(ws[k - 1].date, ws[k].date, midnightOf) == 1
    ensures StepsFrom(ws, i, midnightOf) == if i >= |ws| then 0 else |ws| - i
    decreases |ws| - i
  {
    if i < |ws| {
      ConsecutiveDaysAllCount(ws, i + 1, midnightOf);
    }
  }

  /** Same-day neighbours, which share their midnight, neither add to the streak nor end it. */
  lemma SameDayIsSkipped(ws: seq<Workout>, i: nat, midnightOf: int -> int)
    requires 1 <= i < |ws| && midnightOf(ws[i - 1].date) == midnightOf(ws[i].date)
    ensures StepsFrom(ws, i, midnightOf) == StepsFrom(ws, i + 1, midnightOf)
  {
  }

  /**
   * Neighbours whose midnights are less than 24 hours apart count as the same
   * day. Across a night the clocks go forward, two calendar days in a row have
   * midnights 23 hours apart, so the later day does not lengthen the streak.
   */
  lemma ShortNightIsSkipped(ws: seq<Workout>, i: nat, midnightOf: int -> int)
    requires 1 <= i < |ws| && midnightOf(ws[i - 1].date) - midnightOf(ws[i].date) == 23 * 3600000
    ensures DaysBetween(ws[i - 1].date, ws[i].date, midnightOf) == 0
    ensures StepsFrom(ws, i, midnightOf) == StepsFrom(ws, i + 1, midnightOf)
  {
  }

  /** A gap of more than one day ends the count: nothing after it adds to the streak. */
  lemma GapEndsStreak(ws: seq<Workout>, i: nat, midnightOf: int -> int)
    requires 1 <= i < |ws| && DaysBetween(ws[i - 1].date, ws[i].date, midnightOf) > 1
    ensures StepsFrom(ws, i, midnightOf) == 0
  {
  }

  /**
   * `calculateStreak`: the finished workouts sorted by creation date, most
   * recent first; none, or a most recent one before yesterday, gives 0;
   * otherwise 1 plus a count over neighbours that stops at the first gap of
   * more than one day.
   */
  method CalculateStreak(workouts: seq<Workout>, now: int, midnightOf: int -> int) returns (streak: nat)
    ensures streak == StreakOf(RecentFirst(workouts), now, midnightOf)
    ensures TotalWorkouts(workouts) == 0 ==> streak == 0
    ensures streak <= TotalWorkouts(workouts)
  {
    var completed := SortDesc(Completed(workouts), DateOf);
    StreakBounds(completed, now, midnightOf);
    if |completed| == 0 {
      return 0;
    }
    streak := 1;
    var today := midnightOf(now);
    var mostRecentDate := midnightOf(completed[0].date);
    var daysDiff := (today - mostRecentDate) / MsPerDay;
    if daysDiff > 1 {
      return 0;
    }
    var i := 1;
    while i < |completed|
      invariant 1 <= i <= |completed|
      invariant streak + StepsFrom(completed, i, midnightOf) == 1 + StepsFrom(completed, 1, midnightOf)
    {
      var currentDate := midnightOf(completed[i - 1].date);
      var previousDate := midnightOf(completed[i].date);
      var diff := (currentDate - previousDate) / MsPerDay;
      if diff == 1 {
        streak := streak + 1;
      } else if diff > 1 {
        break;
      }
      i := i + 1;
    }
  }

  // ---------------------------------------------------------------------
  // typeBreakdown and sortedTypes
  // ---------------------------------------------------------------------

  /** One entry of `Object.entries(typeBreakdown)`. */
  datatype TypeCount = TypeCount(workoutType: WorkoutType, count: nat)

  /** `acc[t] = (acc[t] || 0) + 1`: an existing key keeps its place, a new key goes last. */
  function Tally(counts: seq<TypeCount>, t: WorkoutType): (r: seq<TypeCount>)
    ensures |counts| <= |r| <= |counts| + 1
    decreases |counts|
  {
    if counts == [] then [TypeCount(t, 1)]
    else if counts[0].workoutType == t then [counts[0].(count := counts[0].count + 1)] + counts[1..]
    else [counts[0]] + Tally(counts[1..], t)
  }

  /** The `reduce` over the finished workouts, in their order. */
  function Breakdown(finished: seq<Workout>): seq<TypeCount>
    decreases |finished|
  {
    if finished == [] then []
    else Tally(Breakdown(finished[..|finished| - 1]), finished[|finished| - 1].workoutType)
  }

  /** `typeBreakdown`, as its entries in key-insertion order. */
  function TypeBreakdown(ws: seq<Workout>): seq<TypeCount> {
    Breakdown(Completed(ws))
  }

  function CountKey(e: TypeCount): int {
    e.count
  }

  /** `sortedTypes`: the entries by count, largest first (ties in insertion order), at most five. */
  function SortedTypes(ws: seq<Workout>): seq<TypeCount> {
    Take(SortDesc(TypeBreakdown(ws), CountKey), 5)
  }

  /** `slice(0, cap)`: the first `cap` entries, or all of them when there are fewer. */
  function Take<T>(all: seq<T>, cap: nat): seq<T> {
    if |all| <= cap then all else all[..cap]
  }

  /** The count stored under `t`, or 0 when `t` is not a key. */
  function CountIn(counts: seq<TypeCount>, t: WorkoutType): nat
    decreases |counts|
  {
    if counts == [] then 0
    else if counts[0].workoutType == t then counts[0].count
    else CountIn(counts[1..], t)
  }

  function Keys(counts: seq<TypeCount>): set<WorkoutType> {
    set k | 0 <= k < |counts| :: counts[k].workoutType
  }

  predicate UniqueKeys(counts: seq<TypeCount>) {
    forall i, j :: 0 <= i < j < |counts| ==> counts[i].workoutType != counts[j].workoutType
  }

  predicate PositiveCounts(counts: seq<TypeCount>) {
    forall k :: 0 <= k < |counts| ==> counts[k].count > 0
  }

  function Sum(counts: seq<TypeCount>): nat
    decreases |counts|
  {
    if counts == [] then 0 else counts[0].count + Sum(counts[1..])
  }

  /** The workout types of a list, position by position. */
  function TypesOf(ws: seq<Workout>): (r: seq<WorkoutType>)
    ensures |r| == |ws| && forall k :: 0 <= k < |ws| ==> r[k] == ws[k].workoutType
  {
    seq(|ws|, k requires 0 <= k < |ws| => ws[k].workoutType)
  }

  lemma {:induction false} TallyCount(counts: seq<TypeCount>, t: WorkoutType, u: WorkoutType)
    ensures CountIn(Tally(counts, t), u) == CountIn(counts, u) + (if u == t then 1 else 0)
    decreases |counts|
  {
    if counts != [] && counts[0].workoutType != t {
      TallyCount(counts[1..], t, u);
    }
  }

  lemma {:induction false} TallySum(counts: seq<TypeCount>, t: WorkoutType)
    ensures Sum(Tally(counts, t)) == Sum(counts) + 1
    decreases |counts|
  {
    if counts != [] {
      if counts[0].workoutType == t {
        assert Tally(counts, t)[1..] == counts[1..];
      } else {
        TallySum(counts[1..], t);
        assert Tally(counts, t)[1..] == Tally(counts[1..], t);
      }
    }
  }

  lemma KeysCons(x: TypeCount, s: seq<TypeCount>)
    ensures Keys([x] + s) == {x.workoutType} + Keys(s)
  {
    var r := [x] + s;
    assert r[0] == x;
    forall u | u in Keys(r) ensures u in {x.workoutType} + Keys(s) {
      var k :| 0 <= k < |r| && r[k].workoutType == u;
      if k > 0 {
        assert s[k - 1].workoutType == u;
      }
    }
    forall u | u in Keys(s) ensures u in Keys(r) {
      var k :| 0 <= k < |s| && s[k].workoutType == u;
      assert r[k + 1].workoutType == u;
    }
  }

  /** Tallying a type adds it to the keys, if it was not one already, and adds no other key. */
  lemma {:induction false} TallyKeys(counts: seq<TypeCount>, t: WorkoutType)
    ensures Keys(Tally(counts, t)) == Keys(counts) + {t}
    decreases |counts|
  {
    if counts == [] {
      KeysCons(TypeCount(t, 1), []);
      assert [TypeCount(t, 1)] + [] == [TypeCount(t, 1)];
      assert Keys(counts) == {};
    } else {
      var tail := counts[1..];
      assert counts == [counts[0]] + tail;
      KeysCons(counts[0], tail);
      if counts[0].workoutType == t {
        KeysCons(counts[0].(count := counts[0].count + 1), tail);
      } else {
        TallyKeys(tail, t);
        KeysCons(counts[0], Tally(tail, t));
      }
    }
  }

  /** Tallying keeps the keys unique and every count positive. */
  lemma {:induction false} TallyUnique(counts: seq<TypeCount>, t: WorkoutType)
    requires UniqueKeys(counts) && PositiveCounts(counts)
    ensures UniqueKeys(Tally(counts, t)) && PositiveCounts(Tally(counts, t))
    decreases |counts|
  {
    var r := Tally(counts, t);
    if counts != [] {
      if counts[0].workoutType == t {
        TallyFirst(counts, t);
      } else {
        var tail := counts[1..];
        TallyUnique(tail, t);
        TallyKeys(tail, t);
        forall k | 0 <= k < |tail| ensures tail[k].workoutType != counts[0].workoutType {
          assert tail[k] == counts[k + 1];
        }
        ConsUnique(counts[0], Tally(tail, t));
      }
    }
  }

  /** An entry whose key is new and whose count is positive can go in front of a tally. */
  lemma ConsUnique(c: TypeCount, counts: seq<TypeCount>)
    requires UniqueKeys(counts) && PositiveCounts(counts)
    requires c.count > 0 && c.workoutType !in Keys(counts)
    ensures UniqueKeys([c] + counts) && PositiveCounts([c] + counts)
  {
    var r := [c] + counts;
    forall j | 0 < j < |r| ensures r[0].workoutType != r[j].workoutType {
      assert r[j] == counts[j - 1];
    }
  }

  /** Tallying the type of the first entry bumps that entry's count and keeps the rest. */
  lemma TallyFirst(counts: seq<TypeCount>, t: WorkoutType)
    requires UniqueKeys(counts) && PositiveCounts(counts)
    requires counts != [] && counts[0].workoutType == t
    ensures UniqueKeys(Tally(counts, t)) && PositiveCounts(Tally(counts, t))
  {
    var r := Tally(counts, t);
    assert r == [counts[0].(count := counts[0].count + 1)] + counts[1..];
    forall k | 0 <= k < |r|
      ensures r[k].workoutType == counts[k].workoutType && r[k].count >= counts[k].count
    {
      if k > 0 {
        assert r[k] == counts[k];
      }
    }
  }

  /**
   * Each key of the breakdown counts exactly the finished workouts of that
   * type; a type is a key exactly when it occurs; keys are unique; and the
   * counts add up to the number of finished workouts.
   */
  lemma BreakdownCounts(finished: seq<Workout>)
    ensures var b := Breakdown(finished);
      && UniqueKeys(b) && PositiveCounts(b)
      && (forall t :: CountIn(b, t) == multiset(TypesOf(finished))[t])
      && (forall t :: t in Keys(b) <==> t in TypesOf(finished))
      && Sum(b) == |finished|
  {
    BreakdownWellFormed(finished);
    BreakdownTallies(finished);
    BreakdownKeys(finished);
  }

  lemma {:induction false} BreakdownWellFormed(finished: seq<Workout>)
    ensures UniqueKeys(Breakdown(finished)) && PositiveCounts(Breakdown(finished))
    decreases |finished|
  {
    if finished != [] {
      var init := finished[..|finished| - 1];
      BreakdownWellFormed(init);
      TallyUnique(Breakdown(init), finished[|finished| - 1].workoutType);
    }
  }

  lemma {:induction false} BreakdownTallies(finished: seq<Workout>)
    ensures forall t :: CountIn(Breakdown(finished), t) == multiset(TypesOf(finished))[t]
    ensures Sum(Breakdown(finished)) == |finished|
    decreases |finished|
  {
    if finished != [] {
      var init := finished[..|finished| - 1];
      var t := finished[|finished| - 1].workoutType;
      BreakdownTallies(init);
      var bi := Breakdown(init);
      TallySum(bi, t);
      assert TypesOf(finished) == TypesOf(init) + [t];
      forall u ensures CountIn(Breakdown(finished), u) == multiset(TypesOf(finished))[u] {
        TallyCount(bi, t, u);
      }
    }
  }

  lemma {:induction false} BreakdownKeys(finished: seq<Workout>)
    ensures forall t :: t in Keys(Breakdown(finished)) <==> t in TypesOf(finished)
    decreases |finished|
  {
    if finished == [] {
      assert Keys(Breakdown(finished)) == {};
    } else {
      var init := finished[..|finished| - 1];
      var t := finished[|finished| - 1].workoutType;
      BreakdownKeys(init);
      TallyKeys(Breakdown(init), t);
      assert TypesOf(finished) == TypesOf(init) + [t];
      forall u ensures u in Keys(Breakdown(finished)) <==> u in TypesOf(finished) {
        assert u in TypesOf(finished) <==> u in TypesOf(init) || u == t;
      }
    }
  }

  /** The per-type counts add up to `totalWorkouts`. */
  lemma TypeCountsSumToTotal(ws: seq<Workout>)
    ensures Sum(TypeBreakdown(ws)) == TotalWorkouts(ws)
    ensures forall t :: CountIn(TypeBreakdown(ws), t) == multiset(TypesOf(Completed(ws)))[t]
  {
    BreakdownCounts(Completed(ws));
  }

  /** The first `cap` entries of a sorted list, or all of them, are sorted and hold the largest keys. */
  lemma TopOfSorted<T>(all: seq<T>, key: T -> int, cap: nat)
    requires SortedDesc(all, key)
    ensures var shown := Take(all, cap);
      && |shown| <= cap && SortedDesc(shown, key) && shown == all[..|shown|]
      && (|all| >= cap ==> |shown| == cap)
      && forall i, j :: 0 <= i < |shown| <= j < |all| ==> key(shown[i]) >= key(all[j])
  {
    var n := if |all| <= cap then |all| else cap;
    assert all[..n] == Take(all, cap);
    forall i, j | 0 <= i < n <= j < |all| ensures key(all[..n][i]) >= key(all[j]) {
      assert all[..n][i] == all[i];
    }
  }

  /**
   * At most five entries, in non-increasing count order, taken from the
   * front of the sorted breakdown: no entry left out has a larger count than
   * one shown.
   */
  lemma SortedTypesTopFive(ws: seq<Workout>)
    ensures var shown := SortedTypes(ws); var all := SortDesc(TypeBreakdown(ws), CountKey);
      && |shown| <= 5 && SortedDesc(shown, CountKey)
      && multiset(all) == multiset(TypeBreakdown(ws))
      && shown == all[..|shown|]
      && (|all| >= 5 ==> |shown| == 5)
      && forall i, j :: 0 <= i < |shown| <= j < |all| ==> CountKey(shown[i]) >= CountKey(all[j])
  {
    var all := SortDesc(TypeBreakdown(ws), CountKey);
    SortDescSorted(TypeBreakdown(ws), CountKey);
    TopOfSorted(all, CountKey, 5);
  }
}
