/**
 * The workout lifecycle of src/App.tsx: the handlers that create a workout,
 * check off its exercises, start it, finish it and delete it, over the page's
 * state (the open workout, the in-memory copy of the history, the view) and
 * the workout store.
 *
 * The new records are computed by pure functions, as the handlers compute
 * them with spreads and `map`. Each handler then writes to the store and only
 * afterwards sets the page state, so a store call that throws leaves the page
 * state as it was. The clock, `crypto.randomUUID()`, the assistant's reply,
 * the confirmation dialog and whether the browser accepts a write are
 * parameters.
 */
module Lifecycle {
  import opened Common
  import opened Types
  import opened Storage

  datatype View = HistoryView | FormView | ChecklistView

  /** What a handler did. `Thrown` is an exception that escapes the handler uncaught. */
  datatype HandlerResult = Done | Ignored | Alerted(message: string) | Thrown(message: string)

  const GenerateError := "Could not generate workout. Please try again."
  const IncompleteAlert := "Please complete all exercises before finishing the workout."
  const DeleteFailed := "Failed to delete workout. Please try again."

  // ---------------------------------------------------------------------
  // New records
  // ---------------------------------------------------------------------

  /** A sports session: no equipment, no exercises, the activity's description. */
  function SportsWorkout(request: WorkoutRequest, id: string, now: int): Workout {
    Workout(id, now, request.workoutType, [], request.context, [], None, None, None, None,
            request.sportsDescription)
  }

  /** A generated workout carrying the exercises the assistant's reply was parsed into. */
  function GeneratedWorkout(request: WorkoutRequest, id: string, now: int, exercises: seq<Exercise>): Workout {
    Workout(id, now, request.workoutType, request.equipment, request.context, exercises,
            None, None, None, None, None)
  }

  /** A created workout is new: not started, not finished, and it records the request it answers. */
  lemma CreatedWorkoutFields(request: WorkoutRequest, id: string, now: int, exercises: seq<Exercise>)
    ensures var s := SportsWorkout(request, id, now);
      && s.id == id && s.date == now && s.workoutType == request.workoutType && s.context == request.context
      && s.equipment == [] && s.exercises == [] && s.sportsDescription == request.sportsDescription
      && s.startedAt.None? && s.completedAt.None? && s.duration.None? && s.quote.None?
    ensures var g := GeneratedWorkout(request, id, now, exercises);
      && g.id == id && g.date == now && g.workoutType == request.workoutType && g.context == request.context
      && g.equipment == request.equipment && g.exercises == exercises && g.sportsDescription.None?
      && g.startedAt.None? && g.completedAt.None? && g.duration.None? && g.quote.None?
  {
  }

  // ---------------------------------------------------------------------
  // What `generateWorkout`'s result is destructured into (App.tsx:84)
  // ---------------------------------------------------------------------

  /** The two properties read off the value `generateWorkout` resolves to. */
  datatype Destructured = Destructured(exercises: Option<seq<Exercise>>, quote: Option<string>)

  /**
   * `const { exercises, quote } = await generateWorkout(request)`, as written:
   * the value is an array of exercises, which has no property `exercises` or
   * `quote`, so both read as `undefined`.
   */
  function DestructureAsWritten(reply: seq<Exercise>): Destructured {
    Destructured(None, None)
  }

  /** As written, the parsed exercises never reach the new workout, however many there are. */
  lemma ExercisesLostAsWritten(reply: seq<Exercise>)
    requires |reply| > 0
    ensures DestructureAsWritten(reply).exercises != Some(reply)
    ensures DestructureAsWritten(reply).exercises.None?
  {
  }

  /** The evidently intended reading: the resolved array is the exercise list. */
  function DestructureIntended(reply: seq<Exercise>): Destructured {
    Destructured(Some(reply), None)
  }

  /** With the intended reading, the new workout carries exactly the parsed exercises. */
  lemma ExercisesKeptAsIntended(request: WorkoutRequest, id: string, now: int, reply: seq<Exercise>)
    ensures DestructureIntended(reply).exercises == Some(reply)
    ensures GeneratedWorkout(request, id, now, DestructureIntended(reply).exercises.value).exercises == reply
  {
  }

  // ---------------------------------------------------------------------
  // Updated records
  // ---------------------------------------------------------------------

  /** One exercise with `completed` negated. */
  function Flipped(e: Exercise): Exercise {
    e.(completed := !e.completed)
  }

  /** `exercises.map(…)`: negates `completed` on the exercises with that id. */
  function ToggleExercises(exercises: seq<Exercise>, exerciseId: string): (r: seq<Exercise>)
    ensures |r| == |exercises|
    ensures forall k :: 0 <= k < |r| ==> r[k].id == exercises[k].id
  {
    seq(|exercises|, k requires 0 <= k < |exercises| =>
      if exercises[k].id == exerciseId then Flipped(exercises[k]) else exercises[k])
  }

  /** The toggled workout: only its exercise list changes. */
  function Toggled(w: Workout, exerciseId: string): Workout {
    w.(exercises := ToggleExercises(w.exercises, exerciseId))
  }

  /**
   * Toggling changes exactly the `completed` flag of the exercises with that
   * id, keeps every other field of them, the other exercises, the order, the
   * length and the rest of the workout.
   */
  lemma ToggleChangesOnlyMatching(w: Workout, exerciseId: string)
    ensures var t := Toggled(w, exerciseId);
      && t == w.(exercises := t.exercises)
      && |t.exercises| == |w.exercises|
      && forall k :: 0 <= k < |w.exercises| ==>
           if w.exercises[k].id == exerciseId
           then t.exercises[k].completed != w.exercises[k].completed
                && t.exercises[k] == w.exercises[k].(completed := t.exercises[k].completed)
           else t.exercises[k] == w.exercises[k]
  {
  }

  /** Toggling the same exercise twice gives back the workout. */
  lemma ToggleTwice(w: Workout, exerciseId: string)
    ensures Toggled(Toggled(w, exerciseId), exerciseId) == w
  {
    var once := ToggleExercises(w.exercises, exerciseId);
    var twice := ToggleExercises(once, exerciseId);
    assert forall k :: 0 <= k < |twice| ==> twice[k] == w.exercises[k];
    assert twice == w.exercises;
  }

  /** The started workout: `startedAt` is now, whatever it was. */
  function Started(w: Workout, now: int): Workout {
    w.(startedAt := Some(now))
  }

  /** The completion gate: a sports workout, or every exercise checked off (vacuously when none). */
  predicate CanFinish(w: Workout) {
    w.workoutType == Sports || forall k :: 0 <= k < |w.exercises| ==> w.exercises[k].completed
  }

  /** `Math.floor((end - start) / 1000)`: whole seconds elapsed. */
  function ElapsedSeconds(start: int, end: int): int {
    (end - start) / 1000
  }

  /** The seconds are the floor of the elapsed milliseconds over 1000, also when the clock went back. */
  lemma ElapsedSecondsIsFloor(start: int, end: int)
    ensures var d := ElapsedSeconds(start, end);
      d * 1000 <= end - start < d * 1000 + 1000
    ensures start <= end ==> 0 <= ElapsedSeconds(start, end)
  {
  }

  /** The finished workout: completed now, with a duration only for a started non-sports workout. */
  function Finished(w: Workout, now: int): Workout {
    var duration := if w.workoutType != Sports && w.startedAt.Some?
      then Some(ElapsedSeconds(w.startedAt.value, now)) else None;
    w.(completedAt := Some(now), duration := duration)
  }

  lemma FinishedFields(w: Workout, now: int)
    ensures var f := Finished(w, now);
      && f == w.(completedAt := Some(now), duration := f.duration)
      && (f.duration.Some? <==> w.workoutType != Sports && w.startedAt.Some?)
      && (f.duration.Some? ==> f.duration.value * 1000 <= now - w.startedAt.value < f.duration.value * 1000 + 1000)
  {
    if w.workoutType != Sports && w.startedAt.Some? {
      ElapsedSecondsIsFloor(w.startedAt.value, now);
    }
  }

  /** `prev.map((w) => (w.id === id ? u : w))`: every entry with that id becomes `u`. */
  function ReplaceById(ws: seq<Workout>, id: string, u: Workout): (r: seq<Workout>)
    ensures |r| == |ws|
  {
    seq(|ws|, k requires 0 <= k < |ws| => if ws[k].id == id then u else ws[k])
  }

  /** Ids that occur at most once. */
  predicate UniqueIds(ws: seq<Workout>) {
    forall i, j :: 0 <= i < j < |ws| ==> ws[i].id != ws[j].id
  }

  /**
   * The in-memory copy replaces every entry with the id, the store only the
   * first: on a list whose ids are unique the two agree.
   */
  lemma ReplaceAgreesWithStore(ws: seq<Workout>, id: string, u: Workout)
    requires UniqueIds(ws)
    ensures FirstIndexWithId(ws, id).None? ==> ReplaceById(ws, id, u) == ws
    ensures FirstIndexWithId(ws, id).Some? ==> ReplaceById(ws, id, u) == ws[FirstIndexWithId(ws, id).value := u]
  {
    var r := ReplaceById(ws, id, u);
    match FirstIndexWithId(ws, id)
    case None =>
      assert forall k :: 0 <= k < |ws| ==> r[k] == ws[k];
    case Some(i) =>
      assert forall k :: 0 <= k < |ws| && k != i ==> ws[k].id != id;
      assert forall k :: 0 <= k < |ws| ==> r[k] == ws[i := u][k];
  }

  // ---------------------------------------------------------------------
  // The page
  // ---------------------------------------------------------------------

  class WorkoutApp {
    const store: WorkoutStore
    var view: View
    var currentWorkout: Option<Workout>
    var history: seq<Workout>
    var error: Option<string>

    /**
     * The checklist shows exactly when a workout is open. Every handler keeps
     * it, and it is what makes the checklist's handlers do nothing on any
     * other view.
     */
    predicate Valid()
      reads this
    {
      view == ChecklistView <==> currentWorkout.Some?
    }

    /** The page as first rendered: the history view, nothing open, an empty history. */
    constructor (store: WorkoutStore)
      ensures this.store == store
      ensures view == HistoryView && currentWorkout.None? && history == [] && error.None?
      ensures Valid()
    {
      this.store := store;
      view := HistoryView;
      currentWorkout := None;
      history := [];
      error := None;
    }

    /** The effect that loads the history once the user is authenticated. */
    method LoadHistory()
      modifies this
      requires Valid()
      ensures Valid()
      ensures history == store.History()
      ensures view == old(view) && currentWorkout == old(currentWorkout) && error == old(error)
    {
      history := store.GetWorkoutHistory();
    }

    /**
     * `handleGenerateWorkout`. A sports request makes its workout directly;
     * any other asks the assistant, whose reply is `generated` (`None` when
     * the call failed). The workout is appended to the store and then put
     * in front of the in-memory history; any failure only sets the error.
     */
    method GenerateWorkout(request: WorkoutRequest, id: string, now: int,
                           generated: Option<seq<Exercise>>, writeOk: bool)
      returns (w: Option<Workout>)
      modifies this, store
      requires Valid()
      ensures Valid()
      ensures request.workoutType == Sports ==> w == Some(SportsWorkout(request, id, now))
      ensures request.workoutType != Sports && generated.Some? ==>
        w == Some(GeneratedWorkout(request, id, now, generated.value))
      ensures request.workoutType != Sports && generated.None? ==>
        w.None? && error == Some(GenerateError) && store.blob == old(store.blob)
        && view == old(view) && currentWorkout == old(currentWorkout) && history == old(history)
      ensures w.Some? && writeOk ==>
        && store.blob == Stored(old(store.History()) + [w.value])
        && currentWorkout == w && history == [w.value] + old(history) && view == ChecklistView
        && error.None?
      ensures w.Some? && !writeOk ==>
        && store.blob == old(store.blob) && error == Some(SaveError)
        && view == old(view) && currentWorkout == old(currentWorkout) && history == old(history)
    {
      error := None;
      if request.workoutType == Sports {
        w := Some(SportsWorkout(request, id, now));
      } else {
        if generated.None? {
          error := Some(GenerateError);
          return None;
        }
        w := Some(GeneratedWorkout(request, id, now, generated.value));
      }
      var saved := store.SaveWorkout(w.value, writeOk);
      if saved.Fail? {
        error := Some(saved.message);
        return;
      }
      currentWorkout := w;
      history := [w.value] + history;
      view := ChecklistView;
    }

    /** `handleExerciseToggle`: no-op without an open workout; the store is written first. */
    method ToggleExercise(exerciseId: string, writeOk: bool) returns (r: HandlerResult)
      modifies this, store
      requires Valid()
      ensures Valid()
      ensures old(view) != ChecklistView ==> r == Ignored && unchanged(this, store)
      ensures old(currentWorkout).None? ==> r == Ignored && unchanged(this, store)
      ensures old(currentWorkout).Some? ==>
        var cw := old(currentWorkout).value;
        var t := Toggled(cw, exerciseId);
        var index := FirstIndexWithId(old(store.History()), cw.id);
        if index.Some? && writeOk then
          && r == Done
          && store.blob == Stored(old(store.History())[index.value := t])
          && currentWorkout == Some(t) && history == ReplaceById(old(history), cw.id, t)
          && view == old(view) && error == old(error)
        else
          r == Thrown(UpdateError) && unchanged(this) && store.blob == old(store.blob)
    {
      if currentWorkout.None? {
        return Ignored;
      }
      var cw := currentWorkout.value;
      var updated := Toggled(cw, exerciseId);
      var stored := store.UpdateWorkout(cw.id, updated, writeOk);
      if stored.Fail? {
        return Thrown(stored.message);
      }
      currentWorkout := Some(updated);
      history := ReplaceById(history, cw.id, updated);
      r := Done;
    }

    /** `handleStartWorkout`: `startedAt` becomes now, with no sports guard and no check for an earlier start. */
    method StartWorkout(now: int, writeOk: bool) returns (r: HandlerResult)
      modifies this, store
      requires Valid()
      ensures Valid()
      ensures old(view) != ChecklistView ==> r == Ignored && unchanged(this, store)
      ensures old(currentWorkout).None? ==> r == Ignored && unchanged(this, store)
      ensures old(currentWorkout).Some? ==>
        var cw := old(currentWorkout).value;
        var s := Started(cw, now);
        var index := FirstIndexWithId(old(store.History()), cw.id);
        if index.Some? && writeOk then
          && r == Done
          && store.blob == Stored(old(store.History())[index.value := s])
          && currentWorkout == Some(s) && history == ReplaceById(old(history), cw.id, s)
          && view == old(view) && error == old(error)
        else
          r == Thrown(UpdateError) && unchanged(this) && store.blob == old(store.blob)
    {
      if currentWorkout.None? {
        return Ignored;
      }
      var cw := currentWorkout.value;
      var started := Started(cw, now);
      var stored := store.UpdateWorkout(cw.id, started, writeOk);
      if stored.Fail? {
        return Thrown(stored.message);
      }
      currentWorkout := Some(started);
      history := ReplaceById(history, cw.id, started);
      r := Done;
    }

    /**
     * `handleFinishWorkout`: refused with an alert while a non-sports
     * workout has an exercise left; otherwise the finished record is stored,
     * copied into the history, and the page returns to the history view.
     */
    method FinishWorkout(now: int, writeOk: bool) returns (r: HandlerResult)
      modifies this, store
      requires Valid()
      ensures Valid()
      ensures old(view) != ChecklistView ==> r == Ignored && unchanged(this, store)
      ensures old(currentWorkout).None? ==> r == Ignored && unchanged(this, store)
      ensures old(currentWorkout).Some? && !CanFinish(old(currentWorkout).value) ==>
        r == Alerted(IncompleteAlert) && unchanged(this, store)
      ensures old(currentWorkout).Some? && CanFinish(old(currentWorkout).value) ==>
        var cw := old(currentWorkout).value;
        var f := Finished(cw, now);
        var index := FirstIndexWithId(old(store.History()), cw.id);
        if index.Some? && writeOk then
          && r == Done
          && store.blob == Stored(old(store.History())[index.value := f])
          && history == ReplaceById(old(history), cw.id, f)
          && currentWorkout.None? && view == HistoryView && error == old(error)
        else
          r == Thrown(UpdateError) && unchanged(this) && store.blob == old(store.blob)
    {
      if currentWorkout.None? {
        return Ignored;
      }
      var cw := currentWorkout.value;
      var isSports := cw.workoutType == Sports;
      var allCompleted := isSports || forall k :: 0 <= k < |cw.exercises| ==> cw.exercises[k].completed;
      if !allCompleted && !isSports {
        return Alerted(IncompleteAlert);
      }
      var finished := Finished(cw, now);
      var stored := store.UpdateWorkout(cw.id, finished, writeOk);
      if stored.Fail? {
        return Thrown(stored.message);
      }
      history := ReplaceById(history, cw.id, finished);
      currentWorkout := None;
      view := HistoryView;
      r := Done;
    }

    /** `handleSelectWorkout`: opens a workout from the history. */
    method SelectWorkout(w: Workout)
      modifies this
      ensures Valid()
      ensures currentWorkout == Some(w) && view == ChecklistView
      ensures history == old(history) && error == old(error)
    {
      currentWorkout := Some(w);
      view := ChecklistView;
    }

    /** `handleNewWorkout`: shows the form with nothing open and no error. */
    method NewWorkout()
      modifies this
      ensures Valid()
      ensures currentWorkout.None? && error.None? && view == FormView
      ensures history == old(history)
    {
      currentWorkout := None;
      error := None;
      view := FormView;
    }

    /** `handleBack`: from the form or the checklist back to the history; on the history view nothing happens. */
    method Back()
      modifies this
      requires Valid()
      ensures Valid()
      ensures old(view) != HistoryView ==> view == HistoryView && currentWorkout.None? && error.None?
      ensures old(view) == HistoryView ==> unchanged(this)
      ensures history == old(history)
    {
      if view == FormView || view == ChecklistView {
        view := HistoryView;
        currentWorkout := None;
        error := None;
      }
    }

    /**
     * `handleDeleteWorkout`: only after confirmation; a failed delete sets
     * the error and keeps the page as it was.
     */
    method DeleteWorkout(confirmed: bool, writeOk: bool) returns (r: HandlerResult)
      modifies this, store
      requires Valid()
      ensures Valid()
      ensures old(view) != ChecklistView ==> r == Ignored && unchanged(this, store)
      ensures old(currentWorkout).None? || !confirmed ==> r == Ignored && unchanged(this, store)
      ensures old(currentWorkout).Some? && confirmed && writeOk ==>
        var id := old(currentWorkout).value.id;
        && r == Done
        && store.blob == Stored(WithoutId(old(store.History()), id))
        && history == WithoutId(old(history), id)
        && currentWorkout.None? && view == HistoryView && error == old(error)
      ensures old(currentWorkout).Some? && confirmed && !writeOk ==>
        && r == Done && store.blob == old(store.blob) && error == Some(DeleteFailed)
        && history == old(history) && currentWorkout == old(currentWorkout) && view == old(view)
    {
      if currentWorkout.None? || !confirmed {
        return Ignored;
      }
      var id := currentWorkout.value.id;
      var deleted := store.DeleteWorkout(id, writeOk);
      if deleted.Fail? {
        error := Some(DeleteFailed);
        return Done;
      }
      history := WithoutId(history, id);
      currentWorkout := None;
      view := HistoryView;
      r := Done;
    }
  }
}
