/**
 * The workout store of src/utils/storage.ts: one text blob under one key of
 * the browser's key-value storage, holding the serialized list of every saved
 * workout. Each writing operation reads the whole list, changes it and writes
 * the whole list back.
 *
 * The blob is modelled by what reading it yields: absent, a list of workouts,
 * or text that does not parse. Whether the browser accepts a write (it throws
 * when its quota is exceeded) is a parameter `writeOk` of each writing method.
 */
module Storage {
  import opened Common
  import opened Types

  const SaveError := "Could not save workout"
  const UpdateError := "Could not update workout"
  const DeleteError := "Could not delete workout"

  /** The content of the storage key that holds the history. */
  datatype Blob = Absent | Stored(workouts: seq<Workout>) | Corrupt

  /** What `getWorkoutHistory` reads from a blob: an absent or unparsable blob reads as empty. */
  function Read(b: Blob): seq<Workout> {
    if b.Stored? then b.workouts else []
  }

  /** `findIndex((w) => w.id === id)`: the position of the first workout with that id. */
  function FirstIndexWithId(ws: seq<Workout>, id: string): (r: Option<nat>)
    ensures r.None? <==> forall j :: 0 <= j < |ws| ==> ws[j].id != id
    ensures r.Some? ==> r.value < |ws| && ws[r.value].id == id
    ensures r.Some? ==> forall j :: 0 <= j < r.value ==> ws[j].id != id
    decreases |ws|
  {
    if ws == [] then None
    else if ws[0].id == id then Some(0)
    else
      match FirstIndexWithId(ws[1..], id)
      case None => None
      case Some(i) => Some(i + 1)
  }

  /** `filter((w) => w.id !== id)`: the workouts with another id, in their order. */
  function WithoutId(ws: seq<Workout>, id: string): (r: seq<Workout>)
    ensures |r| <= |ws|
    ensures forall w :: w in r <==> w in ws && w.id != id
    decreases |ws|
  {
    if ws == [] then []
    else if ws[0].id == id then WithoutId(ws[1..], id)
    else [ws[0]] + WithoutId(ws[1..], id)
  }

  /** The ids of a list of workouts, position by position. */
  function Ids(ws: seq<Workout>): (r: seq<string>)
    ensures |r| == |ws| && forall j :: 0 <= j < |ws| ==> r[j] == ws[j].id
  {
    seq(|ws|, j requires 0 <= j < |ws| => ws[j].id)
  }

  /** Filtering distributes over concatenation, so it keeps the relative order of what it keeps. */
  lemma {:induction false} WithoutIdAppend(a: seq<Workout>, b: seq<Workout>, id: string)
    ensures WithoutId(a + b, id) == WithoutId(a, id) + WithoutId(b, id)
    decreases |a|
  {
    if a == [] {
      assert a + b == b;
    } else {
      assert (a + b)[1..] == a[1..] + b;
      WithoutIdAppend(a[1..], b, id);
    }
  }

  /** Deleting removes exactly the entries carrying the id: one per occurrence of it. */
  lemma {:induction false} WithoutIdLength(ws: seq<Workout>, id: string)
    ensures |WithoutId(ws, id)| == |ws| - multiset(Ids(ws))[id]
    decreases |ws|
  {
    if ws != [] {
      WithoutIdLength(ws[1..], id);
      assert Ids(ws) == [ws[0].id] + Ids(ws[1..]);
    }
  }

  /** Deleting an id that no entry carries leaves the list as it was. */
  lemma {:induction false} WithoutAbsentId(ws: seq<Workout>, id: string)
    requires forall j :: 0 <= j < |ws| ==> ws[j].id != id
    ensures WithoutId(ws, id) == ws
    decreases |ws|
  {
    if ws != [] {
      WithoutAbsentId(ws[1..], id);
    }
  }

  class WorkoutStore {
    var blob: Blob

    constructor (initial: Blob)
      ensures blob == initial
    {
      blob := initial;
    }

    /** The list every operation starts from. */
    function History(): seq<Workout>
      reads this
    {
      Read(blob)
    }

    /** `getWorkoutHistory`: the stored list, or an empty one when the key is absent or does not parse. */
    method GetWorkoutHistory() returns (ws: seq<Workout>)
      ensures blob.Stored? ==> ws == blob.workouts
      ensures blob.Absent? || blob.Corrupt? ==> ws == []
    {
      match blob
      case Stored(list) => ws := list;
      case Absent => ws := [];
      case Corrupt => ws := [];
    }

    /**
     * `saveWorkout`: appends `w` to what reads back, so a corrupt blob is
     * replaced by `[w]`; a refused write throws and changes nothing.
     */
    method SaveWorkout(w: Workout, writeOk: bool) returns (r: Outcome)
      modifies this
      ensures writeOk ==> r == Pass && blob == Stored(old(History()) + [w])
      ensures !writeOk ==> r == Fail(SaveError) && blob == old(blob)
    {
      var history := GetWorkoutHistory();
      history := history + [w];
      if writeOk {
        blob := Stored(history);
        r := Pass;
      } else {
        r := Fail(SaveError);
      }
    }

    /**
     * `updateWorkout`: replaces the first entry whose id is `id` by `u`, as it
     * is (its own id is not checked); fails without writing when no entry has
     * that id.
     */
    method UpdateWorkout(id: string, u: Workout, writeOk: bool) returns (r: Outcome)
      modifies this
      ensures FirstIndexWithId(old(History()), id).None? ==> r == Fail(UpdateError) && blob == old(blob)
      ensures FirstIndexWithId(old(History()), id).Some? && !writeOk ==>
        r == Fail(UpdateError) && blob == old(blob)
      ensures FirstIndexWithId(old(History()), id).Some? && writeOk ==>
        r == Pass && blob == Stored(old(History())[FirstIndexWithId(old(History()), id).value := u])
    {
      var history := GetWorkoutHistory();
      var index := FirstIndexWithId(history, id);
      if index.None? {
        return Fail(UpdateError);
      }
      history := history[index.value := u];
      if writeOk {
        blob := Stored(history);
        r := Pass;
      } else {
        r := Fail(UpdateError);
      }
    }

    /** `getWorkoutById`: the first entry with that id, or none. */
    method GetWorkoutById(id: string) returns (found: Option<Workout>)
      ensures found.None? ==> forall j :: 0 <= j < |History()| ==> History()[j].id != id
      ensures found.Some? ==> found.value.id == id
      ensures found.Some? ==>
        exists i :: (0 <= i < |History()| && History()[i] == found.value
                     && forall j :: 0 <= j < i ==> History()[j].id != id)
    {
      var history := GetWorkoutHistory();
      var index := FirstIndexWithId(history, id);
      if index.Some? {
        found := Some(history[index.value]);
        assert history[index.value] == History()[index.value];
      } else {
        found := None;
      }
    }

    /** `deleteWorkout`: keeps every entry whose id differs, in order; an absent id writes the list back unchanged. */
    method DeleteWorkout(id: string, writeOk: bool) returns (r: Outcome)
      modifies this
      ensures writeOk ==> r == Pass && blob == Stored(WithoutId(old(History()), id))
      ensures !writeOk ==> r == Fail(DeleteError) && blob == old(blob)
    {
      var history := GetWorkoutHistory();
      history := WithoutId(history, id);
      if writeOk {
        blob := Stored(history);
        r := Pass;
      } else {
        r := Fail(DeleteError);
      }
    }
  }
}
