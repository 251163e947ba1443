/**
 * The workout request form of src/components/WorkoutForm.tsx: the equipment
 * chips that toggle in and out of the selection, and the submit step that
 * turns the form's fields into a request. The React state holders are the
 * fields of `FormState`; a handler's new state is its result.
 */
module Form {
  import opened Common
  import opened Text
  import opened Types
  import Assistant

  datatype FormState = FormState(
    context: string,
    workoutType: WorkoutType,
    selectedEquipment: seq<Equipment>,
    sportsDescription: string)

  const SportsAlert := "Please enter a description of your sports activity."

  // ---------------------------------------------------------------------
  // handleEquipmentToggle
  // ---------------------------------------------------------------------

  /** `filter((x) => x !== e)`: every other item, in order. */
  function Without(items: seq<Equipment>, e: Equipment): (r: seq<Equipment>)
    ensures |r| <= |items|
    ensures forall x :: x in r <==> x in items && x != e
    decreases |items|
  {
    if items == [] then []
    else if items[0] == e then Without(items[1..], e)
    else [items[0]] + Without(items[1..], e)
  }

  /** A single item is kept exactly when it is not `e`. */
  lemma WithoutSingle(x: Equipment, e: Equipment)
    ensures Without([x], e) == if x == e then [] else [x]
  {
    assert [x][1..] == [];
  }

  /** Filtering distributes over concatenation, so the kept items keep their order and multiplicity. */
  lemma {:induction false} WithoutConcat(a: seq<Equipment>, b: seq<Equipment>, e: Equipment)
    ensures Without(a + b, e) == Without(a, e) + Without(b, e)
    decreases |a|
  {
    if a == [] {
      assert a + b == b;
    } else {
      assert (a + b)[1..] == a[1..] + b;
      WithoutConcat(a[1..], b, e);
    }
  }

  /** The new selection after a chip is clicked. */
  function ToggleEquipment(selected: seq<Equipment>, e: Equipment): seq<Equipment> {
    if e in selected then Without(selected, e) else selected + [e]
  }

  predicate Distinct(items: seq<Equipment>) {
    forall i, j :: 0 <= i < j < |items| ==> items[i] != items[j]
  }

  /**
   * The clicked item is selected afterwards exactly when it was not before;
   * an absent item goes at the end; a present one is removed wherever it
   * occurs; every other item stays as it was.
   */
  lemma ToggleEquipmentEffect(selected: seq<Equipment>, e: Equipment)
    ensures var r := ToggleEquipment(selected, e);
      && (e in r <==> e !in selected)
      && (forall x :: x != e ==> (x in r <==> x in selected))
      && (e !in selected ==> r == selected + [e])
      && (e in selected ==> |r| < |selected|)
  {
    if e in selected {
      WithoutShrinks(selected, e);
    }
  }

  lemma {:induction false} WithoutShrinks(items: seq<Equipment>, e: Equipment)
    requires e in items
    ensures |Without(items, e)| < |items|
    decreases |items|
  {
    if items[0] != e {
      WithoutShrinks(items[1..], e);
    }
  }

  /** Removing an item that does not occur changes nothing. */
  lemma {:induction false} WithoutAbsent(items: seq<Equipment>, e: Equipment)
    requires e !in items
    ensures Without(items, e) == items
    decreases |items|
  {
    if items != [] {
      WithoutAbsent(items[1..], e);
      assert items == [items[0]] + items[1..];
    }
  }

  lemma {:induction false} WithoutAppend(items: seq<Equipment>, e: Equipment)
    requires e !in items
    ensures Without(items + [e], e) == items
    decreases |items|
  {
    if items == [] {
      assert items + [e] == [e];
    } else {
      assert (items + [e])[1..] == items[1..] + [e];
      WithoutAppend(items[1..], e);
      assert items == [items[0]] + items[1..];
    }
  }

  /** Clicking an unselected chip twice gives back the selection. */
  lemma ToggleTwiceRestores(selected: seq<Equipment>, e: Equipment)
    requires e !in selected
    ensures ToggleEquipment(ToggleEquipment(selected, e), e) == selected
  {
    WithoutAppend(selected, e);
  }

  /** Clicking a selected chip twice moves it to the end, once, whatever its occurrences were. */
  lemma ToggleTwiceMovesLast(selected: seq<Equipment>, e: Equipment)
    requires e in selected
    ensures ToggleEquipment(ToggleEquipment(selected, e), e) == Without(selected, e) + [e]
  {
  }

  lemma {:induction false} WithoutDistinct(items: seq<Equipment>, e: Equipment)
    requires Distinct(items)
    ensures Distinct(Without(items, e))
    decreases |items|
  {
    if items != [] {
      WithoutDistinct(items[1..], e);
      var rest := Without(items[1..], e);
      if items[0] != e {
        var r := [items[0]] + rest;
        forall i, j | 0 <= i < j < |r| ensures r[i] != r[j] {
          if i == 0 {
            assert r[j] in rest;
            assert items[0] !in items[1..];
          } else {
            assert r[i] == rest[i - 1] && r[j] == rest[j - 1];
          }
        }
      }
    }
  }

  /** A selection without repeats keeps none after a click. */
  lemma ToggleKeepsDistinct(selected: seq<Equipment>, e: Equipment)
    requires Distinct(selected)
    ensures Distinct(ToggleEquipment(selected, e))
  {
    if e in selected {
      WithoutDistinct(selected, e);
    }
  }

  // ---------------------------------------------------------------------
  // handleSubmit
  // ---------------------------------------------------------------------

  /** The request a submit sends, or none when a sports form has no description (the form alerts instead). */
  function Submit(f: FormState): Option<WorkoutRequest> {
    var isSports := f.workoutType == Sports;
    if isSports && Trim(f.sportsDescription) == "" then None
    else
      var context := Trim(f.context);
      Some(WorkoutRequest(
        if context == "" then None else Some(context),
        f.workoutType,
        f.selectedEquipment,
        if isSports then Some(Trim(f.sportsDescription)) else None))
  }

  /**
   * A sports form needs a description that is not blank; a request passes
   * the type and equipment through, carries the trimmed context unless it
   * is blank, and the trimmed description exactly for sports.
   */
  lemma SubmitSpec(f: FormState)
    ensures Submit(f).None? <==> f.workoutType == Sports && AllSpace(f.sportsDescription)
    ensures Submit(f).Some? ==>
      var r := Submit(f).value;
      && r.workoutType == f.workoutType && r.equipment == f.selectedEquipment
      && (r.context.None? <==> AllSpace(f.context))
      && (r.context.Some? ==> r.context.value == Trim(f.context) && r.context.value != "")
      && (r.sportsDescription.Some? <==> f.workoutType == Sports)
      && (r.sportsDescription.Some? ==> r.sportsDescription.value == Trim(f.sportsDescription)
                                        && r.sportsDescription.value != "")
  {
  }

  /** The prompt built from a submitted request has a context clause exactly when the context field is not blank. */
  lemma SubmittedContextReachesPrompt(f: FormState)
    requires Submit(f).Some?
    ensures Assistant.HasContext(Submit(f).value.context) <==> !AllSpace(f.context)
  {
  }
}
