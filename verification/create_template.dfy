/**
 * The template editor (src/components/CreateTemplateView.tsx): a name, a list
 * of exercises, and an exercise input with catalog suggestions. Its handlers
 * rewrite the component state in place; the parent's callbacks become results
 * of the handlers that fire them, and `Date.now()` is the `nowMs` parameter.
 */
module CreateTemplate {
  import opened Wrappers
  import opened Types
  import opened Text
  import opened ExerciseLists
  import opened Catalog

  /** `ex.name.toLowerCase().includes(value.toLowerCase())`, on the untrimmed input. */
  predicate NameMatches(e: CatalogEntry, value: string) {
    Contains(ToLower(e.name), ToLower(value))
  }

  /** The catalog entries whose names contain the input, ignoring case, in catalog order. */
  function Matching(db: seq<CatalogEntry>, value: string): (r: seq<CatalogEntry>)
    ensures |r| <= |db|
    ensures forall e :: e in r ==> e in db && NameMatches(e, value)
  {
    if db == [] then []
    else Matching(db[..|db| - 1], value) + (if NameMatches(db[|db| - 1], value) then [db[|db| - 1]] else [])
  }

  /** Every matching catalog entry is among the matches. */
  lemma {:induction false} MatchingComplete(db: seq<CatalogEntry>, value: string, e: CatalogEntry)
    requires e in db && NameMatches(e, value)
    ensures e in Matching(db, value)
  {
    var init := db[..|db| - 1];
    if e in init {
      MatchingComplete(init, value, e);
    }
  }

  /** Matching entries keep their catalog order: filtering a concatenation filters each part. */
  lemma {:induction false} MatchingAppend(a: seq<CatalogEntry>, b: seq<CatalogEntry>, value: string)
    ensures Matching(a + b, value) == Matching(a, value) + Matching(b, value)
  {
    if b == [] {
      assert a + b == a;
    } else {
      assert (a + b)[..|a + b| - 1] == a + b[..|b| - 1];
      MatchingAppend(a, b[..|b| - 1], value);
    }
  }

  /** `filter(...).slice(0, 8)`: at most eight matching entries, the first ones of the catalog. */
  function Suggestions(db: seq<CatalogEntry>, value: string): (r: seq<CatalogEntry>)
    ensures |r| <= 8
    ensures forall e :: e in r ==> e in db && NameMatches(e, value)
    ensures |r| == if |Matching(db, value)| < 8 then |Matching(db, value)| else 8
    ensures r == Matching(db, value)[..|r|]
  {
    var m := Matching(db, value);
    if |m| <= 8 then m else m[..8]
  }

  /**
   * The `useState` variables of the editor. The `exerciseDatabase` prop is not
   * state: the parent grows it after `onAddToDatabase`, so the handlers that
   * read it take its current value.
   */
  class TemplateEditor {
    var templateName: string
    var exercises: seq<Exercise>
    var exerciseInput: string
    var showSuggestions: bool
    var filteredSuggestions: seq<CatalogEntry>

    /** The suggestion list never holds more than eight entries. */
    ghost predicate Valid()
      reads this
    {
      |filteredSuggestions| <= 8
    }

    /** Starts from the template being edited, if any, or from an empty form. */
    constructor (templateToEdit: Option<WorkoutTemplate>)
      ensures Valid()
      ensures templateName == (if templateToEdit.Some? then templateToEdit.value.name else "")
      ensures exercises == (if templateToEdit.Some? then templateToEdit.value.exercises else [])
      ensures exerciseInput == "" && !showSuggestions && filteredSuggestions == []
    {
      templateName := if templateToEdit.Some? then templateToEdit.value.name else "";
      exercises := if templateToEdit.Some? then templateToEdit.value.exercises else [];
      exerciseInput := "";
      showSuggestions := false;
      filteredSuggestions := [];
    }

    method TemplateNameChanged(value: string)
      modifies this
      ensures templateName == value
      ensures exercises == old(exercises) && exerciseInput == old(exerciseInput)
      ensures showSuggestions == old(showSuggestions) && filteredSuggestions == old(filteredSuggestions)
    {
      templateName := value;
    }

    /**
     * `handleExerciseInputChange`: blank input hides and empties the
     * suggestions; other input shows the first eight matches.
     */
    method ExerciseInputChanged(value: string, exerciseDatabase: seq<CatalogEntry>)
      requires Valid()
      modifies this
      ensures Valid()
      ensures exerciseInput == value
      ensures IsBlank(value) ==> !showSuggestions && filteredSuggestions == []
      ensures !IsBlank(value) ==> showSuggestions && filteredSuggestions == Suggestions(exerciseDatabase, value)
      ensures unchanged(this`templateName, this`exercises)
    {
      exerciseInput := value;
      var trimmed := Trim(value);
      if |trimmed| > 0 {
        filteredSuggestions := Suggestions(exerciseDatabase, value);
        showSuggestions := true;
      } else {
        showSuggestions := false;
        filteredSuggestions := [];
      }
    }

    /** Focus re-opens the suggestions when the input is not empty. */
    method Focused()
      modifies this
      ensures showSuggestions == (old(showSuggestions) || exerciseInput != "")
      ensures templateName == old(templateName) && exercises == old(exercises)
      ensures exerciseInput == old(exerciseInput) && filteredSuggestions == old(filteredSuggestions)
    {
      if exerciseInput != "" {
        showSuggestions := true;
      }
    }

    /** Blur hides the suggestions (the 200 ms delay is not modelled). */
    method Blurred()
      modifies this
      ensures !showSuggestions
      ensures templateName == old(templateName) && exercises == old(exercises)
      ensures exerciseInput == old(exerciseInput) && filteredSuggestions == old(filteredSuggestions)
    {
      showSuggestions := false;
    }

    /**
     * `selectExerciseFromSuggestion`: appends an exercise with the suggestion's
     * name, group and equipment and clears the input; it never adds to the catalog.
     */
    method SelectSuggestion(s: CatalogEntry, nowMs: nat)
      modifies this
      ensures exercises == old(exercises) + [Exercise(NatToString(nowMs), s.name, s.equipment, s.muscleGroup, None)]
      ensures exerciseInput == "" && !showSuggestions && filteredSuggestions == []
      ensures templateName == old(templateName)
    {
      var exercise := Exercise(NatToString(nowMs), s.name, s.equipment, s.muscleGroup, None);
      exercises := exercises + [exercise];
      exerciseInput := "";
      showSuggestions := false;
      filteredSuggestions := [];
    }

    /**
     * `addExercise`: blank input changes nothing. Otherwise appends an exercise
     * named by the raw input with "Barbell" and "Other", clears the input and
     * suggestions, and asks to add the name to the catalog exactly when no
     * catalog name equals it ignoring case.
     */
    method AddExercise(nowMs: nat, exerciseDatabase: seq<CatalogEntry>) returns (addition: Option<CatalogEntry>)
      modifies this
      ensures IsBlank(old(exerciseInput)) ==>
        && addition == None
        && exercises == old(exercises) && exerciseInput == old(exerciseInput)
        && showSuggestions == old(showSuggestions) && filteredSuggestions == old(filteredSuggestions)
      ensures !IsBlank(old(exerciseInput)) ==>
        && exercises == old(exercises) + [Exercise(NatToString(nowMs), old(exerciseInput), "Barbell", "Other", None)]
        && exerciseInput == "" && !showSuggestions && filteredSuggestions == []
        && (addition.Some? <==> !InCatalog(exerciseDatabase, old(exerciseInput)))
        && (addition.Some? ==> addition.value == CatalogEntry(old(exerciseInput), "Other", "Barbell"))
      ensures templateName == old(templateName)
    {
      var trimmed := Trim(exerciseInput);
      if trimmed == [] {
        return None;
      }
      var exercise := Exercise(NatToString(nowMs), exerciseInput, "Barbell", "Other", None);
      var existsInDb := InCatalog(exerciseDatabase, exerciseInput);
      addition := None;
      if !existsInDb {
        addition := Some(CatalogEntry(exerciseInput, exercise.muscleGroup, exercise.equipment));
      }
      exercises := exercises + [exercise];
      exerciseInput := "";
      showSuggestions := false;
      filteredSuggestions := [];
    }

    /** `removeExercise`: drops the exercises with that id. */
    method RemoveExercise(id: string)
      modifies this
      ensures exercises == RemoveById(old(exercises), id)
      ensures templateName == old(templateName) && exerciseInput == old(exerciseInput)
      ensures showSuggestions == old(showSuggestions) && filteredSuggestions == old(filteredSuggestions)
    {
      exercises := RemoveById(exercises, id);
    }

    /** The save button's `disabled` test: a blank name, or no exercise. */
    predicate SaveDisabled(): (disabled: bool)
      reads this
      ensures disabled <==> IsBlank(templateName) || exercises == []
    {
      Trim(templateName) == [] || |exercises| == 0
    }

    /**
     * `handleSave`: hands the name and exercises to the parent exactly when
     * the name is not blank and there is an exercise, i.e. when the button is enabled.
     */
    method HandleSave() returns (saved: Option<(string, seq<Exercise>)>)
      ensures saved.Some? <==> !IsBlank(templateName) && exercises != []
      ensures saved.Some? <==> !SaveDisabled()
      ensures saved.Some? ==> saved.value == (templateName, exercises)
    {
      if Trim(templateName) == [] || |exercises| == 0 {
        return None;
      }
      return Some((templateName, exercises));
    }
  }
}
