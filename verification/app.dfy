/**
 * The template builder of the top-level component (src/App.tsx): the list of
 * saved templates and the creation form, whose handlers rewrite the state in
 * place. `Date.now()` is the `nowMs` parameter of the handlers that use it.
 */
module App {
  import opened Wrappers
  import opened Types
  import opened Text
  import opened ExerciseLists

  /** The `useState` variables of the component. */
  class TemplateBuilder {
    var templates: seq<WorkoutTemplate>
    var isCreating: bool
    var newTemplateName: string
    var newExerciseName: string
    var currentExercises: seq<Exercise>

    /** Every saved template has a name that is not blank and at least one exercise. */
    ghost predicate Valid()
      reads this
    {
      forall i :: 0 <= i < |templates| ==> !IsBlank(templates[i].name) && templates[i].exercises != []
    }

    constructor ()
      ensures Valid()
      ensures templates == [] && !isCreating && newTemplateName == "" && newExerciseName == "" && currentExercises == []
    {
      templates := [];
      isCreating := false;
      newTemplateName := "";
      newExerciseName := "";
      currentExercises := [];
    }

    /** The "Save Template" button's `disabled` test: a blank name, or no exercise. */
    predicate SaveDisabled(): (disabled: bool)
      reads this
      ensures disabled <==> IsBlank(newTemplateName) || currentExercises == []
    {
      Trim(newTemplateName) == [] || |currentExercises| == 0
    }

    /** "Create New Template" opens the form. */
    method OpenCreate()
      modifies this
      ensures isCreating
      ensures templates == old(templates) && newTemplateName == old(newTemplateName)
      ensures newExerciseName == old(newExerciseName) && currentExercises == old(currentExercises)
    {
      isCreating := true;
    }

    method TemplateNameChanged(value: string)
      modifies this
      ensures newTemplateName == value
      ensures templates == old(templates) && isCreating == old(isCreating)
      ensures newExerciseName == old(newExerciseName) && currentExercises == old(currentExercises)
    {
      newTemplateName := value;
    }

    method ExerciseNameChanged(value: string)
      modifies this
      ensures newExerciseName == value
      ensures templates == old(templates) && isCreating == old(isCreating)
      ensures newTemplateName == old(newTemplateName) && currentExercises == old(currentExercises)
    {
      newExerciseName := value;
    }

    /**
     * `addExercise`: a blank name changes nothing; otherwise one exercise with
     * the typed name, "Barbell" and "Chest" is appended and the input cleared.
     */
    method AddExercise(nowMs: nat)
      modifies this
      ensures IsBlank(old(newExerciseName)) ==>
        newExerciseName == old(newExerciseName) && currentExercises == old(currentExercises)
      ensures !IsBlank(old(newExerciseName)) ==>
        && currentExercises == old(currentExercises) + [Exercise(NatToString(nowMs), old(newExerciseName), "Barbell", "Chest", None)]
        && newExerciseName == ""
      ensures templates == old(templates) && isCreating == old(isCreating) && newTemplateName == old(newTemplateName)
    {
      if Trim(newExerciseName) == [] {
        return;
      }
      var exercise := Exercise(NatToString(nowMs), newExerciseName, "Barbell", "Chest", None);
      currentExercises := currentExercises + [exercise];
      newExerciseName := "";
    }

    /** `removeExercise`: drops the exercises with that id. */
    method RemoveExercise(id: string)
      modifies this
      ensures currentExercises == RemoveById(old(currentExercises), id)
      ensures templates == old(templates) && isCreating == old(isCreating)
      ensures newTemplateName == old(newTemplateName) && newExerciseName == old(newExerciseName)
    {
      currentExercises := RemoveById(currentExercises, id);
    }

    /**
     * `saveTemplate`: refused, changing nothing, exactly when the save button
     * is disabled; otherwise appends one template holding the form's name and
     * exercises, resets the form and leaves creation mode.
     */
    method SaveTemplate(nowMs: nat) returns (saved: bool)
      requires Valid()
      modifies this
      ensures Valid()
      ensures saved <==> !old(SaveDisabled())
      ensures !saved ==>
        && templates == old(templates) && isCreating == old(isCreating)
        && newTemplateName == old(newTemplateName) && currentExercises == old(currentExercises)
      ensures saved ==>
        && templates == old(templates) + [WorkoutTemplate(NatToString(nowMs), old(newTemplateName), old(currentExercises), None)]
        && newTemplateName == "" && currentExercises == [] && !isCreating
      ensures newExerciseName == old(newExerciseName)
    {
      if Trim(newTemplateName) == [] || |currentExercises| == 0 {
        return false;
      }
      var template := WorkoutTemplate(NatToString(nowMs), newTemplateName, currentExercises, None);
      templates := templates + [template];
      newTemplateName := "";
      currentExercises := [];
      isCreating := false;
      saved := true;
    }

    /** "Back": leaves the form, dropping its name and exercises; the saved templates stay. */
    method Back()
      modifies this
      ensures !isCreating && currentExercises == [] && newTemplateName == ""
      ensures templates == old(templates) && newExerciseName == old(newExerciseName)
    {
      isCreating := false;
      currentExercises := [];
      newTemplateName := "";
    }
  }
}
