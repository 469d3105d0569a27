/**
 * The dialog shown when a workout ends (src/components/FinishWorkoutModal.tsx):
 * update the template the workout came from, save the exercises as a new
 * template, or just finish. The parent's callbacks become the `Outcome` the
 * Finish button produces; the browser `alert` for a missing name is one of
 * the outcomes.
 */
module FinishWorkout {
  import opened Wrappers
  import opened Types
  import opened Text

  datatype FinishOption = Update | New | Finish

  /** The callbacks of the dialog's parent that the Finish button may call. */
  datatype Callback =
    | UpdateTemplate
    | SaveAsNewTemplate(name: string, exercises: seq<Exercise>)
    | JustFinish

  datatype Outcome = Called(callback: Callback) | MissingNameAlert

  /** The truthiness of the `string | null` template id: present and not empty. */
  predicate HasTemplateId(templateId: Option<string>) {
    templateId.Some? && templateId.value != ""
  }

  /**
   * `handleFinish`: "update" calls the update callback when the workout came
   * from a template and otherwise falls through to just finishing; "new"
   * saves under the typed name, or alerts when that name is blank; "finish"
   * just finishes.
   */
  function HandleFinish(selected: FinishOption, templateId: Option<string>, newTemplateName: string,
                        currentExercises: seq<Exercise>): (r: Outcome)
    ensures r == Called(UpdateTemplate) <==> selected.Update? && HasTemplateId(templateId)
    ensures r.Called? && r.callback.SaveAsNewTemplate? <==> selected.New? && !IsBlank(newTemplateName)
    ensures r.Called? && r.callback.SaveAsNewTemplate? ==>
      r.callback.name == newTemplateName && r.callback.exercises == currentExercises
    ensures r == Called(JustFinish) <==> selected.Finish? || (selected.Update? && !HasTemplateId(templateId))
    ensures r == MissingNameAlert <==> selected.New? && IsBlank(newTemplateName)
  {
    if selected == Update && HasTemplateId(templateId) then Called(UpdateTemplate)
    else if selected == New then
      if Trim(newTemplateName) == [] then MissingNameAlert
      else Called(SaveAsNewTemplate(newTemplateName, currentExercises))
    else Called(JustFinish)
  }

  /** The "Update template" choice is offered only for a workout from a template that was changed. */
  predicate UpdateOptionShown(templateId: Option<string>, hasChanges: bool) {
    HasTemplateId(templateId) && hasChanges
  }

  /** Whenever "update" can be chosen, Finish calls the update callback. */
  lemma ShownUpdateUpdates(templateId: Option<string>, hasChanges: bool, name: string, exercises: seq<Exercise>)
    requires UpdateOptionShown(templateId, hasChanges)
    ensures HandleFinish(Update, templateId, name, exercises) == Called(UpdateTemplate)
  {
  }

  /** The `useState` variables of the dialog. */
  class FinishDialog {
    var selectedOption: FinishOption
    var newTemplateName: string

    /** The dialog opens with "just finish" selected and no name typed. */
    constructor ()
      ensures selectedOption == Finish && newTemplateName == ""
    {
      selectedOption := Finish;
      newTemplateName := "";
    }

    method Select(option: FinishOption)
      modifies this
      ensures selectedOption == option && newTemplateName == old(newTemplateName)
    {
      selectedOption := option;
    }

    method NameChanged(value: string)
      modifies this
      ensures newTemplateName == value && selectedOption == old(selectedOption)
    {
      newTemplateName := value;
    }

    /** The Finish button: one callback, or the alert; the dialog's state is left as it is. */
    method FinishClicked(templateId: Option<string>, currentExercises: seq<Exercise>) returns (outcome: Outcome)
      ensures outcome == HandleFinish(selectedOption, templateId, newTemplateName, currentExercises)
    {
      if selectedOption == Update && HasTemplateId(templateId) {
        outcome := Called(UpdateTemplate);
      } else if selectedOption == New {
        if Trim(newTemplateName) == [] {
          return MissingNameAlert;
        }
        outcome := Called(SaveAsNewTemplate(newTemplateName, currentExercises));
      } else {
        outcome := Called(JustFinish);
      }
    }
  }
}
