/**
 * The exercise catalog screen (src/components/ExercisesView.tsx): a form for a
 * new catalog entry, guarded against blank and duplicate names, and the
 * catalog listed under seven fixed muscle-group headings. The parent's
 * `onAddExercise` callback becomes the entry `SaveExercise` returns, and the
 * duplicate `alert` its `duplicate` flag.
 */
module ExercisesView {
  import opened Wrappers
  import opened Types
  import opened Text
  import opened Catalog
  import Seqs

  /** The muscle-group headings, in display order; also the options of the group selector. */
  const MuscleGroups: seq<string> := ["Chest", "Back", "Shoulders", "Arms", "Legs", "Core", "Other"]

  /** The options of the equipment selector. */
  const EquipmentOptions: seq<string> := ["Barbell", "Dumbbell", "Cable", "Machine", "Bodyweight", "Other"]

  /** The form's initial and reset value. */
  const BlankForm := CatalogEntry("", "Chest", "Barbell")

  /** One heading of the list with the entries under it. */
  datatype Section = Section(group: string, entries: seq<CatalogEntry>)

  /**
   * The headings of `groups` that have entries, each with the catalog's
   * entries of that group; headings without entries are skipped.
   */
  function SectionsOf(db: seq<CatalogEntry>, groups: seq<string>): (r: seq<Section>)
    ensures |r| <= |groups|
    ensures forall i :: 0 <= i < |r| ==>
      r[i].group in groups && r[i].entries == InGroup(db, r[i].group) && r[i].entries != []
    ensures Seqs.Distinct(groups) ==> forall i, j :: 0 <= i < j < |r| ==> r[i].group != r[j].group
  {
    if groups == [] then []
    else
      var init, g := groups[..|groups| - 1], groups[|groups| - 1];
      var prev := SectionsOf(db, init);
      assert groups == init + [g];
      assert Seqs.Distinct(groups) ==> Seqs.Distinct(init) && g !in init;
      if InGroup(db, g) == [] then prev
      else
        var r := prev + [Section(g, InGroup(db, g))];
        assert forall i :: 0 <= i < |prev| ==> r[i] == prev[i];
        r
  }

  /** Every heading with entries gets its section. */
  lemma {:induction false} SectionOf(db: seq<CatalogEntry>, groups: seq<string>, g: string) returns (i: nat)
    requires g in groups && InGroup(db, g) != []
    ensures i < |SectionsOf(db, groups)| && SectionsOf(db, groups)[i].group == g
  {
    var init, last := groups[..|groups| - 1], groups[|groups| - 1];
    assert groups == init + [last];
    var prev := SectionsOf(db, init);
    if g != last || InGroup(db, g) == [] {
      assert g in init;
      i := SectionOf(db, init, g);
      assert SectionsOf(db, groups)[i] == prev[i];
    } else {
      i := |prev|;
    }
  }

  /** The list the screen shows: the seven fixed groups, in order, minus the empty ones. */
  function Sections(db: seq<CatalogEntry>): seq<Section> {
    SectionsOf(db, MuscleGroups)
  }

  /** An entry appears on the screen exactly when its group is one of the seven headings. */
  lemma Displayed(db: seq<CatalogEntry>, e: CatalogEntry)
    ensures (exists i :: 0 <= i < |Sections(db)| && e in Sections(db)[i].entries)
      <==> e in db && e.muscleGroup in MuscleGroups
  {
    var sections := Sections(db);
    if e in db && e.muscleGroup in MuscleGroups {
      assert e in InGroup(db, e.muscleGroup);
      var i := SectionOf(db, MuscleGroups, e.muscleGroup);
      assert e in sections[i].entries;
    }
    if i :| 0 <= i < |sections| && e in sections[i].entries {
      assert e in InGroup(db, sections[i].group);
    }
  }

  /** No heading is listed twice, so no entry is listed under two headings. */
  lemma ListedOnce(db: seq<CatalogEntry>, i: nat, j: nat)
    requires i < j < |Sections(db)|
    ensures Sections(db)[i].group != Sections(db)[j].group
  {
    assert Seqs.Distinct(MuscleGroups);
  }

  /** The form of the screen: whether it is open and the entry being typed. */
  class ExerciseForm {
    var isCreating: bool
    var newExercise: CatalogEntry

    constructor ()
      ensures !isCreating && newExercise == BlankForm
    {
      isCreating := false;
      newExercise := BlankForm;
    }

    /** "+ Add Exercise" opens the form, keeping what was typed. */
    method Open()
      modifies this
      ensures isCreating && newExercise == old(newExercise)
    {
      isCreating := true;
    }

    method NameChanged(value: string)
      modifies this
      ensures newExercise == old(newExercise).(name := value) && isCreating == old(isCreating)
    {
      newExercise := newExercise.(name := value);
    }

    method MuscleGroupChanged(value: string)
      modifies this
      ensures newExercise == old(newExercise).(muscleGroup := value) && isCreating == old(isCreating)
    {
      newExercise := newExercise.(muscleGroup := value);
    }

    method EquipmentChanged(value: string)
      modifies this
      ensures newExercise == old(newExercise).(equipment := value) && isCreating == old(isCreating)
    {
      newExercise := newExercise.(equipment := value);
    }

    /** The "Save Exercise" button's `disabled` test: a blank name. */
    predicate SaveDisabled(): (disabled: bool)
      reads this
      ensures disabled <==> IsBlank(newExercise.name)
    {
      Trim(newExercise.name) == []
    }

    /**
     * `handleSaveExercise`: a blank name does nothing; a name the catalog has,
     * ignoring case, raises the duplicate alert and adds nothing; any other
     * entry is passed on as typed, and the form is reset and closed. An entry
     * passed on keeps a catalog of case-distinct names case-distinct.
     */
    method SaveExercise(db: seq<CatalogEntry>) returns (added: Option<CatalogEntry>, duplicate: bool)
      modifies this
      ensures old(SaveDisabled()) ==> added == None && !duplicate
      ensures !old(SaveDisabled()) && InCatalog(db, old(newExercise).name) ==> added == None && duplicate
      ensures added == None ==> unchanged(this)
      ensures !old(SaveDisabled()) && !InCatalog(db, old(newExercise).name) ==>
        && added == Some(old(newExercise)) && !duplicate
        && newExercise == BlankForm && !isCreating
      ensures added.Some? && DistinctIgnoringCase(db) ==> DistinctIgnoringCase(db + [added.value])
    {
      if Trim(newExercise.name) == [] {
        return None, false;
      }
      if InCatalog(db, newExercise.name) {
        return None, true;
      }
      added, duplicate := Some(newExercise), false;
      if DistinctIgnoringCase(db) {
        AddUnknownKeepsDistinct(db, newExercise);
      }
      newExercise := BlankForm;
      isCreating := false;
    }

    /** "Cancel" closes the form and resets it. */
    method Cancel()
      modifies this
      ensures !isCreating && newExercise == BlankForm
    {
      isCreating := false;
      newExercise := BlankForm;
    }
  }
}
