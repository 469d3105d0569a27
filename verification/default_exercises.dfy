/**
 * The built-in exercise catalog (src/data/defaultExercises.ts): 51 entries
 * listed under six heading comments, one block per muscle group. The model
 * keeps the blocks as separate constants and the catalog as their
 * concatenation, in the order of the file.
 */
module DefaultCatalog {
  import opened Types
  import opened Text
  import opened Catalog
  import ExercisesView

  /** The block under the "Chest" heading (lines 3-12). */
  const ChestExercises: seq<CatalogEntry> := [
    CatalogEntry("Bench Press (Barbell)", "Chest", "Barbell"),
    CatalogEntry("Incline Bench Press (Barbell)", "Chest", "Barbell"),
    CatalogEntry("Decline Bench Press (Barbell)", "Chest", "Barbell"),
    CatalogEntry("Bench Press (Dumbbell)", "Chest", "Dumbbell"),
    CatalogEntry("Incline Bench Press (Dumbbell)", "Chest", "Dumbbell"),
    CatalogEntry("Chest Fly (Dumbbell)", "Chest", "Dumbbell"),
    CatalogEntry("Chest Fly (Cable)", "Chest", "Cable"),
    CatalogEntry("Chest Press (Machine)", "Chest", "Machine"),
    CatalogEntry("Dips (Chest)", "Chest", "Bodyweight"),
    CatalogEntry("Push-ups", "Chest", "Bodyweight")
  ]

  /** The block under the "Back" heading (lines 15-23). */
  const BackExercises: seq<CatalogEntry> := [
    CatalogEntry("Deadlift (Barbell)", "Back", "Barbell"),
    CatalogEntry("Romanian Deadlift (Barbell)", "Back", "Barbell"),
    CatalogEntry("Bent Over Row (Barbell)", "Back", "Barbell"),
    CatalogEntry("Bent Over Row (Dumbbell)", "Back", "Dumbbell"),
    CatalogEntry("T-Bar Row", "Back", "Barbell"),
    CatalogEntry("Lat Pulldown (Cable)", "Back", "Cable"),
    CatalogEntry("Seated Row (Cable)", "Back", "Cable"),
    CatalogEntry("Pull-ups", "Back", "Bodyweight"),
    CatalogEntry("Chin-ups", "Back", "Bodyweight")
  ]

  /** The block under the "Shoulders" heading (lines 26-33). */
  const ShouldersExercises: seq<CatalogEntry> := [
    CatalogEntry("Overhead Press (Barbell)", "Shoulders", "Barbell"),
    CatalogEntry("Overhead Press (Dumbbell)", "Shoulders", "Dumbbell"),
    CatalogEntry("Lateral Raise (Dumbbell)", "Shoulders", "Dumbbell"),
    CatalogEntry("Front Raise (Dumbbell)", "Shoulders", "Dumbbell"),
    CatalogEntry("Rear Delt Fly (Dumbbell)", "Shoulders", "Dumbbell"),
    CatalogEntry("Face Pulls (Cable)", "Shoulders", "Cable"),
    CatalogEntry("Shrugs (Barbell)", "Shoulders", "Barbell"),
    CatalogEntry("Shrugs (Dumbbell)", "Shoulders", "Dumbbell")
  ]

  /** The block under the "Arms" heading (lines 36-45). */
  const ArmsExercises: seq<CatalogEntry> := [
    CatalogEntry("Bicep Curl (Barbell)", "Arms", "Barbell"),
    CatalogEntry("Bicep Curl (Dumbbell)", "Arms", "Dumbbell"),
    CatalogEntry("Hammer Curl (Dumbbell)", "Arms", "Dumbbell"),
    CatalogEntry("Preacher Curl (Barbell)", "Arms", "Barbell"),
    CatalogEntry("Cable Curl", "Arms", "Cable"),
    CatalogEntry("Tricep Extension (Dumbbell)", "Arms", "Dumbbell"),
    CatalogEntry("Tricep Pushdown (Cable)", "Arms", "Cable"),
    CatalogEntry("Skullcrusher (Barbell)", "Arms", "Barbell"),
    CatalogEntry("Close Grip Bench Press", "Arms", "Barbell"),
    CatalogEntry("Dips (Triceps)", "Arms", "Bodyweight")
  ]

  /** The block under the "Legs" heading (lines 48-56). */
  const LegsExercises: seq<CatalogEntry> := [
    CatalogEntry("Squat (Barbell)", "Legs", "Barbell"),
    CatalogEntry("Front Squat (Barbell)", "Legs", "Barbell"),
    CatalogEntry("Leg Press (Machine)", "Legs", "Machine"),
    CatalogEntry("Leg Extension (Machine)", "Legs", "Machine"),
    CatalogEntry("Leg Curl (Machine)", "Legs", "Machine"),
    CatalogEntry("Lunges (Dumbbell)", "Legs", "Dumbbell"),
    CatalogEntry("Bulgarian Split Squat", "Legs", "Dumbbell"),
    CatalogEntry("Calf Raise (Machine)", "Legs", "Machine"),
    CatalogEntry("Hip Thrust (Barbell)", "Legs", "Barbell")
  ]

  /** The block under the "Core" heading (lines 59-63). */
  const CoreExercises: seq<CatalogEntry> := [
    CatalogEntry("Plank", "Core", "Bodyweight"),
    CatalogEntry("Crunches", "Core", "Bodyweight"),
    CatalogEntry("Russian Twists", "Core", "Bodyweight"),
    CatalogEntry("Hanging Leg Raise", "Core", "Bodyweight"),
    CatalogEntry("Cable Crunch", "Core", "Cable")
  ]

  /** `DEFAULT_EXERCISES`. */
  const DefaultExercises: seq<CatalogEntry> :=
    ChestExercises + BackExercises + ShouldersExercises + ArmsExercises + LegsExercises + CoreExercises

  /** The heading an index of the catalog falls under. */
  function HeadingAt(i: nat): string {
    if i < 10 then "Chest"
    else if i < 19 then "Back"
    else if i < 27 then "Shoulders"
    else if i < 37 then "Arms"
    else if i < 46 then "Legs"
    else "Core"
  }

  /**
   * A summary of a name that lower-casing cannot change: its length and its
   * first and third characters, lower-cased. Names equal ignoring case have
   * equal keys.
   */
  function NameKey(name: string): (nat, char, char) {
    if |name| < 3 then (|name|, ' ', ' ') else (|name|, LowerChar(name[0]), LowerChar(name[2]))
  }

  lemma SameLowerSameKey(a: string, b: string)
    ensures ToLower(a) == ToLower(b) ==> NameKey(a) == NameKey(b)
  {
    if ToLower(a) == ToLower(b) && |a| >= 3 {
      assert ToLower(a)[0] == LowerChar(a[0]) && ToLower(a)[2] == LowerChar(a[2]);
    }
  }

  /**
   * A certificate of distinctness: the index in the catalog of the entry with
   * a given key, or -1. If every entry's key maps back to that entry's own
   * index, no two entries share a key.
   */
  function Position(k: (nat, char, char)): int {
    var (len, c0, c2) := k;
    if len == 5 then (if (c0, c2) == ('p', 'a') then 46 else -1)
    else if len == 8 then (
      if (c0, c2) == ('p', 's') then 9
      else if (c0, c2) == ('p', 'l') then 17
      else if (c0, c2) == ('c', 'i') then 18
      else if (c0, c2) == ('c', 'u') then 47
      else -1)
    else if len == 9 then (if (c0, c2) == ('t', 'b') then 14 else -1)
    else if len == 10 then (if (c0, c2) == ('c', 'b') then 31 else -1)
    else if len == 12 then (
      if (c0, c2) == ('d', 'p') then 8
      else if (c0, c2) == ('c', 'b') then 50
      else -1)
    else if len == 14 then (
      if (c0, c2) == ('d', 'p') then 36
      else if (c0, c2) == ('r', 's') then 48
      else -1)
    else if len == 15 then (if (c0, c2) == ('s', 'u') then 37 else -1)
    else if len == 16 then (if (c0, c2) == ('s', 'r') then 25 else -1)
    else if len == 17 then (
      if (c0, c2) == ('c', 'e') then 6
      else if (c0, c2) == ('s', 'r') then 26
      else if (c0, c2) == ('l', 'n') then 42
      else if (c0, c2) == ('h', 'n') then 49
      else -1)
    else if len == 18 then (
      if (c0, c2) == ('d', 'a') then 10
      else if (c0, c2) == ('s', 'a') then 16
      else if (c0, c2) == ('f', 'c') then 24
      else if (c0, c2) == ('l', 'g') then 41
      else -1)
    else if len == 19 then (if (c0, c2) == ('l', 'g') then 39 else -1)
    else if len == 20 then (
      if (c0, c2) == ('c', 'e') then 5
      else if (c0, c2) == ('l', 't') then 15
      else if (c0, c2) == ('b', 'c') then 27
      else if (c0, c2) == ('c', 'l') then 44
      else if (c0, c2) == ('h', 'p') then 45
      else -1)
    else if len == 21 then (
      if (c0, c2) == ('b', 'n') then 0
      else if (c0, c2) == ('c', 'e') then 7
      else if (c0, c2) == ('b', 'c') then 28
      else if (c0, c2) == ('f', 'o') then 38
      else if (c0, c2) == ('b', 'l') then 43
      else -1)
    else if len == 22 then (
      if (c0, c2) == ('b', 'n') then 3
      else if (c0, c2) == ('f', 'o') then 22
      else if (c0, c2) == ('h', 'm') then 29
      else if (c0, c2) == ('s', 'u') then 34
      else if (c0, c2) == ('c', 'o') then 35
      else -1)
    else if len == 23 then (
      if (c0, c2) == ('b', 'n') then 12
      else if (c0, c2) == ('p', 'e') then 30
      else if (c0, c2) == ('t', 'i') then 33
      else if (c0, c2) == ('l', 'g') then 40
      else -1)
    else if len == 24 then (
      if (c0, c2) == ('b', 'n') then 13
      else if (c0, c2) == ('o', 'e') then 19
      else if (c0, c2) == ('l', 't') then 21
      else if (c0, c2) == ('r', 'a') then 23
      else -1)
    else if len == 25 then (if (c0, c2) == ('o', 'e') then 20 else -1)
    else if len == 27 then (
      if (c0, c2) == ('r', 'm') then 11
      else if (c0, c2) == ('t', 'i') then 32
      else -1)
    else if len == 29 then (
      if (c0, c2) == ('i', 'c') then 1
      else if (c0, c2) == ('d', 'c') then 2
      else -1)
    else if len == 30 then (if (c0, c2) == ('i', 'c') then 4 else -1)
    else -1
  }

  /** What is checked of each entry: its heading, its equipment option and its key's position. */
  predicate EntryChecked(e: CatalogEntry, group: string, position: int) {
    && e.muscleGroup == group
    && e.equipment in ExercisesView.EquipmentOptions
    && Position(NameKey(e.name)) == position
  }

  lemma ChestChecked()
    ensures forall i :: 0 <= i < |ChestExercises| ==> EntryChecked(ChestExercises[i], "Chest", 0 + i)
  {
    forall i | 0 <= i < |ChestExercises| ensures EntryChecked(ChestExercises[i], "Chest", 0 + i) {
      assert i == 0 || i == 1 || i == 2 || i == 3 || i == 4 || i == 5 || i == 6 || i == 7 || i == 8 || i == 9;
    }
  }

  lemma BackChecked()
    ensures forall i :: 0 <= i < |BackExercises| ==> EntryChecked(BackExercises[i], "Back", 10 + i)
  {
    forall i | 0 <= i < |BackExercises| ensures EntryChecked(BackExercises[i], "Back", 10 + i) {
      assert i == 0 || i == 1 || i == 2 || i == 3 || i == 4 || i == 5 || i == 6 || i == 7 || i == 8;
    }
  }

  lemma ShouldersChecked()
    ensures forall i :: 0 <= i < |ShouldersExercises| ==> EntryChecked(ShouldersExercises[i], "Shoulders", 19 + i)
  {
    forall i | 0 <= i < |ShouldersExercises| ensures EntryChecked(ShouldersExercises[i], "Shoulders", 19 + i) {
      assert i == 0 || i == 1 || i == 2 || i == 3 || i == 4 || i == 5 || i == 6 || i == 7;
    }
  }

  lemma ArmsChecked()
    ensures forall i :: 0 <= i < |ArmsExercises| ==> EntryChecked(ArmsExercises[i], "Arms", 27 + i)
  {
    forall i | 0 <= i < |ArmsExercises| ensures EntryChecked(ArmsExercises[i], "Arms", 27 + i) {
      assert i == 0 || i == 1 || i == 2 || i == 3 || i == 4 || i == 5 || i == 6 || i == 7 || i == 8 || i == 9;
    }
  }

  lemma LegsChecked()
    ensures forall i :: 0 <= i < |LegsExercises| ==> EntryChecked(LegsExercises[i], "Legs", 37 + i)
  {
    forall i | 0 <= i < |LegsExercises| ensures EntryChecked(LegsExercises[i], "Legs", 37 + i) {
      assert i == 0 || i == 1 || i == 2 || i == 3 || i == 4 || i == 5 || i == 6 || i == 7 || i == 8;
    }
  }

  lemma CoreChecked()
    ensures forall i :: 0 <= i < |CoreExercises| ==> EntryChecked(CoreExercises[i], "Core", 46 + i)
  {
    forall i | 0 <= i < |CoreExercises| ensures EntryChecked(CoreExercises[i], "Core", 46 + i) {
      assert i == 0 || i == 1 || i == 2 || i == 3 || i == 4;
    }
  }

  lemma AllChecked()
    ensures |DefaultExercises| == 51
    ensures forall i :: 0 <= i < |DefaultExercises| ==> EntryChecked(DefaultExercises[i], HeadingAt(i), i)
  {
    ChestChecked();
    BackChecked();
    ShouldersChecked();
    ArmsChecked();
    LegsChecked();
    CoreChecked();
  }

  /**
   * The catalog has 51 entries; each sits under the heading of its own muscle
   * group, every group is one of the seven the catalog screen lists, and
   * every equipment value is one of the six options of its form.
   */
  lemma DefaultCatalogShape()
    ensures |DefaultExercises| == 51
    ensures forall i :: 0 <= i < |DefaultExercises| ==>
      && DefaultExercises[i].muscleGroup == HeadingAt(i)
      && DefaultExercises[i].muscleGroup in ExercisesView.MuscleGroups
      && DefaultExercises[i].equipment in ExercisesView.EquipmentOptions
  {
    AllChecked();
  }

  /** No two built-in names differ only in letter case. */
  lemma DefaultNamesDistinct()
    ensures DistinctIgnoringCase(DefaultExercises)
  {
    AllChecked();
    forall i, j | 0 <= i < j < |DefaultExercises|
      ensures ToLower(DefaultExercises[i].name) != ToLower(DefaultExercises[j].name)
    {
      SameLowerSameKey(DefaultExercises[i].name, DefaultExercises[j].name);
    }
  }

  /** Entered one by one through the duplicate guard, every built-in entry is accepted. */
  lemma DefaultsPassGuard()
    ensures forall i :: 0 <= i < |DefaultExercises| ==> !InCatalog(DefaultExercises[..i], DefaultExercises[i].name)
  {
    DefaultNamesDistinct();
    DistinctPassesGuard(DefaultExercises);
  }
}
