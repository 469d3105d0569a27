/**
 * The records of the workout tracker (src/types.ts). Dates are not parsed:
 * a workout log carries the calendar day it was logged on, counted in days
 * before today, and the time of day in milliseconds after local midnight.
 */
module Types {
  import opened Wrappers

  datatype Exercise = Exercise(
    id: string,
    name: string,
    equipment: string,
    muscleGroup: string,
    notes: Option<string>)

  datatype WorkoutTemplate = WorkoutTemplate(
    id: string,
    name: string,
    exercises: seq<Exercise>,
    notes: Option<string>)

  datatype SetType = Warmup | Working

  datatype Set = Set(
    id: string,
    weight: real,
    reps: real,
    completed: bool,
    setType: Option<SetType>)

  datatype ExerciseLog = ExerciseLog(
    exerciseId: string,
    exerciseName: string,
    sets: seq<Set>,
    restDuration: Option<int>,
    notes: Option<string>)

  datatype ActivityType = Workout | Cardio | Stretching | Recovery

  datatype WorkoutLog = WorkoutLog(
    id: string,
    templateName: string,
    daysAgo: int,     // calendar days before today; negative for a future date
    timeMs: int,      // milliseconds after local midnight on that day
    exercises: seq<ExerciseLog>,
    duration: int,    // seconds
    activityType: Option<ActivityType>)

  datatype Role = Creator | Member

  datatype UserProfile = UserProfile(name: string, memberSince: string, role: Option<Role>)

  /** An entry of the exercise catalog (the `ExerciseDbEntry` of the views). */
  datatype CatalogEntry = CatalogEntry(name: string, muscleGroup: string, equipment: string)

  // ---- volume: the nested `reduce` chains summing weight x reps ----

  /** Sum of weight x reps over the sets, whether completed or not. */
  function SetsVolume(sets: seq<Set>): real {
    if sets == [] then 0.0
    else SetsVolume(sets[..|sets| - 1]) + sets[|sets| - 1].weight * sets[|sets| - 1].reps
  }

  function ExercisesVolume(exercises: seq<ExerciseLog>): real {
    if exercises == [] then 0.0
    else ExercisesVolume(exercises[..|exercises| - 1]) + SetsVolume(exercises[|exercises| - 1].sets)
  }

  function LogVolume(w: WorkoutLog): real {
    ExercisesVolume(w.exercises)
  }

  /** Volume of every set of every exercise of every log. */
  function TotalVolume(logs: seq<WorkoutLog>): real {
    if logs == [] then 0.0 else TotalVolume(logs[..|logs| - 1]) + LogVolume(logs[|logs| - 1])
  }

  lemma {:induction false} TotalVolumeAppend(a: seq<WorkoutLog>, b: seq<WorkoutLog>)
    ensures TotalVolume(a + b) == TotalVolume(a) + TotalVolume(b)
  {
    if b != [] {
      assert (a + b)[..|a + b| - 1] == a + b[..|b| - 1];
      TotalVolumeAppend(a, b[..|b| - 1]);
    } else {
      assert a + b == a;
    }
  }

  /** Sum of the `duration` fields, in seconds. */
  function TotalSeconds(logs: seq<WorkoutLog>): int {
    if logs == [] then 0 else TotalSeconds(logs[..|logs| - 1]) + logs[|logs| - 1].duration
  }

  lemma {:induction false} TotalSecondsAppend(a: seq<WorkoutLog>, b: seq<WorkoutLog>)
    ensures TotalSeconds(a + b) == TotalSeconds(a) + TotalSeconds(b)
  {
    if b != [] {
      assert (a + b)[..|a + b| - 1] == a + b[..|b| - 1];
      TotalSecondsAppend(a, b[..|b| - 1]);
    } else {
      assert a + b == a;
    }
  }
}
