/**
 * The statistics and the name editor of the profile screen
 * (src/components/ProfileView.tsx): lifetime volume and hours, the three
 * goal rings (this week, the last thirty days, volume), the most logged
 * exercise, and the edit/save/cancel state of the name field.
 */
module Profile {
  import opened Wrappers
  import opened Types
  import opened Seqs
  import opened Sorting

  // ---- totals ----

  /** `getTotalVolume`: weight x reps summed over every set; it only grows as logs are added. */
  lemma TotalVolumeOfMoreLogs(a: seq<WorkoutLog>, b: seq<WorkoutLog>)
    ensures TotalVolume([]) == 0.0
    ensures TotalVolume(a + b) == TotalVolume(a) + TotalVolume(b)
  {
    TotalVolumeAppend(a, b);
  }

  predicate NonNegativeSets(sets: seq<Set>) {
    forall k :: 0 <= k < |sets| ==> sets[k].weight >= 0.0 && sets[k].reps >= 0.0
  }

  predicate NonNegativeLog(w: WorkoutLog) {
    forall e :: 0 <= e < |w.exercises| ==> NonNegativeSets(w.exercises[e].sets)
  }

  lemma {:induction false} SetsVolumeNonNegative(sets: seq<Set>)
    requires NonNegativeSets(sets)
    ensures SetsVolume(sets) >= 0.0
  {
    if sets != [] {
      SetsVolumeNonNegative(sets[..|sets| - 1]);
      var s := sets[|sets| - 1];
      assert s.weight * s.reps >= 0.0;
    }
  }

  lemma {:induction false} ExercisesVolumeNonNegative(es: seq<ExerciseLog>)
    requires forall e :: 0 <= e < |es| ==> NonNegativeSets(es[e].sets)
    ensures ExercisesVolume(es) >= 0.0
  {
    if es != [] {
      ExercisesVolumeNonNegative(es[..|es| - 1]);
      SetsVolumeNonNegative(es[|es| - 1].sets);
    }
  }

  /** With no negative weight or rep count entered, the total volume is not negative. */
  lemma {:induction false} TotalVolumeNonNegative(logs: seq<WorkoutLog>)
    requires forall i :: 0 <= i < |logs| ==> NonNegativeLog(logs[i])
    ensures TotalVolume(logs) >= 0.0
  {
    if logs != [] {
      TotalVolumeNonNegative(logs[..|logs| - 1]);
      ExercisesVolumeNonNegative(logs[|logs| - 1].exercises);
    }
  }

  /** `getTotalDuration`: the whole hours in the summed durations. */
  function TotalHours(logs: seq<WorkoutLog>): (hours: int)
    ensures hours * 3600 <= TotalSeconds(logs) < (hours + 1) * 3600
  {
    TotalSeconds(logs) / 3600
  }

  // ---- goal rings ----

  /** `Math.min((value / goal) * 100, 100)`. */
  function CappedPercent(value: real, goal: real): (r: real)
    requires goal > 0.0
    ensures r <= 100.0
    ensures r == 100.0 <==> value >= goal
    ensures r < 100.0 ==> r * goal == value * 100.0
    ensures value >= 0.0 ==> r >= 0.0
  {
    if value / goal * 100.0 < 100.0 then value / goal * 100.0 else 100.0
  }

  /** Number of logs that satisfy `p`, as `filter(p).length` counts them. */
  function CountLogs(logs: seq<WorkoutLog>, p: WorkoutLog -> bool): (n: nat)
    ensures n <= |logs|
  {
    if logs == [] then 0 else CountLogs(logs[..|logs| - 1], p) + (if p(logs[|logs| - 1]) then 1 else 0)
  }

  /** One log counts once when it satisfies `p`, and not at all otherwise. */
  lemma CountOneLog(w: WorkoutLog, p: WorkoutLog -> bool)
    ensures CountLogs([w], p) == if p(w) then 1 else 0
  {
    assert [w][..0] == [];
  }

  /** The count over two runs of logs is the sum of their counts. */
  lemma {:induction false} CountLogsAppend(a: seq<WorkoutLog>, b: seq<WorkoutLog>, p: WorkoutLog -> bool)
    ensures CountLogs(a + b, p) == CountLogs(a, p) + CountLogs(b, p)
  {
    if b == [] {
      assert a + b == a;
    } else {
      assert (a + b)[..|a + b| - 1] == a + b[..|b| - 1];
      CountLogsAppend(a, b[..|b| - 1], p);
    }
  }

  /** The count is zero exactly when no log satisfies `p`, and the length exactly when every log does. */
  lemma {:induction false} CountLogsExtremes(logs: seq<WorkoutLog>, p: WorkoutLog -> bool)
    ensures CountLogs(logs, p) == 0 <==> forall i :: 0 <= i < |logs| ==> !p(logs[i])
    ensures CountLogs(logs, p) == |logs| <==> forall i :: 0 <= i < |logs| ==> p(logs[i])
  {
    if logs != [] {
      var init := logs[..|logs| - 1];
      CountLogsExtremes(init, p);
      assert forall i :: 0 <= i < |init| ==> init[i] == logs[i];
    }
  }

  /**
   * Logged at or after local midnight at the start of the week, when today is
   * weekday `weekday` (0 for Sunday): on one of the last `weekday + 1` days, or later.
   */
  predicate InThisWeek(w: WorkoutLog, weekday: int) {
    w.daysAgo <= weekday
  }

  /** `getWeeklyGoalProgress`: this week's workouts against a goal of four. */
  function WeeklyGoalProgress(logs: seq<WorkoutLog>, weekday: int): (r: real)
    requires 0 <= weekday <= 6
    ensures 0.0 <= r <= 100.0
    ensures r == 100.0 <==> CountLogs(logs, w => InThisWeek(w, weekday)) >= 4
    ensures r < 100.0 ==> r == 25.0 * CountLogs(logs, w => InThisWeek(w, weekday)) as real
  {
    CappedPercent(CountLogs(logs, w => InThisWeek(w, weekday)) as real, 4.0)
  }

  /**
   * Logged at or after the same time of day thirty days ago; `nowMs` is the
   * current time of day in milliseconds after midnight.
   */
  predicate InLastThirtyDays(w: WorkoutLog, nowMs: int) {
    w.daysAgo < 30 || (w.daysAgo == 30 && w.timeMs >= nowMs)
  }

  /** `getConsistencyScore`: workouts in the last thirty days against a goal of twelve. */
  function ConsistencyScore(logs: seq<WorkoutLog>, nowMs: int): (r: real)
    ensures 0.0 <= r <= 100.0
    ensures logs == [] ==> r == 0.0
    ensures r == 100.0 <==> CountLogs(logs, w => InLastThirtyDays(w, nowMs)) >= 12
  {
    if |logs| == 0 then 0.0
    else CappedPercent(CountLogs(logs, w => InLastThirtyDays(w, nowMs)) as real, 12.0)
  }

  /** The empty-history guard changes nothing: with no logs the count is 0 anyway. */
  lemma ConsistencyGuardRedundant(logs: seq<WorkoutLog>, nowMs: int)
    ensures ConsistencyScore(logs, nowMs) == CappedPercent(CountLogs(logs, w => InLastThirtyDays(w, nowMs)) as real, 12.0)
  {
  }

  /** `getVolumeProgress`: the total volume against 50000 kg. */
  function VolumeProgress(logs: seq<WorkoutLog>): (r: real)
    ensures r <= 100.0
    ensures r == 100.0 <==> TotalVolume(logs) >= 50000.0
    ensures r < 100.0 ==> r * 500.0 == TotalVolume(logs)
  {
    CappedPercent(TotalVolume(logs), 50000.0)
  }

  // ---- most frequent exercise ----

  /** Every exercise entry's name, log by log, in the order the nested loops visit them. */
  function EntryNames(logs: seq<WorkoutLog>): seq<string> {
    if logs == [] then [] else EntryNames(logs[..|logs| - 1]) + NamesOf(logs[|logs| - 1].exercises)
  }

  function NamesOf(es: seq<ExerciseLog>): (ns: seq<string>)
    ensures |ns| == |es|
    ensures forall k :: 0 <= k < |es| ==> ns[k] == es[k].exerciseName
  {
    seq(|es|, k requires 0 <= k < |es| => es[k].exerciseName)
  }

  /** The `exerciseCounts` object: its keys in insertion order and its values. */
  datatype Tally = Tally(keys: seq<string>, counts: map<string, nat>)

  const NoCounts := Tally([], map[])

  /** `counts[name] = (counts[name] || 0) + 1`. */
  function TallyStep(t: Tally, name: string): Tally {
    if name in t.counts then Tally(t.keys, t.counts[name := t.counts[name] + 1])
    else Tally(t.keys + [name], t.counts[name := 1])
  }

  function TallyFrom(t: Tally, names: seq<string>): Tally {
    if names == [] then t else TallyStep(TallyFrom(t, names[..|names| - 1]), names[|names| - 1])
  }

  lemma TallyFromSnoc(t: Tally, names: seq<string>, n: string)
    ensures TallyFrom(t, names + [n]) == TallyStep(TallyFrom(t, names), n)
  {
    assert (names + [n])[..|names|] == names;
  }

  lemma {:induction false} TallyFromAppend(t: Tally, a: seq<string>, b: seq<string>)
    ensures TallyFrom(t, a + b) == TallyFrom(TallyFrom(t, a), b)
  {
    if b == [] {
      assert a + b == a;
    } else {
      var init, last := b[..|b| - 1], b[|b| - 1];
      assert a + b == (a + init) + [last];
      TallyFromAppend(t, a, init);
      TallyFromSnoc(t, a + init, last);
    }
  }

  /** The tally of `names` holds each distinct name once, in first-occurrence order, with its count. */
  ghost predicate TallyMatches(t: Tally, names: seq<string>) {
    && t.keys == Dedup(names)
    && (forall n :: n in t.counts <==> n in names)
    && (forall n :: n in t.counts ==> t.counts[n] == Count(names, n))
  }

  lemma {:induction false} TallyCorrect(names: seq<string>)
    ensures TallyMatches(TallyFrom(NoCounts, names), names)
  {
    if names != [] {
      var init, last := names[..|names| - 1], names[|names| - 1];
      assert names == init + [last];
      TallyCorrect(init);
      forall n ensures Count(names, n) == Count(init, n) + (if last == n then 1 else 0) {
        CountSnoc(init, last, n);
      }
    }
  }

  /** The inner `forEach` over the exercise entries of one log. */
  method TallyExercises(t: Tally, exercises: seq<ExerciseLog>) returns (r: Tally)
    ensures r == TallyFrom(t, NamesOf(exercises))
  {
    r := t;
    for j := 0 to |exercises|
      invariant r == TallyFrom(t, NamesOf(exercises)[..j])
    {
      var name := exercises[j].exerciseName;
      assert NamesOf(exercises)[..j + 1] == NamesOf(exercises)[..j] + [name];
      TallyFromSnoc(t, NamesOf(exercises)[..j], name);
      if name in r.counts {
        r := Tally(r.keys, r.counts[name := r.counts[name] + 1]);
      } else {
        r := Tally(r.keys + [name], r.counts[name := 1]);
      }
    }
    assert NamesOf(exercises)[..|exercises|] == NamesOf(exercises);
  }

  /** The outer `forEach` over the logs, filling `exerciseCounts` from nothing. */
  method TallyLogs(logs: seq<WorkoutLog>) returns (t: Tally)
    ensures t == TallyFrom(NoCounts, EntryNames(logs))
  {
    t := NoCounts;
    for i := 0 to |logs|
      invariant t == TallyFrom(NoCounts, EntryNames(logs[..i]))
    {
      t := TallyExercises(t, logs[i].exercises);
      assert logs[..i + 1] == logs[..i] + [logs[i]];
      assert logs[..i + 1][..i] == logs[..i];
      TallyFromAppend(NoCounts, EntryNames(logs[..i]), NamesOf(logs[i].exercises));
    }
    assert logs[..|logs|] == logs;
  }

  datatype NameCount = NameCount(name: string, count: nat)

  function ByCount(e: NameCount): real { e.count as real }

  /** `Object.entries(exerciseCounts)`. */
  function TallyEntries(t: Tally): (es: seq<NameCount>)
    requires forall n :: n in t.keys ==> n in t.counts
    ensures |es| == |t.keys|
    ensures forall i :: 0 <= i < |es| ==> es[i] == NameCount(t.keys[i], t.counts[t.keys[i]])
  {
    seq(|t.keys|, i requires 0 <= i < |t.keys| => NameCount(t.keys[i], t.counts[t.keys[i]]))
  }

  /**
   * `name` is logged most often; among names logged as often, it was logged
   * first. Repeats inside one log count separately.
   */
  ghost predicate IsMostFrequent(names: seq<string>, name: string) {
    && name in names
    && (forall m :: m in names ==> Count(names, m) <= Count(names, name))
    && (forall m :: m in names && Count(names, m) == Count(names, name) ==> FirstIndex(names, name) <= FirstIndex(names, m))
  }

  /** `getMostFrequentExercise`: the name at the head of the entries sorted by count, or "None". */
  method GetMostFrequentExercise(logs: seq<WorkoutLog>) returns (favourite: string)
    ensures EntryNames(logs) == [] ==> favourite == "None"
    ensures EntryNames(logs) != [] ==> IsMostFrequent(EntryNames(logs), favourite)
  {
    var counts := TallyLogs(logs);
    TallyCorrect(EntryNames(logs));
    var sorted := SortDesc(TallyEntries(counts), ByCount);
    assert |multiset(sorted)| == |multiset(TallyEntries(counts))|;
    if EntryNames(logs) != [] {
      assert EntryNames(logs)[0] in Dedup(EntryNames(logs));
    }
    if |sorted| > 0 {
      favourite := sorted[0].name;
      HeadIsMostFrequent(EntryNames(logs), counts, sorted);
    } else {
      favourite := "None";
    }
  }

  lemma HeadIsMostFrequent(names: seq<string>, t: Tally, sorted: seq<NameCount>)
    requires TallyMatches(t, names)
    requires sorted == SortDesc(TallyEntries(t), ByCount) && sorted != []
    ensures IsMostFrequent(names, sorted[0].name)
  {
    var es := TallyEntries(t);
    assert |multiset(sorted)| == |multiset(es)|;
    var i := SortHeadIsFirstMax(es, ByCount);
    assert t.keys[i] in Dedup(names);
    FirstMaxHasMaxCount(names, t, i);
    FirstMaxIsFirstLogged(names, t, i);
  }

  lemma FirstMaxHasMaxCount(names: seq<string>, t: Tally, i: int)
    requires TallyMatches(t, names)
    requires IsFirstMax(TallyEntries(t), ByCount, i)
    ensures forall m :: m in names ==> Count(names, m) <= Count(names, t.keys[i])
  {
    var es := TallyEntries(t);
    forall m | m in names ensures Count(names, m) <= Count(names, t.keys[i]) {
      assert m in Dedup(names);
      var j :| 0 <= j < |t.keys| && t.keys[j] == m;
      assert ByCount(es[j]) <= ByCount(es[i]);
    }
  }

  lemma FirstMaxIsFirstLogged(names: seq<string>, t: Tally, i: int)
    requires TallyMatches(t, names)
    requires IsFirstMax(TallyEntries(t), ByCount, i)
    ensures forall m :: m in names && Count(names, m) == Count(names, t.keys[i]) ==>
      FirstIndex(names, t.keys[i]) <= FirstIndex(names, m)
  {
    var es := TallyEntries(t);
    assert t.keys[i] in Dedup(names);
    DedupFirstOccurrenceOrder(names);
    forall m | m in names && Count(names, m) == Count(names, t.keys[i])
      ensures FirstIndex(names, t.keys[i]) <= FirstIndex(names, m)
    {
      assert m in Dedup(names);
      var j :| 0 <= j < |t.keys| && t.keys[j] == m;
      assert ByCount(es[j]) == ByCount(es[i]);
      assert j >= i;
    }
  }

  // ---- the name editor ----

  /**
   * The `isEditing` and `name` state of the profile card. The `userProfile`
   * prop is not state: the parent may replace it after a save, so the
   * methods that read it take its current value.
   */
  class ProfileEditor {
    var isEditing: bool
    var name: string

    /** `useState(userProfile.name)`: the prop at the first render seeds the name. */
    constructor (profile: UserProfile)
      ensures !isEditing && name == profile.name
    {
      isEditing := false;
      name := profile.name;
    }

    /** A click on the card opens the editor; a click while editing changes nothing. */
    method CardClicked()
      modifies this
      ensures isEditing
      ensures name == old(name)
    {
      if !isEditing {
        isEditing := true;
      }
    }

    method NameChanged(value: string)
      modifies this
      ensures name == value && isEditing == old(isEditing)
    {
      name := value;
    }

    /** `handleSave`: emits the current profile with only its name replaced, then closes the editor. */
    method Save(userProfile: UserProfile) returns (updated: UserProfile)
      modifies this
      ensures updated.name == old(name)
      ensures updated.memberSince == userProfile.memberSince && updated.role == userProfile.role
      ensures !isEditing && name == old(name)
    {
      updated := userProfile.(name := name);
      isEditing := false;
    }

    /** Cancel: restores the name of the current profile and closes the editor. */
    method Cancel(userProfile: UserProfile)
      modifies this
      ensures name == userProfile.name && !isEditing
    {
      name := userProfile.name;
      isEditing := false;
    }
  }
}
