/**
 * The statistics of the dashboard (src/components/DashboardView.tsx): the
 * day streak, the three best personal records, the weekly frequency and volume
 * charts over the last eight weeks and the 84-day activity map.
 */
module Dashboard {
  import opened Wrappers
  import opened Types
  import opened Seqs
  import opened Sorting
  import Text

  // ---- activity on a calendar day ----

  /** Some log is dated `day` days before today (the `some` over the logs). */
  predicate ActiveOn(logs: seq<WorkoutLog>, day: int) {
    exists k :: 0 <= k < |logs| && logs[k].daysAgo == day
  }

  /** Number of days `d` with `lo <= d < hi` on which something was logged. */
  function CountActiveDays(logs: seq<WorkoutLog>, lo: int, hi: int): nat
    decreases hi - lo
  {
    if lo >= hi then 0 else (if ActiveOn(logs, lo) then 1 else 0) + CountActiveDays(logs, lo + 1, hi)
  }

  // ---- day streak ----

  /** How many days the streak loop has examined at most. */
  const StreakWindow := 365

  /**
   * What the streak loop adds from day `i` on: an active day counts one, a
   * missing day other than today is skipped when the day before it is
   * active, and otherwise the loop stops.
   */
  function StreakFrom(logs: seq<WorkoutLog>, i: nat): nat
    decreases StreakWindow - i
  {
    if i >= StreakWindow then 0
    else if ActiveOn(logs, i) then 1 + StreakFrom(logs, i + 1)
    else if i > 0 && ActiveOn(logs, i + 1) then StreakFrom(logs, i + 1)
    else 0
  }

  method GetCurrentStreak(logs: seq<WorkoutLog>) returns (streak: nat)
    ensures streak == StreakFrom(logs, 0)
    ensures logs == [] ==> streak == 0
    ensures !ActiveOn(logs, 0) ==> streak == 0
    ensures streak <= CountActiveDays(logs, 0, StreakWindow) <= StreakWindow
  {
    StreakBounded(logs, 0);
    if |logs| == 0 {
      return 0;
    }
    // The source scans a copy sorted by date; `some` does not depend on the order.
    streak := 0;
    for i := 0 to StreakWindow
      invariant streak + StreakFrom(logs, i) == StreakFrom(logs, 0)
    {
      if ActiveOn(logs, i) {
        streak := streak + 1;
      } else if i > 0 {
        if !ActiveOn(logs, i + 1) {
          break;
        }
      } else {
        break;
      }
    }
  }

  /** The streak counts only active days, so it is at most their number and at most a year. */
  lemma {:induction false} StreakBounded(logs: seq<WorkoutLog>, i: nat)
    requires i <= StreakWindow
    ensures StreakFrom(logs, i) <= CountActiveDays(logs, i, StreakWindow) <= StreakWindow - i
    decreases StreakWindow - i
  {
    if i < StreakWindow {
      StreakBounded(logs, i + 1);
    }
  }

  /** Day `i` stops the loop: nothing logged, and it is today or the day before it is empty too. */
  predicate EndsStreak(logs: seq<WorkoutLog>, i: nat) {
    !ActiveOn(logs, i) && (i == 0 || !ActiveOn(logs, i + 1))
  }

  /**
   * Up to the first day that stops it, the streak is the number of active
   * days: a single rest day neither counts nor breaks it.
   */
  lemma {:induction false} StreakCountsActiveDaysUntilBreak(logs: seq<WorkoutLog>, i: nat, j: nat)
    requires i <= j <= StreakWindow
    requires forall k :: i <= k < j ==> !EndsStreak(logs, k)
    requires j == StreakWindow || EndsStreak(logs, j)
    ensures StreakFrom(logs, i) == CountActiveDays(logs, i, j)
    decreases j - i
  {
    if i < j {
      assert !EndsStreak(logs, i);
      StreakCountsActiveDaysUntilBreak(logs, i + 1, j);
    }
  }

  /** A log on the given day with nothing else in it. */
  function LogOnDay(daysAgo: int): WorkoutLog {
    WorkoutLog("", "", daysAgo, 0, [], 0, None)
  }

  /** Activity today, yesterday and three days ago (none two, four or five days ago) gives 3. */
  lemma StreakWithOneRestDay()
    ensures StreakFrom([LogOnDay(0), LogOnDay(1), LogOnDay(3)], 0) == 3
  {
    var logs := [LogOnDay(0), LogOnDay(1), LogOnDay(3)];
    assert logs[0].daysAgo == 0 && logs[1].daysAgo == 1 && logs[2].daysAgo == 3;
    assert !ActiveOn(logs, 2) && !ActiveOn(logs, 4) && !ActiveOn(logs, 5);
    assert StreakFrom(logs, 4) == 0;
  }

  // ---- weekly charts ----

  /** Logs dated between `lo` and `hi` days before today, both included. */
  function CountBetween(logs: seq<WorkoutLog>, lo: int, hi: int): nat {
    if logs == [] then 0
    else CountBetween(logs[..|logs| - 1], lo, hi) + (if lo <= logs[|logs| - 1].daysAgo <= hi then 1 else 0)
  }

  /** Volume of the logs dated between `lo` and `hi` days before today. */
  function VolumeBetween(logs: seq<WorkoutLog>, lo: int, hi: int): real {
    if logs == [] then 0.0
    else
      VolumeBetween(logs[..|logs| - 1], lo, hi)
      + (if lo <= logs[|logs| - 1].daysAgo <= hi then LogVolume(logs[|logs| - 1]) else 0.0)
  }

  /**
   * The window `weeksBack` weeks back runs from midnight 7 * weeksBack + 7
   * days ago up to, not including, midnight 7 * weeksBack days ago.
   */
  predicate InWeek(w: WorkoutLog, weeksBack: nat) {
    7 * weeksBack + 1 <= w.daysAgo <= 7 * weeksBack + 7
  }

  function CountInWeek(logs: seq<WorkoutLog>, weeksBack: nat): nat {
    CountBetween(logs, 7 * weeksBack + 1, 7 * weeksBack + 7)
  }

  function VolumeInWeek(logs: seq<WorkoutLog>, weeksBack: nat): real {
    VolumeBetween(logs, 7 * weeksBack + 1, 7 * weeksBack + 7)
  }

  /** `Math.round`: the nearest integer, halves rounded up. */
  function RoundHalfUp(x: real): (n: int)
    ensures x - 0.5 < n as real <= x + 0.5
  {
    (x + 0.5).Floor
  }

  datatype ChartPoint = ChartPoint(week: string, value: int)

  /** "This" for the latest window, "-i" for the one i weeks further back. */
  function WeekLabel(weeksBack: nat): string {
    if weeksBack == 0 then "This" else "-" + Text.NatToString(weeksBack)
  }

  method GetFrequencyData(logs: seq<WorkoutLog>) returns (data: seq<ChartPoint>)
    ensures |data| == 8
    ensures forall k :: 0 <= k < 8 ==> data[k] == ChartPoint(WeekLabel(7 - k), CountInWeek(logs, 7 - k))
  {
    data := [];
    var i := 7;
    while i >= 0
      invariant -1 <= i <= 7 && |data| == 7 - i
      invariant forall k :: 0 <= k < |data| ==> data[k] == ChartPoint(WeekLabel(7 - k), CountInWeek(logs, 7 - k))
    {
      var count := CountInWeek(logs, i);
      data := data + [ChartPoint(WeekLabel(i), count)];
      i := i - 1;
    }
  }

  method GetVolumeData(logs: seq<WorkoutLog>) returns (data: seq<ChartPoint>)
    ensures |data| == 8
    ensures forall k :: 0 <= k < 8 ==>
      data[k] == ChartPoint(WeekLabel(7 - k), RoundHalfUp(VolumeInWeek(logs, 7 - k) / 1000.0))
  {
    data := [];
    var i := 7;
    while i >= 0
      invariant -1 <= i <= 7 && |data| == 7 - i
      invariant forall k :: 0 <= k < |data| ==>
        data[k] == ChartPoint(WeekLabel(7 - k), RoundHalfUp(VolumeInWeek(logs, 7 - k) / 1000.0))
    {
      var totalVolume := VolumeInWeek(logs, i);
      data := data + [ChartPoint(WeekLabel(i), RoundHalfUp(totalVolume / 1000.0))];
      i := i - 1;
    }
  }

  /** A log lies in at most one weekly window, and one dated today or later in none. */
  lemma WeekWindowsDisjoint(w: WorkoutLog, a: nat, b: nat)
    ensures InWeek(w, a) && InWeek(w, b) ==> a == b
    ensures w.daysAgo <= 0 ==> !InWeek(w, a)
  {
  }

  lemma {:induction false} CountBetweenSplit(logs: seq<WorkoutLog>, lo: int, mid: int, hi: int)
    requires lo - 1 <= mid <= hi
    ensures CountBetween(logs, lo, hi) == CountBetween(logs, lo, mid) + CountBetween(logs, mid + 1, hi)
  {
    if logs != [] {
      CountBetweenSplit(logs[..|logs| - 1], lo, mid, hi);
    }
  }

  lemma {:induction false} VolumeBetweenSplit(logs: seq<WorkoutLog>, lo: int, mid: int, hi: int)
    requires lo - 1 <= mid <= hi
    ensures VolumeBetween(logs, lo, hi) == VolumeBetween(logs, lo, mid) + VolumeBetween(logs, mid + 1, hi)
  {
    if logs != [] {
      VolumeBetweenSplit(logs[..|logs| - 1], lo, mid, hi);
    }
  }

  /** Sum of the first `n` weekly counts, latest window first. */
  function CountFirstWeeks(logs: seq<WorkoutLog>, n: nat): nat {
    if n == 0 then 0 else CountFirstWeeks(logs, n - 1) + CountInWeek(logs, n - 1)
  }

  function VolumeFirstWeeks(logs: seq<WorkoutLog>, n: nat): real {
    if n == 0 then 0.0 else VolumeFirstWeeks(logs, n - 1) + VolumeInWeek(logs, n - 1)
  }

  /**
   * The eight windows partition the days 1..56 before today: together they
   * count every log dated in that range exactly once, and sum its volume.
   */
  lemma {:induction false} WeeksPartitionEightWeeks(logs: seq<WorkoutLog>, n: nat)
    ensures CountFirstWeeks(logs, n) == CountBetween(logs, 1, 7 * n)
    ensures VolumeFirstWeeks(logs, n) == VolumeBetween(logs, 1, 7 * n)
  {
    if n == 0 {
      EmptyRange(logs, 1, 0);
    } else {
      WeeksPartitionEightWeeks(logs, n - 1);
      CountBetweenSplit(logs, 1, 7 * (n - 1), 7 * n);
      VolumeBetweenSplit(logs, 1, 7 * (n - 1), 7 * n);
    }
  }

  lemma {:induction false} EmptyRange(logs: seq<WorkoutLog>, lo: int, hi: int)
    requires hi < lo
    ensures CountBetween(logs, lo, hi) == 0 && VolumeBetween(logs, lo, hi) == 0.0
  {
    if logs != [] {
      EmptyRange(logs[..|logs| - 1], lo, hi);
    }
  }

  // ---- activity map ----

  datatype HeatDay = HeatDay(daysAgo: int, count: int)

  /** Number of active cells in the map. */
  function ActiveCells(data: seq<HeatDay>): int {
    if data == [] then 0 else ActiveCells(data[..|data| - 1]) + data[|data| - 1].count
  }

  method GetHeatmapData(logs: seq<WorkoutLog>) returns (data: seq<HeatDay>)
    ensures |data| == 84
    ensures forall k :: 0 <= k < 84 ==> data[k] == HeatDay(83 - k, if ActiveOn(logs, 83 - k) then 1 else 0)
    ensures ActiveCells(data) == CountActiveDays(logs, 0, 84)
  {
    data := [];
    var i := 83;
    while i >= 0
      invariant -1 <= i <= 83 && |data| == 83 - i
      invariant forall k :: 0 <= k < |data| ==> data[k] == HeatDay(83 - k, if ActiveOn(logs, 83 - k) then 1 else 0)
      invariant ActiveCells(data) == CountActiveDays(logs, i + 1, 84)
    {
      var hasActivity := ActiveOn(logs, i);
      var cell := HeatDay(i, if hasActivity then 1 else 0);
      assert (data + [cell])[..|data|] == data;
      data := data + [cell];
      i := i - 1;
    }
  }

  /** The last cell of the map (today) is lit exactly when the streak is running. */
  lemma HeatmapTodayMatchesStreak(logs: seq<WorkoutLog>)
    ensures ActiveOn(logs, 0) <==> StreakFrom(logs, 0) > 0
  {
  }

  // ---- best personal records ----

  /** One visited set: the name of its exercise entry and its weight. */
  datatype WeightEntry = WeightEntry(exerciseName: string, weight: real)

  function SetWeights(e: ExerciseLog): (ps: seq<WeightEntry>)
    ensures |ps| == |e.sets|
    ensures forall k :: 0 <= k < |ps| ==> ps[k] == WeightEntry(e.exerciseName, e.sets[k].weight)
  {
    seq(|e.sets|, k requires 0 <= k < |e.sets| => WeightEntry(e.exerciseName, e.sets[k].weight))
  }

  function ExerciseWeights(es: seq<ExerciseLog>): seq<WeightEntry> {
    if es == [] then [] else ExerciseWeights(es[..|es| - 1]) + SetWeights(es[|es| - 1])
  }

  /** Every set of every entry of every log, in the order the nested `forEach` visits them. */
  function AllWeights(logs: seq<WorkoutLog>): seq<WeightEntry> {
    if logs == [] then [] else AllWeights(logs[..|logs| - 1]) + ExerciseWeights(logs[|logs| - 1].exercises)
  }

  /** The weights visited under `name`, in order. */
  function WeightsNamed(ps: seq<WeightEntry>, name: string): seq<real> {
    if ps == [] then []
    else WeightsNamed(ps[..|ps| - 1], name) + (if ps[|ps| - 1].exerciseName == name then [ps[|ps| - 1].weight] else [])
  }

  /** The heaviest set ever logged under `name`, in any entry of any log; 0 when none is heavier. */
  function BestWeight(logs: seq<WorkoutLog>, name: string): real {
    BestIn(AllWeights(logs), name)
  }

  /** The `exercisePRs` object: its keys in insertion order and its values. */
  datatype PrRecord = PrRecord(names: seq<string>, best: map<string, real>)

  /** One step of the innermost loop: `if (set.weight > (prs[name] || 0)) prs[name] = set.weight`. */
  function RecordWeight(t: PrRecord, p: WeightEntry): PrRecord {
    var current := if p.exerciseName in t.best then t.best[p.exerciseName] else 0.0;
    if p.weight > current then
      PrRecord(if p.exerciseName in t.best then t.names else t.names + [p.exerciseName],
               t.best[p.exerciseName := p.weight])
    else t
  }

  const NoRecords := PrRecord([], map[])

  /** The record after visiting `ps`, starting from `t`. */
  function RecordFrom(t: PrRecord, ps: seq<WeightEntry>): PrRecord {
    if ps == [] then t else RecordWeight(RecordFrom(t, ps[..|ps| - 1]), ps[|ps| - 1])
  }

  lemma RecordFromSnoc(t: PrRecord, ps: seq<WeightEntry>, p: WeightEntry)
    ensures RecordFrom(t, ps + [p]) == RecordWeight(RecordFrom(t, ps), p)
  {
    assert (ps + [p])[..|ps|] == ps;
  }

  /** Visiting `a` and then `b` is visiting `a + b`. */
  lemma {:induction false} RecordFromAppend(t: PrRecord, a: seq<WeightEntry>, b: seq<WeightEntry>)
    ensures RecordFrom(t, a + b) == RecordFrom(RecordFrom(t, a), b)
  {
    if b == [] {
      assert a + b == a;
    } else {
      var init, last := b[..|b| - 1], b[|b| - 1];
      assert a + b == (a + init) + [last];
      RecordFromAppend(t, a, init);
      RecordFromSnoc(t, a + init, last);
    }
  }

  /** The heaviest weight among the visited sets named `n`; 0 when none is heavier. */
  function BestIn(ps: seq<WeightEntry>, n: string): real {
    MaxFrom(0.0, WeightsNamed(ps, n))
  }

  /** The record holds, for each name with a positive weight, the largest weight seen under it. */
  ghost predicate RecordMatches(t: PrRecord, ps: seq<WeightEntry>) {
    && Distinct(t.names)
    && (forall n :: n in t.names <==> n in t.best)
    && (forall n :: n in t.best ==> t.best[n] == BestIn(ps, n) > 0.0)
    && (forall n :: n !in t.best ==> BestIn(ps, n) == 0.0)
  }

  lemma BestInSnoc(ps: seq<WeightEntry>, p: WeightEntry, n: string)
    ensures BestIn(ps + [p], n) ==
      if n == p.exerciseName && p.weight > BestIn(ps, n) then p.weight else BestIn(ps, n)
  {
    assert (ps + [p])[..|ps|] == ps;
    assert WeightsNamed(ps + [p], n) == WeightsNamed(ps, n) + (if p.exerciseName == n then [p.weight] else []);
    if n == p.exerciseName {
      MaxFromSnoc(0.0, WeightsNamed(ps, n), p.weight);
    } else {
      assert WeightsNamed(ps + [p], n) == WeightsNamed(ps, n);
    }
  }

  /** One more visited set keeps the record equal to the running maxima. */
  lemma RecordWeightStep(t: PrRecord, ps: seq<WeightEntry>, p: WeightEntry)
    requires RecordMatches(t, ps)
    ensures RecordMatches(RecordWeight(t, p), ps + [p])
  {
    var name := p.exerciseName;
    var t' := RecordWeight(t, p);
    var current := if name in t.best then t.best[name] else 0.0;
    assert current == BestIn(ps, name);
    if p.weight > current {
      assert t'.best == t.best[name := p.weight];
      if name !in t.best {
        assert name !in t.names;
        assert t'.names == t.names + [name];
        forall i, j | 0 <= i < j < |t'.names| ensures t'.names[i] != t'.names[j] {
          if j == |t.names| { assert t'.names[i] == t.names[i]; }
        }
      }
      forall n | n in t'.best ensures t'.best[n] == BestIn(ps + [p], n) > 0.0 {
        BestInSnoc(ps, p, n);
      }
      forall n | n !in t'.best ensures BestIn(ps + [p], n) == 0.0 {
        BestInSnoc(ps, p, n);
      }
    } else {
      assert t' == t;
      forall n ensures BestIn(ps + [p], n) == BestIn(ps, n) {
        BestInSnoc(ps, p, n);
      }
    }
  }

  lemma {:induction false} RecordAllCorrect(ps: seq<WeightEntry>)
    ensures RecordMatches(RecordFrom(NoRecords, ps), ps)
  {
    if ps != [] {
      var init, p := ps[..|ps| - 1], ps[|ps| - 1];
      assert ps == init + [p];
      RecordAllCorrect(init);
      RecordWeightStep(RecordFrom(NoRecords, init), init, p);
    }
  }

  /** `Object.entries(prs)`: the (name, weight) pairs in key order. */
  function RecordEntries(t: PrRecord): (es: seq<WeightEntry>)
    requires forall n :: n in t.names ==> n in t.best
    ensures |es| == |t.names|
    ensures forall i :: 0 <= i < |es| ==> es[i] == WeightEntry(t.names[i], t.best[t.names[i]])
  {
    seq(|t.names|, i requires 0 <= i < |t.names| => WeightEntry(t.names[i], t.best[t.names[i]]))
  }

  /**
   * The list shown under "Personal Records": at most three, heaviest first,
   * one per exercise name. Ties are left open: when several names share the
   * weight of the last place, which of them are shown, and in which order,
   * is not stated (the stable sort keeps the record's first-seen order).
   */
  ghost predicate IsTopThree(logs: seq<WorkoutLog>, top: seq<WeightEntry>) {
    && |top| <= 3
    && (forall i, j :: 0 <= i < j < |top| ==> top[i].weight >= top[j].weight)
    && (forall i, j :: 0 <= i < j < |top| ==> top[i].exerciseName != top[j].exerciseName)
    && (forall i :: 0 <= i < |top| ==> top[i].weight == BestWeight(logs, top[i].exerciseName) > 0.0)
    && (forall n :: BestWeight(logs, n) > 0.0 && (forall i :: 0 <= i < |top| ==> top[i].exerciseName != n)
          ==> |top| == 3 && BestWeight(logs, n) <= top[2].weight)
  }

  lemma ExerciseWeightsSnoc(es: seq<ExerciseLog>, e: ExerciseLog)
    ensures ExerciseWeights(es + [e]) == ExerciseWeights(es) + SetWeights(e)
  {
    assert (es + [e])[..|es|] == es;
  }

  lemma AllWeightsSnoc(logs: seq<WorkoutLog>, w: WorkoutLog)
    ensures AllWeights(logs + [w]) == AllWeights(logs) + ExerciseWeights(w.exercises)
  {
    assert (logs + [w])[..|logs|] == logs;
  }

  /** The innermost `forEach`: the sets of one exercise entry. */
  method RecordSets(prs: PrRecord, exercise: ExerciseLog) returns (r: PrRecord)
    ensures r == RecordFrom(prs, SetWeights(exercise))
  {
    r := prs;
    for k := 0 to |exercise.sets|
      invariant r == RecordFrom(prs, SetWeights(exercise)[..k])
    {
      var entry := WeightEntry(exercise.exerciseName, exercise.sets[k].weight);
      assert SetWeights(exercise)[..k + 1] == SetWeights(exercise)[..k] + [entry];
      RecordFromSnoc(prs, SetWeights(exercise)[..k], entry);
      r := RecordWeight(r, entry);
    }
    assert SetWeights(exercise)[..|exercise.sets|] == SetWeights(exercise);
  }

  /** The middle `forEach`: the exercise entries of one log. */
  method RecordExercises(prs: PrRecord, exercises: seq<ExerciseLog>) returns (r: PrRecord)
    ensures r == RecordFrom(prs, ExerciseWeights(exercises))
  {
    r := prs;
    for j := 0 to |exercises|
      invariant r == RecordFrom(prs, ExerciseWeights(exercises[..j]))
    {
      r := RecordSets(r, exercises[j]);
      assert exercises[..j + 1] == exercises[..j] + [exercises[j]];
      ExerciseWeightsSnoc(exercises[..j], exercises[j]);
      RecordFromAppend(prs, ExerciseWeights(exercises[..j]), SetWeights(exercises[j]));
    }
    assert exercises[..|exercises|] == exercises;
  }

  /** The outer `forEach` over the logs, filling `exercisePRs` from nothing. */
  method RecordPersonalRecords(logs: seq<WorkoutLog>) returns (prs: PrRecord)
    ensures prs == RecordFrom(NoRecords, AllWeights(logs))
  {
    prs := NoRecords;
    for i := 0 to |logs|
      invariant prs == RecordFrom(NoRecords, AllWeights(logs[..i]))
    {
      prs := RecordExercises(prs, logs[i].exercises);
      assert logs[..i + 1] == logs[..i] + [logs[i]];
      AllWeightsSnoc(logs[..i], logs[i]);
      RecordFromAppend(NoRecords, AllWeights(logs[..i]), ExerciseWeights(logs[i].exercises));
    }
    assert logs[..|logs|] == logs;
  }

  function ByWeight(e: WeightEntry): real { e.weight }

  /** `getBestPRs`: the record's entries sorted heaviest first, cut to three. */
  method GetBestPRs(logs: seq<WorkoutLog>) returns (top: seq<WeightEntry>)
    ensures IsTopThree(logs, top)
  {
    var prs := RecordPersonalRecords(logs);
    RecordAllCorrect(AllWeights(logs));
    var sorted := SortDesc(RecordEntries(prs), ByWeight);
    top := if |sorted| < 3 then sorted else sorted[..3];
    SortedRecordEntries(prs, AllWeights(logs), sorted);
    TopOfSorted(logs, sorted, top);
  }

  /** Each element of a reordering of the record's entries is one of them. */
  lemma SortedFromRecord(t: PrRecord, sorted: seq<WeightEntry>, i: int)
    requires forall n :: n in t.names ==> n in t.best
    requires multiset(sorted) == multiset(RecordEntries(t))
    requires 0 <= i < |sorted|
    ensures exists m :: 0 <= m < |t.names| && sorted[i] == WeightEntry(t.names[m], t.best[t.names[m]])
  {
    assert sorted[i] in multiset(RecordEntries(t));
  }

  /** A reordering of the record's entries: one per name, each at its name's best weight. */
  lemma SortedRecordEntries(t: PrRecord, ps: seq<WeightEntry>, sorted: seq<WeightEntry>)
    requires RecordMatches(t, ps)
    requires multiset(sorted) == multiset(RecordEntries(t))
    ensures forall i :: 0 <= i < |sorted| ==> sorted[i].weight == BestIn(ps, sorted[i].exerciseName) > 0.0
    ensures forall i, j :: 0 <= i < j < |sorted| ==> sorted[i].exerciseName != sorted[j].exerciseName
    ensures forall n :: BestIn(ps, n) > 0.0 ==> exists k :: 0 <= k < |sorted| && sorted[k].exerciseName == n
  {
    forall i | 0 <= i < |sorted| ensures sorted[i].weight == BestIn(ps, sorted[i].exerciseName) > 0.0 {
      SortedFromRecord(t, sorted, i);
    }
    SortedRecordNamesDistinct(t, sorted);
    forall n | BestIn(ps, n) > 0.0 ensures exists k :: 0 <= k < |sorted| && sorted[k].exerciseName == n {
      var m :| 0 <= m < |t.names| && t.names[m] == n;
      assert RecordEntries(t)[m] in multiset(sorted);
    }
  }

  lemma SortedRecordNamesDistinct(t: PrRecord, sorted: seq<WeightEntry>)
    requires Distinct(t.names) && forall n :: n in t.names ==> n in t.best
    requires multiset(sorted) == multiset(RecordEntries(t))
    ensures forall i, j :: 0 <= i < j < |sorted| ==> sorted[i].exerciseName != sorted[j].exerciseName
  {
    var entries := RecordEntries(t);
    assert Distinct(entries);
    PermutationKeepsDistinct(entries, sorted);
    forall i, j | 0 <= i < j < |sorted| ensures sorted[i].exerciseName != sorted[j].exerciseName {
      SortedFromRecord(t, sorted, i);
      SortedFromRecord(t, sorted, j);
    }
  }

  lemma TopOfSorted(logs: seq<WorkoutLog>, sorted: seq<WeightEntry>, top: seq<WeightEntry>)
    requires SortedDesc(sorted, ByWeight)
    requires forall i :: 0 <= i < |sorted| ==> sorted[i].weight == BestWeight(logs, sorted[i].exerciseName) > 0.0
    requires forall i, j :: 0 <= i < j < |sorted| ==> sorted[i].exerciseName != sorted[j].exerciseName
    requires forall n :: BestWeight(logs, n) > 0.0 ==> exists k :: 0 <= k < |sorted| && sorted[k].exerciseName == n
    requires top == if |sorted| < 3 then sorted else sorted[..3]
    ensures IsTopThree(logs, top)
  {
    TopOrdered(sorted, top);
    TopOutweighsRest(logs, sorted, top);
  }

  /** A prefix of a list sorted heaviest first is sorted heaviest first. */
  lemma TopOrdered(sorted: seq<WeightEntry>, top: seq<WeightEntry>)
    requires SortedDesc(sorted, ByWeight)
    requires top == if |sorted| < 3 then sorted else sorted[..3]
    ensures forall i, j :: 0 <= i < j < |top| ==> top[i].weight >= top[j].weight
  {
    forall i, j | 0 <= i < j < |top| ensures top[i].weight >= top[j].weight {
      assert ByWeight(sorted[i]) >= ByWeight(sorted[j]);
    }
  }

  /** A name with a positive record that the top three leave out weighs no more than the third. */
  lemma TopOutweighsRest(logs: seq<WorkoutLog>, sorted: seq<WeightEntry>, top: seq<WeightEntry>)
    requires SortedDesc(sorted, ByWeight)
    requires forall i :: 0 <= i < |sorted| ==> sorted[i].weight == BestWeight(logs, sorted[i].exerciseName) > 0.0
    requires forall n :: BestWeight(logs, n) > 0.0 ==> exists k :: 0 <= k < |sorted| && sorted[k].exerciseName == n
    requires top == if |sorted| < 3 then sorted else sorted[..3]
    ensures forall n ::
      BestWeight(logs, n) > 0.0 && (forall i :: 0 <= i < |top| ==> top[i].exerciseName != n)
      ==> |top| == 3 && BestWeight(logs, n) <= top[2].weight
  {
    forall n | BestWeight(logs, n) > 0.0 && (forall i :: 0 <= i < |top| ==> top[i].exerciseName != n)
      ensures |top| == 3 && BestWeight(logs, n) <= top[2].weight
    {
      var k :| 0 <= k < |sorted| && sorted[k].exerciseName == n;
      assert k >= |top|;
      assert ByWeight(sorted[2]) >= ByWeight(sorted[k]);
    }
  }
}
