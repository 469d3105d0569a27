/**
 * The computations of the active-workout screen (src/components/WorkoutView.tsx):
 * the `m:ss` clocks of the workout and rest timers, the personal record shown
 * beside each exercise, and the guards of the PR badge and the remove-set button.
 */
module WorkoutView {
  import opened Wrappers
  import opened Types
  import opened Seqs
  import opened Text
  import Dashboard

  // ---- clocks ----

  /** JavaScript's `%`: the remainder of the division truncated toward zero. */
  function JsRem(a: int, b: int): (r: int)
    requires b > 0
    ensures a >= 0 ==> 0 <= r < b
    ensures a < 0 ==> -b < r <= 0
  {
    if a >= 0 then a % b else -((-a) % b)
  }

  /**
   * Reads an `m:ss` clock: decimal minutes, a colon, then exactly two digits
   * of seconds below 60. Gives the total number of seconds.
   */
  function ReadClock(text: string): Option<int> {
    var k := FindChar(text, ':');
    if k + 3 != |text| then None else ClockValue(ParseNat(text[..k]), ParseNat(text[k + 1..]))
  }

  function ClockValue(mins: Option<nat>, secs: Option<nat>): Option<int> {
    if mins.Some? && secs.Some? && secs.value < 60 then Some(60 * mins.value + secs.value) else None
  }

  /** A text with one colon, two characters from its end, splits there into its two fields. */
  lemma ReadClockSplit(mm: string, ss: string)
    requires forall i :: 0 <= i < |mm| ==> mm[i] != ':'
    requires |ss| == 2
    ensures ReadClock(mm + ":" + ss) == ClockValue(ParseNat(mm), ParseNat(ss))
  {
    var text := mm + ":" + ss;
    assert text == mm + (":" + ss);
    FindCharAfter(mm, ":" + ss, ':');
    assert text[..|mm|] == mm;
    assert text[|mm| + 1..] == ss;
  }

  /** A minutes field and a two-digit seconds field read back as their total. */
  lemma ReadClockFields(mm: string, ss: string)
    requires mm != [] && AllDigits(mm) && |ss| == 2 && AllDigits(ss) && ParseDigits(ss) < 60
    ensures ReadClock(mm + ":" + ss) == Some(60 * ParseDigits(mm) + ParseDigits(ss))
  {
    forall i | 0 <= i < |mm| ensures mm[i] != ':' {
      assert IsDigit(mm[i]);
    }
    ReadClockSplit(mm, ss);
  }

  /** Seconds below a minute, zero-padded, are two digits that read back as themselves. */
  lemma TwoDigitSeconds(s: nat)
    requires s < 60
    ensures var ss := PadStart(NatToString(s), 2, '0');
      |ss| == 2 && AllDigits(ss) && ParseDigits(ss) == s
  {
    NatToStringShort(s);
    ParsePadded(NatToString(s), 2);
    ParseNatToString(s);
  }

  lemma ReadClockParts(m: nat, s: nat)
    requires s < 60
    ensures ReadClock(NatToString(m) + ":" + PadStart(NatToString(s), 2, '0')) == Some(60 * m + s)
  {
    TwoDigitSeconds(s);
    ParseNatToString(m);
    ReadClockFields(NatToString(m), PadStart(NatToString(s), 2, '0'));
  }

  /** `formatElapsedTime`: floored minutes, a colon, and the JavaScript remainder padded to two characters. */
  function FormatElapsedTime(seconds: int): (r: string)
    ensures r != [] && (r[0] == '-' <==> seconds < 0)
  {
    var mins := seconds / 60;   // Math.floor: the divisor is positive
    var secs := JsRem(seconds, 60);
    IntToString(mins) + ":" + PadStart(IntToString(secs), 2, '0')
  }

  /** A non-negative count of seconds reads back exactly from its `m:ss` clock. */
  lemma ElapsedTimeRoundTrip(seconds: int)
    requires seconds >= 0
    ensures ReadClock(FormatElapsedTime(seconds)) == Some(seconds)
  {
    var mins, secs := seconds / 60, seconds % 60;
    assert seconds == 60 * mins + secs;
    assert JsRem(seconds, 60) == secs;
    assert IntToString(mins) == NatToString(mins);
    assert IntToString(secs) == NatToString(secs);
    ReadClockParts(mins, secs);
  }

  /**
   * `formatRestTime`, whose body is the same as `formatElapsedTime`'s. The
   * overlay shows it while the timer is positive, and there it reads back exactly.
   */
  function FormatRestTime(seconds: int): (r: string)
    ensures seconds > 0 ==> ReadClock(r) == Some(seconds) && |r| >= 4
  {
    if seconds > 0 then
      ElapsedTimeRoundTrip(seconds);
      FormatElapsedTime(seconds)
    else
      FormatElapsedTime(seconds)
  }

  /** A negative count keeps JavaScript's signs: floored minutes and a negative remainder. */
  lemma NegativeElapsedTime()
    ensures FormatElapsedTime(-5) == "-1:-5"
  {
    assert -5 / 60 == -1;
    assert JsRem(-5, 60) == -5;
    assert NatToString(1) == "1";
    assert NatToString(5) == "5";
    assert IntToString(-5) == "-5";
    assert PadStart("-5", 2, '0') == "-5";
  }

  // ---- personal record of one exercise ----

  /** Position of the entry `exercises.find(e => e.exerciseName === name)` returns, or `|es|`. */
  function FirstNamed(es: seq<ExerciseLog>, name: string): (i: nat)
    ensures i <= |es|
    ensures i < |es| ==> es[i].exerciseName == name
    ensures forall j :: 0 <= j < i ==> es[j].exerciseName != name
  {
    if es == [] then 0 else if es[0].exerciseName == name then 0 else 1 + FirstNamed(es[1..], name)
  }

  /** The sets of the entry `find` returns in one log; none when it returns `undefined`. */
  function FirstEntrySets(w: WorkoutLog, name: string): seq<Set> {
    var i := FirstNamed(w.exercises, name);
    if i < |w.exercises| then w.exercises[i].sets else []
  }

  function Weights(sets: seq<Set>): (ws: seq<real>)
    ensures |ws| == |sets|
    ensures forall k :: 0 <= k < |sets| ==> ws[k] == sets[k].weight
  {
    seq(|sets|, k requires 0 <= k < |sets| => sets[k].weight)
  }

  /** The weights the nested loops compare, log by log. */
  function FirstEntryWeights(logs: seq<WorkoutLog>, name: string): seq<real> {
    if logs == [] then []
    else FirstEntryWeights(logs[..|logs| - 1], name) + Weights(FirstEntrySets(logs[|logs| - 1], name))
  }

  /** The value `getPersonalRecord(name)` returns: never negative, and not below any weight compared. */
  function PersonalRecord(logs: seq<WorkoutLog>, name: string): (r: real)
    ensures r >= 0.0
    ensures forall k :: 0 <= k < |FirstEntryWeights(logs, name)| ==> FirstEntryWeights(logs, name)[k] <= r
  {
    MaxFrom(0.0, FirstEntryWeights(logs, name))
  }

  lemma FirstEntryWeightsSnoc(logs: seq<WorkoutLog>, w: WorkoutLog, name: string)
    ensures FirstEntryWeights(logs + [w], name) == FirstEntryWeights(logs, name) + Weights(FirstEntrySets(w, name))
  {
    assert (logs + [w])[..|logs|] == logs;
  }

  /** The inner `forEach` over the sets of the entry `find` returned. */
  method MaxOverSets(start: real, sets: seq<Set>) returns (maxWeight: real)
    ensures maxWeight == MaxFrom(start, Weights(sets))
  {
    maxWeight := start;
    for k := 0 to |sets|
      invariant maxWeight == MaxFrom(start, Weights(sets)[..k])
    {
      assert Weights(sets)[..k + 1] == Weights(sets)[..k] + [sets[k].weight];
      MaxFromSnoc(start, Weights(sets)[..k], sets[k].weight);
      if sets[k].weight > maxWeight {
        maxWeight := sets[k].weight;
      }
    }
    assert Weights(sets)[..|sets|] == Weights(sets);
  }

  /** `getPersonalRecord`: the heaviest set of the first entry named `name` in each log. */
  method GetPersonalRecord(logs: seq<WorkoutLog>, name: string) returns (maxWeight: real)
    ensures maxWeight == PersonalRecord(logs, name)
  {
    maxWeight := 0.0;
    for i := 0 to |logs|
      invariant maxWeight == MaxFrom(0.0, FirstEntryWeights(logs[..i], name))
    {
      var workout := logs[i];
      var j := FirstNamed(workout.exercises, name);
      if j < |workout.exercises| {
        maxWeight := MaxOverSets(maxWeight, workout.exercises[j].sets);
      }
      PersonalRecordStep(logs, name, i);
    }
    assert logs[..|logs|] == logs;
  }

  /** One more log continues the running maximum over that log's first matching entry. */
  lemma PersonalRecordStep(logs: seq<WorkoutLog>, name: string, i: nat)
    requires i < |logs|
    ensures MaxFrom(0.0, FirstEntryWeights(logs[..i + 1], name))
      == MaxFrom(MaxFrom(0.0, FirstEntryWeights(logs[..i], name)), Weights(FirstEntrySets(logs[i], name)))
  {
    assert logs[..i + 1] == logs[..i] + [logs[i]];
    FirstEntryWeightsSnoc(logs[..i], logs[i], name);
    MaxFromAppend(0.0, FirstEntryWeights(logs[..i], name), Weights(FirstEntrySets(logs[i], name)));
  }

  /** A weight of some set of the first entry named `name` in some log. */
  predicate IsFirstEntryWeight(logs: seq<WorkoutLog>, name: string, w: real) {
    exists i, k :: 0 <= i < |logs| && 0 <= k < |FirstEntrySets(logs[i], name)| && FirstEntrySets(logs[i], name)[k].weight == w
  }

  /** A weight is compared by the nested loops exactly when some set of some log's first matching entry has it. */
  lemma {:induction false} FirstEntryWeightsMembers(logs: seq<WorkoutLog>, name: string, w: real)
    ensures w in FirstEntryWeights(logs, name) <==> IsFirstEntryWeight(logs, name, w)
  {
    if logs != [] {
      var init, last := logs[..|logs| - 1], logs[|logs| - 1];
      FirstEntryWeightsMembers(init, name, w);
      assert FirstEntryWeights(logs, name) == FirstEntryWeights(init, name) + Weights(FirstEntrySets(last, name));
      SplitFirstEntryWeight(logs, name, w);
    }
  }

  /** A weight of the logs is a weight of all but the last log, or of the last log. */
  lemma SplitFirstEntryWeight(logs: seq<WorkoutLog>, name: string, w: real)
    requires logs != []
    ensures IsFirstEntryWeight(logs, name, w) <==>
      IsFirstEntryWeight(logs[..|logs| - 1], name, w) || w in Weights(FirstEntrySets(logs[|logs| - 1], name))
  {
    var init, sets := logs[..|logs| - 1], FirstEntrySets(logs[|logs| - 1], name);
    if IsFirstEntryWeight(init, name, w) {
      var i, k :| 0 <= i < |init| && 0 <= k < |FirstEntrySets(init[i], name)| && FirstEntrySets(init[i], name)[k].weight == w;
      assert logs[i] == init[i];
    } else if w in Weights(sets) {
      var k :| 0 <= k < |sets| && Weights(sets)[k] == w;
      assert FirstEntrySets(logs[|logs| - 1], name)[k].weight == w;
    }
    if IsFirstEntryWeight(logs, name, w) {
      var i, k :| 0 <= i < |logs| && 0 <= k < |FirstEntrySets(logs[i], name)| && FirstEntrySets(logs[i], name)[k].weight == w;
      if i < |init| {
        assert init[i] == logs[i];
      } else {
        assert Weights(sets)[k] == w;
      }
    }
  }

  /**
   * The record is never negative, bounds every set of the first matching entry
   * of every log, is one of those weights when positive, and is 0 when no log
   * has an entry with that name.
   */
  lemma PersonalRecordBounds(logs: seq<WorkoutLog>, name: string)
    ensures PersonalRecord(logs, name) >= 0.0
    ensures forall w :: IsFirstEntryWeight(logs, name, w) ==> w <= PersonalRecord(logs, name)
    ensures PersonalRecord(logs, name) > 0.0 ==> IsFirstEntryWeight(logs, name, PersonalRecord(logs, name))
    ensures (forall i :: 0 <= i < |logs| ==> FirstNamed(logs[i].exercises, name) == |logs[i].exercises|)
              ==> PersonalRecord(logs, name) == 0.0
  {
    var ws := FirstEntryWeights(logs, name);
    forall w | IsFirstEntryWeight(logs, name, w) ensures w <= PersonalRecord(logs, name) {
      FirstEntryWeightsMembers(logs, name, w);
      var k :| 0 <= k < |ws| && ws[k] == w;
    }
    FirstEntryWeightsMembers(logs, name, PersonalRecord(logs, name));
    if forall i :: 0 <= i < |logs| ==> FirstNamed(logs[i].exercises, name) == |logs[i].exercises| {
      NoEntryNoWeights(logs, name);
    }
  }

  lemma {:induction false} NoEntryNoWeights(logs: seq<WorkoutLog>, name: string)
    requires forall i :: 0 <= i < |logs| ==> FirstNamed(logs[i].exercises, name) == |logs[i].exercises|
    ensures FirstEntryWeights(logs, name) == []
  {
    if logs != [] {
      var init := logs[..|logs| - 1];
      assert forall i :: 0 <= i < |init| ==> init[i] == logs[i];
      NoEntryNoWeights(init, name);
      assert FirstEntrySets(logs[|logs| - 1], name) == [];
    }
  }

  function LogOf(exercises: seq<ExerciseLog>): WorkoutLog {
    WorkoutLog("w", "Legs", 0, 0, exercises, 0, None)
  }

  function EntryOf(name: string, weight: real): ExerciseLog {
    ExerciseLog(name, name, [Set("s", weight, 5.0, true, None)], None, None)
  }

  /**
   * Only the first entry with the name counts: a log holding "Squat" at 100
   * and again at 120 gives a record of 100 here, while the dashboard's best
   * record, which visits every entry, gives 120.
   */
  lemma SecondEntryIgnored()
    ensures PersonalRecord([LogOf([EntryOf("Squat", 100.0), EntryOf("Squat", 120.0)])], "Squat") == 100.0
    ensures Dashboard.BestWeight([LogOf([EntryOf("Squat", 100.0), EntryOf("Squat", 120.0)])], "Squat") == 120.0
  {
    var a, b := EntryOf("Squat", 100.0), EntryOf("Squat", 120.0);
    var w := LogOf([a, b]);
    FirstEntryWeightsSnoc([], w, "Squat");
    assert [] + [w] == [w];
    assert FirstEntrySets(w, "Squat") == a.sets;
    assert Weights(a.sets) == [100.0];
    MaxFromSnoc(0.0, [], 100.0);
    BothEntriesCount(a, b, w);
  }

  lemma TwoEntryWeights(a: ExerciseLog, b: ExerciseLog, w: WorkoutLog, pa: Dashboard.WeightEntry, pb: Dashboard.WeightEntry)
    requires w.exercises == [a, b]
    requires Dashboard.SetWeights(a) == [pa] && Dashboard.SetWeights(b) == [pb]
    ensures Dashboard.AllWeights([w]) == [pa, pb]
  {
    Dashboard.ExerciseWeightsSnoc([], a);
    assert [] + [a] == [a];
    Dashboard.ExerciseWeightsSnoc([a], b);
    assert [a] + [b] == w.exercises;
    Dashboard.AllWeightsSnoc([], w);
    assert [] + [w] == [w];
  }

  /** The dashboard's record visits both entries of a log that repeats a name. */
  lemma BothEntriesCount(a: ExerciseLog, b: ExerciseLog, w: WorkoutLog)
    requires a.exerciseName == "Squat" && b.exerciseName == "Squat"
    requires a.sets == [Set("s", 100.0, 5.0, true, None)] && b.sets == [Set("s", 120.0, 5.0, true, None)]
    requires w.exercises == [a, b]
    ensures Dashboard.BestWeight([w], "Squat") == 120.0
  {
    var pa, pb := Dashboard.WeightEntry("Squat", 100.0), Dashboard.WeightEntry("Squat", 120.0);
    TwoEntryWeights(a, b, w, pa, pb);
    BestOfTwo(pa, pb);
  }

  lemma BestOfTwo(pa: Dashboard.WeightEntry, pb: Dashboard.WeightEntry)
    requires pa == Dashboard.WeightEntry("Squat", 100.0) && pb == Dashboard.WeightEntry("Squat", 120.0)
    ensures Dashboard.BestIn([pa, pb], "Squat") == 120.0
  {
    assert Dashboard.BestIn([], "Squat") == 0.0;
    Dashboard.BestInSnoc([], pa, "Squat");
    assert [] + [pa] == [pa];
    Dashboard.BestInSnoc([pa], pb, "Squat");
    assert [pa] + [pb] == [pa, pb];
  }

  // ---- guards ----

  /**
   * The "PR: {pr} kg" badge: present, with the record, exactly when some set
   * of a first matching entry weighs more than 0.
   */
  function PrBadge(logs: seq<WorkoutLog>, name: string): (badge: Option<real>)
    ensures badge.Some? <==> exists w :: IsFirstEntryWeight(logs, name, w) && w > 0.0
    ensures badge.Some? ==> badge.value > 0.0 && IsFirstEntryWeight(logs, name, badge.value)
    ensures badge.Some? <==> PersonalRecord(logs, name) > 0.0
    ensures badge.Some? ==> badge.value == PersonalRecord(logs, name)
  {
    PersonalRecordBounds(logs, name);
    var pr := PersonalRecord(logs, name);
    if pr > 0.0 then Some(pr) else None
  }

  /**
   * The remove-set button is offered exactly when removing any one set would
   * still leave the exercise with a set.
   */
  function ShowRemoveSet(exercise: ExerciseLog): (shown: bool)
    ensures shown <==> (exercise.sets != [] &&
      forall k :: 0 <= k < |exercise.sets| ==> |exercise.sets[..k] + exercise.sets[k + 1..]| >= 1)
  {
    if |exercise.sets| == 1 then
      assert |exercise.sets[..0] + exercise.sets[1..]| == 0;
      false
    else |exercise.sets| > 1
  }
}
