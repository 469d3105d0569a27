/**
 * The screens that show logged workouts: the workout list and the history
 * list (src/components/WorkoutsView.tsx, src/components/HistoryView.tsx),
 * which render the same cards, and the detail screen of one log
 * (src/components/WorkoutDetailView.tsx). The three files carry the same
 * `formatDuration`, defined once here. Clicks become the values the cards
 * and buttons carry: the log a card selects, the id the delete button passes.
 */
module History {
  import opened Wrappers
  import opened Types
  import opened Text

  // ---- durations ----

  /** `formatDuration`: whole minutes below an hour, otherwise hours and the minutes left over. */
  function FormatDuration(seconds: int): (r: string)
    ensures r != [] && r[|r| - 1] == 'm'
    ensures 'h' in r <==> seconds >= 3600
  {
    var mins := seconds / 60;   // Math.floor: the divisor is positive
    if mins < 60 then
      assert 'h' !in NatToString(if mins < 0 then -mins else mins);
      IntToString(mins) + "m"
    else
      NatToString(mins / 60) + "h " + NatToString(mins % 60) + "m"
  }

  function HoursAndMinutes(hours: Option<nat>, mins: Option<nat>): Option<nat> {
    if hours.Some? && mins.Some? && mins.value < 60 then Some(60 * hours.value + mins.value) else None
  }

  /**
   * Reads a duration text back as whole minutes: digits and "m", or digits,
   * "h ", digits below 60 and "m".
   */
  function ReadDuration(text: string): Option<nat> {
    if text == [] || text[|text| - 1] != 'm' then None
    else
      var body := text[..|text| - 1];
      var k := FindChar(body, 'h');
      if k == |body| then ParseNat(body)
      else if k + 2 <= |body| && body[k + 1] == ' ' then HoursAndMinutes(ParseNat(body[..k]), ParseNat(body[k + 2..]))
      else None
  }

  /** The minute form reads back as its minutes. */
  lemma ReadMinuteForm(mins: nat)
    ensures ReadDuration(NatToString(mins) + "m") == Some(mins)
  {
    var text := NatToString(mins) + "m";
    var body := text[..|text| - 1];
    assert body == NatToString(mins);
    assert FindChar(body, 'h') == |body|;
    ParseNatRoundTrip(mins);
  }

  /** A text of the hour form splits at its `h` into the two fields. */
  lemma ReadHourFields(hs: string, ms: string)
    requires forall i :: 0 <= i < |hs| ==> hs[i] != 'h'
    ensures ReadDuration(hs + "h " + ms + "m") == HoursAndMinutes(ParseNat(hs), ParseNat(ms))
  {
    var text := hs + "h " + ms + "m";
    var body := text[..|text| - 1];
    assert body == hs + ("h " + ms);
    FindCharAfter(hs, "h " + ms, 'h');
    assert body[..|hs|] == hs;
    assert body[|hs| + 2..] == ms;
  }

  /** The hour form reads back as 60 minutes an hour plus the minutes. */
  lemma ReadHourForm(h: nat, m: nat)
    requires m < 60
    ensures ReadDuration(NatToString(h) + "h " + NatToString(m) + "m") == Some(60 * h + m)
  {
    ReadHourFields(NatToString(h), NatToString(m));
    ParseNatRoundTrip(h);
    ParseNatRoundTrip(m);
  }

  /** A non-negative duration reads back as its whole minutes: only the leftover seconds are dropped. */
  lemma DurationRoundTrip(seconds: int)
    requires seconds >= 0
    ensures ReadDuration(FormatDuration(seconds)) == Some(seconds / 60)
  {
    var mins := seconds / 60;
    if mins < 60 {
      ReadMinuteForm(mins);
    } else {
      ReadHourForm(mins / 60, mins % 60);
    }
  }

  /** Two non-negative durations show the same text exactly when they have the same whole minutes. */
  lemma SameTextSameMinutes(s: int, t: int)
    requires s >= 0 && t >= 0
    ensures FormatDuration(s) == FormatDuration(t) <==> s / 60 == t / 60
  {
    DurationRoundTrip(s);
    DurationRoundTrip(t);
  }

  /** From an hour on, the text is "Hh Mm" with H at least 1, M below 60 and 60H + M the whole minutes. */
  lemma HourFields(seconds: int) returns (h: nat, m: nat)
    requires seconds >= 3600
    ensures 1 <= h && m < 60 && 60 * h + m == seconds / 60
    ensures FormatDuration(seconds) == NatToString(h) + "h " + NatToString(m) + "m"
  {
    h, m := seconds / 60 / 60, seconds / 60 % 60;
  }

  /** A negative duration floors toward minus infinity: one second short of zero shows "-1m". */
  lemma NegativeDuration()
    ensures FormatDuration(-1) == "-1m"
  {
    assert -1 / 60 == -1;
    assert NatToString(1) == "1";
  }

  // ---- the workout list and the history list ----

  /** One card: what it shows and the log a click on it selects. */
  datatype Card = Card(title: string, exerciseCount: nat, duration: string, selects: WorkoutLog)

  datatype LogList = EmptyState | Cards(cards: seq<Card>)

  function CardOf(w: WorkoutLog): Card {
    Card(w.templateName, |w.exercises|, FormatDuration(w.duration), w)
  }

  /**
   * The list both screens render: the empty state exactly when there are no
   * logs, otherwise one card per log, in the order given.
   */
  function LogListView(logs: seq<WorkoutLog>): (r: LogList)
    ensures r.EmptyState? <==> logs == []
    ensures r.Cards? ==> |r.cards| == |logs|
    ensures r.Cards? ==> forall i :: 0 <= i < |logs| ==>
      && r.cards[i].selects == logs[i]
      && r.cards[i].title == logs[i].templateName
      && r.cards[i].exerciseCount == |logs[i].exercises|
      && r.cards[i].duration == FormatDuration(logs[i].duration)
  {
    if logs == [] then EmptyState
    else Cards(seq(|logs|, i requires 0 <= i < |logs| => CardOf(logs[i])))
  }

  // ---- the detail screen ----

  /** The check column of a completed set. */
  const CheckMark := "✓"

  /** One read-only row of the sets table. */
  datatype SetRow = SetRow(number: nat, weight: real, reps: real, mark: string)

  /**
   * The rows of one exercise's sets: numbered from 1 in set order, with the
   * set's weight and reps, and a check mark exactly for the completed sets.
   */
  function SetRows(sets: seq<Set>): (rows: seq<SetRow>)
    ensures |rows| == |sets|
    ensures forall i :: 0 <= i < |sets| ==>
      rows[i].number == i + 1 && rows[i].weight == sets[i].weight && rows[i].reps == sets[i].reps
    ensures forall i :: 0 <= i < |sets| ==> (rows[i].mark == CheckMark <==> sets[i].completed)
    ensures forall i :: 0 <= i < |sets| ==> (rows[i].mark == "-" <==> !sets[i].completed)
  {
    if sets == [] then []
    else
      var init, last := sets[..|sets| - 1], sets[|sets| - 1];
      SetRows(init) + [SetRow(|sets|, last.weight, last.reps, if last.completed then CheckMark else "-")]
  }

  function CompletedCount(sets: seq<Set>): nat {
    if sets == [] then 0
    else CompletedCount(sets[..|sets| - 1]) + (if sets[|sets| - 1].completed then 1 else 0)
  }

  function CheckedCount(rows: seq<SetRow>): nat {
    if rows == [] then 0
    else CheckedCount(rows[..|rows| - 1]) + (if rows[|rows| - 1].mark == CheckMark then 1 else 0)
  }

  /** The table shows as many check marks as there are completed sets. */
  lemma {:induction false} ChecksCountCompleted(sets: seq<Set>)
    ensures CheckedCount(SetRows(sets)) == CompletedCount(sets)
  {
    if sets != [] {
      var init := sets[..|sets| - 1];
      var rows := SetRows(sets);
      assert rows[..|rows| - 1] == SetRows(init);
      ChecksCountCompleted(init);
    }
  }

  datatype ExerciseSection = ExerciseSection(title: string, rows: seq<SetRow>)

  /** The detail screen: its heading, duration, the id its delete button passes, and one section per exercise. */
  datatype Detail = Detail(title: string, duration: string, deleteId: string, sections: seq<ExerciseSection>)

  /**
   * The detail screen of a log: delete passes exactly this log's id, and the
   * sections follow the log's exercises in order, each with its set rows.
   */
  function DetailOf(w: WorkoutLog): (r: Detail)
    ensures r.deleteId == w.id && r.title == w.templateName
    ensures r.duration == FormatDuration(w.duration)
    ensures |r.sections| == |w.exercises|
    ensures forall i :: 0 <= i < |w.exercises| ==>
      && r.sections[i].title == w.exercises[i].exerciseName
      && r.sections[i].rows == SetRows(w.exercises[i].sets)
  {
    var sections := seq(|w.exercises|, i requires 0 <= i < |w.exercises| =>
      ExerciseSection(w.exercises[i].exerciseName, SetRows(w.exercises[i].sets)));
    Detail(w.templateName, FormatDuration(w.duration), w.id, sections)
  }
}
