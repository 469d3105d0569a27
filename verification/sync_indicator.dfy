/**
 * The sync badge (src/components/SyncIndicator.tsx): "Offline", "Syncing..."
 * or the time since the last sync. The clock and the last sync time are
 * millisecond parameters, the browser's online flag is a parameter, and the
 * locale date shown for syncs a day or more ago is passed in as text.
 */
module Sync {
  import opened Wrappers
  import opened Text

  const MinuteMs := 60000
  const HourMs := 3600000
  const DayMs := 86400000

  /** How long ago the last sync was, in the buckets the badge distinguishes. */
  datatype SyncAge = Never | JustNow | MinutesAgo(minutes: nat) | HoursAgo(hours: nat) | OnDate

  /**
   * The bucket of the last sync. Its meaning in elapsed milliseconds: under a
   * minute (clock skew included) is "just now"; under an hour counts whole
   * minutes; under a day counts whole hours, 1 to 23; a day or more shows the date.
   */
  function Age(lastSyncMs: Option<int>, nowMs: int): (a: SyncAge)
    ensures a.Never? <==> lastSyncMs.None?
    ensures a.JustNow? <==> lastSyncMs.Some? && nowMs - lastSyncMs.value < MinuteMs
    ensures a.MinutesAgo? <==> lastSyncMs.Some? && MinuteMs <= nowMs - lastSyncMs.value < HourMs
    ensures a.HoursAgo? <==> lastSyncMs.Some? && HourMs <= nowMs - lastSyncMs.value < DayMs
    ensures a.OnDate? <==> lastSyncMs.Some? && DayMs <= nowMs - lastSyncMs.value
    ensures a.MinutesAgo? ==>
      && 1 <= a.minutes < 60
      && a.minutes * MinuteMs <= nowMs - lastSyncMs.value < (a.minutes + 1) * MinuteMs
    ensures a.HoursAgo? ==>
      && 1 <= a.hours <= 23
      && a.hours * HourMs <= nowMs - lastSyncMs.value < (a.hours + 1) * HourMs
  {
    if lastSyncMs.None? then Never
    else
      var diffMins := (nowMs - lastSyncMs.value) / 60000;   // Math.floor: the divisor is positive
      if diffMins < 1 then JustNow
      else if diffMins < 60 then MinutesAgo(diffMins)
      else
        var diffHours := diffMins / 60;
        if diffHours < 24 then HoursAgo(diffHours) else OnDate
  }

  /** The badge text of a bucket; `localeDate` is `lastSyncTime.toLocaleDateString()`. */
  function AgeText(a: SyncAge, localeDate: string): string {
    match a
    case Never => "Never synced"
    case JustNow => "Just now"
    case MinutesAgo(m) => NatToString(m) + "m ago"
    case HoursAgo(h) => NatToString(h) + "h ago"
    case OnDate => localeDate
  }

  /** `formatLastSync`: the date for a day or more, otherwise a text that names its bucket and count. */
  function FormatLastSync(lastSyncMs: Option<int>, nowMs: int, localeDate: string): (r: string)
    ensures Age(lastSyncMs, nowMs).OnDate? ==> r == localeDate
    ensures !Age(lastSyncMs, nowMs).OnDate? ==> ReadAge(r) == Some(Age(lastSyncMs, nowMs))
  {
    var a := Age(lastSyncMs, nowMs);
    if a.OnDate? then localeDate
    else
      AgeTextRoundTrip(a, localeDate);
      AgeText(a, localeDate)
  }

  /** Reads a badge text back as its bucket; a date is not read. */
  function ReadAge(text: string): Option<SyncAge> {
    if text == "Never synced" then Some(Never)
    else if text == "Just now" then Some(JustNow)
    else if |text| < 5 || text[|text| - 4..] != " ago" then None
    else
      var count := ParseNat(text[..|text| - 5]);
      if count.None? then None
      else if text[|text| - 5] == 'm' then Some(MinutesAgo(count.value))
      else if text[|text| - 5] == 'h' then Some(HoursAgo(count.value))
      else None
  }

  /** A count and its unit read back as that count. */
  lemma ReadCountAgo(n: nat, unit: char)
    requires unit == 'm' || unit == 'h'
    ensures var text := NatToString(n) + [unit] + " ago";
      ReadAge(text) == Some(if unit == 'm' then MinutesAgo(n) else HoursAgo(n))
  {
    var ns := NatToString(n);
    var text := ns + [unit] + " ago";
    assert text[|text| - 4..] == " ago";
    assert text[..|text| - 5] == ns;
    assert text[|text| - 5] == unit;
    assert text != "Never synced" by { assert text[|text| - 1] != "Never synced"[11]; }
    assert text != "Just now" by { assert text[|text| - 1] != "Just now"[7]; }
    ParseNatRoundTrip(n);
  }

  /** Every bucket but the date reads back from its text: the badge names its bucket and its count. */
  lemma AgeTextRoundTrip(a: SyncAge, localeDate: string)
    requires !a.OnDate?
    ensures ReadAge(AgeText(a, localeDate)) == Some(a)
  {
    match a
    case Never =>
    case JustNow =>
    case MinutesAgo(m) =>
      assert AgeText(a, localeDate) == NatToString(m) + ['m'] + " ago";
      ReadCountAgo(m, 'm');
    case HoursAgo(h) =>
      assert AgeText(a, localeDate) == NatToString(h) + ['h'] + " ago";
      ReadCountAgo(h, 'h');
  }

  /** What the badge shows. */
  datatype Badge = Offline | Syncing | Synced(text: string)

  /** Offline wins over syncing, which wins over the time since the last sync. */
  function Indicator(isOnline: bool, isSyncing: bool, lastSyncMs: Option<int>, nowMs: int, localeDate: string): (b: Badge)
    ensures b.Offline? <==> !isOnline
    ensures b.Syncing? <==> isOnline && isSyncing
    ensures b.Synced? <==> isOnline && !isSyncing
    ensures b.Synced? ==> b.text == FormatLastSync(lastSyncMs, nowMs, localeDate)
  {
    if !isOnline then Offline
    else if isSyncing then Syncing
    else Synced(FormatLastSync(lastSyncMs, nowMs, localeDate))
  }
}
