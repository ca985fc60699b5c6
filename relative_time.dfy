/** The relative timestamp ("5m ago", "2h ago", "1d ago") shown next to uploaded documents in the
    context panel and next to chat sessions in the sidebar. Both components define the same
    `formatTime`, so it is modelled once here. The current time is a parameter (milliseconds since
    the epoch), standing for `new Date()`. */
module RelativeTime {
  import opened Wrappers
  import opened Decimal

  const MsPerMinute: int := 1000 * 60
  const MsPerHour: int := 1000 * 60 * 60
  const MsPerDay: int := 1000 * 60 * 60 * 24

  /** Which of the three forms is shown, with its count. */
  datatype Ago = MinutesAgo(minutes: int) | HoursAgo(hours: int) | DaysAgo(days: int)

  /** `Math.floor(a / b)` for a positive divisor; Dafny's Euclidean division agrees with flooring there. */
  function FloorDiv(a: int, b: int): (q: int)
    requires b > 0
    ensures q * b <= a < q * b + b
  {
    a / b
  }

  /** The form `formatTime` picks for a timestamp, given the current time: minutes while fewer than
      60 whole minutes have passed, then hours while fewer than 24 whole hours have passed, then days.
      A timestamp in the future gives a negative minute count. */
  function Bucket(now: int, timestamp: int): (a: Ago)
    ensures var diff := now - timestamp;
      && (a.MinutesAgo? <==> diff < MsPerHour)
      && (a.HoursAgo? <==> MsPerHour <= diff < MsPerDay)
      && (a.DaysAgo? <==> MsPerDay <= diff)
      && (a.MinutesAgo? ==> a.minutes * MsPerMinute <= diff < (a.minutes + 1) * MsPerMinute && a.minutes < 60)
      && (a.HoursAgo? ==> a.hours * MsPerHour <= diff < (a.hours + 1) * MsPerHour && 1 <= a.hours <= 23)
      && (a.DaysAgo? ==> a.days * MsPerDay <= diff < (a.days + 1) * MsPerDay && 1 <= a.days)
  {
    var diff := now - timestamp;
    var minutes := FloorDiv(diff, MsPerMinute);
    var hours := FloorDiv(diff, MsPerHour);
    var days := FloorDiv(diff, MsPerDay);
    if minutes < 60 then MinutesAgo(minutes)
    else if hours < 24 then HoursAgo(hours)
    else DaysAgo(days)
  }

  /** The three tests of `formatTime` as written, on the floored counts: the minutes form exactly when
      minutes < 60, the hours form exactly when minutes >= 60 and hours < 24, the days form otherwise. */
  lemma BucketThresholds(now: int, timestamp: int)
    ensures var diff := now - timestamp;
      var minutes, hours, days := FloorDiv(diff, MsPerMinute), FloorDiv(diff, MsPerHour), FloorDiv(diff, MsPerDay);
      && (Bucket(now, timestamp) == MinutesAgo(minutes) <==> minutes < 60)
      && (Bucket(now, timestamp) == HoursAgo(hours) <==> minutes >= 60 && hours < 24)
      && (Bucket(now, timestamp) == DaysAgo(days) <==> minutes >= 60 && hours >= 24)
  {
  }

  /** The text shown for a form: `${n}m ago`, `${n}h ago` or `${n}d ago`. */
  function Render(a: Ago): string {
    match a
    case MinutesAgo(n) => IntToString(n) + "m ago"
    case HoursAgo(n) => IntToString(n) + "h ago"
    case DaysAgo(n) => IntToString(n) + "d ago"
  }

  /** Reads a rendered relative time back into its form. */
  function ParseAgo(s: string): Option<Ago> {
    if |s| < 5 || s[|s| - 4..] != " ago" then None
    else
      match ParseInt(s[..|s| - 5])
      case None => None
      case Some(n) =>
        if s[|s| - 5] == 'm' then Some(MinutesAgo(n))
        else if s[|s| - 5] == 'h' then Some(HoursAgo(n))
        else if s[|s| - 5] == 'd' then Some(DaysAgo(n))
        else None
  }

  /** Rendering loses nothing: distinct forms or counts give distinct texts. */
  lemma RenderRoundTrip(a: Ago)
    ensures ParseAgo(Render(a)) == Some(a)
  {
    match a
    case MinutesAgo(n) => SuffixParts(n, "m ago");
    case HoursAgo(n) => SuffixParts(n, "h ago");
    case DaysAgo(n) => SuffixParts(n, "d ago");
  }

  /** Only the rendering of a form reads back as that form, so a text `ParseAgo` accepts is exactly
      the `${n}m ago`, `${n}h ago` or `${n}d ago` of what it returns. */
  lemma ParseAgoCanonical(s: string, a: Ago)
    requires ParseAgo(s) == Some(a)
    ensures s == Render(a)
  {
    var digits, unit := s[..|s| - 5], s[|s| - 5];
    var n :| ParseInt(digits) == Some(n);
    ParseIntCanonical(digits, n);
    SuffixSplit(s);
    assert s == digits + [unit] + " ago";
    if unit == 'm' {
      assert a == MinutesAgo(n);
    } else if unit == 'h' {
      assert a == HoursAgo(n);
    } else {
      assert a == DaysAgo(n);
    }
  }

  /** A text of at least five characters is its head, its fifth-last character and its last four. */
  lemma SuffixSplit(s: string)
    requires |s| >= 5
    ensures s == s[..|s| - 5] + [s[|s| - 5]] + s[|s| - 4..]
  {
    assert s[..|s| - 4] == s[..|s| - 5] + [s[|s| - 5]];
  }

  /** A count followed by a five-character unit suffix splits back into the two. */
  lemma SuffixParts(n: int, unit: string)
    requires |unit| == 5 && unit[1..] == " ago"
    ensures var s := IntToString(n) + unit;
      s[..|s| - 5] == IntToString(n) && s[|s| - 5] == unit[0] && s[|s| - 4..] == " ago"
      && ParseInt(s[..|s| - 5]) == Some(n)
  {
    IntToStringRoundTrip(n);
    var s := IntToString(n) + unit;
    assert s[|s| - 4..] == unit[1..];
  }

  /** `formatTime(timestamp)` evaluated at time `now`. */
  function FormatTime(now: int, timestamp: int): (r: string)
    ensures ParseAgo(r) == Some(Bucket(now, timestamp))
  {
    RenderRoundTrip(Bucket(now, timestamp));
    Render(Bucket(now, timestamp))
  }

  /** The form never moves back towards minutes as time passes. */
  lemma BucketMonotone(now: int, later: int, timestamp: int)
    requires now <= later
    ensures Bucket(now, timestamp).DaysAgo? ==> Bucket(later, timestamp).DaysAgo?
    ensures Bucket(now, timestamp).HoursAgo? ==> !Bucket(later, timestamp).MinutesAgo?
  {
  }
}
