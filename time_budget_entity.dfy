/** The weekly time budget: the week's 10080 minutes minus five fixed blocks (sleep, work,
    meals, hygiene, transport), plus the calendar arithmetic that pins a budget to the
    Monday of its week. */
module TimeBudgetEntity {
  import opened Common
  import Strings

  const MINUTES_PER_WEEK: int := 10080
  const DEFAULT_SLEEP_MINUTES: int := 3360
  const DEFAULT_WORK_MINUTES: int := 2400
  const DEFAULT_MEALS_MINUTES: int := 630
  const DEFAULT_HYGIENE_MINUTES: int := 420
  const DEFAULT_TRANSPORT_MINUTES: int := 300

  const MS_PER_MINUTE: int := 60000
  const MS_PER_DAY: int := 86400000
  const MS_PER_WEEK: int := 7 * MS_PER_DAY

  /** A stored budget (creation and update timestamps are not modelled). */
  datatype TimeBudget = TimeBudget(
    id: Id,
    userId: Id,
    weekStart: Instant,
    sleepMinutes: int,
    workMinutes: int,
    mealsMinutes: int,
    hygieneMinutes: int,
    transportMinutes: int,
    availableMinutes: int)
  {
    function BaseMinutes(): int {
      sleepMinutes + workMinutes + mealsMinutes + hygieneMinutes + transportMinutes
    }
  }

  /** `calculateAvailableMinutes`: what is left of the week after the base blocks, with no
      clamping at zero. */
  function AvailableMinutes(sleep: int, work: int, meals: int, hygiene: int, transport: int): int {
    MINUTES_PER_WEEK - (sleep + work + meals + hygiene + transport)
  }

  /** The available minutes and the base minutes make up the whole week, and the result is
      negative exactly when the base blocks exceed the week. */
  lemma AvailablePlusBaseIsWeek(sleep: int, work: int, meals: int, hygiene: int, transport: int)
    ensures AvailableMinutes(sleep, work, meals, hygiene, transport)
            + (sleep + work + meals + hygiene + transport) == MINUTES_PER_WEEK
    ensures AvailableMinutes(sleep, work, meals, hygiene, transport) < 0
            <==> sleep + work + meals + hygiene + transport > MINUTES_PER_WEEK
  {
  }

  // ---------------------------------------------------------------------------------
  // formatMinutes

  /** `Math.floor(minutes / 60)`. */
  function FloorDiv60(minutes: int): (h: int)
    ensures 60 * h <= minutes < 60 * h + 60
  {
    minutes / 60
  }

  /** JavaScript's `minutes % 60`: the remainder takes the sign of the dividend. */
  function JsRem60(minutes: int): (m: int)
    ensures minutes >= 0 ==> 0 <= m < 60
    ensures minutes < 0 ==> -60 < m <= 0
    ensures (minutes - m) % 60 == 0
  {
    if minutes >= 0 then minutes % 60 else -((-minutes) % 60)
  }

  /** `formatMinutes` of the backend: "{m}m" under an hour, "{h}h" on whole hours, and
      "{h}h {m}m" otherwise. */
  function FormatMinutes(minutes: int): string {
    var hours := FloorDiv60(minutes);
    var mins := JsRem60(minutes);
    if hours == 0 then Strings.IntToString(mins) + "m"
    else if mins == 0 then Strings.IntToString(hours) + "h"
    else Strings.IntToString(hours) + "h " + Strings.IntToString(mins) + "m"
  }

  /** For a non-negative count the two printed numbers split it into hours and minutes. */
  lemma FormatSplitsMinutes(minutes: int)
    requires minutes >= 0
    ensures 60 * FloorDiv60(minutes) + JsRem60(minutes) == minutes
    ensures 0 <= JsRem60(minutes) < 60 && FloorDiv60(minutes) >= 0
  {
  }

  /** The reading of a formatted duration: "{m}m", "{h}h" or "{h}h {m}m" with decimal
      numerals. */
  function ParseDuration(s: string): (r: Option<int>)
    ensures r.Some? ==> r.value >= 0
  {
    if |s| >= 2 && s[|s| - 1] == 'h' && Strings.AllDigits(s[..|s| - 1]) then
      Some(60 * Strings.ParseNat(s[..|s| - 1]))
    else if |s| >= 2 && s[|s| - 1] == 'm' then
      if Strings.AllDigits(s[..|s| - 1]) then Some(Strings.ParseNat(s[..|s| - 1]))
      else ParseHoursMinutes(s[..|s| - 1])
    else None
  }

  /** Reads "{h}h {m}" (the text before the final "m" of a mixed duration). */
  function ParseHoursMinutes(body: string): (r: Option<int>)
    ensures r.Some? ==> r.value >= 0
  {
    var i := SpaceIndex(body);
    if 0 < i && body[i - 1] == 'h' && Strings.AllDigits(body[..i - 1]) && i + 1 < |body|
       && Strings.AllDigits(body[i + 1..]) then
      Some(60 * Strings.ParseNat(body[..i - 1]) + Strings.ParseNat(body[i + 1..]))
    else None
  }

  /** The position of the first space in `s`, or -1. */
  function SpaceIndex(s: string): (i: int)
    ensures -1 <= i < |s|
    ensures i >= 0 ==> s[i] == ' ' && forall k :: 0 <= k < i ==> s[k] != ' '
    ensures i == -1 ==> forall k :: 0 <= k < |s| ==> s[k] != ' '
  {
    if s == [] then -1
    else if s[0] == ' ' then 0
    else
      var j := SpaceIndex(s[1..]);
      if j == -1 then -1 else j + 1
  }

  lemma ParseMinutesOnly(ms: string)
    requires ms != [] && Strings.AllDigits(ms)
    ensures ParseDuration(ms + "m") == Some(Strings.ParseNat(ms))
  {
    var s := ms + "m";
    assert s[..|s| - 1] == ms;
  }

  lemma ParseHoursOnly(hs: string)
    requires hs != [] && Strings.AllDigits(hs)
    ensures ParseDuration(hs + "h") == Some(60 * Strings.ParseNat(hs))
  {
    var s := hs + "h";
    assert s[..|s| - 1] == hs;
  }

  lemma ParseHoursAndMinutes(hs: string, ms: string)
    requires hs != [] && Strings.AllDigits(hs) && ms != [] && Strings.AllDigits(ms)
    ensures ParseDuration(hs + "h " + ms + "m") == Some(60 * Strings.ParseNat(hs) + Strings.ParseNat(ms))
  {
    var body := hs + "h " + ms;
    var s := body + "m";
    assert hs + "h " + ms + "m" == s;
    assert s[..|s| - 1] == body;
    assert body[|hs|] == 'h' && !Strings.IsDigit('h');
    ParseBody(hs, ms);
  }

  lemma ParseBody(hs: string, ms: string)
    requires hs != [] && Strings.AllDigits(hs) && ms != [] && Strings.AllDigits(ms)
    ensures ParseHoursMinutes(hs + "h " + ms) == Some(60 * Strings.ParseNat(hs) + Strings.ParseNat(ms))
  {
    BodyParts(hs, ms);
    ParseHoursMinutesAt(hs + "h " + ms, |hs| + 1, hs, ms);
  }

  /** "{h}h {m}" has its first space right after the "h", with the two numerals around it. */
  lemma BodyParts(hs: string, ms: string)
    requires hs != [] && Strings.AllDigits(hs)
    ensures var body, i := hs + "h " + ms, |hs| + 1;
            SpaceIndex(body) == i && body[i - 1] == 'h' && body[..i - 1] == hs && body[i + 1..] == ms
  {
    var head := hs + "h";
    var body := head + " " + ms;
    assert hs + "h " + ms == body;
    forall k | 0 <= k < |head|
      ensures head[k] != ' '
    {
      if k < |hs| {
        assert head[k] == hs[k];
      }
    }
    SpaceIndexAfter(head, ms);
    var i := |head|;
    assert body[..i - 1] == hs by {
      assert forall k :: 0 <= k < |hs| ==> body[k] == hs[k];
    }
    assert body[i + 1..] == ms by {
      assert forall k :: 0 <= k < |ms| ==> body[i + 1 + k] == ms[k];
    }
  }

  /** When every guard of ParseHoursMinutes holds at the space `i`, with the numerals `hs`
      before the "h" and `ms` after the space, it reads both numbers. */
  lemma ParseHoursMinutesAt(body: string, i: int, hs: string, ms: string)
    requires 0 < i && i + 1 < |body| && SpaceIndex(body) == i && body[i - 1] == 'h'
    requires body[..i - 1] == hs && body[i + 1..] == ms
    requires Strings.AllDigits(hs) && Strings.AllDigits(ms)
    ensures ParseHoursMinutes(body) == Some(60 * Strings.ParseNat(hs) + Strings.ParseNat(ms))
  {
  }

  /** The first space after a space-free prefix is the one that ends it. */
  lemma {:induction false} SpaceIndexAfter(a: string, b: string)
    requires forall k :: 0 <= k < |a| ==> a[k] != ' '
    ensures SpaceIndex(a + " " + b) == |a|
  {
    if a != [] {
      assert (a + " " + b)[1..] == a[1..] + " " + b;
      SpaceIndexAfter(a[1..], b);
    }
  }

  /** Formatting a non-negative count loses nothing: reading it back gives the count. */
  lemma ParseFormatMinutes(minutes: int)
    requires minutes >= 0
    ensures ParseDuration(FormatMinutes(minutes)) == Some(minutes)
  {
    var hours, mins := FloorDiv60(minutes), JsRem60(minutes);
    Strings.ParseNatToString(hours);
    Strings.ParseNatToString(mins);
    var hs, ms := Strings.NatToString(hours), Strings.NatToString(mins);
    if hours == 0 {
      ParseMinutesOnly(ms);
    } else if mins == 0 {
      ParseHoursOnly(hs);
    } else {
      ParseHoursAndMinutes(hs, ms);
    }
  }

  /** A negative count prints the floored hours next to a negative remainder: -30 minutes
      shows as "-1h -30m". */
  lemma FormatNegativeMinutes()
    ensures FloorDiv60(-30) == -1 && JsRem60(-30) == -30
    ensures FormatMinutes(-30) == "-1h -30m"
  {
    assert Strings.NatToString(1) == "1";
    assert Strings.NatToString(30) == Strings.NatToString(3) + [Strings.DigitChar(0)];
  }

  // ---------------------------------------------------------------------------------
  // getWeekStart, on local instants counted in milliseconds from 1970-01-01 00:00

  /** The day an instant falls on, counted from 1970-01-01. */
  function DayIndex(t: Instant): int {
    t / MS_PER_DAY
  }

  /** The milliseconds elapsed since that day's midnight. */
  function TimeOfDay(t: Instant): (r: int)
    ensures 0 <= r < MS_PER_DAY
    ensures t == DayIndex(t) * MS_PER_DAY + r
  {
    t % MS_PER_DAY
  }

  /** `Date.getDay`: 0 for Sunday through 6 for Saturday; 1970-01-01 was a Thursday. */
  function WeekDay(t: Instant): (r: int)
    ensures 0 <= r < 7
  {
    (DayIndex(t) + 4) % 7
  }

  /** `getWeekStart`: midnight of the Monday of the week containing `t`, where a Sunday
      belongs to the week that began six days earlier. */
  function GetWeekStart(t: Instant): (r: Instant)
    ensures WeekDay(r) == 1 && TimeOfDay(r) == 0
    ensures r <= t < r + MS_PER_WEEK
    ensures WeekDay(t) == 0 ==> DayIndex(r) == DayIndex(t) - 6
    ensures WeekDay(t) != 0 ==> DayIndex(r) == DayIndex(t) - WeekDay(t) + 1
  {
    var day := WeekDay(t);
    var diff := DayIndex(t) - day + (if day == 0 then -6 else 1);
    assert diff * MS_PER_DAY / MS_PER_DAY == diff;
    diff * MS_PER_DAY
  }

  /** The instants `GetWeekStart` can return: Mondays at midnight. */
  predicate IsWeekStart(t: Instant) {
    WeekDay(t) == 1 && TimeOfDay(t) == 0
  }

  /** The week start is the only Monday midnight in the seven days ending at `t`. */
  lemma WeekStartUnique(t: Instant, m: Instant)
    requires IsWeekStart(m) && m <= t < m + MS_PER_WEEK
    ensures GetWeekStart(t) == m
  {
    var r := GetWeekStart(t);
    var dm, dr := DayIndex(m), DayIndex(r);
    assert m == dm * MS_PER_DAY && r == dr * MS_PER_DAY;
    assert dm - 7 < dr < dm + 7;
    assert (dm + 4) % 7 == 1 && (dr + 4) % 7 == 1;
  }

  /** Normalising twice is normalising once, and a week start is its own week start. */
  lemma WeekStartIdempotent(t: Instant)
    ensures IsWeekStart(GetWeekStart(t))
    ensures GetWeekStart(GetWeekStart(t)) == GetWeekStart(t)
  {
    var r := GetWeekStart(t);
    WeekStartUnique(r, r);
  }

  /** Two instants share a week start exactly when they lie in the same Monday-to-Sunday
      week. */
  lemma SameWeekStartIffSameWeek(t1: Instant, t2: Instant)
    ensures GetWeekStart(t1) == GetWeekStart(t2)
            <==> GetWeekStart(t1) <= t2 < GetWeekStart(t1) + MS_PER_WEEK
  {
    var r1 := GetWeekStart(t1);
    if r1 <= t2 < r1 + MS_PER_WEEK {
      WeekStartUnique(t2, r1);
    }
  }
}
