/** The client's duration formatter (frontend/src/shared/utils/formatters.ts). Only the
    integer-valued `formatMinutes` is modelled; the other formatters print floating-point
    or locale-dependent text. */
module Formatters {
  import opened Common
  import Strings
  import TimeBudgetEntity

  /** The client's `formatMinutes`: "0m" for any count that is not positive, otherwise
      the same "{m}m", "{h}h" or "{h}h {m}m" text as the backend's formatter. */
  function FormatMinutes(minutes: int): string {
    if minutes <= 0 then "0m"
    else
      var hours := minutes / 60;
      var mins := minutes % 60;
      if hours == 0 then Strings.NatToString(mins) + "m"
      else if mins == 0 then Strings.NatToString(hours) + "h"
      else Strings.NatToString(hours) + "h " + Strings.NatToString(mins) + "m"
  }

  /** Every count that is not positive, negative ones included, prints as "0m". */
  lemma NonPositiveIsZero(minutes: int)
    requires minutes <= 0
    ensures FormatMinutes(minutes) == "0m"
  {
  }

  /** For a positive count the printed hours and minutes add back up to it: reading the
      text gives the count, and the minute part stays below 60. */
  lemma FormatRoundTrip(minutes: int)
    requires minutes > 0
    ensures 60 * (minutes / 60) + minutes % 60 == minutes && 0 <= minutes % 60 < 60
    ensures TimeBudgetEntity.ParseDuration(FormatMinutes(minutes)) == Some(minutes)
  {
    SameAsBackend(minutes);
    TimeBudgetEntity.ParseFormatMinutes(minutes);
  }

  /** On non-negative counts the client and the backend print the same text; they part
      only on negative counts, where the backend prints a negative remainder. */
  lemma SameAsBackend(minutes: int)
    requires minutes >= 0
    ensures FormatMinutes(minutes) == TimeBudgetEntity.FormatMinutes(minutes)
  {
    if minutes == 0 {
      assert Strings.NatToString(0) == "0";
    }
  }

  /** The client shows "0m" where the backend shows "-1h -30m". */
  lemma DiffersFromBackendOnNegative()
    ensures FormatMinutes(-30) == "0m"
    ensures TimeBudgetEntity.FormatMinutes(-30) == "-1h -30m"
  {
    TimeBudgetEntity.FormatNegativeMinutes();
  }

  /** The documented examples: 30 is "30m", 120 is "2h" and 90 is "1h 30m". */
  lemma Examples()
    ensures FormatMinutes(30) == "30m"
    ensures FormatMinutes(120) == "2h"
    ensures FormatMinutes(90) == "1h 30m"
  {
    assert Strings.NatToString(30) == Strings.NatToString(3) + [Strings.DigitChar(0)];
    assert Strings.NatToString(2) == "2";
    assert Strings.NatToString(1) == "1";
  }
}
