/**
 * The compact minute total the reports and the detail pages show: "Xh Ym" when
 * there is at least a whole hour, "Ym" otherwise, with JavaScript's
 * `Math.floor` and `%`.
 */
module TimeFormat {
  import opened Strings
  import opened Numbers

  /** `hours > 0 ? `${hours}h ${mins}m` : `${mins}m`` with `hours = Math.floor(m / 60)` and `mins = m % 60`. */
  function FormatTime(minutes: int): string {
    var hours := FloorDiv(minutes, 60);
    var mins := TruncRem(minutes, 60);
    if hours > 0 then IntToString(hours) + "h " + IntToString(mins) + "m" else IntToString(mins) + "m"
  }

  /**
   * From one hour on, the text carries an hours part and a minutes part below
   * 60 that read back as the total; below one hour it is the minutes alone.
   */
  lemma FormatTimeReadsBack(minutes: int)
    requires minutes >= 0
    ensures minutes >= 60 ==>
              var h := NatToString(minutes / 60);
              var m := NatToString(minutes % 60);
              && FormatTime(minutes) == h + "h " + m + "m"
              && DigitsValue(h) * 60 + DigitsValue(m) == minutes
              && 0 < DigitsValue(h) && DigitsValue(m) < 60
    ensures minutes < 60 ==>
              FormatTime(minutes) == NatToString(minutes) + "m" && DigitsValue(NatToString(minutes)) == minutes
  {
    NatToStringValue(minutes / 60);
    NatToStringValue(minutes % 60);
    NatToStringValue(minutes);
  }

  /**
   * A negative total never shows an hours part, since `Math.floor` makes the
   * hours negative: the truncated remainder alone is shown, so whole hours are
   * dropped (a whole number of negative hours shows as "0m", as `-0` prints).
   */
  lemma FormatTimeNegative(minutes: int)
    requires minutes < 0
    ensures (-minutes) % 60 == 0 ==> FormatTime(minutes) == "0m"
    ensures (-minutes) % 60 != 0 ==> FormatTime(minutes) == "-" + NatToString((-minutes) % 60) + "m"
  {
  }
}
