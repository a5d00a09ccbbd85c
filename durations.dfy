/**
 * The human-readable duration both `format_retry_after` and
 * `format_time_remaining` print: seconds below a minute, rounded minutes
 * below an hour, rounded hours otherwise, plural unless the count is 1.
 */
module Durations {
  import opened Strings

  datatype Unit = Second | Minute | Hour

  datatype Amount = Amount(count: int, unit: Unit)

  /** PHP `round(s / d)` for s >= 0: halves round up. */
  function RoundDiv(s: nat, d: nat): (q: nat)
    requires d > 0
    ensures q * d <= s + d / 2 < q * d + d
  {
    (s + d / 2) / d
  }

  /** The count and unit the duration is shown in. */
  function Split(seconds: int): (a: Amount)
    ensures seconds < 60 ==> a == Amount(seconds, Second)
    ensures 60 <= seconds < 3600 ==> a.unit == Minute && 1 <= a.count <= 60
    ensures 3600 <= seconds ==> a.unit == Hour && a.count >= 1
    ensures a.count == 1 <==> seconds == 1 || 60 <= seconds < 90 || 3600 <= seconds < 5400
  {
    if seconds < 60 then Amount(seconds, Second)
    else if seconds < 3600 then Amount(RoundDiv(seconds, 60), Minute)
    else Amount(RoundDiv(seconds, 3600), Hour)
  }

  function UnitName(u: Unit): string
  {
    match u
    case Second => "second"
    case Minute => "minute"
    case Hour => "hour"
  }

  /** Whether the shown count takes the plural unit name. */
  function Plural(count: int): string
  {
    if count != 1 then "s" else ""
  }

  /**
   * The duration shown: the seconds themselves below a minute, rounded
   * minutes below an hour, rounded hours otherwise; the unit is singular
   * exactly when the shown count is 1.
   */
  function HumanDuration(seconds: int): (text: string)
    ensures seconds < 60 ==> text == IntToString(seconds) + " second" + Plural(seconds)
    ensures 60 <= seconds < 3600 ==> text == IntToString(RoundDiv(seconds, 60)) + " minute" + Plural(RoundDiv(seconds, 60))
    ensures 3600 <= seconds ==> text == IntToString(RoundDiv(seconds, 3600)) + " hour" + Plural(RoundDiv(seconds, 3600))
    ensures text[|text| - 1] == 's' <==> !(seconds == 1 || 60 <= seconds < 90 || 3600 <= seconds < 5400)
  {
    var a := Split(seconds);
    IntToString(a.count) + " " + UnitName(a.unit) + Plural(a.count)
  }
}
