/** The rate-limit card: hourly and per-minute usage against fixed limits,
    the per-minute severity, minutes until the hourly reset and the capped
    bar widths. Usage figures and the clock minute are inputs. */
module RateLimits {
  import opened Numbers

  const HourLimit: int := 1000
  const MinuteLimit: int := 20
  const CriticalPercent: int := 90
  const WarningPercent: int := 75

  datatype Severity = Normal | Warning | Critical

  function Rank(s: Severity): int {
    match s
    case Normal => 0
    case Warning => 1
    case Critical => 2
  }

  /** `percent >= 90` is critical, `percent >= 75` a warning, anything else
      normal, where percent is `used / limit * 100`; compared by
      cross-multiplication. */
  function Classify(used: int, limit: int): (r: Severity)
    requires limit > 0
    ensures r == Critical <==> used * 100 >= CriticalPercent * limit
    ensures r == Warning <==> WarningPercent * limit <= used * 100 < CriticalPercent * limit
    ensures r == Normal <==> used * 100 < WarningPercent * limit
  {
    if used * 100 >= CriticalPercent * limit then Critical
    else if used * 100 >= WarningPercent * limit then Warning
    else Normal
  }

  /** More usage never gives a milder severity. */
  lemma ClassifyMonotone(u: int, v: int, limit: int)
    requires limit > 0 && u <= v
    ensures Rank(Classify(u, limit)) <= Rank(Classify(v, limit))
  {
    assert u * 100 <= v * 100;
  }

  /** Against the limit of 20 a minute: 18 or more requests are critical,
      15 to 17 a warning, fewer normal. */
  lemma MinuteThresholds(used: int)
    ensures Classify(used, MinuteLimit) == Critical <==> used >= 18
    ensures Classify(used, MinuteLimit) == Warning <==> 15 <= used <= 17
    ensures Classify(used, MinuteLimit) == Normal <==> used < 15
  {
  }

  /** `60 - now.getMinutes()`: minutes until the hourly reset. */
  function ResetIn(minute: int): (r: int)
    requires 0 <= minute < 60
    ensures 1 <= r <= 60
    ensures minute + r == 60
  {
    60 - minute
  }

  datatype BarColor = Red | Yellow | Green | Blue

  /** The per-minute bar is coloured by its severity. */
  function SeverityColor(s: Severity): (c: BarColor)
    ensures c != Blue
  {
    match s
    case Critical => Red
    case Warning => Yellow
    case Normal => Green
  }

  /** The hourly bar's colour: red from 90%, yellow from 75%, blue below. */
  function HourBarColor(used: int, limit: int): BarColor
    requires limit > 0
  {
    if used * 100 >= CriticalPercent * limit then Red
    else if used * 100 >= WarningPercent * limit then Yellow
    else Blue
  }

  /** The hourly bar uses the per-minute thresholds, with blue for normal. */
  lemma HourColorFollowsSeverity(used: int, limit: int)
    requires limit > 0
    ensures HourBarColor(used, limit) == (if Classify(used, limit) == Normal then Blue
                                          else SeverityColor(Classify(used, limit)))
  {
  }

  /** A bar width in percent, as the fraction `num / den`. */
  datatype Width = Width(num: int, den: int)

  /** `Math.min(used / limit * 100, 100)`: the share in percent, capped at 100. */
  function BarWidth(used: int, limit: int): (w: Width)
    requires limit > 0
    ensures w.den == limit
    ensures w.num <= 100 * w.den
    ensures w.num <= used * 100
    ensures w.num == used * 100 || w.num == 100 * w.den
  {
    if used * 100 <= 100 * limit then Width(used * 100, limit) else Width(100 * limit, limit)
  }

  /** Usage at or beyond the limit fills the bar exactly; below it the bar
      shows the share uncut; more usage never gives a shorter bar. */
  lemma BarWidthFull(used: int, used': int, limit: int)
    requires limit > 0
    ensures used >= limit ==> BarWidth(used, limit).num == 100 * limit
    ensures used <= limit ==> BarWidth(used, limit).num == used * 100
    ensures used <= used' ==> BarWidth(used, limit).num <= BarWidth(used', limit).num
  {
  }

  /** The label's `Math.round(minutePercent)`. */
  function MinutePercentLabel(used: int): (r: int)
    ensures 200 * used - MinuteLimit < 2 * r * MinuteLimit <= 200 * used + MinuteLimit
    ensures 0 <= used <= MinuteLimit ==> 0 <= r <= 100
  {
    RoundedPercent(used, MinuteLimit)
  }

  datatype HourUsage = HourUsage(used: int, limit: int, resetIn: int)
  datatype MinuteUsage = MinuteUsage(used: int, limit: int, status: Severity)
  datatype RateLimitData = RateLimitData(hour: HourUsage, minute: MinuteUsage)

  /** `updateRateLimits` given the clock minute and the two usage figures. */
  function UpdateRateLimits(minute: int, hourUsage: int, minuteUsage: int): (r: RateLimitData)
    requires 0 <= minute < 60
    ensures r.hour.limit == HourLimit && r.minute.limit == MinuteLimit
    ensures r.hour.used == hourUsage && r.minute.used == minuteUsage
    ensures 1 <= r.hour.resetIn <= 60 && minute + r.hour.resetIn == 60
    ensures r.minute.status == Critical <==> minuteUsage >= 18
    ensures r.minute.status == Warning <==> 15 <= minuteUsage <= 17
    ensures r.minute.status == Normal <==> minuteUsage < 15
  {
    MinuteThresholds(minuteUsage);
    RateLimitData(HourUsage(hourUsage, HourLimit, ResetIn(minute)),
                  MinuteUsage(minuteUsage, MinuteLimit, Classify(minuteUsage, MinuteLimit)))
  }
}
