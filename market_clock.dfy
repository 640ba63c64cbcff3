/** The two calendar rules of the calculator (script.js): the market-status
    banner, classified from the Berlin-time hour and luxon's ISO weekday
    (1 = Monday ... 7 = Sunday), and the choice of the day of the next automatic
    refresh at 16:05, which uses `Date.getDay()` (0 = Sunday ... 6 = Saturday).
    Time-zone conversion is done by the caller. */
module MarketClock {

  /** The three texts the status banner can show. */
  datatype MarketStatus = Open | Closed | ClosedWeekend {
    function Text(): string {
      match this
      case Open => "Markets Open"
      case Closed => "Markets Closed"
      case ClosedWeekend => "Markets Closed (Weekend)"
    }
  }

  /** updateMarketStatus: weekend first, then the 08:00-17:00 trading window. */
  function GetMarketStatus(hour: int, isoWeekday: int): (status: MarketStatus)
    ensures status == ClosedWeekend <==> isoWeekday > 5
    ensures status == Closed <==> isoWeekday <= 5 && (hour < 8 || hour >= 17)
    ensures status == Open <==> isoWeekday <= 5 && 8 <= hour < 17
  {
    var isWeekend := isoWeekday > 5;
    if isWeekend then ClosedWeekend
    else if hour < 8 || hour >= 17 then Closed
    else Open
  }

  /** Markets are open on Monday to Friday between 08:00 and 16:59 and at no other hour of the week. */
  lemma OpenHours(hour: int, isoWeekday: int)
    requires 0 <= hour < 24 && 1 <= isoWeekday <= 7
    ensures GetMarketStatus(hour, isoWeekday) == Open
      <==> isoWeekday in {1, 2, 3, 4, 5} && hour in {8, 9, 10, 11, 12, 13, 14, 15, 16}
  {
  }

  // ---------------------------------------------------------------------------
  // Auto-refresh day (the weekday rule of setupAutoRefresh)
  // ---------------------------------------------------------------------------

  /** Milliseconds into the day of the 16:05:00.000 refresh target. */
  const TargetMsOfDay: int := (16 * 60 + 5) * 60 * 1000

  /** The weekday `days` days after `day`, in getDay numbering. */
  function DayAfter(day: int, days: int): int {
    (day + days) % 7
  }

  /** Saturday or Sunday in getDay numbering. */
  predicate IsWeekendDay(day: int) {
    day == 0 || day == 6
  }

  /** How many days ahead the next 16:05 refresh falls, and on which weekday.
      Past 16:05 the target moves to tomorrow; a Sunday target moves on one day
      and a Saturday target two, so that it lands on Monday. */
  method NextRefreshDay(weekday: int, msOfDay: int) returns (daysAhead: nat, targetDay: int)
    requires 0 <= weekday < 7
    ensures targetDay == DayAfter(weekday, daysAhead)
    ensures !IsWeekendDay(targetDay) && 1 <= targetDay <= 5
    ensures var first := if msOfDay > TargetMsOfDay then 1 else 0;
      && first <= daysAhead <= first + 2
      && forall k :: first <= k < daysAhead ==> IsWeekendDay(DayAfter(weekday, k))
  {
    daysAhead, targetDay := 0, weekday;
    if msOfDay > TargetMsOfDay {
      daysAhead, targetDay := daysAhead + 1, DayAfter(targetDay, 1);
    }
    if targetDay == 0 {
      daysAhead, targetDay := daysAhead + 1, DayAfter(targetDay, 1);
    }
    if targetDay == 6 {
      daysAhead, targetDay := daysAhead + 2, DayAfter(targetDay, 2);
    }
  }
}
