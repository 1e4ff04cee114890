/** Market hours: instants are milliseconds since 1970-01-01T00:00Z, and the market closes at 10:00
    UTC, 3:30 PM in India, on weekdays. */
module MarketClock {
  const HOUR: int := 3_600_000
  const DAY: int := 24 * HOUR
  const IST_OFFSET: int := 5 * HOUR + HOUR / 2
  const CLOSE_OF_DAY: int := 10 * HOUR

  /** 0 is Sunday; the epoch fell on a Thursday. */
  function Weekday(instant: int): int {
    (instant / DAY + 4) % 7
  }

  predicate IsWeekdayIST(instant: int) {
    1 <= Weekday(instant + IST_OFFSET) <= 5
  }

  /** setUTCHours(10, 0, 0, 0). */
  function CloseOfSameDay(instant: int): int {
    instant / DAY * DAY + CLOSE_OF_DAY
  }

  predicate IsMarketClose(instant: int) {
    instant % DAY == CLOSE_OF_DAY && IsWeekdayIST(instant)
  }

  /** `close` is the first market close strictly after `now`. */
  ghost predicate IsNextClose(now: int, close: int) {
    && now < close && IsMarketClose(close)
    && forall t | now < t < close :: !IsMarketClose(t)
  }

  /** The cron line `0 10 * * 1-5`, read in UTC. */
  predicate CronFires(instant: int) {
    instant % 60_000 == 0 && instant / 60_000 % 60 == 0 && instant / HOUR % 24 == 10 && 1 <= Weekday(instant) <= 5
  }

  lemma CloseShape(day: int)
    ensures (day * DAY + CLOSE_OF_DAY) / DAY == day
    ensures (day * DAY + CLOSE_OF_DAY) % DAY == CLOSE_OF_DAY
    ensures (day * DAY + CLOSE_OF_DAY + IST_OFFSET) / DAY == day
  {
  }

  /** Monday to Friday, by the number of days since the epoch. */
  predicate TradingDay(day: int) {
    1 <= (day + 4) % 7 <= 5
  }

  /** At 10:00 UTC it is the same day of the week in India. */
  lemma CloseWeekday(day: int)
    ensures IsWeekdayIST(day * DAY + CLOSE_OF_DAY) <==> TradingDay(day)
  {
    CloseShape(day);
  }

  lemma WeekendsHaveTwoDays(day: int)
    ensures TradingDay(day) || TradingDay(day + 1) || TradingDay(day + 2)
  {
  }

  lemma CloseIsOfSomeDay(t: int)
    requires IsMarketClose(t)
    ensures t == t / DAY * DAY + CLOSE_OF_DAY
  {
  }

  /** Walks forward a day at a time.  The result is the next close, at most 72 hours away. */
  method NextMarketCloseUTC(now: int) returns (candidate: int)
    ensures IsNextClose(now, candidate)
    ensures 0 < candidate - now <= 72 * HOUR
  {
    hide IsWeekdayIST, IsNextClose;
    ghost var today := now / DAY;
    candidate := CloseOfSameDay(now);
    ghost var day := today;
    while candidate <= now || !IsWeekdayIST(candidate)
      invariant today <= day <= today + 3
      invariant candidate == day * DAY + CLOSE_OF_DAY
      invariant forall d | today <= d < day :: d * DAY + CLOSE_OF_DAY <= now || !IsWeekdayIST(d * DAY + CLOSE_OF_DAY)
      decreases today + 3 - day
    {
      assert day < today + 3 by { WeekendIsShort(today, day, now); }
      day := day + 1;
      candidate := candidate + DAY;
      NextDay(day);
      candidate := CloseOfSameDay(candidate);
    }
    FirstWeekdayClose(now, today, day);
  }

  lemma NextDay(day: int)
    ensures CloseOfSameDay(day * DAY + CLOSE_OF_DAY) == day * DAY + CLOSE_OF_DAY
  {
    CloseShape(day);
  }

  /** What the walk stops at. */
  lemma FirstWeekdayClose(now: int, today: int, day: int)
    requires today == now / DAY && today <= day <= today + 3
    requires forall d | today <= d < day :: d * DAY + CLOSE_OF_DAY <= now || !IsWeekdayIST(d * DAY + CLOSE_OF_DAY)
    requires now < day * DAY + CLOSE_OF_DAY && IsWeekdayIST(day * DAY + CLOSE_OF_DAY)
    ensures IsNextClose(now, day * DAY + CLOSE_OF_DAY) && day * DAY + CLOSE_OF_DAY - now <= 72 * HOUR
  {
    hide IsWeekdayIST;
    NothingBefore(now, today, day);
    CloseShape(day);
    StartOfDayBound(now);
    if day == today + 3 {
      FridayAfterClose(now, today);
    }
  }

  /** A close on a later day is still to come, so a day passed over was no trading day. */
  lemma PassedOver(now: int, today: int, day: int)
    requires today == now / DAY && today < day
    requires day * DAY + CLOSE_OF_DAY <= now || !IsWeekdayIST(day * DAY + CLOSE_OF_DAY)
    ensures !TradingDay(day)
  {
    hide IsWeekdayIST, TradingDay;
    StartOfDayBound(now);
    CloseWeekday(day);
  }

  /** Three days in a row always include a weekday. */
  lemma WeekendIsShort(today: int, day: int, now: int)
    requires today == now / DAY && today <= day <= today + 3
    requires forall d | today <= d <= day :: d * DAY + CLOSE_OF_DAY <= now || !IsWeekdayIST(d * DAY + CLOSE_OF_DAY)
    ensures day < today + 3
  {
    hide IsWeekdayIST, TradingDay;
    if day == today + 3 {
      PassedOver(now, today, today + 1);
      PassedOver(now, today, today + 2);
      PassedOver(now, today, today + 3);
      WeekendsHaveTwoDays(today + 1);
    }
  }

  lemma StartOfDayBound(now: int)
    ensures now / DAY * DAY <= now < (now / DAY + 1) * DAY
  {
  }

  lemma NothingBefore(now: int, today: int, day: int)
    requires today == now / DAY && today <= day
    requires forall d | today <= d < day :: d * DAY + CLOSE_OF_DAY <= now || !IsWeekdayIST(d * DAY + CLOSE_OF_DAY)
    ensures forall t | now < t < day * DAY + CLOSE_OF_DAY :: !IsMarketClose(t)
  {
    forall t | now < t < day * DAY + CLOSE_OF_DAY ensures !IsMarketClose(t) {
      if IsMarketClose(t) {
        CloseIsOfSomeDay(t);
      }
    }
  }

  /** The wait spans a whole weekend only if today's close has passed. */
  lemma FridayAfterClose(now: int, today: int)
    requires today == now / DAY
    requires forall d | today <= d < today + 3 :: d * DAY + CLOSE_OF_DAY <= now || !IsWeekdayIST(d * DAY + CLOSE_OF_DAY)
    ensures today * DAY + CLOSE_OF_DAY <= now
  {
    hide IsWeekdayIST, TradingDay;
    PassedOver(now, today, today + 1);
    PassedOver(now, today, today + 2);
    WeekendsHaveTwoDays(today);
    CloseWeekday(today);
  }

  /** The calendar agrees with the world's, and the bound of 72 hours is tight: on Friday, 5 January 2024, at
      10:00 UTC the market closes, and its next close is on the Monday. */
  lemma WeekendWaitIsTight()
    ensures IsMarketClose(1_704_448_800_000) && IsNextClose(1_704_448_800_000, 1_704_708_000_000)
    ensures 1_704_708_000_000 - 1_704_448_800_000 == 72 * 60 * 60 * 1000
  {
    var friday := 19727;
    CloseWeekday(friday);
    CloseWeekday(friday + 1);
    CloseWeekday(friday + 2);
    CloseWeekday(friday + 3);
    CloseShape(friday);
    assert friday * DAY + CLOSE_OF_DAY == 1_704_448_800_000 && (friday + 3) * DAY + CLOSE_OF_DAY == 1_704_708_000_000;
    FirstWeekdayClose(1_704_448_800_000, friday, friday + 3);
  }

  /** A later call never schedules an earlier close, and calls between two closes agree. */
  lemma NextCloseIsMonotone(now: int, later: int, close: int, laterClose: int)
    requires now <= later && IsNextClose(now, close) && IsNextClose(later, laterClose)
    ensures close <= laterClose
    ensures later < close ==> close == laterClose
  {
  }

  lemma CronIsMarketClose(t: int)
    ensures CronFires(t) <==> IsMarketClose(t)
  {
    var day := t / DAY;
    if t % DAY == CLOSE_OF_DAY {
      CloseWeekday(day);
    }
    CronTimeOfDay(t);
  }

  lemma Fields(d: int, h: int, m: int, r: int)
    requires 0 <= h < 24 && 0 <= m < 60 && 0 <= r < 60_000
    ensures var t := d * DAY + h * HOUR + m * 60_000 + r;
            && t % DAY == h * HOUR + m * 60_000 + r
            && t / HOUR == d * 24 + h
            && t / 60_000 == (d * 24 + h) * 60 + m
            && t % 60_000 == r
  {
  }

  lemma CronTimeOfDay(t: int)
    ensures (t % 60_000 == 0 && t / 60_000 % 60 == 0 && t / HOUR % 24 == 10) <==> t % DAY == CLOSE_OF_DAY
  {
    var d, inDay := t / DAY, t % DAY;
    var h, inHour := inDay / HOUR, inDay % HOUR;
    Fields(d, h, inHour / 60_000, inHour % 60_000);
  }

  /** An order's expiry is due exactly when the repeatable market-close job fires next. */
  lemma NextCloseIsNextCronFiring(now: int, close: int)
    ensures IsNextClose(now, close) <==> now < close && CronFires(close) && forall t | now < t < close :: !CronFires(t)
  {
    forall t ensures CronFires(t) <==> IsMarketClose(t) {
      CronIsMarketClose(t);
    }
  }
}
