/**
 * The weekly draw countdown of the jackpot page (the body of the one-second timer
 * in frontend/src/App.tsx): the target is 07:00 on the next Monday, and the time
 * left is split into whole days, hours, minutes and seconds.
 *
 * Instants are local wall-clock milliseconds counted from 1 January 1970 00:00
 * local time, and every day is exactly DAY_MS long (no daylight-saving shifts).
 */
module Countdown {

  const SECOND_MS: int := 1000
  const MINUTE_MS: int := 60000      // 60 seconds
  const HOUR_MS: int := 3600000      // 60 minutes
  const DAY_MS: int := 86400000      // 24 hours

  /** Weekday numbers as `Date.getDay()` returns them: 0 is Sunday, 1 Monday, ... 6 Saturday. */
  const MONDAY: int := 1
  const THURSDAY: int := 4           // 1 January 1970 was a Thursday
  const DRAW_HOUR: int := 7

  /** The draw time of day, 07:00:00.000, in milliseconds after midnight. */
  const DRAW_TIME_MS: int := DRAW_HOUR * HOUR_MS

  /** Midnight at the start of the day holding `t`. */
  function StartOfDay(t: int): (s: int)
    ensures s <= t < s + DAY_MS
    ensures s % DAY_MS == 0
  {
    t - t % DAY_MS
  }

  /** `Date.getDay()`. */
  function DayOfWeek(t: int): (d: int)
    ensures 0 <= d < 7
  {
    (t / DAY_MS + THURSDAY) % 7
  }

  /** `(1 + 7 - day) % 7 || 7`: a remainder of 0 is falsy, so it becomes 7. */
  function DaysUntilNextMonday(day: int): (offset: int)
    requires 0 <= day < 7
    ensures 1 <= offset <= 7
    ensures (day + offset) % 7 == MONDAY
    ensures offset == 7 <==> day == MONDAY
  {
    var r := (1 + 7 - day) % 7;
    if r == 0 then 7 else r
  }

  /** The offset is the only one in 1..7 that lands on a Monday, so no earlier day is a Monday. */
  lemma {:induction false} DaysUntilNextMondayIsLeast(day: int, k: int)
    requires 0 <= day < 7 && 1 <= k <= 7
    ensures (day + k) % 7 == MONDAY <==> k == DaysUntilNextMonday(day)
  {
    var offset := DaysUntilNextMonday(day);
    if (day + k) % 7 == MONDAY {
      // both day + k and day + offset are 1 modulo 7 and lie in 1..13
      assert day + k == 1 || day + k == 8;
      assert day + offset == 1 || day + offset == 8;
    }
  }

  /**
   * The draw instant the countdown aims at: `setDate(getDate() + offset)` moves to
   * the same time of day `offset` days later, and `setHours(7, 0, 0, 0)` moves to
   * 07:00:00.000 of that day.
   */
  function NextDraw(now: int): (target: int)
    ensures now + DRAW_TIME_MS < target <= now + 7 * DAY_MS + DRAW_TIME_MS
  {
    StartOfDay(now) + DaysUntilNextMonday(DayOfWeek(now)) * DAY_MS + DRAW_TIME_MS
  }

  /** Adding a multiple of 7 does not change a remainder modulo 7. */
  lemma {:induction false} ModShift(x: int, n: int)
    ensures (n * 7 + x) % 7 == x % 7
  {
    var y := n * 7 + x;
    assert y == (y / 7) * 7 + y % 7;
    assert x == (x / 7) * 7 + x % 7;
    assert (y / 7 - n - x / 7) * 7 == x % 7 - y % 7;
  }

  /** Weekdays advance by one per day: `u` falls as many weekdays after `t` as days. */
  lemma {:induction false} DayOfWeekShift(t: int, u: int)
    ensures DayOfWeek(u) == (DayOfWeek(t) + (u / DAY_MS - t / DAY_MS)) % 7
  {
    var k := u / DAY_MS - t / DAY_MS;
    var a := t / DAY_MS + THURSDAY;
    assert a == (a / 7) * 7 + DayOfWeek(t);
    assert u / DAY_MS + THURSDAY == (a / 7) * 7 + (DayOfWeek(t) + k);
    ModShift(DayOfWeek(t) + k, a / 7);
  }

  /** The target is `offset` whole days after today's midnight, plus seven hours. */
  lemma {:induction false} NextDrawDay(now: int)
    ensures NextDraw(now) / DAY_MS == now / DAY_MS + DaysUntilNextMonday(DayOfWeek(now))
    ensures NextDraw(now) % DAY_MS == DRAW_TIME_MS
  {
    var offset := DaysUntilNextMonday(DayOfWeek(now));
    assert now == (now / DAY_MS) * DAY_MS + now % DAY_MS;
    assert NextDraw(now) == (now / DAY_MS + offset) * DAY_MS + DRAW_TIME_MS;
    DivModUnit(NextDraw(now), DAY_MS, now / DAY_MS + offset, DRAW_TIME_MS);
  }

  /** The target is a Monday at 07:00:00.000, more than seven hours and at most a week and seven hours ahead. */
  lemma {:induction false} NextDrawIsMondayMorning(now: int)
    ensures DayOfWeek(NextDraw(now)) == MONDAY
    ensures NextDraw(now) % DAY_MS == DRAW_TIME_MS
    ensures StartOfDay(NextDraw(now)) + DRAW_TIME_MS == NextDraw(now)
    ensures now + DRAW_TIME_MS < NextDraw(now) <= now + 7 * DAY_MS + DRAW_TIME_MS
  {
    NextDrawDay(now);
    DayOfWeekShift(now, NextDraw(now));
  }

  /** Midnight at the start of the draw day; until then the target does not change. */
  function DrawDayStart(now: int): int
  {
    StartOfDay(now) + DaysUntilNextMonday(DayOfWeek(now)) * DAY_MS
  }

  /**
   * Outside Monday 00:00-07:00 the target is the soonest Monday 07:00 strictly after
   * `now`: no instant in between is a Monday at 07:00.
   */
  lemma {:induction false} NextDrawIsSoonest(now: int, t: int)
    requires !(DayOfWeek(now) == MONDAY && now % DAY_MS < DRAW_TIME_MS)
    requires now < t < NextDraw(now) && t % DAY_MS == DRAW_TIME_MS
    ensures DayOfWeek(t) != MONDAY
  {
    var day := DayOfWeek(now);
    var offset := DaysUntilNextMonday(day);
    var k := t / DAY_MS - now / DAY_MS;
    NextDrawDay(now);
    assert t == (t / DAY_MS) * DAY_MS + DRAW_TIME_MS;
    assert now == (now / DAY_MS) * DAY_MS + now % DAY_MS;
    assert NextDraw(now) == (now / DAY_MS + offset) * DAY_MS + DRAW_TIME_MS;
    assert 0 <= k < offset;
    DayOfWeekShift(now, t);
    if k == 0 {
      // 07:00 today is still ahead of now, so today is not a Monday by the first requirement
      assert now % DAY_MS < DRAW_TIME_MS;
    } else {
      DaysUntilNextMondayIsLeast(day, k);
    }
  }

  /**
   * On a Monday before 07:00 the code does not aim at that morning's draw, which is
   * still ahead: `|| 7` sends it to the following Monday, a week later.
   */
  lemma MondayMorningSkipsToday(now: int)
    requires DayOfWeek(now) == MONDAY && now % DAY_MS < DRAW_TIME_MS
    ensures now < StartOfDay(now) + DRAW_TIME_MS
    ensures NextDraw(now) == StartOfDay(now) + DRAW_TIME_MS + 7 * DAY_MS
  {
  }

  /** From `now` up to the midnight that starts the draw day, every instant aims at the same draw. */
  lemma {:induction false} SameTargetUntilDrawDay(now: int, later: int)
    requires now <= later < DrawDayStart(now)
    ensures NextDraw(later) == NextDraw(now)
  {
    var day := DayOfWeek(now);
    var offset := DaysUntilNextMonday(day);
    var k := later / DAY_MS - now / DAY_MS;
    assert StartOfDay(now) == (now / DAY_MS) * DAY_MS;
    assert StartOfDay(later) == (later / DAY_MS) * DAY_MS;
    assert StartOfDay(later) == StartOfDay(now) + k * DAY_MS;
    assert 0 <= k < offset;
    var day' := DayOfWeek(later);
    DayOfWeekShift(now, later);
    // offset - k lands on the same Monday, and it is in 1..7
    assert (day' + (offset - k)) % 7 == MONDAY by {
      assert day + k == ((day + k) / 7) * 7 + day';
      ModShift(day' + (offset - k), (day + k) / 7);
    }
    DaysUntilNextMondayIsLeast(day', offset - k);
  }

  /** The countdown as `days`, `hours`, `minutes` and `seconds`. */
  datatype Duration = Duration(days: nat, hours: nat, minutes: nat, seconds: nat)

  /** Each component below the unit above it. */
  predicate Normal(d: Duration)
  {
    d.hours < 24 && d.minutes < 60 && d.seconds < 60
  }

  function Millis(d: Duration): int
  {
    d.days * DAY_MS + d.hours * HOUR_MS + d.minutes * MINUTE_MS + d.seconds * SECOND_MS
  }

  function TotalSeconds(d: Duration): int
  {
    d.days * 86400 + d.hours * 3600 + d.minutes * 60 + d.seconds
  }

  /**
   * `Math.floor` of the difference over a day, and of the remainders modulo a day,
   * an hour and a minute over an hour, a minute and a second. The difference is
   * positive here, so JavaScript's `%` and floor agree with Dafny's.
   */
  function Decompose(timeDiff: int): (d: Duration)
    requires timeDiff > 0
    ensures Normal(d)
    ensures Millis(d) <= timeDiff < Millis(d) + SECOND_MS
  {
    UnitsNest(timeDiff);
    Duration(timeDiff / DAY_MS, (timeDiff % DAY_MS) / HOUR_MS,
             (timeDiff % HOUR_MS) / MINUTE_MS, (timeDiff % MINUTE_MS) / SECOND_MS)
  }

  predicate IsUnit(unit: int)
  {
    unit == SECOND_MS || unit == MINUTE_MS || unit == HOUR_MS || unit == DAY_MS
  }

  /** Quotient and remainder by a unit are the only pair that rebuilds the number. */
  lemma {:induction false} DivModUnit(x: int, unit: int, q: int, r: int)
    requires IsUnit(unit) && 0 <= r < unit && x == q * unit + r
    ensures x / unit == q && x % unit == r
  {
    if unit == SECOND_MS {
      assert x == q * SECOND_MS + r;
    } else if unit == MINUTE_MS {
      assert x == q * MINUTE_MS + r;
    } else if unit == HOUR_MS {
      assert x == q * HOUR_MS + r;
    } else {
      assert x == q * DAY_MS + r;
    }
  }

  /** Each unit divides the one above it, so a remainder modulo a smaller unit can be taken from the larger one's. */
  lemma {:induction false} UnitsNest(x: int)
    ensures x % HOUR_MS == (x % DAY_MS) % HOUR_MS
    ensures x % MINUTE_MS == (x % HOUR_MS) % MINUTE_MS
    ensures x % SECOND_MS == (x % MINUTE_MS) % SECOND_MS
  {
    var d, h, m := x % DAY_MS, x % HOUR_MS, x % MINUTE_MS;
    assert x == (x / DAY_MS) * DAY_MS + d;
    assert d == (d / HOUR_MS) * HOUR_MS + d % HOUR_MS;
    DivModUnit(x, HOUR_MS, x / DAY_MS * 24 + d / HOUR_MS, d % HOUR_MS);
    assert x == (x / HOUR_MS) * HOUR_MS + h;
    assert h == (h / MINUTE_MS) * MINUTE_MS + h % MINUTE_MS;
    DivModUnit(x, MINUTE_MS, x / HOUR_MS * 60 + h / MINUTE_MS, h % MINUTE_MS);
    assert x == (x / MINUTE_MS) * MINUTE_MS + m;
    assert m == (m / SECOND_MS) * SECOND_MS + m % SECOND_MS;
    DivModUnit(x, SECOND_MS, x / MINUTE_MS * 60 + m / SECOND_MS, m % SECOND_MS);
  }

  /** The components are the only normal duration that reaches the difference to within a second. */
  lemma {:induction false} DecomposeIsUnique(timeDiff: int, d: Duration)
    requires timeDiff > 0
    requires Normal(d) && Millis(d) <= timeDiff < Millis(d) + SECOND_MS
    ensures d == Decompose(timeDiff)
  {
    var x := timeDiff;
    var slack := x - Millis(d);
    var inMinute := d.seconds * SECOND_MS + slack;
    var inHour := d.minutes * MINUTE_MS + inMinute;
    var inDay := d.hours * HOUR_MS + inHour;
    DivModUnit(x, DAY_MS, d.days, inDay);
    DivModUnit(inDay, HOUR_MS, d.hours, inHour);
    DivModUnit(x, HOUR_MS, d.days * 24 + d.hours, inHour);
    DivModUnit(inHour, MINUTE_MS, d.minutes, inMinute);
    DivModUnit(x, MINUTE_MS, (d.days * 24 + d.hours) * 60 + d.minutes, inMinute);
    DivModUnit(inMinute, SECOND_MS, d.seconds, slack);
  }

  /** The components count the whole seconds of the difference. */
  lemma DecomposeCountsSeconds(timeDiff: int)
    requires timeDiff > 0
    ensures TotalSeconds(Decompose(timeDiff)) == timeDiff / SECOND_MS
  {
  }

  /** What the countdown shows: the time left, or that the draw is happening. */
  datatype Display = Remaining(left: Duration) | DrawingNow

  /** One tick of the timer: the time left until NextDraw, or "Drawing now!" when it is not ahead. */
  function Tick(now: int): (r: Display)
    ensures r.Remaining?
    ensures Normal(r.left) && Millis(r.left) <= NextDraw(now) - now < Millis(r.left) + SECOND_MS
  {
    var timeDiff := NextDraw(now) - now;
    if timeDiff > 0 then Remaining(Decompose(timeDiff)) else DrawingNow
  }

  /**
   * One second later, before the midnight that starts the draw day, the countdown
   * shows exactly one second less: the seconds go down by one or roll over.
   */
  lemma TickOneSecondLater(now: int)
    requires now + SECOND_MS < DrawDayStart(now)
    ensures TotalSeconds(Tick(now + SECOND_MS).left) == TotalSeconds(Tick(now).left) - 1
  {
    SameTargetUntilDrawDay(now, now + SECOND_MS);
    DecomposeCountsSeconds(NextDraw(now) - now);
    DecomposeCountsSeconds(NextDraw(now) - now - SECOND_MS);
  }

  function DigitChar(n: int): (c: char)
    requires 0 <= n < 10
    ensures '0' <= c <= '9'
  {
    "0123456789"[n]
  }

  predicate AllDigits(s: string)
  {
    forall i :: 0 <= i < |s| ==> '0' <= s[i] <= '9'
  }

  /** How a template literal prints a non-negative whole number: decimal digits, no leading zero. */
  function Decimal(n: nat): (s: string)
    ensures 1 <= |s| && AllDigits(s)
    ensures s[0] == '0' ==> n == 0 && |s| == 1
  {
    if n < 10 then [DigitChar(n)] else Decimal(n / 10) + [DigitChar(n % 10)]
  }

  /** The number a string of decimal digits denotes. */
  function DecimalValue(s: string): nat
    requires AllDigits(s)
  {
    if s == [] then 0 else DecimalValue(s[..|s| - 1]) * 10 + (s[|s| - 1] as int - '0' as int)
  }

  /** Reading the printed digits back gives the number printed. */
  lemma {:induction false} DecimalRoundTrip(n: nat)
    ensures DecimalValue(Decimal(n)) == n
  {
    if n >= 10 {
      DecimalRoundTrip(n / 10);
      var s := Decimal(n);
      assert s[..|s| - 1] == Decimal(n / 10);
    }
  }

  /** The string handed to `setTimeLeft`. */
  function Label(r: Display): (s: string)
    ensures s == "Drawing now!" <==> r.DrawingNow?
    ensures r.Remaining? ==>
      var days := Decimal(r.left.days);
      |days| < |s| && s[..|days|] == days && s[|days|] == 'd' && s[|s| - 1] == 's'
  {
    match r
    case DrawingNow => "Drawing now!"
    case Remaining(d) =>
      var text := Decimal(d.days) + "d " + Decimal(d.hours) + "h " + Decimal(d.minutes) + "m " + Decimal(d.seconds) + "s";
      assert text[|text| - 1] == 's' != "Drawing now!"[11];
      text
  }

  /** The number of digits `s` starts with. */
  function LeadingDigits(s: string): nat
  {
    if |s| == 0 || !('0' <= s[0] <= '9') then 0 else 1 + LeadingDigits(s[1..])
  }

  /** A digit string followed by a non-digit starts with exactly its own digits. */
  lemma {:induction false} LeadingDigitsStop(a: string, x: string)
    requires AllDigits(a) && |x| > 0 && !('0' <= x[0] <= '9')
    ensures LeadingDigits(a + x) == |a|
    decreases |a|
  {
    if |a| > 0 {
      assert (a + x)[1..] == a[1..] + x;
      LeadingDigitsStop(a[1..], x);
    } else {
      assert a + x == x;
    }
  }

  /** Two digit strings each followed by a non-digit split the same way only if they are equal. */
  lemma {:induction false} SplitAtNonDigit(a: string, x: string, b: string, y: string)
    requires AllDigits(a) && AllDigits(b)
    requires |x| > 0 && |y| > 0 && !('0' <= x[0] <= '9') && !('0' <= y[0] <= '9')
    requires a + x == b + y
    ensures a == b && x == y
  {
    LeadingDigitsStop(a, x);
    LeadingDigitsStop(b, y);
    assert a == (a + x)[..|a|] == (b + y)[..|b|] == b;
    assert x == (a + x)[|a|..] == (b + y)[|b|..] == y;
  }

  /** The label, read from the front: each number's digits up to the unit letter after them. */
  lemma {:induction false} LabelParts(d: Duration)
    ensures Label(Remaining(d)) ==
      Decimal(d.days) + ("d " + (Decimal(d.hours) + ("h " + (Decimal(d.minutes) + ("m " + (Decimal(d.seconds) + "s"))))))
  {
    var D, H, M, S := Decimal(d.days), Decimal(d.hours), Decimal(d.minutes), Decimal(d.seconds);
    var s := S + "s";
    var m := M + ("m " + s);
    var h := H + ("h " + m);
    // Regroup the left-nested concatenation one separator at a time.
    calc {
      Label(Remaining(d));
      D + "d " + H + "h " + M + "m " + S + "s";
      (D + "d " + H + "h " + M + "m ") + s;
      (D + "d " + H + "h " + M) + ("m " + s);
      (D + "d " + H + "h ") + m;
      (D + "d " + H) + ("h " + m);
      (D + "d ") + h;
      D + ("d " + h);
    }
  }

  /** What follows a number and its two-character unit separator in the label. */
  lemma {:induction false} AfterSeparator(sep: string, r1: string, r2: string)
    requires |sep| == 2 && sep + r1 == sep + r2
    ensures r1 == r2
  {
    assert r1 == (sep + r1)[2..] == (sep + r2)[2..] == r2;
  }

  /** Different durations print different labels: every component can be read back from the label. */
  lemma {:induction false} LabelDeterminesDuration(d1: Duration, d2: Duration)
    requires Label(Remaining(d1)) == Label(Remaining(d2))
    ensures d1 == d2
  {
    var s1, s2 := Decimal(d1.seconds) + "s", Decimal(d2.seconds) + "s";
    var m1, m2 := Decimal(d1.minutes) + ("m " + s1), Decimal(d2.minutes) + ("m " + s2);
    var h1, h2 := Decimal(d1.hours) + ("h " + m1), Decimal(d2.hours) + ("h " + m2);
    LabelParts(d1);
    LabelParts(d2);
    SplitAtNonDigit(Decimal(d1.days), "d " + h1, Decimal(d2.days), "d " + h2);
    AfterSeparator("d ", h1, h2);
    SplitAtNonDigit(Decimal(d1.hours), "h " + m1, Decimal(d2.hours), "h " + m2);
    AfterSeparator("h ", m1, m2);
    SplitAtNonDigit(Decimal(d1.minutes), "m " + s1, Decimal(d2.minutes), "m " + s2);
    AfterSeparator("m ", s1, s2);
    SplitAtNonDigit(Decimal(d1.seconds), "s", Decimal(d2.seconds), "s");
    DecimalRoundTrip(d1.days);
    DecimalRoundTrip(d2.days);
    DecimalRoundTrip(d1.hours);
    DecimalRoundTrip(d2.hours);
    DecimalRoundTrip(d1.minutes);
    DecimalRoundTrip(d2.minutes);
    DecimalRoundTrip(d1.seconds);
    DecimalRoundTrip(d2.seconds);
  }

  /** A Wednesday at 07:00 shows "5d 0h 0m 0s" until the Monday 07:00 draw. */
  lemma WednesdayMorningLabel(now: int)
    requires DayOfWeek(now) == 3 && now % DAY_MS == DRAW_TIME_MS
    ensures Tick(now) == Remaining(Duration(5, 0, 0, 0))
    ensures Label(Tick(now)) == "5d 0h 0m 0s"
  {
    assert NextDraw(now) - now == 5 * DAY_MS;
    assert Decimal(5) == "5" && Decimal(0) == "0";
  }
}
