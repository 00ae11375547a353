/** Holding time of a position, counted only inside the VN derivative sessions.

    An instant is a whole number of microseconds since 1970-01-01T00:00Z (a Thursday),
    the resolution of the program's datetimes.  The reference meaning of "seconds in
    session" is brute force: count the ticks of [opened, closed) whose own weekday and
    minute of day lie in a session. */
module SessionClock {
  const TICKS_PER_SECOND := 1_000_000
  const TICKS_PER_WEEK := 604_800_000_000

  /** The two sessions, in UTC minutes of the day: 01:45-04:30 and 06:00-07:45. */
  const SESSION_WINDOWS: seq<(int, int)> := [(105, 270), (360, 465)]

  function DayStart(t: int): int { t - t % 86_400_000_000 }

  function MinuteOfDay(t: int): int { t % 86_400_000_000 / 60_000_000 }

  /** Monday is 0, as `datetime.weekday` counts. */
  function Weekday(t: int): int { (t / 86_400_000_000 + 3) % 7 }

  predicate InWindow(minute: int, k: nat)
    requires k < |SESSION_WINDOWS|
  {
    SESSION_WINDOWS[k].0 <= minute < SESSION_WINDOWS[k].1
  }

  predicate InSession(t: int) {
    Weekday(t) < 5 && (InWindow(MinuteOfDay(t), 0) || InWindow(MinuteOfDay(t), 1))
  }

  /** The reference: how many ticks of [a, b) are in session. */
  function SessionTicks(a: int, b: int): (n: nat)
    ensures n <= if b <= a then 0 else b - a
    decreases b - a
  {
    if b <= a then 0
    else SessionTicks(a, b - 1) + (if InSession(b - 1) then 1 else 0)
  }

  // ------------------------------------------------------------------ laws of the count

  lemma {:induction false} SessionTicksSplit(a: int, m: int, b: int)
    requires a <= m <= b
    ensures SessionTicks(a, b) == SessionTicks(a, m) + SessionTicks(m, b)
    decreases b - m
  {
    if m < b {
      SessionTicksSplit(a, m, b - 1);
    }
  }

  lemma {:induction false} AllInSession(a: int, b: int)
    requires a <= b
    requires forall t :: a <= t < b ==> InSession(t)
    ensures SessionTicks(a, b) == b - a
    decreases b - a
  {
    if a < b {
      AllInSession(a, b - 1);
    }
  }

  lemma {:induction false} NoneInSession(a: int, b: int)
    requires forall t :: a <= t < b ==> !InSession(t)
    ensures SessionTicks(a, b) == 0
    decreases b - a
  {
    if a < b {
      NoneInSession(a, b - 1);
    }
  }

  /** Minutes [lo, hi) of the day that starts at d, all in one window or all in none. */
  lemma DaySlice(d: int, lo: int, hi: int)
    requires d % 86_400_000_000 == 0
    requires 0 <= lo <= hi <= 1440
    ensures forall t :: d + lo * 60_000_000 <= t < d + hi * 60_000_000 ==>
      DayStart(t) == d && lo <= MinuteOfDay(t) < hi && Weekday(t) == Weekday(d)
  {
  }

  /** A weekday holds exactly 165 + 105 session minutes, a weekend day none. */
  lemma SessionTicksOfDay(d: int)
    requires d % 86_400_000_000 == 0
    ensures SessionTicks(d, d + 86_400_000_000) == if Weekday(d) < 5 then 16_200_000_000 else 0
  {
    var m := 60_000_000;
    var end := d + 1440 * m;
    DaySlice(d, 0, 1440);
    if Weekday(d) >= 5 {
      NoneInSession(d, end);
    } else {
      DaySlice(d, 0, 105);
      NoneInSession(d, d + 105 * m);
      DaySlice(d, 105, 270);
      AllInSession(d + 105 * m, d + 270 * m);
      DaySlice(d, 270, 360);
      NoneInSession(d + 270 * m, d + 360 * m);
      DaySlice(d, 360, 465);
      AllInSession(d + 360 * m, d + 465 * m);
      DaySlice(d, 465, 1440);
      NoneInSession(d + 465 * m, end);
      SessionTicksSplit(d, d + 105 * m, end);
      SessionTicksSplit(d + 105 * m, d + 270 * m, end);
      SessionTicksSplit(d + 270 * m, d + 360 * m, end);
      SessionTicksSplit(d + 360 * m, d + 465 * m, end);
    }
  }

  /** The k days from d on, one at a time. */
  lemma {:induction false} SessionTicksOfDays(d: int, k: nat)
    requires d % 86_400_000_000 == 0 && Weekday(d) == 0 && k <= 7
    ensures SessionTicks(d, d + k * 86_400_000_000) == (if k <= 5 then k else 5) * 16_200_000_000
  {
    if k > 0 {
      var last := d + (k - 1) * 86_400_000_000;
      SessionTicksOfDays(d, k - 1);
      LaterDay(d, k - 1);
      SessionTicksOfDay(last);
      SessionTicksSplit(d, last, last + 86_400_000_000);
    }
  }

  lemma LaterDay(d: int, k: nat)
    requires d % 86_400_000_000 == 0 && Weekday(d) == 0 && k < 7
    ensures (d + k * 86_400_000_000) % 86_400_000_000 == 0 && Weekday(d + k * 86_400_000_000) == k
  {
  }

  lemma InSessionIsWeekly(t: int)
    ensures InSession(t + TICKS_PER_WEEK) == InSession(t)
  {
    assert (t + 604_800_000_000) / 86_400_000_000 == t / 86_400_000_000 + 7;
    assert (t + 604_800_000_000) % 86_400_000_000 == t % 86_400_000_000;
  }

  /** Moving a seven-day interval by one tick swaps a tick for the one a week later. */
  lemma ShiftWeek(a: int)
    ensures SessionTicks(a, a + TICKS_PER_WEEK) == SessionTicks(a + 1, a + 1 + TICKS_PER_WEEK)
  {
    SessionTicksSplit(a, a + 1, a + TICKS_PER_WEEK);
    SessionTicksSplit(a + 1, a + TICKS_PER_WEEK, a + 1 + TICKS_PER_WEEK);
    InSessionIsWeekly(a);
    assert SessionTicks(a, a) == 0;
    assert SessionTicks(a + TICKS_PER_WEEK, a + TICKS_PER_WEEK) == 0;
  }

  lemma {:induction false} ShiftWeeks(a: int, b: int)
    requires a <= b
    ensures SessionTicks(a, a + TICKS_PER_WEEK) == SessionTicks(b, b + TICKS_PER_WEEK)
    decreases b - a
  {
    if a < b {
      ShiftWeeks(a, b - 1);
      ShiftWeek(b - 1);
    }
  }

  /** Any seven days hold 81000 seconds of session, whatever instant they start at. */
  lemma WeekHolds81000Seconds(a: int)
    ensures SessionTicks(a, a + TICKS_PER_WEEK) == 81_000 * TICKS_PER_SECOND
  {
    // 1970-01-05, the first Monday, moved to a week at or before a
    var weeks := if a < 0 then a - 1 else 0;
    var monday := 345_600_000_000 + (weeks - 1) * TICKS_PER_WEEK;
    assert monday % 86_400_000_000 == 0;
    assert monday / 86_400_000_000 == 4 + (weeks - 1) * 7;
    SessionTicksOfDays(monday, 7);
    ShiftWeeks(monday, a);
  }

  // -------------------------------------------------------------------------- the loop

  /** Midnight of the Monday after a weekend instant. */
  function NextWeekdayMidnight(t: int): (r: int)
    ensures Weekday(t) >= 5 ==> t < r && forall u :: t <= u < r ==> !InSession(u)
  {
    var days := if (7 - Weekday(t)) % 7 != 0 then (7 - Weekday(t)) % 7 else 7;
    var r := DayStart(t) + days * 86_400_000_000;
    assert Weekday(t) >= 5 ==> forall u :: t <= u < r ==> !InSession(u) by {
      if Weekday(t) >= 5 {
        WeekendIsOut(t, r);
      }
    }
    r
  }

  /** It is the first midnight of the week that follows. */
  lemma MidnightIsMonday(t: int)
    requires Weekday(t) >= 5
    ensures var r := NextWeekdayMidnight(t);
      Weekday(r) == 0 && DayStart(r) == r && t < r <= t + 2 * 86_400_000_000
  {
  }

  lemma WeekendIsOut(t: int, r: int)
    requires Weekday(t) >= 5 && t <= r <= DayStart(t) + (7 - Weekday(t)) * 86_400_000_000
    ensures forall u :: t <= u < r ==> !InSession(u)
  {
  }

  /** The start of the next minute. */
  function NextSessionStart(t: int): (r: int)
    ensures t < r && forall u :: t <= u < r ==> MinuteOfDay(u) == MinuteOfDay(t) && DayStart(u) == DayStart(t)
  {
    t - t % 60_000_000 + 60_000_000
  }

  /** The program's loop.  It jumps to Monday, to the end of the current window or to the
      next minute; the result is still the brute-force count, in seconds. */
  method ActiveSessionSeconds(openedAt: int, closedAt: int) returns (total: real)
    ensures total == SessionTicks(openedAt, closedAt) as real / TICKS_PER_SECOND as real
  {
    if closedAt <= openedAt {
      return 0.0;
    }
    total := 0.0;
    var cursor := openedAt;
    while cursor < closedAt
      invariant openedAt <= cursor
      invariant total ==
        SessionTicks(openedAt, if cursor < closedAt then cursor else closedAt) as real / TICKS_PER_SECOND as real
      decreases closedAt - cursor
    {
      ghost var from := cursor;
      if Weekday(cursor) >= 5 {
        cursor := NextWeekdayMidnight(cursor);
        ghost var upto := if cursor < closedAt then cursor else closedAt;
        NoneInSession(from, upto);
        SessionTicksSplit(openedAt, from, upto);
        continue;
      }
      var minute := MinuteOfDay(cursor);
      var k, hit := 0, false;
      while k < |SESSION_WINDOWS| && !hit
        invariant k <= |SESSION_WINDOWS|
        invariant hit ==> k < |SESSION_WINDOWS| && InWindow(minute, k)
        invariant !hit ==> forall j :: 0 <= j < k ==> !InWindow(minute, j)
        decreases |SESSION_WINDOWS| - k, !hit
      {
        if InWindow(minute, k) {
          hit := true;
        } else {
          k := k + 1;
        }
      }
      if hit {
        var windowEnd := DayStart(cursor) + SESSION_WINDOWS[k].1 * 60_000_000;
        var segmentEnd := if closedAt < windowEnd then closedAt else windowEnd;
        WindowIsIn(cursor, k, segmentEnd);
        if segmentEnd > cursor {
          total := total + (segmentEnd - cursor) as real / TICKS_PER_SECOND as real;
        }
        AllInSession(cursor, segmentEnd);
        SessionTicksSplit(openedAt, cursor, segmentEnd);
        cursor := segmentEnd;
      } else {
        cursor := NextSessionStart(cursor);
        ghost var upto := if cursor < closedAt then cursor else closedAt;
        assert !InWindow(minute, 0) && !InWindow(minute, 1);
        NoneInSession(from, upto);
        SessionTicksSplit(openedAt, from, upto);
      }
    }
  }

  /** From inside window k to the window's end of the same day every tick is in session. */
  lemma WindowIsIn(t: int, k: nat, end: int)
    requires k < |SESSION_WINDOWS| && InWindow(MinuteOfDay(t), k) && Weekday(t) < 5
    requires end <= DayStart(t) + SESSION_WINDOWS[k].1 * 60_000_000
    ensures t < DayStart(t) + SESSION_WINDOWS[k].1 * 60_000_000
    ensures forall u :: t <= u < end ==> InSession(u)
  {
  }

  /** Holding time in hours: session time for the VN exchange, wall clock elsewhere. */
  function DurationHours(openedAt: int, closedAt: int, sessionExchange: bool): real {
    (if sessionExchange then SessionTicks(openedAt, closedAt)
     else if closedAt < openedAt then 0 else closedAt - openedAt) as real / (3600 * TICKS_PER_SECOND) as real
  }

  method TradeDurationHours(openedAt: int, closedAt: int, sessionExchange: bool) returns (hours: real)
    ensures hours == DurationHours(openedAt, closedAt, sessionExchange)
    ensures 0.0 <= hours
    ensures openedAt <= closedAt ==> hours * 3600.0 * TICKS_PER_SECOND as real <= (closedAt - openedAt) as real
  {
    if sessionExchange {
      var seconds := ActiveSessionSeconds(openedAt, closedAt);
      hours := seconds / 3600.0;
    } else {
      hours := (if closedAt < openedAt then 0 else closedAt - openedAt) as real / TICKS_PER_SECOND as real / 3600.0;
    }
  }

  /** Splitting a holding period never gains or loses session time. */
  lemma DurationIsAdditive(openedAt: int, between: int, closedAt: int)
    requires openedAt <= between <= closedAt
    ensures DurationHours(openedAt, closedAt, true) ==
      DurationHours(openedAt, between, true) + DurationHours(between, closedAt, true)
  {
    SessionTicksSplit(openedAt, between, closedAt);
  }

  // ------------------------------------------------------------------- the clock, spelled out

  /** Days since 1970-01-01, a Thursday; the sessions are 01:45-04:30 and 06:00-07:45 of every day but Saturday and
      Sunday. */
  lemma SessionMeans(t: int)
    ensures var day, ofDay := t / 86_400_000_000, t % 86_400_000_000;
      InSession(t) <==>
        day % 7 != 2 && day % 7 != 3 &&
        (6_300_000_000 <= ofDay < 16_200_000_000 || 21_600_000_000 <= ofDay < 27_900_000_000)
  {
  }

  function TicksIn(a: int, b: int): set<int> { set u | a <= u < b && InSession(u) }

  lemma {:induction false} TicksAreCount(a: int, b: int)
    ensures SessionTicks(a, b) == |TicksIn(a, b)|
    decreases b - a
  {
    hide InSession;
    if a < b {
      TicksAreCount(a, b - 1);
      assert TicksIn(a, b) == TicksIn(a, b - 1) + if InSession(b - 1) then {b - 1} else {};
    } else {
      assert TicksIn(a, b) == {};
    }
  }

  /** Hours of holding: of the ticks in session on the VN exchange, and of all ticks elsewhere, none of a period that
      ends before it begins. */
  lemma DurationMeans(openedAt: int, closedAt: int)
    ensures DurationHours(openedAt, closedAt, true) * 3_600_000_000.0 == |TicksIn(openedAt, closedAt)| as real
    ensures DurationHours(openedAt, closedAt, false) * 3_600_000_000.0 ==
      if openedAt <= closedAt then (closedAt - openedAt) as real else 0.0
  {
    TicksAreCount(openedAt, closedAt);
  }
}
