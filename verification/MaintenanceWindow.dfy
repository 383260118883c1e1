/** When an update may be installed: the branchy test of the agent against a weekly clock on which each
    allowed day opens an interval at the start time, possibly across midnight and the end of the week.
    A day has any number of ticks; all times are read from one local clock. */
module MaintenanceWindow {
  import opened Common

  type Day = d: nat | d < 7

  datatype Instant = Instant(day: Day, tick: nat)

  /** Times and day names as parsed; `None` is text that does not parse. */
  datatype Settings = Settings(start: Option<nat>, end: Option<nat>, days: seq<Option<Day>>)

  function Yesterday(d: Day): Day {
    (d + 6) % 7
  }

  function AllowedDays(s: Settings): set<Day> {
    set i | 0 <= i < |s.days| && s.days[i].Some? :: s.days[i].value
  }

  predicate IsAllowedNow(s: Settings, installNow: bool, now: Instant) {
    if installNow then true
    else if s.start.None? || s.end.None? then false
    else
      var start, end, days := s.start.value, s.end.value, AllowedDays(s);
      if start <= end then now.day in days && now.tick >= start && now.tick < end
      else if now.tick >= start then now.day in days
      else now.tick < end && Yesterday(now.day) in days
  }

  // ---------------------------------------------------------------------------------------------
  // The weekly clock
  // ---------------------------------------------------------------------------------------------

  function NextTick(ticksPerDay: nat, i: Instant): Instant {
    if i.tick + 1 < ticksPerDay then i.(tick := i.tick + 1) else Instant((i.day + 1) % 7, 0)
  }

  function After(ticksPerDay: nat, i: Instant, k: nat): Instant {
    if k == 0 then i else NextTick(ticksPerDay, After(ticksPerDay, i, k - 1))
  }

  /** How long after `start` the time `end` comes next. */
  function Length(ticksPerDay: nat, start: nat, end: nat): nat
    requires start < ticksPerDay
  {
    if start <= end then end - start else ticksPerDay - start + end
  }

  lemma {:induction false} AfterWithinTwoDays(ticksPerDay: nat, i: Instant, k: nat)
    requires i.tick < ticksPerDay && k <= ticksPerDay
    ensures After(ticksPerDay, i, k) ==
            if i.tick + k < ticksPerDay then i.(tick := i.tick + k)
              else Instant((i.day + 1) % 7, i.tick + k - ticksPerDay)
  {
    if k > 0 {
      AfterWithinTwoDays(ticksPerDay, i, k - 1);
    }
  }

  predicate OnClock(ticksPerDay: nat, s: Settings) {
    && ticksPerDay > 0
    && (s.start.Some? ==> s.start.value < ticksPerDay)
    && (s.end.Some? ==> s.end.value < ticksPerDay)
  }

  /** `now` lies less than the window's length after the start on some allowed day. */
  ghost predicate InSomeWindow(ticksPerDay: nat, s: Settings, now: Instant)
    requires OnClock(ticksPerDay, s) && s.start.Some? && s.end.Some?
  {
    exists d: Day, k: nat ::
      && Some(d) in s.days
      && k < Length(ticksPerDay, s.start.value, s.end.value)
      && now == After(ticksPerDay, Instant(d, s.start.value), k)
  }

  /** The allowed days are the names that parse. */
  lemma AllowedDay(s: Settings, d: Day)
    ensures d in AllowedDays(s) <==> Some(d) in s.days
  {
    if Some(d) in s.days {
      var i :| 0 <= i < |s.days| && s.days[i] == Some(d);
      assert s.days[i].value == d;
    }
  }

  lemma TestFindsWindow(ticksPerDay: nat, s: Settings, now: Instant)
    requires OnClock(ticksPerDay, s) && now.tick < ticksPerDay && s.start.Some? && s.end.Some?
    requires IsAllowedNow(s, false, now)
    ensures InSomeWindow(ticksPerDay, s, now)
  {
    var start := s.start.value;
    var d: Day := if now.tick >= start then now.day else Yesterday(now.day);
    var k := if now.tick >= start then now.tick - start else ticksPerDay - start + now.tick;
    AllowedDay(s, d);
    AfterWithinTwoDays(ticksPerDay, Instant(d, start), k);
    assert now == After(ticksPerDay, Instant(d, start), k);
  }

  lemma WindowPassesTest(ticksPerDay: nat, s: Settings, now: Instant, d: Day, k: nat)
    requires OnClock(ticksPerDay, s) && s.start.Some? && s.end.Some? && Some(d) in s.days
    requires k < Length(ticksPerDay, s.start.value, s.end.value)
    requires now == After(ticksPerDay, Instant(d, s.start.value), k)
    ensures IsAllowedNow(s, false, now)
  {
    AllowedDay(s, d);
    AfterWithinTwoDays(ticksPerDay, Instant(d, s.start.value), k);
    assert Yesterday((d + 1) % 7) == d;
  }

  /** The test holds exactly when the installation is to happen at once, or both times parse and now
      lies in the interval that some allowed day opens. */
  lemma TestIsWeeklyIntervals(ticksPerDay: nat, s: Settings, installNow: bool, now: Instant)
    requires OnClock(ticksPerDay, s) && now.tick < ticksPerDay
    ensures IsAllowedNow(s, installNow, now) <==>
            installNow || (s.start.Some? && s.end.Some? && InSomeWindow(ticksPerDay, s, now))
  {
    if !installNow && s.start.Some? && s.end.Some? {
      if IsAllowedNow(s, false, now) {
        TestFindsWindow(ticksPerDay, s, now);
      }
      if InSomeWindow(ticksPerDay, s, now) {
        var d: Day, k: nat :|
          && Some(d) in s.days
          && k < Length(ticksPerDay, s.start.value, s.end.value)
          && now == After(ticksPerDay, Instant(d, s.start.value), k);
        WindowPassesTest(ticksPerDay, s, now, d, k);
      }
    }
  }

  // ---------------------------------------------------------------------------------------------
  // How much time there is
  // ---------------------------------------------------------------------------------------------

  /** The ticks of a day, up to `n`, at which the test holds. */
  function TicksBefore(s: Settings, day: Day, n: nat): nat {
    if n == 0 then 0
    else TicksBefore(s, day, n - 1) + if IsAllowedNow(s, false, Instant(day, n - 1)) then 1 else 0
  }

  function TicksInDays(ticksPerDay: nat, s: Settings, n: nat): nat
    requires n <= 7
  {
    if n == 0 then 0 else TicksInDays(ticksPerDay, s, n - 1) + TicksBefore(s, n - 1, ticksPerDay)
  }

  function Overlap(n: nat, lo: nat, hi: nat): nat {
    var top := if n < hi then n else hi;
    if top <= lo then 0 else top - lo
  }

  lemma {:induction false} TicksOfDay(ticksPerDay: nat, s: Settings, day: Day, n: nat)
    requires OnClock(ticksPerDay, s) && s.start.Some? && s.end.Some? && n <= ticksPerDay
    ensures var start, end, days := s.start.value, s.end.value, AllowedDays(s);
            TicksBefore(s, day, n) ==
            if start <= end then (if day in days then Overlap(n, start, end) else 0)
            else (if day in days then Overlap(n, start, ticksPerDay) else 0)
                 + (if Yesterday(day) in days then Overlap(n, 0, end) else 0)
  {
    if n > 0 {
      TicksOfDay(ticksPerDay, s, day, n - 1);
    }
  }

  function CountDays(days: set<Day>, n: nat): nat
    requires n <= 7
  {
    if n == 0 then 0 else CountDays(days, n - 1) + if n - 1 in days then 1 else 0
  }

  function EarlierDays(days: set<Day>, n: nat): set<Day> {
    set d | d in days && d < n
  }

  lemma {:induction false} CountDaysIsSize(days: set<Day>, n: nat)
    requires n <= 7
    ensures CountDays(days, n) == |EarlierDays(days, n)|
  {
    if n == 0 {
      assert EarlierDays(days, n) == {};
    } else {
      CountDaysIsSize(days, n - 1);
      var before := EarlierDays(days, n - 1);
      assert EarlierDays(days, n) == if n - 1 in days then before + {n - 1} else before;
    }
  }

  /** Over a week the test holds for as many ticks as the allowed days have windows. */
  lemma WeeklyTime(ticksPerDay: nat, s: Settings)
    requires OnClock(ticksPerDay, s) && s.start.Some? && s.end.Some?
    ensures TicksInDays(ticksPerDay, s, 7) == |AllowedDays(s)| * Length(ticksPerDay, s.start.value, s.end.value)
  {
    var days := AllowedDays(s);
    assert CountDays(days, 7) == |days| by {
      CountDaysIsSize(days, 7);
      assert EarlierDays(days, 7) == days;
    }
    if s.start.value <= s.end.value {
      DailyWindows(ticksPerDay, s, 7);
    } else {
      NightlyWindows(ticksPerDay, s, 7);
      MorningsOfWeek(days);
      Distribute(|days|, ticksPerDay - s.start.value, s.end.value);
    }
  }

  lemma {:induction false} DailyWindows(ticksPerDay: nat, s: Settings, n: nat)
    requires OnClock(ticksPerDay, s) && s.start.Some? && s.end.Some? && s.start.value <= s.end.value && n <= 7
    ensures TicksInDays(ticksPerDay, s, n) == CountDays(AllowedDays(s), n) * (s.end.value - s.start.value)
  {
    if n > 0 {
      DailyWindows(ticksPerDay, s, n - 1);
      TicksOfDay(ticksPerDay, s, n - 1, ticksPerDay);
      NextMultiple(CountDays(AllowedDays(s), n - 1), s.end.value - s.start.value);
    }
  }

  /** Of the first `n` days, those whose previous day is allowed. */
  function Mornings(days: set<Day>, n: nat): nat
    requires n <= 7
  {
    if n == 0 then 0 else Mornings(days, n - 1) + if Yesterday(n - 1) in days then 1 else 0
  }

  lemma MorningsOfWeek(days: set<Day>)
    ensures Mornings(days, 7) == CountDays(days, 7)
  {
    assert Mornings(days, 3) == Mornings(days, 1) + (if 0 in days then 1 else 0) + (if 1 in days then 1 else 0);
    assert Mornings(days, 5) == Mornings(days, 3) + (if 2 in days then 1 else 0) + (if 3 in days then 1 else 0);
    assert Mornings(days, 7) == Mornings(days, 5) + (if 4 in days then 1 else 0) + (if 5 in days then 1 else 0);
    assert CountDays(days, 1) == if 0 in days then 1 else 0;
    assert CountDays(days, 2) == (if 0 in days then 1 else 0) + (if 1 in days then 1 else 0);
    assert CountDays(days, 4) == CountDays(days, 2) + (if 2 in days then 1 else 0) + (if 3 in days then 1 else 0);
    assert CountDays(days, 6) == CountDays(days, 4) + (if 4 in days then 1 else 0) + (if 5 in days then 1 else 0);
    assert Mornings(days, 1) == if 6 in days then 1 else 0;
  }

  lemma {:induction false} NightlyWindows(ticksPerDay: nat, s: Settings, n: nat)
    requires OnClock(ticksPerDay, s) && s.start.Some? && s.end.Some? && s.start.value > s.end.value && n <= 7
    ensures TicksInDays(ticksPerDay, s, n)
            == CountDays(AllowedDays(s), n) * (ticksPerDay - s.start.value) + Mornings(AllowedDays(s), n) * s.end.value
  {
    if n > 0 {
      NightlyWindows(ticksPerDay, s, n - 1);
      TicksOfDay(ticksPerDay, s, n - 1, ticksPerDay);
      NextMultiple(CountDays(AllowedDays(s), n - 1), ticksPerDay - s.start.value);
      NextMultiple(Mornings(AllowedDays(s), n - 1), s.end.value);
    }
  }

  lemma Distribute(a: nat, b: nat, c: nat)
    ensures a * (b + c) == a * b + a * c
  {
  }
}
