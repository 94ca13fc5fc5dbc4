/** Reset instants and accounting windows in a time zone.

A zone is known only through what the standard library answers: the offset in force at an
instant, the next instant at which the offset changes, and the instant it proposes for a
civil midnight. The proposal is arbitrary here, because for a skipped or repeated midnight
the library promises nothing about it. */
module Calendar {
  import opened CivilDates

  const DAY := 86400
  const SEARCH_SPAN := 2 * DAY

  datatype Boundary = Never | At(instant: int)

  datatype Zone = Zone(offset: int -> int, next: int -> Boundary, midnight: int -> int) {

    /** Wall clock of an instant, as seconds since the civil epoch. */
    function Local(t: int): int {
      t + offset(t)
    }

    function Day(t: int): int {
      Local(t) / DAY
    }

    /** `b` ends the stretch of constant offset that `t` lies in. */
    ghost predicate Stretch(t: int, b: Boundary) {
      match b
      case Never => forall u :: t <= u ==> offset(u) == offset(t)
      case At(end) => t < end && forall u :: t <= u < end ==> offset(u) == offset(t)
    }

    /** Offsets are bounded and piecewise constant. */
    ghost predicate Valid() {
      && (forall t :: -SEARCH_SPAN <= offset(t) <= SEARCH_SPAN)
      && (forall t :: Stretch(t, next(t)))
    }

    /** No transition moves the civil date backwards. */
    ghost predicate DatesAdvance() {
      forall s, t :: s <= t ==> Day(s) <= Day(t)
    }
  }

  /** `r` splits time into the instants before civil date `day` and those from it on. */
  ghost predicate SplitsAt(z: Zone, day: int, r: int) {
    forall t :: r <= t <==> day <= z.Day(t)
  }

  /** First instant, from `t` on, whose civil date reaches `day`. */
  ghost function SeekDay(z: Zone, day: int, t: int): (r: int)
    requires z.Valid()
    ensures t <= r && day <= z.Day(r)
    ensures forall u :: t <= u < r ==> z.Day(u) < day
    decreases day * DAY + SEARCH_SPAN - t
  {
    assert -SEARCH_SPAN <= z.offset(t);
    if day <= z.Day(t) then t else SeekDay(z, day, t + 1)
  }

  /** First instant of a civil date, or of the next date there is when a zone skips it. */
  ghost function FirstInstant(z: Zone, day: int): int
    requires z.Valid()
  {
    SeekDay(z, day, day * DAY - SEARCH_SPAN)
  }

  lemma {:induction false} FirstInstantSplits(z: Zone, day: int)
    requires z.Valid() && z.DatesAdvance()
    ensures SplitsAt(z, day, FirstInstant(z, day))
  {
    var base := day * DAY - SEARCH_SPAN;
    forall t ensures FirstInstant(z, day) <= t <==> day <= z.Day(t) {
      if t < base {
        assert z.offset(t) <= SEARCH_SPAN;
      }
    }
  }

  ghost predicate HasStart(z: Zone, day: int) {
    exists r :: SplitsAt(z, day, r)
  }

  /** However it is computed, every civil date has a correct start exactly when the dates of the
  zone never go backwards. */
  lemma {:induction false} DayStartsExistIffDatesAdvance(z: Zone)
    requires z.Valid()
    ensures z.DatesAdvance() <==> forall day :: HasStart(z, day)
  {
    if z.DatesAdvance() {
      forall day ensures HasStart(z, day) {
        FirstInstantSplits(z, day);
      }
    }
    if forall day :: HasStart(z, day) {
      forall s, t | s <= t ensures z.Day(s) <= z.Day(t) {
        assert HasStart(z, z.Day(s));
        var r :| SplitsAt(z, z.Day(s), r);
        assert r <= s <==> z.Day(s) <= z.Day(s);
        assert r <= t <==> z.Day(s) <= z.Day(t);
      }
    }
  }

  /** The library's midnight shows the date's first minute, and the second before it another date. */
  predicate Accepts(z: Zone, day: int) {
    var guess := z.midnight(day);
    z.Day(guess) == day && z.Local(guess) % DAY < 60 && z.Day(guess - 1) != day
  }

  /** What the binary search between `lo` and `hi` finds: some entry into the date, whichever the
  probes lead to. */
  ghost function Search(z: Zone, day: int, lo: int, hi: int): (r: int)
    requires lo <= hi && day <= z.Day(hi) && z.Day(lo - 1) < day
    ensures lo <= r <= hi && day <= z.Day(r) && z.Day(r - 1) < day
    decreases hi - lo
  {
    if lo == hi then lo
    else
      var mid := lo + (hi - lo) / 2;
      if day <= z.Day(mid) then Search(z, day, lo, mid) else Search(z, day, mid + 1, hi)
  }

  /** The start of a civil date as it is computed, in any zone and for any proposal. */
  ghost function StartOf(z: Zone, day: int): (r: int)
    requires z.Valid()
    ensures day <= z.Day(r) && z.Day(r - 1) != day
    ensures !Accepts(z, day) ==> z.Day(r - 1) < day
  {
    var lo, hi := day * DAY - SEARCH_SPAN, day * DAY + SEARCH_SPAN;
    assert z.offset(hi) >= -SEARCH_SPAN && z.offset(lo - 1) <= SEARCH_SPAN;
    if Accepts(z, day) then z.midnight(day) else Search(z, day, lo, hi)
  }

  lemma StartIsFirstInstant(z: Zone, day: int)
    requires z.Valid() && z.DatesAdvance()
    ensures StartOf(z, day) == FirstInstant(z, day) && SplitsAt(z, day, StartOf(z, day))
  {
    FirstInstantSplits(z, day);
    var r := StartOf(z, day);
    assert z.Day(r - 1) <= z.Day(r);
    if Accepts(z, day) {
      assert z.Day(r) == day;
    }
    hide StartOf;
  }

  /** First instant of a civil date: the library's midnight when that is provably it, otherwise
  a binary search over four days. */
  method DayStart(z: Zone, day: int) returns (r: int)
    requires z.Valid()
    ensures r == StartOf(z, day)
    ensures z.DatesAdvance() ==> r == FirstInstant(z, day) && SplitsAt(z, day, r)
  {
    hide SplitsAt, FirstInstant, Zone.DatesAdvance, Zone.Valid, Zone.Day, Search;
    if z.DatesAdvance() { StartIsFirstInstant(z, day); }
    SearchStarts(z, day);
    if Accepts(z, day) {
      return z.midnight(day);
    }
    r := Bisect(z, day, day * DAY - SEARCH_SPAN, day * DAY + SEARCH_SPAN);
  }

  lemma SearchStarts(z: Zone, day: int)
    requires z.Valid()
    ensures z.Day(day * DAY - SEARCH_SPAN - 1) < day <= z.Day(day * DAY + SEARCH_SPAN)
  {
    assert z.offset(day * DAY + SEARCH_SPAN) >= -SEARCH_SPAN && z.offset(day * DAY - SEARCH_SPAN - 1) <= SEARCH_SPAN;
  }

  method Bisect(z: Zone, day: int, from: int, to: int) returns (r: int)
    requires from <= to && day <= z.Day(to) && z.Day(from - 1) < day
    ensures r == Search(z, day, from, to)
  {
    hide Zone.Day;
    var lo, hi := from, to;
    while lo < hi
      invariant lo <= hi && day <= z.Day(hi) && z.Day(lo - 1) < day
      invariant Search(z, day, from, to) == Search(z, day, lo, hi)
    {
      SearchStep(z, day, lo, hi);
      hide Search;
      var mid := lo + (hi - lo) / 2;
      if day <= z.Day(mid) {
        hi := mid;
      } else {
        lo := mid + 1;
      }
    }
    return lo;
  }

  lemma SearchStep(z: Zone, day: int, lo: int, hi: int)
    requires lo < hi && day <= z.Day(hi) && z.Day(lo - 1) < day
    ensures var mid := lo + (hi - lo) / 2;
      if day <= z.Day(mid) then Search(z, day, lo, hi) == Search(z, day, lo, mid)
      else Search(z, day, lo, hi) == Search(z, day, mid + 1, hi)
  {
  }

  lemma FirstInstantsOrdered(z: Zone, a: int, b: int)
    requires z.Valid() && a <= b
    ensures FirstInstant(z, a) <= FirstInstant(z, b)
  {
  }

  /** First instant in `[t, end)` whose wall clock shows `want` or later, or else `end`. */
  ghost function SeekClock(z: Zone, want: int, t: int, end: int): (r: int)
    requires t <= end
    ensures t <= r <= end && (r < end ==> want <= z.Local(r))
    ensures forall u :: t <= u < r ==> z.Local(u) < want
    decreases end - t
  {
    if t == end || want <= z.Local(t) then t else SeekClock(z, want, t + 1, end)
  }

  lemma SeekClockIsLeast(z: Zone, want: int, t: int, end: int, r: int)
    requires t <= r <= end && (r < end ==> want <= z.Local(r))
    requires forall u :: t <= u < r ==> z.Local(u) < want
    ensures r == SeekClock(z, want, t, end)
  {
    var least := SeekClock(z, want, t, end);
    assert least < r ==> z.Local(least) < want;
  }

  /** When the clock of civil date `day` first reaches `minute`: a skipped time gives the next
  instant that exists, a repeated time its first occurrence. */
  ghost function ResetInstant(z: Zone, day: int, minute: int): (r: int)
    requires z.Valid()
    ensures FirstInstant(z, day) <= r <= FirstInstant(z, day + 1)
  {
    FirstInstantsOrdered(z, day, day + 1);
    SeekClock(z, day * DAY + 60 * minute, FirstInstant(z, day), FirstInstant(z, day + 1))
  }

  /** The reset of a civil date as it is computed: the first instant between the computed starts of the
  date and of the next one whose clock shows the minute or later, or else that next start. */
  ghost function ComputedReset(z: Zone, day: int, minute: int): int
    requires z.Valid()
  {
    var start, end := StartOf(z, day), StartOf(z, day + 1);
    if start < end then SeekClock(z, day * DAY + 60 * minute, start, end) else end
  }

  lemma ResetIsComputed(z: Zone, day: int, minute: int)
    requires z.Valid() && z.DatesAdvance()
    ensures ComputedReset(z, day, minute) == ResetInstant(z, day, minute)
  {
    StartIsFirstInstant(z, day);
    StartIsFirstInstant(z, day + 1);
    FirstInstantsOrdered(z, day, day + 1);
  }

  /** Walks the stretches of constant offset inside a civil date. */
  method WallTime(z: Zone, day: int, minute: int) returns (r: int)
    requires z.Valid()
    ensures r == ComputedReset(z, day, minute)
    ensures z.DatesAdvance() ==> r == ResetInstant(z, day, minute)
  {
    hide StartOf, ResetInstant, Zone.DatesAdvance, SplitsAt, FirstInstant, Zone.Day;
    if z.DatesAdvance() { ResetIsComputed(z, day, minute); }
    var start := DayStart(z, day);
    var end := DayStart(z, day + 1);
    r := Walk(z, day * DAY + 60 * minute, start, end);
  }

  method Walk(z: Zone, want: int, start: int, end: int) returns (r: int)
    requires z.Valid()
    ensures r == if start < end then SeekClock(z, want, start, end) else end
  {
    hide Zone.Day;
    var segment := start;
    while segment < end
      invariant start < end ==> segment <= end
      invariant start <= segment && forall u :: start <= u < segment ==> z.Local(u) < want
      decreases end - segment
    {
      var offset := z.offset(segment);
      assert z.Stretch(segment, z.next(segment));
      var boundary := match z.next(segment) case Never => end case At(b) => if end < b then end else b;
      var candidate := if want - offset < segment then segment else want - offset;
      assert forall u :: segment <= u < boundary ==> z.Local(u) == u + offset;
      if candidate < boundary {
        SeekClockIsLeast(z, want, start, end, candidate);
        return candidate;
      }
      segment := boundary;
    }
    if start < end { SeekClockIsLeast(z, want, start, end, end); }
    return end;
  }

  // ---- Periods ----

  /** When an allowance resets: at a minute of every day, or of one day of every month. */
  datatype Schedule = Daily(minute: int) | Monthly(day: int, minute: int) {

    /** The period, a day or a month, that a civil date belongs to. */
    function PeriodOf(date: int): int {
      match this
      case Daily(_) => date
      case Monthly(_, _) => MonthOf(date)
    }

    /** The civil date a period resets on; a month too short for the chosen day uses its last. */
    function ResetDate(period: int): int {
      match this
      case Daily(_) => period
      case Monthly(day, _) =>
        var wanted := if day < 1 then 1 else day;
        var last := MonthLength(period);
        MonthStart(period) + (if last < wanted then last else wanted) - 1
    }
  }

  ghost function Reset(z: Zone, s: Schedule, period: int): int
    requires z.Valid()
  {
    ResetInstant(z, s.ResetDate(period), s.minute)
  }

  /** The accounting window in force at `now`, half open. */
  ghost function WindowOf(z: Zone, s: Schedule, now: int): (int, int)
    requires z.Valid()
  {
    var period := s.PeriodOf(z.Day(now));
    var current := Reset(z, s, period);
    if now < current then (Reset(z, s, period - 1), current)
    else (current, Reset(z, s, period + 1))
  }

  /** The window as it is computed, in any zone and for any proposal. */
  ghost function ComputedWindow(z: Zone, s: Schedule, now: int): (int, int)
    requires z.Valid()
  {
    var period := s.PeriodOf(z.Day(now));
    var current := PeriodReset(z, s, period);
    if now < current then (PeriodReset(z, s, period - 1), current)
    else (current, PeriodReset(z, s, period + 1))
  }

  ghost function PeriodReset(z: Zone, s: Schedule, period: int): int
    requires z.Valid()
  {
    ComputedReset(z, s.ResetDate(period), s.minute)
  }

  lemma PeriodResetIsComputed(z: Zone, s: Schedule, period: int)
    requires z.Valid() && z.DatesAdvance()
    ensures PeriodReset(z, s, period) == Reset(z, s, period)
  {
    ResetIsComputed(z, s.ResetDate(period), s.minute);
    hide ComputedReset, ResetInstant, Schedule.ResetDate;
  }

  lemma WindowIsComputed(z: Zone, s: Schedule, now: int)
    requires z.Valid() && z.DatesAdvance()
    ensures ComputedWindow(z, s, now) == WindowOf(z, s, now)
  {
    hide PeriodReset, Reset, Schedule.PeriodOf, Zone.Valid, Zone.DatesAdvance, Zone.Day;
    var period := s.PeriodOf(z.Day(now));
    PeriodResetIsComputed(z, s, period - 1);
    PeriodResetIsComputed(z, s, period);
    PeriodResetIsComputed(z, s, period + 1);
  }

  method Window(z: Zone, s: Schedule, now: int) returns (start: int, end: int)
    requires z.Valid()
    ensures (start, end) == ComputedWindow(z, s, now)
    ensures z.DatesAdvance() ==> (start, end) == WindowOf(z, s, now)
  {
    hide Schedule.ResetDate, Schedule.PeriodOf, ResetInstant, ComputedReset;
    if z.DatesAdvance() { WindowIsComputed(z, s, now); }
    var period := s.PeriodOf(z.Day(now));
    var current := WallTime(z, s.ResetDate(period), s.minute);
    if now < current {
      start := WallTime(z, s.ResetDate(period - 1), s.minute);
      end := current;
    } else {
      start := current;
      end := WallTime(z, s.ResetDate(period + 1), s.minute);
    }
  }

  /** The first civil date of a period. */
  function PeriodStart(s: Schedule, period: int): int {
    match s
    case Daily(_) => period
    case Monthly(_, _) => MonthStart(period)
  }

  lemma DateInsidePeriod(s: Schedule, date: int)
    ensures PeriodStart(s, s.PeriodOf(date)) <= date < PeriodStart(s, s.PeriodOf(date) + 1)
  {
  }

  /** A period resets between its own first instant and the first instant of the next one. */
  lemma ResetInsidePeriod(z: Zone, s: Schedule, period: int)
    requires z.Valid()
    ensures FirstInstant(z, PeriodStart(s, period)) <= Reset(z, s, period)
            <= FirstInstant(z, PeriodStart(s, period + 1))
  {
    if s.Monthly? {
      NextMonth(period);
    }
    var date := s.ResetDate(period);
    assert PeriodStart(s, period) <= date < PeriodStart(s, period + 1);
    FirstInstantsOrdered(z, PeriodStart(s, period), date);
    FirstInstantsOrdered(z, date + 1, PeriodStart(s, period + 1));
  }

  lemma {:induction false} ResetsOrdered(z: Zone, s: Schedule, a: int, b: int)
    requires z.Valid() && a <= b
    ensures Reset(z, s, a) <= Reset(z, s, b)
    decreases b - a
  {
    if a < b {
      ResetInsidePeriod(z, s, a);
      ResetInsidePeriod(z, s, a + 1);
      ResetsOrdered(z, s, a + 1, b);
    }
  }

  /** `now` falls between two consecutive resets, and those are its window. */
  lemma {:induction false} WindowBetweenResets(z: Zone, s: Schedule, now: int) returns (i: int)
    requires z.Valid() && z.DatesAdvance()
    ensures WindowOf(z, s, now) == (Reset(z, s, i), Reset(z, s, i + 1))
    ensures Reset(z, s, i) <= now < Reset(z, s, i + 1)
  {
    hide MonthStart, MonthOf, Reset, PeriodStart, Schedule.PeriodOf;
    var date := z.Day(now);
    var period := s.PeriodOf(date);
    DateInsidePeriod(s, date);
    FirstInstantSplits(z, PeriodStart(s, period));
    FirstInstantSplits(z, PeriodStart(s, period + 1));
    i := if now < Reset(z, s, period) then period - 1 else period;
    assert FirstInstant(z, PeriodStart(s, period)) <= now < FirstInstant(z, PeriodStart(s, period + 1));
    ResetInsidePeriod(z, s, period - 1);
    ResetInsidePeriod(z, s, period + 1);
  }

  /** Windows tile time: each holds its instant, is the window of all its instants, and is
  followed without gap or overlap by the window that starts at its end. */
  lemma {:induction false} WindowsTileTime(z: Zone, s: Schedule, now: int)
    requires z.Valid() && z.DatesAdvance()
    ensures var (start, end) := WindowOf(z, s, now);
            && start <= now < end
            && (forall u :: start <= u < end ==> WindowOf(z, s, u) == (start, end))
            && WindowOf(z, s, end).0 == end
            && WindowOf(z, s, start - 1).1 == start
  {
    hide WindowOf, Reset;
    var i := WindowBetweenResets(z, s, now);
    var start, end := Reset(z, s, i), Reset(z, s, i + 1);
    forall u | start <= u < end ensures WindowOf(z, s, u) == (start, end) {
      var j := WindowBetweenResets(z, s, u);
      if i < j { ResetsOrdered(z, s, i + 1, j); }
      if j < i { ResetsOrdered(z, s, j + 1, i); }
    }
    var after := WindowBetweenResets(z, s, end);
    if after <= i { ResetsOrdered(z, s, after + 1, i + 1); } else { ResetsOrdered(z, s, i + 1, after); }
    var before := WindowBetweenResets(z, s, start - 1);
    if before < i { ResetsOrdered(z, s, before + 1, i); } else { ResetsOrdered(z, s, i, before); }
  }

  // ---- Windows and the calendar ----

  /** The first instant at which the wall clock shows `minute` of civil date `date` or later, in seconds since
  the civil epoch. */
  ghost predicate FirstShowing(z: Zone, date: int, minute: int, r: int) {
    86400 * date + 60 * minute <= z.Local(r) && forall t :: t < r ==> z.Local(t) < 86400 * date + 60 * minute
  }

  /** The date chosen for period `year`, `month`: that day of the Gregorian month, or its last one. */
  function ChosenDate(day: int, year: int, month: int): int
    requires 0 <= month < 12
  {
    var first, next := FirstOf(year, month), if month < 11 then FirstOf(year, month + 1) else FirstOf(year + 1, 0);
    if day < 1 then first else if next - first < day then next - 1 else first + day - 1
  }

  lemma ResetDateIsChosen(day: int, minute: int, year: int, month: int)
    requires 0 <= month < 12
    ensures Monthly(day, minute).ResetDate(12 * year + month) == ChosenDate(day, year, month)
  {
    hide MonthStart, MonthLength, FirstOf;
    NextMonth(12 * year + month);
    MonthStartIsGregorian(year, month);
    if month < 11 {
      MonthStartIsGregorian(year, month + 1);
    } else {
      MonthStartIsGregorian(year + 1, 0);
    }
  }

  lemma ResetIsFirstShowing(z: Zone, s: Schedule, period: int)
    requires z.Valid() && z.DatesAdvance() && 0 <= s.minute < 1440
    ensures FirstShowing(z, s.ResetDate(period), s.minute, Reset(z, s, period))
  {
    var date := s.ResetDate(period);
    FirstInstantSplits(z, date);
    FirstInstantSplits(z, date + 1);
    hide FirstInstant, Schedule.ResetDate, Zone.Valid, Zone.DatesAdvance;
    forall t | t < Reset(z, s, period) ensures z.Local(t) < 86400 * date + 60 * s.minute {
      if t < FirstInstant(z, date) {
        assert z.Day(t) < date;
      }
    }
    assert date + 1 <= z.Day(FirstInstant(z, date + 1));
  }

  ghost predicate SpansDate(z: Zone, minute: int, date: int, start: int, end: int) {
    FirstShowing(z, date, minute, start) && FirstShowing(z, date + 1, minute, end)
  }

  ghost predicate SpansMonth(z: Zone, day: int, minute: int, year: int, month: int, start: int, end: int) {
    && 0 <= month < 12 && FirstShowing(z, ChosenDate(day, year, month), minute, start)
    && FirstShowing(z, if month < 11 then ChosenDate(day, year, month + 1) else ChosenDate(day, year + 1, 0), minute, end)
  }

  lemma ResetsSpanMonth(z: Zone, day: int, minute: int, index: int, start: int, end: int)
    requires var s := Monthly(day, minute);
      FirstShowing(z, s.ResetDate(index), minute, start) && FirstShowing(z, s.ResetDate(index + 1), minute, end)
    ensures SpansMonth(z, day, minute, index / 12, index % 12, start, end)
  {
    hide Schedule.ResetDate, ChosenDate, FirstShowing;
    var year, month := index / 12, index % 12;
    ResetDateIsChosen(day, minute, year, month);
    if month < 11 {
      ResetDateIsChosen(day, minute, year, month + 1);
    } else {
      ResetDateIsChosen(day, minute, year + 1, 0);
    }
  }

  /** The window that is computed begins and ends at the chosen minute, as the clock first shows it: of two
  consecutive dates, or of the chosen days of two consecutive months; and it holds its instant. */
  lemma {:induction false} WindowsBeginOnTheChosenDay(z: Zone, s: Schedule, now: int)
    requires z.Valid() && z.DatesAdvance() && 0 <= s.minute < 1440
    ensures var (start, end) := ComputedWindow(z, s, now);
      && start <= now < end
      && match s
         case Daily(minute) => exists date :: SpansDate(z, minute, date, start, end)
         case Monthly(day, minute) => exists year, month :: SpansMonth(z, day, minute, year, month, start, end)
  {
    hide ComputedWindow, WindowOf, Reset, FirstShowing, Zone.Valid, Zone.DatesAdvance, SpansMonth, MonthStart;
    WindowIsComputed(z, s, now);
    var i := WindowBetweenResets(z, s, now);
    ResetIsFirstShowing(z, s, i);
    ResetIsFirstShowing(z, s, i + 1);
    if s.Monthly? {
      ResetsSpanMonth(z, s.day, s.minute, i, Reset(z, s, i), Reset(z, s, i + 1));
    } else {
      assert SpansDate(z, s.minute, i, Reset(z, s, i), Reset(z, s, i + 1));
    }
  }

  // ---- Windows and the clock on the wall ----

  const MINUTES := 1440

  /** What the clock shows when a period resets. */
  function Due(s: Schedule, period: int): int {
    s.ResetDate(period) * DAY + 60 * s.minute
  }

  /** The last period whose reset the clock shows as past. */
  function Label(z: Zone, s: Schedule, t: int): int {
    var period := s.PeriodOf(z.Day(t));
    if Due(s, period) <= z.Local(t) then period else period - 1
  }

  predicate Timely(s: Schedule) {
    0 <= s.minute < MINUTES
  }

  /** The clock never goes back across a reset. */
  ghost predicate ClockAdvances(z: Zone, s: Schedule) {
    forall t, u :: t <= u ==> Label(z, s, t) <= Label(z, s, u)
  }

  ghost predicate Holds(z: Zone, s: Schedule, now: int, t: int)
    requires z.Valid()
  {
    ComputedWindow(z, s, now).0 <= t < ComputedWindow(z, s, now).1
  }

  /** The computed window of every instant holds exactly the instants at which the clock shows the same
  resets as past. */
  ghost predicate FollowsTheClock(z: Zone, s: Schedule)
    requires z.Valid()
  {
    forall now, t :: Holds(z, s, now, t) <==> Label(z, s, t) == Label(z, s, now)
  }

  /** The clock never falls back by a day or more into the first minute of a date. */
  ghost predicate NoReentry(z: Zone) {
    forall t :: z.Local(t) % DAY < 60 ==> z.Day(t - 1) <= z.Day(t)
  }

  lemma {:induction false} PeriodStartsIncrease(s: Schedule, a: int, b: int)
    requires a <= b
    ensures PeriodStart(s, a) <= PeriodStart(s, b)
  {
    if s.Monthly? {
      MonthStartsIncrease(a, b);
    }
  }

  lemma DueInsidePeriod(s: Schedule, period: int)
    requires Timely(s)
    ensures PeriodStart(s, period) <= s.ResetDate(period) < PeriodStart(s, period + 1)
    ensures PeriodStart(s, period) * DAY <= Due(s, period) < PeriodStart(s, period + 1) * DAY
    ensures s.ResetDate(period) * DAY <= Due(s, period) < (s.ResetDate(period) + 1) * DAY
  {
    if s.Monthly? {
      NextMonth(period);
    }
  }

  /** A period's reset is past on the clock iff the clock reads its moment or later. */
  lemma {:induction false} LabelReached(z: Zone, s: Schedule, t: int, period: int)
    requires Timely(s)
    ensures period <= Label(z, s, t) <==> Due(s, period) <= z.Local(t)
  {
    var date := z.Day(t);
    var own := s.PeriodOf(date);
    DateInsidePeriod(s, date);
    DueInsidePeriod(s, period);
    hide MonthStart, MonthOf, PeriodStart, Schedule.PeriodOf, Schedule.ResetDate, Due;
    if period < own {
      PeriodStartsIncrease(s, period + 1, own);
    } else if own < period {
      PeriodStartsIncrease(s, own + 1, period);
    }
  }

  /** At a computed reset the clock reads its moment or later. */
  lemma ResetIsDue(z: Zone, s: Schedule, period: int)
    requires z.Valid() && Timely(s)
    ensures Due(s, period) <= z.Local(PeriodReset(z, s, period))
  {
    DueInsidePeriod(s, period);
    var date := s.ResetDate(period);
    assert date + 1 <= z.Day(StartOf(z, date + 1));
    hide Schedule.ResetDate, PeriodStart;
  }

  /** Windows that follow the clock leave it no way back. */
  lemma {:induction false} FollowedClockAdvances(z: Zone, s: Schedule, t: int, u: int)
    requires z.Valid() && Timely(s) && FollowsTheClock(z, s) && t <= u
    ensures Label(z, s, t) <= Label(z, s, u)
    decreases u - t
  {
    hide Schedule.ResetDate, Schedule.PeriodOf, PeriodReset, Due;
    assert Holds(z, s, t, t);
    var end := ComputedWindow(z, s, t).1;
    var own := s.PeriodOf(z.Day(t));
    if u < end {
      assert Holds(z, s, t, u);
    } else {
      var next := if t < PeriodReset(z, s, own) then own else own + 1;
      assert end == PeriodReset(z, s, next);
      ResetIsDue(z, s, next);
      LabelReached(z, s, end, next);
      FollowedClockAdvances(z, s, end, u);
    }
  }

  lemma AdvancedTo(z: Zone, s: Schedule, t: int, period: int)
    requires Timely(s) && ClockAdvances(z, s) && Due(s, period) <= z.Local(t - 1)
    ensures Due(s, period) <= z.Local(t)
  {
    LabelReached(z, s, t - 1, period);
    LabelReached(z, s, t, period);
    assert Label(z, s, t - 1) <= Label(z, s, t);
    hide Label, Due;
  }

  /** Under an advancing clock a reset date is entered from an earlier date at its computed start. */
  lemma StartIsEntered(z: Zone, s: Schedule, period: int)
    requires z.Valid() && Timely(s) && ClockAdvances(z, s) && (s.Daily? || 1 <= s.minute || NoReentry(z))
    ensures var date := s.ResetDate(period); z.Day(StartOf(z, date) - 1) < date
  {
    hide MonthStart, MonthOf, PeriodStart, Schedule.PeriodOf, MonthLength;
    var date := s.ResetDate(period);
    var start := StartOf(z, date);
    DueInsidePeriod(s, period);
    if date < z.Day(start - 1) {
      AdvancedTo(z, s, start, period);
      if s.Daily? {
        AdvancedTo(z, s, start, period + 1);
      }
    }
    assert Accepts(z, date) ==> start == z.midnight(date);
    hide StartOf, ClockAdvances, Label;
  }

  /** Just before each computed reset the clock has not reached its moment. */
  ghost predicate ResetsAreFirst(z: Zone, s: Schedule)
    requires z.Valid()
  {
    forall period :: z.Local(PeriodReset(z, s, period) - 1) < Due(s, period)
  }

  lemma ResetLies(z: Zone, day: int, minute: int)
    requires z.Valid()
    ensures var (start, end, r) := (StartOf(z, day), StartOf(z, day + 1), ComputedReset(z, day, minute));
      if start < end then start <= r <= end && (start < r ==> z.Local(r - 1) < day * DAY + 60 * minute) else r == end
  {
    hide StartOf;
  }

  /** Under an advancing clock a computed reset comes first if its date is entered at its computed start. */
  lemma EnteredResetComesFirst(z: Zone, s: Schedule, period: int)
    requires z.Valid() && Timely(s) && ClockAdvances(z, s)
    requires var date := s.ResetDate(period); z.Day(StartOf(z, date) - 1) < date
    ensures z.Local(PeriodReset(z, s, period) - 1) < Due(s, period)
  {
    hide Schedule.ResetDate, Label, StartOf, ComputedReset, Zone.Valid, PeriodStart, ClockAdvances;
    var date, r := s.ResetDate(period), PeriodReset(z, s, period);
    var start := StartOf(z, date);
    DueInsidePeriod(s, period);
    ResetLies(z, date, s.minute);
    if r <= start {
      LabelReached(z, s, r - 1, period);
      LabelReached(z, s, start - 1, period);
      LabelsAdvance(z, s, r - 1, start - 1);
    }
  }

  lemma LabelsAdvance(z: Zone, s: Schedule, t: int, u: int)
    requires ClockAdvances(z, s) && t <= u
    ensures Label(z, s, t) <= Label(z, s, u)
  {
  }

  /** A midnight that is proposed for a reset date, and accepted, enters the date from an earlier one; or the
  start of the next date is computed before it, and enters from an earlier one still. */
  predicate Enters(z: Zone, date: int, next: int) {
    Accepts(z, date) ==> z.Day(z.midnight(date) - 1) < date || (next <= z.midnight(date) && z.Day(next - 1) < date)
  }

  ghost predicate ProposalsEnter(z: Zone, s: Schedule)
    requires z.Valid()
  {
    forall period :: Enters(z, s.ResetDate(period), StartOf(z, s.ResetDate(period) + 1))
  }

  lemma AcceptedIsStart(z: Zone, day: int)
    requires z.Valid()
    ensures Accepts(z, day) ==> StartOf(z, day) == z.midnight(day)
  {
  }

  lemma FirstMinuteResets(z: Zone, day: int)
    requires z.Valid()
    ensures var (start, end) := (StartOf(z, day), StartOf(z, day + 1));
      ComputedReset(z, day, 0) == if start < end then start else end
  {
    hide Search;
  }

  lemma EnteringComesFirst(z: Zone, s: Schedule, period: int)
    requires z.Valid() && Timely(s) && ClockAdvances(z, s)
    requires Enters(z, s.ResetDate(period), StartOf(z, s.ResetDate(period) + 1))
    ensures z.Local(PeriodReset(z, s, period) - 1) < Due(s, period)
  {
    hide Schedule.ResetDate, StartOf, ComputedReset, ClockAdvances, Zone.Valid, Accepts, PeriodStart;
    var date := s.ResetDate(period);
    var start := StartOf(z, date);
    AcceptedIsStart(z, date);
    if z.Day(start - 1) < date {
      EnteredResetComesFirst(z, s, period);
    } else {
      DueInsidePeriod(s, period);
      ResetLies(z, date, s.minute);
    }
  }

  lemma ComingFirstEnters(z: Zone, s: Schedule, period: int)
    requires z.Valid() && Timely(s) && ClockAdvances(z, s)
    requires z.Local(PeriodReset(z, s, period) - 1) < Due(s, period)
    ensures Enters(z, s.ResetDate(period), StartOf(z, s.ResetDate(period) + 1))
  {
    hide Schedule.ResetDate, StartOf, ComputedReset, ClockAdvances, Zone.Valid, Accepts, PeriodStart;
    var date := s.ResetDate(period);
    AcceptedIsStart(z, date);
    if s.Daily? || 1 <= s.minute {
      StartIsEntered(z, s, period);
    } else {
      FirstMinuteResets(z, date);
    }
  }

  lemma FirstIffEntering(z: Zone, s: Schedule)
    requires z.Valid() && Timely(s) && ClockAdvances(z, s)
    ensures ResetsAreFirst(z, s) <==> ProposalsEnter(z, s)
  {
    hide Zone.Valid, PeriodReset, Due, Zone.Local, StartOf, Schedule.ResetDate, ClockAdvances, Enters;
    if ResetsAreFirst(z, s) {
      forall period ensures Enters(z, s.ResetDate(period), StartOf(z, s.ResetDate(period) + 1)) {
        ComingFirstEnters(z, s, period);
      }
    }
    if ProposalsEnter(z, s) {
      forall period ensures z.Local(PeriodReset(z, s, period) - 1) < Due(s, period) {
        EnteringComesFirst(z, s, period);
      }
    }
  }

  /** Under an advancing clock every computed reset comes first, but for a monthly one in the first minute of
  a date. */
  lemma ResetComesFirst(z: Zone, s: Schedule, period: int)
    requires z.Valid() && Timely(s) && ClockAdvances(z, s) && (s.Daily? || 1 <= s.minute || NoReentry(z))
    ensures z.Local(PeriodReset(z, s, period) - 1) < Due(s, period)
  {
    StartIsEntered(z, s, period);
    hide ClockAdvances, StartOf, NoReentry, PeriodReset;
    EnteredResetComesFirst(z, s, period);
  }

  /** Under an advancing clock a computed reset that comes first splits the instants by what it shows. */
  lemma ResetSplitsLabels(z: Zone, s: Schedule, period: int, t: int)
    requires z.Valid() && Timely(s) && ClockAdvances(z, s)
    requires z.Local(PeriodReset(z, s, period) - 1) < Due(s, period)
    ensures PeriodReset(z, s, period) <= t <==> period <= Label(z, s, t)
  {
    var r := PeriodReset(z, s, period);
    ResetIsDue(z, s, period);
    LabelReached(z, s, r - 1, period);
    LabelReached(z, s, r, period);
    hide Schedule.ResetDate, Due, Label, PeriodReset;
  }

  lemma LabelIsNear(z: Zone, s: Schedule, now: int)
    ensures var own := s.PeriodOf(z.Day(now)); own - 1 <= Label(z, s, now) <= own
  {
  }

  lemma FirstResetsAreFollowed(z: Zone, s: Schedule)
    requires z.Valid() && Timely(s) && ClockAdvances(z, s) && ResetsAreFirst(z, s)
    ensures FollowsTheClock(z, s)
  {
    hide ClockAdvances, ResetsAreFirst, Holds, Label, Zone.Valid;
    forall now, t ensures Holds(z, s, now, t) <==> Label(z, s, t) == Label(z, s, now) {
      ResetsAround(z, s, now, t);
    }
  }

  lemma ResetsAround(z: Zone, s: Schedule, now: int, t: int)
    requires z.Valid() && Timely(s) && ClockAdvances(z, s) && ResetsAreFirst(z, s)
    ensures Holds(z, s, now, t) <==> Label(z, s, t) == Label(z, s, now)
  {
    hide ClockAdvances, PeriodReset, Label, Due, Zone.Local, Zone.Day, Schedule.PeriodOf, Zone.Valid;
    LabelIsNear(z, s, now);
    var own := s.PeriodOf(z.Day(now));
    ResetSplitsLabels(z, s, own - 1, t);
    ResetSplitsLabels(z, s, own, t);
    ResetSplitsLabels(z, s, own + 1, t);
    ResetSplitsLabels(z, s, own, now);
  }

  lemma MonthlyResetsLieApart(s: Schedule, month: int)
    requires s.Monthly?
    ensures s.ResetDate(month) + 28 <= s.ResetDate(month + 1)
  {
    NextMonth(month);
    NextMonth(month + 1);
  }

  /** A computed monthly reset lies before the clock shows the next one. */
  lemma ResetIsNotNext(z: Zone, s: Schedule, month: int)
    requires z.Valid() && Timely(s) && s.Monthly?
    ensures z.Local(PeriodReset(z, s, month)) < Due(s, month + 1)
  {
    var date, r := s.ResetDate(month), PeriodReset(z, s, month);
    var end := StartOf(z, date + 1);
    MonthlyResetsLieApart(s, month);
    hide Schedule.ResetDate;
    assert r <= end;
    assert -SEARCH_SPAN <= z.offset(end) && z.offset(r) <= SEARCH_SPAN;
    StartIsNear(z, date + 1);
  }

  lemma StartIsNear(z: Zone, day: int)
    requires z.Valid()
    ensures StartOf(z, day) <= (day + 1) * DAY + SEARCH_SPAN
  {
    var guess := z.midnight(day);
    assert -SEARCH_SPAN <= z.offset(guess) <= SEARCH_SPAN;
    hide Search;
  }

  lemma MonthIsShown(z: Zone, month: int)
    requires z.Valid()
    ensures MonthOf(z.Day((MonthStart(month) + 14) * DAY)) == month
  {
    var t := (MonthStart(month) + 14) * DAY;
    NextMonth(month);
    hide MonthStart, MonthOf;
    assert -SEARCH_SPAN <= z.offset(t) <= SEARCH_SPAN;
    assert MonthStart(month) + 12 <= z.Day(t) <= MonthStart(month) + 16;
    hide Zone.Day;
    MonthOfIsUnique(z.Day(t), month);
  }

  /** Windows that follow the clock begin at its first showing of each reset. */
  lemma {:induction false} FollowedResetComesFirst(z: Zone, s: Schedule, month: int)
    requires z.Valid() && Timely(s) && s.Monthly? && FollowsTheClock(z, s) && ClockAdvances(z, s)
    ensures z.Local(PeriodReset(z, s, month) - 1) < Due(s, month)
  {
    hide MonthStart, MonthOf, Schedule.ResetDate, PeriodReset, Due, Label, Zone.Day, Zone.Valid, Zone.Local;
    var now := (MonthStart(month) + 14) * DAY;
    var r := PeriodReset(z, s, month);
    MonthIsShown(z, month);
    ResetIsDue(z, s, month);
    ResetIsNotNext(z, s, month);
    LabelReached(z, s, r - 1, month);
    LabelReached(z, s, r, month);
    LabelReached(z, s, r, month + 1);
    LabelIsNear(z, s, now);
    assert Label(z, s, r - 1) <= Label(z, s, r);
    assert r <= now ==> Label(z, s, r) <= Label(z, s, now);
    assert Holds(z, s, now, now) && (Holds(z, s, now, r) <==> Label(z, s, r) == Label(z, s, now));
    assert Holds(z, s, now, r - 1) <==> Label(z, s, r - 1) == Label(z, s, now);
  }

  /** The windows that are computed, whatever the library proposes as midnight, agree with the clock on the
  wall iff the clock never goes back across a reset and each accepted proposal for a reset date enters it
  from before: for every minute and every period. The second is only in question for a monthly reset in the
  first minute of a date, and there only where a clock falls back by a day into such a minute. */
  lemma {:induction false} WindowsFollowTheClockIff(z: Zone, s: Schedule)
    requires z.Valid() && Timely(s)
    ensures FollowsTheClock(z, s) <==> ClockAdvances(z, s) && ProposalsEnter(z, s)
    ensures s.Daily? || 1 <= s.minute || NoReentry(z) ==> (FollowsTheClock(z, s) <==> ClockAdvances(z, s))
  {
    hide Zone.Valid, FollowsTheClock, PeriodReset, Due, Label, NoReentry, Zone.Local, ProposalsEnter;
    if FollowsTheClock(z, s) {
      forall t, u | t <= u ensures Label(z, s, t) <= Label(z, s, u) {
        FollowedClockAdvances(z, s, t, u);
      }
    }
    if ClockAdvances(z, s) && (s.Daily? || 1 <= s.minute || NoReentry(z)) {
      forall period ensures z.Local(PeriodReset(z, s, period) - 1) < Due(s, period) {
        ResetComesFirst(z, s, period);
      }
    } else if FollowsTheClock(z, s) {
      forall period ensures z.Local(PeriodReset(z, s, period) - 1) < Due(s, period) {
        FollowedResetComesFirst(z, s, period);
      }
    }
    if ClockAdvances(z, s) {
      FirstIffEntering(z, s);
      if ResetsAreFirst(z, s) {
        FirstResetsAreFollowed(z, s);
      }
    }
  }

  lemma MidnightLabelIsDate(z: Zone, t: int)
    ensures Label(z, Daily(0), t) == z.Day(t)
  {
  }

  /** For midnight resets the clock is the civil date: those windows are the civil dates, for every
  proposal, iff the dates of the zone never go back. */
  lemma MidnightWindowsAreDatesIff(z: Zone)
    requires z.Valid()
    ensures FollowsTheClock(z, Daily(0)) <==> z.DatesAdvance()
    ensures forall t :: Label(z, Daily(0), t) == z.Day(t)
  {
    hide FollowsTheClock, Zone.Valid, ProposalsEnter, Label, Zone.Day, NoReentry;
    WindowsFollowTheClockIff(z, Daily(0));
    forall t ensures Label(z, Daily(0), t) == z.Day(t) {
      MidnightLabelIsDate(z, t);
    }
  }

  /** A zone that falls back from 00:01 to 23:01, sixty seconds into the epoch. */
  const FALLS_BACK_ACROSS_MIDNIGHT := Zone(
    (t: int) => if t < 60 then 0 else -3600,
    (t: int) => if t < 60 then At(60) else Never,
    (day: int) => day * DAY)

  /** There the computed window of an instant can end before it. */
  lemma DailyWindowCanMissItsInstant()
    ensures FALLS_BACK_ACROSS_MIDNIGHT.Valid()
    ensures ComputedWindow(FALLS_BACK_ACROSS_MIDNIGHT, Daily(0), 100).1 < 100
  {
    var z := FALLS_BACK_ACROSS_MIDNIGHT;
    forall t ensures z.Stretch(t, z.next(t)) {
    }
    assert z.Day(100) == -1 && z.Day(-1) == -1 && z.Day(-DAY - 1) == -2;
    assert Accepts(z, 0) && Accepts(z, -1);
    assert StartOf(z, 0) == 0 && StartOf(z, -1) == -DAY;
    assert 1 <= z.Day(StartOf(z, 1));
    SeekClockIsLeast(z, 0, 0, StartOf(z, 1), 0);
    SeekClockIsLeast(z, -DAY, -DAY, 0, -DAY);
    assert PeriodReset(z, Daily(0), 0) == 0;
    assert PeriodReset(z, Daily(0), -1) == -DAY;
  }

  /** A zone that falls back from 01:00 on the second of January to the first instant of the first. */
  const FALLS_BACK_A_DAY := Zone(
    (t: int) => if t < 90000 then 0 else -90000,
    (t: int) => if t < 90000 then At(90000) else Never,
    (day: int) => if day == 0 then 90000 else day * DAY)

  lemma FallsBackADay()
    ensures FALLS_BACK_A_DAY.Valid() && !NoReentry(FALLS_BACK_A_DAY)
  {
    var z := FALLS_BACK_A_DAY;
    forall t ensures z.Stretch(t, z.next(t)) {
    }
    assert z.Local(90000) % DAY < 60 && z.Day(90000 - 1) == 1 && z.Day(90000) == 0;
  }

  lemma EpochMonth()
    ensures MonthStart(EPOCH_MONTH) == 0 && MonthStart(EPOCH_MONTH + 1) == 31 && MonthStart(EPOCH_MONTH - 1) == -31
    ensures MonthOf(0) == EPOCH_MONTH && MonthOf(-1) == EPOCH_MONTH - 1
  {
    NextMonth(EPOCH_MONTH);
    NextMonth(EPOCH_MONTH - 1);
    MonthOfIsUnique(0, EPOCH_MONTH);
    MonthOfIsUnique(-1, EPOCH_MONTH - 1);
  }

  lemma MonthsAdvance(t: int, u: int)
    requires t <= u
    ensures var s := Monthly(1, 0); Label(FALLS_BACK_A_DAY, s, t) <= Label(FALLS_BACK_A_DAY, s, u)
  {
    var z, s, m := FALLS_BACK_A_DAY, Monthly(1, 0), EPOCH_MONTH;
    var p := Label(z, s, t);
    EpochMonth();
    LabelReached(z, s, t, p);
    LabelReached(z, s, u, p);
    hide MonthOf, MonthStart, Label;
    if m < p {
      MonthStartsIncrease(m + 1, p);
    } else {
      MonthStartsIncrease(p, m);
    }
  }

  lemma FirstMonthsReset()
    requires FALLS_BACK_A_DAY.Valid()
    ensures PeriodReset(FALLS_BACK_A_DAY, Monthly(1, 0), EPOCH_MONTH) == DAY
    ensures PeriodReset(FALLS_BACK_A_DAY, Monthly(1, 0), EPOCH_MONTH - 1) <= -1
  {
    EpochMonth();
    SecondBeginning();
    hide MonthOf, MonthStart, ComputedReset, Zone.Valid;
  }

  lemma FirstMonthsLabels()
    ensures Label(FALLS_BACK_A_DAY, Monthly(1, 0), 0) == EPOCH_MONTH && Label(FALLS_BACK_A_DAY, Monthly(1, 0), -1) == EPOCH_MONTH - 1
    ensures Monthly(1, 0).PeriodOf(FALLS_BACK_A_DAY.Day(0)) == EPOCH_MONTH
  {
    EpochMonth();
    hide MonthOf, MonthStart;
    assert FALLS_BACK_A_DAY.Day(0) == 0 && FALLS_BACK_A_DAY.Day(-1) == -1;
  }

  /** There the clock never goes back across the first of a month, but the library may propose the second
  beginning of that date, and the windows that are computed do not follow the clock. */
  lemma MonthlyMidnightNeedsNoReentry()
    ensures FALLS_BACK_A_DAY.Valid() && !NoReentry(FALLS_BACK_A_DAY)
    ensures ClockAdvances(FALLS_BACK_A_DAY, Monthly(1, 0)) && !FollowsTheClock(FALLS_BACK_A_DAY, Monthly(1, 0))
  {
    var z, s := FALLS_BACK_A_DAY, Monthly(1, 0);
    FallsBackADay();
    hide Zone.Valid, NoReentry, Label, PeriodReset, Schedule.PeriodOf, Zone.Day;
    forall t, u | t <= u ensures Label(z, s, t) <= Label(z, s, u) {
      MonthsAdvance(t, u);
    }
    FirstMonthsReset();
    FirstMonthsLabels();
    assert Holds(z, s, 0, -1);
  }

  lemma SecondBeginning()
    requires FALLS_BACK_A_DAY.Valid()
    ensures ComputedReset(FALLS_BACK_A_DAY, 0, 0) == DAY && ComputedReset(FALLS_BACK_A_DAY, -31, 0) <= -1
  {
    var z := FALLS_BACK_A_DAY;
    assert z.Day(90000) == 0 && z.Local(90000) == 0 && z.Day(90000 - 1) == 1;
    assert Accepts(z, 0) && StartOf(z, 0) == 90000;
    assert z.Day(DAY) == 1 && z.Local(DAY) == DAY && z.Day(DAY - 1) == 0;
    assert Accepts(z, 1) && StartOf(z, 1) == DAY;
    assert z.Local(-30 * DAY) == -30 * DAY && z.Day(-30 * DAY) == -30 && z.Day(-30 * DAY - 1) == -31;
    assert Accepts(z, -30) && StartOf(z, -30) == -30 * DAY;
  }
}
