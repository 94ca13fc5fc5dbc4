/** The bounds of a civil day that the daily limit of resets is counted between. */
module ResetDays {

  import opened CivilDates
  import opened Calendar

  const NOON_MARGIN := 129600

  function DateSearch(z: Zone, date: int, low: int, high: int): (r: int)
    requires low <= high
    ensures low <= r <= high
    decreases high - low
  {
    if low == high then low
    else
      var middle := low + (high - low) / 2;
      if z.Day(middle) < date then DateSearch(z, date, middle + 1, high) else DateSearch(z, date, low, middle)
  }

  /** The start of the civil date of `noon`, searched for in the day and a half before it. */
  function DateStart(z: Zone, noon: int): (r: int)
    ensures noon - NOON_MARGIN <= r <= noon
  {
    DateSearch(z, z.Day(noon), noon - NOON_MARGIN, noon)
  }

  method CivilStart(z: Zone, noon: int) returns (r: int)
    ensures r == DateStart(z, noon)
  {
    var date := z.Day(noon);
    var low, high := noon - NOON_MARGIN, noon;
    while low < high
      invariant low <= high && DateSearch(z, date, low, high) == DateStart(z, noon)
    {
      var middle := low + (high - low) / 2;
      if z.Day(middle) < date {
        low := middle + 1;
      } else {
        high := middle;
      }
    }
    r := low;
  }

  lemma {:induction false} DateSearchFinds(z: Zone, date: int, low: int, high: int)
    requires low <= high && date <= z.Day(high) && z.Day(low - 1) < date
    ensures var r := DateSearch(z, date, low, high); z.Day(r - 1) < date <= z.Day(r)
    decreases high - low
  {
    if low < high {
      var middle := low + (high - low) / 2;
      if z.Day(middle) < date {
        DateSearchFinds(z, date, middle + 1, high);
      } else {
        DateSearchFinds(z, date, low, middle);
      }
    }
  }

  /** The search finds the first instant of the date iff the span it searches does not begin within it. */
  lemma {:induction false} DateStartSplitsIff(z: Zone, noon: int)
    requires z.DatesAdvance()
    ensures SplitsAt(z, z.Day(noon), DateStart(z, noon)) <==> z.Day(noon - 129600 - 1) < z.Day(noon)
  {
    if z.Day(noon - 129600 - 1) < z.Day(noon) {
      DateSearchFinds(z, z.Day(noon), noon - 129600, noon);
    }
  }

  /** The instants the library proposes for noon of the present civil date and of the one after. */
  datatype Noons = Noons(today: int, tomorrow: int)

  datatype Span = Span(start: int, end: int) {
    predicate Holds(t: int) {
      start <= t < end
    }
  }

  function BoundsOf(z: Zone, n: Noons): Span {
    Span(DateStart(z, n.today), DateStart(z, n.tomorrow))
  }

  method DayBounds(z: Zone, n: Noons) returns (start: int, end: int)
    ensures Span(start, end) == BoundsOf(z, n)
  {
    start := CivilStart(z, n.today);
    end := CivilStart(z, n.tomorrow);
  }

  predicate Searchable(z: Zone, n: Noons) {
    && z.Day(n.today - 129600 - 1) < z.Day(n.today)
    && z.Day(n.tomorrow - 129600 - 1) < z.Day(n.tomorrow)
  }

  /** The proposals are on the present date and on the next date there is. */
  ghost predicate Consecutive(z: Zone, now: int, n: Noons) {
    && z.Day(n.today) == z.Day(now) < z.Day(n.tomorrow)
    && forall t :: z.Day(t) <= z.Day(now) || z.Day(n.tomorrow) <= z.Day(t)
  }

  /** The bounds hold exactly the instants of the present civil date iff the proposed noons are on that
  date and on the next one there is. */
  lemma {:induction false} BoundsAreTheDayIff(z: Zone, now: int, n: Noons)
    requires z.DatesAdvance() && Searchable(z, n)
    ensures (forall t :: BoundsOf(z, n).Holds(t) <==> z.Day(t) == z.Day(now)) <==> Consecutive(z, now, n)
  {
    var b := BoundsOf(z, n);
    DateStartSplitsIff(z, n.today);
    DateStartSplitsIff(z, n.tomorrow);
    hide DateStart;
    if forall t :: b.Holds(t) <==> z.Day(t) == z.Day(now) {
      assert b.Holds(now);
      assert z.Day(n.today) <= z.Day(now) < z.Day(n.tomorrow);
      assert b.Holds(n.today);
      forall t ensures z.Day(t) <= z.Day(now) || z.Day(n.tomorrow) <= z.Day(t) {
        if z.Day(now) < z.Day(t) {
          assert now <= t;
          assert !b.Holds(t);
        }
      }
    }
    if Consecutive(z, now, n) {
      forall t ensures b.Holds(t) <==> z.Day(t) == z.Day(now) {
        assert b.start <= t <==> z.Day(n.today) <= z.Day(t);
        assert b.end <= t <==> z.Day(n.tomorrow) <= z.Day(t);
      }
    }
  }

  /** The bounds leave out no instant of the present date up to now. */
  ghost predicate CoversToday(z: Zone, now: int, n: Noons) {
    forall t :: t <= now && z.Day(t) == z.Day(now) ==> BoundsOf(z, n).Holds(t)
  }

  /** Whatever was proposed, the two computed bounds tell whether they do; and where the searches find
  their dates, that is where the proposed noons lie on either side of midnight. */
  lemma {:induction false} CoversTodayIff(z: Zone, now: int, n: Noons)
    requires z.DatesAdvance()
    ensures CoversToday(z, now, n) <==> z.Day(BoundsOf(z, n).start - 1) < z.Day(now) && now < BoundsOf(z, n).end
    ensures Searchable(z, n) ==> (CoversToday(z, now, n) <==> z.Day(n.today) <= z.Day(now) < z.Day(n.tomorrow))
  {
    var b := BoundsOf(z, n);
    DateStartSplitsIff(z, n.today);
    DateStartSplitsIff(z, n.tomorrow);
    hide DateStart;
    if CoversToday(z, now, n) {
      assert b.Holds(now);
      assert !b.Holds(b.start - 1);
    }
  }
}
