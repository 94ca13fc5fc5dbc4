/** Allowance rules: who may spend how much in which accounting window. */
module Allowances {
  import opened Calendar

  // ---- Rules as they are stored ----

  /** Accounting unit of a ledger entry. */
  datatype Unit = Tokens | Amount

  datatype Mode = TokenMode | AmountMode | RatioMode | WindowMode

  datatype Period = Civil(schedule: Schedule) | Durations

  /** A limit for one duration. */
  datatype Condition = Condition(seconds: int, limit: int)

  datatype Share = Share(user: int, limit: int, overrides: seq<Condition>)

  /** Micro-dollars per million tokens. */
  datatype Rate = Rate(model: string, input: int, cached: int, output: int)

  datatype Config = Config(
    mode: Mode,
    period: Period,
    members: seq<Share>,
    rates: seq<Rate>,
    ratioUnit: Unit,
    windows: seq<Condition>,
    total: int)

  datatype Revision = Revision(id: int, effectiveAt: int, anchor: int, config: Config)

  /** An accounting window; `seconds` is 0 for a day or a month. */
  datatype Window = Window(start: int, end: int, seconds: int, limit: int) {
    predicate Holds(t: int) {
      start <= t < end
    }

    /** The same stretch of time under the same condition, whatever its limit. */
    predicate SameSpan(other: Window) {
      start == other.start && end == other.end && seconds == other.seconds
    }
  }

  const MAX_LIMIT := 1_000_000_000_000
  const MAX_TOKENS := 1_000_000_000
  const FULL_SHARE := 10000

  function EntryUnit(c: Config): Unit {
    match c.mode
    case RatioMode => c.ratioUnit
    case WindowMode => Amount
    case AmountMode => Amount
    case TokenMode => Tokens
  }

  /** Rounded down, so that shares of a total never add up to more than it. */
  function RatioLimit(total: int, share: int): int {
    total * share / FULL_SHARE
  }

  function LimitFor(conditions: seq<Condition>, seconds: int, otherwise: int): int {
    if conditions == [] then otherwise
    else if conditions[0].seconds == seconds then conditions[0].limit
    else LimitFor(conditions[1..], seconds, otherwise)
  }

  function MemberLimit(c: Config, m: Share, w: Window): int {
    match c.mode
    case RatioMode => RatioLimit(if c.period.Durations? then w.limit else c.total, m.limit)
    case WindowMode => LimitFor(m.overrides, w.seconds, w.limit)
    case _ => m.limit
  }

  /** Only a zero limit of a time-window rule means no limit. */
  predicate Unlimited(c: Config, limit: int) {
    c.mode.WindowMode? && limit == 0
  }

  /** A tenth of the limit, rounded up, and never nothing. */
  function Reservation(limit: int): int {
    var tenth := (limit + 9) / 10;
    if 1 < tenth then tenth else 1
  }

  function WindowTotal(c: Config, w: Window): int {
    if c.period.Durations? then w.limit else c.total
  }

  // ---- What normalisation accepts ----

  predicate DistinctSeconds(conditions: seq<Condition>) {
    forall i, j :: 0 <= i < j < |conditions| ==> conditions[i].seconds != conditions[j].seconds
  }

  predicate DistinctUsers(members: seq<Share>) {
    forall i, j :: 0 <= i < j < |members| ==> members[i].user != members[j].user
  }

  predicate ValidMemberLimit(c: Config, m: Share) {
    && 0 < m.user && 0 <= m.limit <= MAX_LIMIT
    && match c.mode
       case RatioMode =>
         && 0 < m.limit <= FULL_SHARE && m.overrides == []
         && (if c.period.Durations?
             then forall w <- c.windows :: 0 < RatioLimit(w.limit, m.limit)
             else 0 < RatioLimit(c.total, m.limit))
       case WindowMode =>
         && m.limit == 0 && DistinctSeconds(m.overrides)
         && (forall o <- m.overrides :: 0 <= o.limit <= MAX_LIMIT)
       case _ => 0 < m.limit && m.overrides == []
  }

  function ShareSum(members: seq<Share>): int {
    if members == [] then 0 else members[0].limit + ShareSum(members[1..])
  }

  predicate ValidRate(r: Rate) {
    0 < r.input <= MAX_TOKENS && 0 <= r.cached <= MAX_TOKENS && 0 < r.output <= MAX_TOKENS
  }

  /** The rules a configuration meets before it is stored in a revision. */
  predicate Accepted(c: Config) {
    && 0 < |c.members| <= 100 && |c.rates| <= 4096
    && (c.period.Durations? ==> c.mode.WindowMode? || c.mode.RatioMode?)
    && (c.period.Civil? ==> !c.mode.WindowMode? && c.windows == [])
    && (if c.mode.RatioMode?
        then (if c.period.Durations? then c.total == 0 else 0 < c.total <= MAX_LIMIT)
        else c.total == 0)
    && (c.mode.RatioMode? && c.ratioUnit.Tokens? ==> c.rates == [])
    && (c.period.Durations? ==> 0 < |c.windows| <= 8)
    && DistinctSeconds(c.windows)
    && (forall w <- c.windows ::
          && 3600 <= w.seconds <= 365 * DAY && w.seconds % 3600 == 0
          && 0 <= w.limit <= MAX_LIMIT && (c.mode.RatioMode? ==> w.limit != 0))
    && (forall m <- c.members, o <- m.overrides :: exists w <- c.windows :: w.seconds == o.seconds)
    && DistinctUsers(c.members)
    && (forall m <- c.members :: ValidMemberLimit(c, m))
    && (c.mode.RatioMode? ==> ShareSum(c.members) <= FULL_SHARE)
    && (EntryUnit(c).Amount? ==> c.rates != [])
    && (forall r <- c.rates :: ValidRate(r))
  }

  function LimitSum(members: seq<Share>, total: int): int {
    if members == [] then 0 else RatioLimit(total, members[0].limit) + LimitSum(members[1..], total)
  }

  /** The rounded member limits of a ratio rule never exceed the shared total together. */
  lemma {:induction false} RatioLimitsStayWithinTotal(members: seq<Share>, total: int)
    requires 0 <= total
    ensures LimitSum(members, total) * FULL_SHARE <= total * ShareSum(members)
    ensures ShareSum(members) <= FULL_SHARE ==> LimitSum(members, total) <= total
  {
    if members != [] {
      RatioLimitsStayWithinTotal(members[1..], total);
      assert total * ShareSum(members) == total * members[0].limit + total * ShareSum(members[1..]);
    }
    if ShareSum(members) <= FULL_SHARE {
      assert total * ShareSum(members) <= total * FULL_SHARE;
    }
  }

  // ---- Prices ----

  datatype Priced = Cost(value: int) | BadInput

  function ExactCost(r: Rate, input: int, output: int, cached: int): int {
    (input - cached) * r.input + cached * r.cached + output * r.output
  }

  predicate ValidCounts(input: int, output: int, cached: int) {
    0 <= cached <= input <= MAX_TOKENS && 0 <= output <= MAX_TOKENS
  }

  /** Rounds up once, after all token categories are summed. */
  function Price(r: Rate, input: int, output: int, cached: int): Priced {
    if !ValidCounts(input, output, cached) || r.input < 0 || r.cached < 0 || r.output < 0 then BadInput
    else
      var cost := (ExactCost(r, input, output, cached) + 999_999) / 1_000_000;
      if cost < 0x8000_0000_0000_0000 then Cost(cost) else BadInput
  }

  /** A stored price charges any countable request: the charge is the exact cost rounded up,
  is never lost to rounding, and fits the ledger. */
  lemma {:induction false} StoredRatesCharge(r: Rate, input: int, output: int, cached: int)
    requires ValidRate(r) && ValidCounts(input, output, cached)
    ensures Price(r, input, output, cached).Cost?
    ensures var cost := Price(r, input, output, cached).value;
            && 0 <= cost <= 2 * MAX_LIMIT
            && 1_000_000 * (cost - 1) < ExactCost(r, input, output, cached) <= 1_000_000 * cost
            && (0 < ExactCost(r, input, output, cached) ==> 0 < cost)
  {
    MulBound(input - cached, r.input, input - cached);
    MulBound(cached, r.cached, cached);
    MulBound(output, r.output, output);
  }

  lemma MulBound(tokens: int, rate: int, most: int)
    requires 0 <= tokens <= most && 0 <= rate <= MAX_TOKENS
    ensures 0 <= tokens * rate <= most * MAX_TOKENS
  {
    assert tokens * rate <= tokens * MAX_TOKENS;
  }

  function RateFor(rates: seq<Rate>, model: string): (r: seq<Rate>)
    ensures |r| <= 1 && (r != [] ==> r[0] in rates && r[0].model == model)
    ensures r == [] ==> forall x <- rates :: x.model != model
  {
    if rates == [] then []
    else if rates[0].model == model then [rates[0]]
    else RateFor(rates[1..], model)
  }

  predicate Charges(c: Config, model: string) {
    EntryUnit(c).Amount? ==> RateFor(c.rates, model) != []
  }

  // ---- Windows in force ----

  function DurationWindow(now: int, anchor: int, c: Condition): Window
    requires 0 < c.seconds
  {
    if now < anchor then Window(anchor, anchor + c.seconds, c.seconds, c.limit)
    else
      var start := anchor + (now - anchor) / c.seconds * c.seconds;
      Window(start, start + c.seconds, c.seconds, c.limit)
  }

  function DurationWindows(now: int, anchor: int, conditions: seq<Condition>): (ws: seq<Window>)
    requires forall c <- conditions :: 0 < c.seconds
    ensures |ws| == |conditions|
    ensures forall i :: 0 <= i < |ws| ==> ws[i] == DurationWindow(now, anchor, conditions[i])
  {
    seq(|conditions|, i requires 0 <= i < |conditions| => DurationWindow(now, anchor, conditions[i]))
  }

  ghost function WindowsAt(z: Zone, r: Revision, now: int): (ws: seq<Window>)
    requires z.Valid() && Accepted(r.config)
    ensures ws != []
    ensures r.config.period.Civil? ==> |ws| == 1 && ws[0].seconds == 0
  {
    match r.config.period
    case Durations => DurationWindows(now, r.anchor, r.config.windows)
    case Civil(schedule) =>
      var (start, end) := WindowOf(z, schedule, now);
      [Window(if start < r.anchor then r.anchor else start, end, 0, 0)]
  }

  method EffectiveWindows(z: Zone, r: Revision, now: int) returns (ws: seq<Window>)
    requires z.Valid() && z.DatesAdvance() && Accepted(r.config)
    ensures ws == WindowsAt(z, r, now)
  {
    match r.config.period
    case Durations =>
      ws := [];
      for i := 0 to |r.config.windows|
        invariant |ws| == i
        invariant forall j :: 0 <= j < i ==> ws[j] == DurationWindow(now, r.anchor, r.config.windows[j])
      {
        ws := ws + [DurationWindow(now, r.anchor, r.config.windows[i])];
      }
    case Civil(schedule) =>
      var start, end := Calendar.Window(z, schedule, now);
      ws := [Window(if start < r.anchor then r.anchor else start, end, 0, 0)];
  }

  /** Windows of one length, counted from one anchor, tile the time after it. */
  lemma {:induction false} DurationWindowsTile(now: int, anchor: int, c: Condition)
    requires 0 < c.seconds && anchor <= now
    ensures DurationWindow(now, anchor, c).Holds(now)
    ensures var w := DurationWindow(now, anchor, c);
            && (forall u :: w.Holds(u) ==> DurationWindow(u, anchor, c) == w)
            && DurationWindow(w.end, anchor, c).start == w.end
  {
    var k := (now - anchor) / c.seconds;
    var w := DurationWindow(now, anchor, c);
    NthWindow(now, anchor, c, k);
    forall u | w.Holds(u) ensures DurationWindow(u, anchor, c) == w {
      NthWindow(u, anchor, c, k);
    }
    assert (k + 1) * c.seconds == k * c.seconds + c.seconds;
    NthWindow(w.end, anchor, c, k + 1);
  }

  /** The window of an instant is the one whose number its distance from the anchor divides to. */
  lemma NthWindow(t: int, anchor: int, c: Condition, k: nat)
    requires 0 < c.seconds
    requires ((t - anchor) / c.seconds == k && anchor <= t) || k * c.seconds <= t - anchor < k * c.seconds + c.seconds
    ensures k * c.seconds <= t - anchor < k * c.seconds + c.seconds
    ensures DurationWindow(t, anchor, c) == Window(anchor + k * c.seconds, anchor + k * c.seconds + c.seconds, c.seconds, c.limit)
  {
    if (t - anchor) / c.seconds == k {
      assert t - anchor == k * c.seconds + (t - anchor) % c.seconds;
    } else {
      QuotientUnique(t - anchor, c.seconds, k);
    }
    assert 0 <= k * c.seconds;
  }

  lemma QuotientUnique(a: int, b: int, q: int)
    requires 0 < b && q * b <= a < q * b + b
    ensures a / b == q
  {
    var k := a / b;
    assert a == k * b + a % b;
    assert k < q ==> (k + 1) * b <= q * b;
    assert q < k ==> (q + 1) * b <= k * b;
  }

  /** Every window of a revision, once the revision's accounting has begun, holds the instant it
  was computed for and stays the revision's window for all of its instants. */
  lemma {:induction false} RevisionWindowsTile(z: Zone, r: Revision, now: int, i: nat)
    requires z.Valid() && z.DatesAdvance() && Accepted(r.config) && r.anchor <= now
    requires i < |WindowsAt(z, r, now)|
    ensures var w := WindowsAt(z, r, now)[i];
            && w.Holds(now)
            && forall u :: w.Holds(u) ==> i < |WindowsAt(z, r, u)| && WindowsAt(z, r, u)[i] == w
  {
    hide WindowOf, DurationWindow;
    match r.config.period
    case Durations => DurationWindowsTile(now, r.anchor, r.config.windows[i]);
    case Civil(schedule) => WindowsTileTime(z, schedule, now);
  }
}
