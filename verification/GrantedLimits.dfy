/** What a rule grants, read off the rule as it is written, and what admission and every run make of it. */
module GrantedLimits {
  import opened Sums
  import opened Calendar
  import opened Allowances
  import opened Ledger
  import opened Admission
  import opened LedgerSteps
  import opened BudgetBounds

  // ---- Limits, as a rule states them ----

  /** The limit of a member in a window: a share of the total in ten thousandths, rounded down; the member's
  own condition for the window's length, or else the window's; or the member's one limit. */
  predicate Grants(c: Config, m: Share, w: Window, limit: int) {
    match c.mode
    case TokenMode => limit == m.limit
    case AmountMode => limit == m.limit
    case RatioMode =>
      var total := if c.period.Durations? then w.limit else c.total;
      10000 * limit <= total * m.limit < 10000 * (limit + 1)
    case WindowMode =>
      if exists o <- m.overrides :: o.seconds == w.seconds
      then exists o <- m.overrides :: o.seconds == w.seconds && o.limit == limit
      else limit == w.limit
  }

  /** Only a rule of time windows grants without limit, by a limit of zero. */
  predicate Boundless(c: Config, limit: int) {
    c.mode == WindowMode && limit == 0
  }

  /** A tenth, rounded up, and never nothing. */
  predicate Tenth(limit: int, r: int) {
    if limit <= 10 then r == 1 else 10 * (r - 1) < limit <= 10 * r
  }

  predicate CountsIn(c: Config, unit: Unit) {
    match c.mode
    case TokenMode => unit == Tokens
    case AmountMode => unit == Amount
    case WindowMode => unit == Amount
    case RatioMode => unit == c.ratioUnit
  }

  predicate Totals(c: Config, w: Window, total: int) {
    c.mode == RatioMode && total == if c.period.Durations? then w.limit else c.total
  }

  lemma {:induction false} OverrideIsFound(conditions: seq<Condition>, seconds: int, otherwise: int)
    ensures var limit := LimitFor(conditions, seconds, otherwise);
      if exists o <- conditions :: o.seconds == seconds
      then exists o <- conditions :: o.seconds == seconds && o.limit == limit
      else limit == otherwise
  {
    if conditions != [] && conditions[0].seconds != seconds {
      OverrideIsFound(conditions[1..], seconds, otherwise);
    }
  }

  lemma OverrideIsOne(conditions: seq<Condition>, a: Condition, b: Condition)
    requires DistinctSeconds(conditions) && a in conditions && b in conditions && a.seconds == b.seconds
    ensures a == b
  {
    var i :| 0 <= i < |conditions| && conditions[i] == a;
    var j :| 0 <= j < |conditions| && conditions[j] == b;
    assert !(i < j) && !(j < i);
  }

  /** The limit that is computed is the one the rule grants, and there is only one. */
  lemma {:induction false} MemberLimitIsGranted(c: Config, m: Share, w: Window, limit: int)
    requires Accepted(c) && m in c.members
    ensures Grants(c, m, w, limit) <==> limit == MemberLimit(c, m, w)
  {
    assert ValidMemberLimit(c, m);
    hide Accepted;
    match c.mode
    case WindowMode =>
      OverrideIsFound(m.overrides, w.seconds, w.limit);
      if o :| o in m.overrides && o.seconds == w.seconds && o.limit == limit {
        var p :| p in m.overrides && p.seconds == w.seconds && p.limit == MemberLimit(c, m, w);
        OverrideIsOne(m.overrides, o, p);
      }
    case RatioMode => DividedDown((if c.period.Durations? then w.limit else c.total) * m.limit, limit);
    case _ =>
  }

  lemma DividedDown(n: int, q: int)
    ensures 10000 * q <= n < 10000 * (q + 1) <==> q == n / 10000
  {
  }

  lemma ReservationIsATenth(limit: int, r: int)
    ensures Tenth(limit, r) <==> r == Reservation(limit)
  {
  }

  /** A window of a rule carries the limit of its own condition, and has its length. */
  lemma WindowsCarryTheirConditions(z: Zone, r: Revision, now: int, w: Window)
    requires z.Valid() && Accepted(r.config) && w in WindowsAt(z, r, now) && r.config.period.Durations?
    ensures exists k <- r.config.windows :: k.seconds == w.seconds && k.limit == w.limit && w.end - w.start == k.seconds
  {
    var i :| 0 <= i < |r.config.windows| && w == DurationWindow(now, r.anchor, r.config.windows[i]);
    assert r.config.windows[i] in r.config.windows;
  }

  // ---- Admission ----

  /** The windows of `ws` that are read for the member: all of them under a ratio rule, otherwise those with a
  limit. */
  ghost predicate IsRead(c: Config, m: Share, ws: seq<Window>, w: Window) {
    w in ws && exists limit :: Grants(c, m, w, limit) && !Boundless(c, limit)
  }

  /** The span from the first start to the last end of the windows that are read. */
  ghost predicate Spanned(c: Config, m: Share, ws: seq<Window>, from: int, to: int) {
    && (forall w <- ws :: IsRead(c, m, ws, w) ==> from <= w.start && w.end <= to)
    && (exists w <- ws :: IsRead(c, m, ws, w) && w.start == from)
    && (exists w <- ws :: IsRead(c, m, ws, w) && w.end == to)
  }

  lemma IsReadIff(c: Config, m: Share, ws: seq<Window>, w: Window)
    requires Accepted(c) && m in c.members && w in ws
    ensures IsRead(c, m, ws, w) <==> ReadsWindow(c, m, w)
  {
    MemberLimitIsGranted(c, m, w, MemberLimit(c, m, w));
    if limit :| Grants(c, m, w, limit) && !Boundless(c, limit) {
      MemberLimitIsGranted(c, m, w, limit);
    }
    hide Accepted, MemberLimit, Grants;
  }

  /** Too many rows are more than 4096 requests running within that span, of the member, or of everyone under a
  ratio rule. */
  lemma {:induction false} TooManyIsOver4096(b: Book, c: Config, m: Share, ws: seq<Window>, unit: Unit)
    requires Accepted(c) && m in c.members && CountsIn(c, unit)
    ensures TooManyRows(b, c, m, ws) <==>
            exists from, to :: Spanned(c, m, ws, from, to)
              && 4096 < |ActiveRows(b, Scope(unit, if c.mode == RatioMode then 0 else m.user, from, to))|
  {
    forall w <- ws ensures IsRead(c, m, ws, w) <==> ReadsWindow(c, m, w) {
      IsReadIff(c, m, ws, w);
    }
    hide Accepted, IsRead, ReadsWindow, ActiveRows;
    if exists w <- ws :: ReadsWindow(c, m, w) {
      var from, to := Earliest(c, m, ws), Latest(c, m, ws);
      assert Spanned(c, m, ws, from, to);
      assert WideScope(c, m, ws) == Scope(unit, if c.mode == RatioMode then 0 else m.user, from, to);
      forall f, t | Spanned(c, m, ws, f, t) ensures f == from && t == to {
      }
    }
  }

  /** The member's own usage in the window, or under a ratio rule everyone's, has reached what is granted. */
  ghost predicate Reached(b: Book, c: Config, unit: Unit, m: Share, w: Window, limit: int) {
    || (!Boundless(c, limit) && limit <= Used(b, Scope(unit, m.user, w.start, w.end)))
    || (exists total :: Totals(c, w, total) && total <= Used(b, Scope(unit, 0, w.start, w.end)))
  }

  /** What the member uses and holds is within the limit, with fewer than four requests running. */
  ghost predicate Fits(b: Book, c: Config, s: Scope, w: Window, limit: int) {
    Boundless(c, limit) || (Used(b, s) + Held(b, s, w) <= limit && ActiveCount(b, s) < 4)
  }

  /** What everyone uses and holds leaves a member's tenth of the total and its buffer. */
  ghost predicate FitsTotal(b: Book, s: Scope, w: Window, total: int, buffer: int, tenth: int) {
    Used(b, s) + Held(b, s, w) + tenth <= total + buffer
  }

  lemma {:induction false} ExhaustedIffReached(b: Book, c: Config, unit: Unit, m: Share, w: Window, limit: int)
    requires Accepted(c) && m in c.members && Grants(c, m, w, limit) && CountsIn(c, unit)
    ensures Exhausted(b, c, m, w) <==> Reached(b, c, unit, m, w, limit)
  {
    MemberLimitIsGranted(c, m, w, limit);
    hide Accepted, Used, MemberLimit, Grants;
    assert ScopeOf(c, m.user, w) == Scope(unit, m.user, w.start, w.end) && ScopeOf(c, EVERYONE, w) == Scope(unit, 0, w.start, w.end);
    if c.mode.RatioMode? {
      assert Totals(c, w, WindowTotal(c, w));
    }
  }

  lemma {:induction false} TightIffNotFitting(b: Book, c: Config, unit: Unit, m: Share, w: Window, limit: int, tenth: int)
    requires Accepted(c) && m in c.members && Grants(c, m, w, limit) && CountsIn(c, unit) && Tenth(limit, tenth)
    ensures MemberTight(b, c, m, w) <==> !Fits(b, c, Scope(unit, m.user, w.start, w.end), w, limit)
    ensures forall total, buffer :: Totals(c, w, total) && Tenth(total, buffer) ==>
              (SharedTight(b, c, m, w) <==> !FitsTotal(b, Scope(unit, 0, w.start, w.end), w, total, buffer, tenth))
    ensures !c.mode.RatioMode? ==> !SharedTight(b, c, m, w)
  {
    MemberLimitIsGranted(c, m, w, limit);
    ReservationIsATenth(limit, tenth);
    hide Accepted, Used, Held, ActiveCount, MemberLimit, Grants;
    assert ScopeOf(c, m.user, w) == Scope(unit, m.user, w.start, w.end) && ScopeOf(c, EVERYONE, w) == Scope(unit, 0, w.start, w.end);
    forall total, buffer | Totals(c, w, total) && Tenth(total, buffer)
      ensures SharedTight(b, c, m, w) <==> !FitsTotal(b, Scope(unit, 0, w.start, w.end), w, total, buffer, tenth)
    {
      ReservationIsATenth(total, buffer);
      assert total == WindowTotal(c, w);
    }
  }

  /** What is asked of every window of a member. */
  ghost predicate Spends(b: Book, c: Config, m: Share, ws: seq<Window>) {
    exists w, limit, unit :: w in ws && Grants(c, m, w, limit) && CountsIn(c, unit) && Reached(b, c, unit, m, w, limit)
  }

  ghost predicate HasRoom(b: Book, c: Config, m: Share, w: Window) {
    exists limit, unit, tenth :: Grants(c, m, w, limit) && CountsIn(c, unit) && Tenth(limit, tenth)
      && !Reached(b, c, unit, m, w, limit)
      && Fits(b, c, Scope(unit, m.user, w.start, w.end), w, limit)
      && forall total, buffer :: Totals(c, w, total) && Tenth(total, buffer) ==>
           FitsTotal(b, Scope(unit, 0, w.start, w.end), w, total, buffer, tenth)
  }

  lemma {:induction false} WindowHasRoomIff(b: Book, c: Config, m: Share, w: Window)
    requires Accepted(c) && m in c.members
    ensures HasRoom(b, c, m, w) <==> !Exhausted(b, c, m, w) && !Tight(b, c, m, w)
  {
    var limit, unit := MemberLimit(c, m, w), EntryUnit(c);
    var tenth := Reservation(limit);
    MemberLimitIsGranted(c, m, w, limit);
    ReservationIsATenth(limit, tenth);
    assert CountsIn(c, unit);
    ExhaustedIffReached(b, c, unit, m, w, limit);
    TightIffNotFitting(b, c, unit, m, w, limit, tenth);
    hide Accepted, Exhausted, MemberTight, SharedTight, Reached, Fits, FitsTotal, MemberLimit, Grants, Reservation, Tenth;
    if l, u, t :| Grants(c, m, w, l) && CountsIn(c, u) && Tenth(l, t) && !Reached(b, c, u, m, w, l)
                  && Fits(b, c, Scope(u, m.user, w.start, w.end), w, l)
                  && forall total, buffer :: Totals(c, w, total) && Tenth(total, buffer) ==>
                       FitsTotal(b, Scope(u, 0, w.start, w.end), w, total, buffer, t) {
      MemberLimitIsGranted(c, m, w, l);
      ReservationIsATenth(l, t);
      assert u == unit;
    }
    if c.mode.RatioMode? {
      var total := WindowTotal(c, w);
      ReservationIsATenth(total, Reservation(total));
      assert Totals(c, w, total);
    }
  }

  lemma {:induction false} SpendsIffExhausted(b: Book, c: Config, m: Share, ws: seq<Window>)
    requires Accepted(c) && m in c.members
    ensures Spends(b, c, m, ws) <==> exists w <- ws :: Exhausted(b, c, m, w)
  {
    hide Accepted, Exhausted, Reached, MemberLimit, Grants;
    if w :| w in ws && Exhausted(b, c, m, w) {
      MemberLimitIsGranted(c, m, w, MemberLimit(c, m, w));
      ExhaustedIffReached(b, c, EntryUnit(c), m, w, MemberLimit(c, m, w));
      assert CountsIn(c, EntryUnit(c));
    }
    if w, limit, unit :| w in ws && Grants(c, m, w, limit) && CountsIn(c, unit) && Reached(b, c, unit, m, w, limit) {
      ExhaustedIffReached(b, c, unit, m, w, limit);
    }
  }

  /** The verdict on a request, from the rule as it is written: a member is admitted exactly when, within the
  bound on rows, every window in force has room; refused for quota exactly when some window is spent. */
  lemma {:induction false} VerdictFollowsTheRule(z: Zone, b: Book, r: Revision, m: Share, permitted: bool, model: string, now: int)
    requires z.Valid() && Accepted(r.config) && m in r.config.members
    ensures var (c, ws) := (r.config, WindowsAt(z, r, now));
      var v := CheckVerdict(z, b, r, m.user, permitted, model, now);
      var priced := CountsIn(c, Amount) ==> exists rate <- c.rates :: rate.model == model;
      && (v == Unavailable <==> !permitted)
      && (v == Unpriced <==> permitted && !priced)
      && (v == QuotaSpent <==> permitted && priced && !TooManyRows(b, c, m, ws) && Spends(b, c, m, ws))
      && (v == Admitted <==> permitted && priced && !TooManyRows(b, c, m, ws) && forall w <- ws :: HasRoom(b, c, m, w))
  {
    var (c, ws) := (r.config, WindowsAt(z, r, now));
    OneSharePerUser(c.members, m, ShareOf(c.members, m.user)[0]);
    SpendsIffExhausted(b, c, m, ws);
    forall w | w in ws ensures HasRoom(b, c, m, w) <==> !Exhausted(b, c, m, w) && !Tight(b, c, m, w) {
      WindowHasRoomIff(b, c, m, w);
    }
    assert CountsIn(c, Amount) <==> EntryUnit(c).Amount?;
    hide Accepted, WindowsAt, TooManyRows, Exhausted, Tight, Spends, HasRoom, CountsIn, EntryUnit;
  }

  lemma StrangersAreUnavailable(z: Zone, b: Book, r: Revision, user: int, permitted: bool, model: string, now: int)
    requires z.Valid() && Accepted(r.config) && forall m <- r.config.members :: m.user != user
    ensures CheckVerdict(z, b, r, user, permitted, model, now) == Unavailable
  {
    hide Judge, WindowsAt;
  }

  /** While a request runs it holds a tenth of what its own rule grants in the window, and nothing where that
  is boundless. */
  lemma {:induction false} HeldIsATenth(revisions: map<int, Revision>, e: Entry, w: Window, m: Share, limit: int, tenth: int)
    requires e.revision in revisions && Accepted(revisions[e.revision].config)
    requires var c := revisions[e.revision].config;
      && m in c.members && m.user == e.user && Grants(c, m, w, limit) && Tenth(limit, tenth)
      && (c.windows != [] ==> exists k <- c.windows :: k.seconds == w.seconds && k.limit == w.limit)
    ensures Captured(revisions, e, w) == if Boundless(revisions[e.revision].config, limit) then 0 else tenth
  {
    var c := revisions[e.revision].config;
    OneSharePerUser(c.members, m, ShareOf(c.members, m.user)[0]);
    OverrideIsFound(c.windows, w.seconds, w.limit);
    if c.windows != [] {
      var k :| k in c.windows && k.seconds == w.seconds && k.limit == w.limit;
      var o :| o in c.windows && o.seconds == w.seconds && o.limit == LimitFor(c.windows, w.seconds, w.limit);
      OverrideIsOne(c.windows, k, o);
    }
    MemberLimitIsGranted(c, m, w, limit);
    ReservationIsATenth(limit, tenth);
    hide Accepted, MemberLimit, Grants;
  }

  // ---- Every run ----

  /** Under one rule a member never owes more than the limit it grants, a tenth of it, and the excess no
  admission answered for; nor has it more than four requests running, where there is a limit. */
  lemma {:induction false} GrantIsNeverExceeded(z: Zone, rule: Revision, evs: seq<Event>, since: int, w: Window, m: Share, limit: int, tenth: int, unit: Unit)
    requires z.Valid() && z.DatesAdvance() && Accepted(rule.config) && rule.anchor <= rule.effectiveAt
    requires rule.anchor <= since && w in WindowsAt(z, rule, since) && m in rule.config.members && NoEdits(evs)
    requires Grants(rule.config, m, w, limit) && Tenth(limit, tenth) && CountsIn(rule.config, unit)
    ensures var end := Run(z, NewLedger(rule), evs);
      var s := Scope(unit, m.user, w.start, w.end);
      && Used(end, s) + Held(end, s, w) <= limit + tenth + Excess(end, Terms(unit, m.user, w, limit + tenth))
      && (!Boundless(rule.config, limit) ==> ActiveCount(end, s) <= 4)
  {
    var c := rule.config;
    MemberLimitIsGranted(c, m, w, limit);
    ReservationIsATenth(limit, tenth);
    MemberBudget(z, rule, evs, since, w, m);
    assert EntryUnit(c) == unit;
    if !Boundless(c, limit) {
      hide Run, WindowsAt, Accepted, MemberLimit, Grants, Used, Held, Excess;
      MemberConcurrency(z, rule, evs, since, w, m);
    }
  }

  /** Under one ratio rule all members together never owe more than the total, a tenth of it, and the excess. */
  lemma {:induction false} TotalIsNeverExceeded(z: Zone, rule: Revision, evs: seq<Event>, since: int, w: Window, total: int, tenth: int, unit: Unit)
    requires z.Valid() && z.DatesAdvance() && Accepted(rule.config) && rule.anchor <= rule.effectiveAt
    requires rule.anchor <= since && w in WindowsAt(z, rule, since) && NoEdits(evs)
    requires Totals(rule.config, w, total) && Tenth(total, tenth) && CountsIn(rule.config, unit)
    ensures var end := Run(z, NewLedger(rule), evs);
      var s := Scope(unit, 0, w.start, w.end);
      Used(end, s) + Held(end, s, w) <= total + tenth + Excess(end, Terms(unit, 0, w, total + tenth))
  {
    ReservationIsATenth(total, tenth);
    assert total == WindowTotal(rule.config, w) && EntryUnit(rule.config) == unit;
    SharedBudget(z, rule, evs, since, w);
  }
}
