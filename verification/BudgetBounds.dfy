/** What a scheme's ledger can owe, over every run of its transactions. */
module BudgetBounds {
  import opened Sums
  import opened Calendar
  import opened Allowances
  import opened Ledger
  import opened Admission
  import opened LedgerSteps

  datatype Event =
    | Begin(request: Request, permitted: bool, now: int)
    | Finish(id: string, done: Completion, at: int, manual: bool)
    | Recover
    | Prune(before: int, batch: set<string>)
    | Append(revision: Revision)
    | DeletePending(effectiveAt: int, seenAt: int)

  ghost function Apply(z: Zone, b: Book, ev: Event): (after: Book)
    requires z.Valid() && ValidBook(b)
    ensures ValidBook(after)
  {
    match ev
    case Begin(q, permitted, now) => BeginKeepsValid(z, b, q, permitted, now); BeginBook(z, b, q, permitted, now)
    case Finish(id, done, at, manual) => FinishKeepsValid(b, id, done, at, manual); FinishBook(b, id, done, at, manual)
    case Recover => RecoverKeepsValid(b); RecoverBook(b)
    case Prune(before, batch) => PruneKeepsValid(b, before, batch); PruneBook(b, before, batch)
    case Append(r) => AppendKeepsValid(b, r); AppendBook(b, r)
    case DeletePending(at, now) => DeleteKeepsValid(b, at, now); DeletePendingBook(b, at, now)
  }

  ghost function Run(z: Zone, b: Book, evs: seq<Event>): (after: Book)
    requires z.Valid() && ValidBook(b)
    ensures ValidBook(after)
    decreases |evs|
  {
    if evs == [] then b else Run(z, Apply(z, b, evs[0]), evs[1..])
  }

  // ---- Terms ----

  /** One window of a rule, seen for one member or for everyone, and a bound on what its limits
  allow. */
  datatype Terms = Terms(unit: Unit, user: int, w: Window, bound: int) {
    function Scope(): Scope {
      Ledger.Scope(unit, user, w.start, w.end)
    }
  }

  /** Reservations of `c` in windows of this length do not depend on anything but `c`. */
  predicate Knows(c: Config, seconds: int) {
    (c.period.Civil? && seconds == 0) || exists k <- c.windows :: k.seconds == seconds
  }

  /** A request admitted now is checked against the window of these terms, under a limit they cover. */
  ghost predicate AdmitsUnder(z: Zone, r: Revision, t: Terms, user: int, now: int)
    requires z.Valid() && Accepted(r.config)
  {
    EntryUnit(r.config) == t.unit ==>
      exists w <- WindowsAt(z, r, now) :: w.SameSpan(t.w) && Covered(r.config, w, user, t)
  }

  ghost predicate Covered(c: Config, w: Window, user: int, t: Terms) {
    if t.user == EVERYONE then
      c.mode.RatioMode? && WindowTotal(c, w) + Reservation(WindowTotal(c, w)) <= t.bound
    else
      var found := ShareOf(c.members, user);
      found != [] ==>
        var limit := MemberLimit(c, found[0], w);
        Unlimited(c, limit) || limit + Reservation(limit) <= t.bound
  }

  ghost predicate EventKeeps(z: Zone, b: Book, ev: Event, t: Terms)
    requires z.Valid() && ValidBook(b)
  {
    ev.Begin? && t.w.Holds(ev.now) && (t.user == EVERYONE || t.user == ev.request.user) ==>
      forall r :: InForce(b, r, ev.now) ==> AdmitsUnder(z, r, t, ev.request.user, ev.now)
  }

  /** Every admission of the run that lands in the window is made under the terms. */
  ghost predicate RunKeeps(z: Zone, b: Book, evs: seq<Event>, t: Terms)
    requires z.Valid() && ValidBook(b)
    decreases |evs|
  {
    evs == [] || (EventKeeps(z, b, evs[0], t) && RunKeeps(z, Apply(z, b, evs[0]), evs[1..], t))
  }

  // ---- Committed money and excess ----

  /** The part of an entry that admission has already answered for. */
  function CommittedIn(t: Terms, revisions: map<int, Revision>): Entry -> int {
    (e: Entry) =>
      if !t.Scope().Covers(e) || e.state.Pending? then 0
      else
        var held := Captured(revisions, e, t.w);
        if e.state.Active? then held
        else if e.manual then 0
        else if e.cost < held then e.cost else held
  }

  /** The part of a charge no admission answered for: cost above the captured reservation, and the
  whole of a charge settled by hand. */
  function ExcessIn(t: Terms, revisions: map<int, Revision>): Entry -> int {
    (e: Entry) =>
      if !t.Scope().Covers(e) || !e.state.Settled? then 0
      else if e.manual then e.cost
      else
        var held := Captured(revisions, e, t.w);
        if e.cost < held then 0 else e.cost - held
  }

  function Committed(b: Book, t: Terms): int {
    Sum(b.entries, CommittedIn(t, b.revisions))
  }

  function Excess(b: Book, t: Terms): int {
    Sum(b.entries, ExcessIn(t, b.revisions))
  }

  function OweIn(t: Terms, revisions: map<int, Revision>): Entry -> int {
    (e: Entry) => CostIn(t.Scope())(e) + HeldIn(t.Scope(), revisions, t.w)(e)
  }

  /** Used plus held is what was committed plus the excess, exactly. */
  lemma {:induction false} OwedIsCommittedPlusExcess(b: Book, t: Terms)
    ensures Used(b, t.Scope()) + Held(b, t.Scope(), t.w) == Committed(b, t) + Excess(b, t)
  {
    var owed := OweIn(t, b.revisions);
    SumSplit(b.entries, owed, CostIn(t.Scope()), HeldIn(t.Scope(), b.revisions, t.w));
    SumSplit(b.entries, owed, CommittedIn(t, b.revisions), ExcessIn(t, b.revisions));
  }

  lemma CommittedAtMostOwed(b: Book, t: Terms)
    requires ValidBook(b)
    ensures Committed(b, t) <= Used(b, t.Scope()) + Held(b, t.Scope(), t.w)
  {
    OwedIsCommittedPlusExcess(b, t);
    forall e <- b.entries ensures 0 <= ExcessIn(t, b.revisions)(e) {
      assert ValidEntry(e, b.revisions);
    }
    SumNotNegative(b.entries, ExcessIn(t, b.revisions));
  }

  // ---- Each transaction keeps the committed money within the bound ----

  /** Entries inside the window know what they reserve there, and what is committed fits. */
  ghost predicate WithinTerms(b: Book, t: Terms)
    requires ValidBook(b)
  {
    && (forall e <- b.entries :: t.Scope().Covers(e) ==> e.revision in b.revisions && Knows(b.revisions[e.revision].config, t.w.seconds))
    && Committed(b, t) <= t.bound
  }

  lemma ReservedSame(c: Config, user: int, a: Window, b: Window)
    requires Accepted(c) && Knows(c, a.seconds) && a.SameSpan(b)
    ensures ReservedFor(c, user, a) == ReservedFor(c, user, b)
  {
    LimitForKnown(c.windows, a.seconds, a.limit, b.limit);
  }

  lemma {:induction false} LimitForKnown(conditions: seq<Condition>, seconds: int, a: int, b: int)
    ensures (exists k <- conditions :: k.seconds == seconds) ==> LimitFor(conditions, seconds, a) == LimitFor(conditions, seconds, b)
  {
    if conditions != [] && conditions[0].seconds != seconds {
      LimitForKnown(conditions[1..], seconds, a, b);
    }
  }

  /** What is held in a window does not depend on the limit the window is looked at with. */
  lemma {:induction false} HeldSame(b: Book, t: Terms, w: Window)
    requires ValidBook(b) && WithinTerms(b, t) && w.SameSpan(t.w)
    ensures Held(b, t.Scope(), w) == Held(b, t.Scope(), t.w)
  {
    forall e <- b.entries
      ensures HeldIn(t.Scope(), b.revisions, w)(e) == HeldIn(t.Scope(), b.revisions, t.w)(e)
    {
      if t.Scope().Covers(e) {
        ReservedSame(b.revisions[e.revision].config, e.user, t.w, w);
      }
    }
    SumEqual(b.entries, HeldIn(t.Scope(), b.revisions, w), HeldIn(t.Scope(), b.revisions, t.w));
  }

  lemma WindowLimitIsCondition(z: Zone, r: Revision, now: int, w: Window)
    requires z.Valid() && Accepted(r.config) && w in WindowsAt(z, r, now)
    ensures w.limit == LimitFor(r.config.windows, w.seconds, w.limit)
    ensures Knows(r.config, w.seconds)
  {
    if r.config.period.Durations? {
      var i :| 0 <= i < |r.config.windows| && w == DurationWindow(now, r.anchor, r.config.windows[i]);
      LimitForCondition(r.config.windows, i, w.limit);
    }
  }

  lemma {:induction false} LimitForCondition(conditions: seq<Condition>, i: nat, otherwise: int)
    requires i < |conditions| && DistinctSeconds(conditions)
    ensures LimitFor(conditions, conditions[i].seconds, otherwise) == conditions[i].limit
  {
    if i > 0 {
      assert conditions[0].seconds != conditions[i].seconds;
      LimitForCondition(conditions[1..], i - 1, otherwise);
    }
  }

  /** An admission leaves room for itself in every window it was checked against. */
  lemma {:induction false} AdmissionLeavesRoom(b: Book, c: Config, m: Share, ws: seq<Window>, w: Window)
    requires Judge(b, c, m, ws).Admitted? && w in ws
    ensures var limit := MemberLimit(c, m, w);
            var s := ScopeOf(c, m.user, w);
            !Unlimited(c, limit) ==> Used(b, s) + Held(b, s, w) <= limit && ActiveCount(b, s) < MAX_OUTSTANDING
    ensures var s := ScopeOf(c, EVERYONE, w);
            var total := WindowTotal(c, w);
            c.mode.RatioMode? ==>
              Used(b, s) + Held(b, s, w) + Reservation(MemberLimit(c, m, w)) <= total + Reservation(total)
  {
    hide Used, Held, ActiveCount, MemberLimit, TooManyRows;
    assert !Exhausted(b, c, m, w) && !Tight(b, c, m, w);
  }

  /** A new entry holds its own reservation, in the window it was checked against. */
  lemma {:induction false} NewEntryHolds(z: Zone, b: Book, r: Revision, q: Request, now: int, w: Window, t: Terms)
    requires z.Valid() && ValidBook(b) && InForce(b, r, now)
    requires w in WindowsAt(z, r, now) && w.SameSpan(t.w) && ShareOf(r.config.members, q.user) != []
    ensures Knows(r.config, t.w.seconds)
    ensures var limit := MemberLimit(r.config, ShareOf(r.config.members, q.user)[0], w);
            Captured(b.revisions, NewEntry(z, r, q, now), t.w) == if Unlimited(r.config, limit) then 0 else Reservation(limit)
  {
    hide WindowsAt;
    WindowLimitIsCondition(z, r, now, w);
    ReservedSame(r.config, q.user, t.w, w);
    assert w.(limit := LimitFor(r.config.windows, w.seconds, w.limit)) == w;
  }

  /** Why a request started: its member was judged admissible in all windows in force. */
  lemma StartedBecause(z: Zone, b: Book, r: Revision, q: Request, permitted: bool, now: int) returns (m: Share, ws: seq<Window>)
    requires z.Valid() && ValidBook(b) && Starts(z, b, r, q, permitted, now)
    ensures InForce(b, r, now) && ShareOf(r.config.members, q.user) == [m] && m.user == q.user
    ensures ws == WindowsAt(z, r, now) && Judge(b, r.config, m, ws).Admitted?
  {
    hide Judge, WindowsAt;
    m := ShareOf(r.config.members, q.user)[0];
    ws := WindowsAt(z, r, now);
  }

  lemma {:induction false} BeginStaysWithin(z: Zone, b: Book, r: Revision, q: Request, permitted: bool, now: int, t: Terms)
    requires z.Valid() && ValidBook(b) && WithinTerms(b, t)
    requires Starts(z, b, r, q, permitted, now)
    requires EventKeeps(z, b, Begin(q, permitted, now), t)
    ensures var after := b.(entries := b.entries + [NewEntry(z, r, q, now)]);
            ValidBook(after) ==> WithinTerms(after, t)
  {
    hide Starts, ValidBook, Accepted, Judge, WindowsAt, Longest, Captured, Used, Held, MemberLimit, Reservation, WindowTotal;
    var m, ws := StartedBecause(z, b, r, q, permitted, now);
    var c := r.config;
    var e := NewEntry(z, r, q, now);
    SumAppend(b.entries, [e], CommittedIn(t, b.revisions));
    if t.Scope().Covers(e) {
      var w :| w in ws && w.SameSpan(t.w) && Covered(c, w, q.user, t);
      AdmissionLeavesRoom(b, c, m, ws, w);
      NewEntryHolds(z, b, r, q, now, w, t);
      HeldSame(b, t, w);
      CommittedAtMostOwed(b, t);
      assert ScopeOf(c, t.user, w) == t.Scope();
    }
  }

  lemma {:induction false} FinishStaysWithin(b: Book, id: string, done: Completion, now: int, manual: bool, t: Terms)
    requires ValidBook(b) && WithinTerms(b, t)
    ensures ValidBook(FinishBook(b, id, done, now, manual)) ==> WithinTerms(FinishBook(b, id, done, now, manual), t)
  {
    hide FinishEntry, Accepted, Knows, MemberLimit;
    if HasId(b.entries, id) && Outcome(b, id, done, now, manual).Saved? {
      var i := IndexOf(b.entries, id);
      var e := b.entries[i];
      var f := Outcome(b, id, done, now, manual).entry;
      assert ValidEntry(e, b.revisions);
      FinishIsSound(e, b.revisions[e.revision].config, done, now, manual);
      SumUpdate(b.entries, i, f, CommittedIn(t, b.revisions));
      assert CommittedIn(t, b.revisions)(f) <= CommittedIn(t, b.revisions)(e);
      assert forall x <- b.entries[i := f] :: x in b.entries || x == f;
    }
  }

  lemma {:induction false} RecoverStaysWithin(b: Book, t: Terms)
    requires ValidBook(b) && WithinTerms(b, t)
    ensures ValidBook(RecoverBook(b)) ==> WithinTerms(RecoverBook(b), t)
  {
    var after := RecoverBook(b).entries;
    SumPointwise(after, b.entries, CommittedIn(t, b.revisions));
    forall e <- after ensures t.Scope().Covers(e) ==> e.revision in b.revisions && Knows(b.revisions[e.revision].config, t.w.seconds) {
      var i :| 0 <= i < |after| && after[i] == e;
      assert b.entries[i] in b.entries;
    }
  }

  lemma {:induction false} PruneStaysWithin(b: Book, before: int, batch: set<string>, t: Terms)
    requires ValidBook(b) && WithinTerms(b, t)
    ensures ValidBook(PruneBook(b, before, batch)) ==> WithinTerms(PruneBook(b, before, batch), t)
  {
    forall e <- b.entries ensures 0 <= CommittedIn(t, b.revisions)(e) {
      assert ValidEntry(e, b.revisions);
    }
    SumFilterLowers(b.entries, Kept(before, batch), CommittedIn(t, b.revisions));
  }

  /** Adding revisions, or removing ones no entry refers to, changes no reservation. */
  lemma {:induction false} RevisionsStayWithin(b: Book, revisions: map<int, Revision>, t: Terms)
    requires ValidBook(b) && WithinTerms(b, t)
    requires forall e <- b.entries :: e.revision in revisions && revisions[e.revision] == b.revisions[e.revision]
    requires ValidBook(b.(revisions := revisions))
    ensures WithinTerms(b.(revisions := revisions), t)
  {
    SumEqual(b.entries, CommittedIn(t, b.revisions), CommittedIn(t, revisions));
  }

  lemma {:induction false} StepStaysWithin(z: Zone, b: Book, ev: Event, t: Terms)
    requires z.Valid() && ValidBook(b) && WithinTerms(b, t) && EventKeeps(z, b, ev, t)
    ensures WithinTerms(Apply(z, b, ev), t)
  {
    match ev
    case Begin(q, permitted, now) =>
      if r :| Starts(z, b, r, q, permitted, now) && Apply(z, b, ev) == b.(entries := b.entries + [NewEntry(z, r, q, now)]) {
        BeginStaysWithin(z, b, r, q, permitted, now, t);
      }
    case Finish(id, done, at, manual) => FinishStaysWithin(b, id, done, at, manual, t);
    case Recover => RecoverStaysWithin(b, t);
    case Prune(before, batch) => PruneStaysWithin(b, before, batch, t);
    case Append(r) =>
      AppendKeepsValid(b, r);
      assert forall e <- b.entries :: ValidEntry(e, b.revisions);
      RevisionsStayWithin(b, AppendBook(b, r).revisions, t);
    case DeletePending(at, now) =>
      DeleteKeepsValid(b, at, now);
      assert forall e <- b.entries :: ValidEntry(e, b.revisions);
      RevisionsStayWithin(b, DeletePendingBook(b, at, now).revisions, t);
  }

  lemma {:induction false} RunStaysWithin(z: Zone, b: Book, evs: seq<Event>, t: Terms)
    requires z.Valid() && ValidBook(b) && WithinTerms(b, t) && RunKeeps(z, b, evs, t)
    ensures WithinTerms(Run(z, b, evs), t)
    decreases |evs|
  {
    if evs != [] {
      StepStaysWithin(z, b, evs[0], t);
      RunStaysWithin(z, Apply(z, b, evs[0]), evs[1..], t);
    }
  }

  // ---- At most four requests run at once ----

  ghost predicate EventLimits(z: Zone, b: Book, ev: Event, t: Terms)
    requires z.Valid() && ValidBook(b)
  {
    ev.Begin? && t.w.Holds(ev.now) && ev.request.user == t.user ==>
      forall r :: InForce(b, r, ev.now) && EntryUnit(r.config) == t.unit && ShareOf(r.config.members, t.user) != [] ==>
        exists w <- WindowsAt(z, r, ev.now) ::
          w.SameSpan(t.w) && !Unlimited(r.config, MemberLimit(r.config, ShareOf(r.config.members, t.user)[0], w))
  }

  /** Every admission of this member that lands in the window is made under a limit. */
  ghost predicate RunLimits(z: Zone, b: Book, evs: seq<Event>, t: Terms)
    requires z.Valid() && ValidBook(b)
    decreases |evs|
  {
    evs == [] || (EventLimits(z, b, evs[0], t) && RunLimits(z, Apply(z, b, evs[0]), evs[1..], t))
  }

  lemma {:induction false} StepKeepsFewActive(z: Zone, b: Book, ev: Event, t: Terms)
    requires z.Valid() && ValidBook(b) && t.user != EVERYONE && EventLimits(z, b, ev, t)
    requires ActiveCount(b, t.Scope()) <= MAX_OUTSTANDING
    ensures ActiveCount(Apply(z, b, ev), t.Scope()) <= MAX_OUTSTANDING
  {
    var one := OneIn(t.Scope());
    match ev
    case Begin(q, permitted, now) =>
      if r :| Starts(z, b, r, q, permitted, now) && Apply(z, b, ev) == b.(entries := b.entries + [NewEntry(z, r, q, now)]) {
        BeginKeepsFewActive(z, b, r, q, permitted, now, t);
      }
    case Finish(id, done, at, manual) =>
      if HasId(b.entries, id) && Outcome(b, id, done, at, manual).Saved? {
        var i := IndexOf(b.entries, id);
        var e := b.entries[i];
        FinishIsSound(e, b.revisions[e.revision].config, done, at, manual);
        SumUpdate(b.entries, i, Outcome(b, id, done, at, manual).entry, one);
      }
    case Recover => SumPointwise(RecoverBook(b).entries, b.entries, one);
    case Prune(before, batch) => SumFilterLowers(b.entries, Kept(before, batch), one);
    case Append(r) =>
    case DeletePending(at, now) =>
  }

  lemma {:induction false} BeginKeepsFewActive(z: Zone, b: Book, r: Revision, q: Request, permitted: bool, now: int, t: Terms)
    requires z.Valid() && ValidBook(b) && t.user != EVERYONE && EventLimits(z, b, Begin(q, permitted, now), t)
    requires Starts(z, b, r, q, permitted, now) && ActiveCount(b, t.Scope()) <= MAX_OUTSTANDING
    ensures ActiveCount(b.(entries := b.entries + [NewEntry(z, r, q, now)]), t.Scope()) <= MAX_OUTSTANDING
  {
    hide Starts, ValidBook, Accepted, InForce, Judge, WindowsAt, Longest, MemberLimit;
    var m, ws := StartedBecause(z, b, r, q, permitted, now);
    var c := r.config;
    var e := NewEntry(z, r, q, now);
    SumAppend(b.entries, [e], OneIn(t.Scope()));
    if t.Scope().Covers(e) {
      var w :| w in ws && w.SameSpan(t.w) && !Unlimited(c, MemberLimit(c, m, w));
      AdmissionLeavesRoom(b, c, m, ws, w);
      assert ScopeOf(c, t.user, w) == t.Scope();
    }
  }

  lemma {:induction false} RunKeepsFewActive(z: Zone, b: Book, evs: seq<Event>, t: Terms)
    requires z.Valid() && ValidBook(b) && t.user != EVERYONE && RunLimits(z, b, evs, t)
    requires ActiveCount(b, t.Scope()) <= MAX_OUTSTANDING
    ensures ActiveCount(Run(z, b, evs), t.Scope()) <= MAX_OUTSTANDING
    decreases |evs|
  {
    if evs != [] {
      StepKeepsFewActive(z, b, evs[0], t);
      RunKeepsFewActive(z, Apply(z, b, evs[0]), evs[1..], t);
    }
  }

  // ---- The bounds, for the windows of a rule ----

  /** `r` accounts over the same windows as `rule`, whatever else an edit changed. */
  ghost predicate SameTerm(rule: Revision, r: Revision, seconds: int) {
    && r.anchor == rule.anchor
    && (if rule.config.period.Durations?
        then r.config.period.Durations? && exists k <- r.config.windows :: k.seconds == seconds
        else r.config.period == rule.config.period)
  }

  /** A window stays the window of every later revision on the same term, for all of its instants. */
  lemma {:induction false} WindowOutlivesEdits(z: Zone, rule: Revision, since: int, w: Window, r: Revision, now: int)
    requires z.Valid() && z.DatesAdvance() && Accepted(rule.config) && Accepted(r.config)
    requires rule.anchor <= since && w in WindowsAt(z, rule, since)
    requires SameTerm(rule, r, w.seconds) && w.Holds(now)
    ensures exists x <- WindowsAt(z, r, now) :: x.SameSpan(w)
  {
    var i: nat :| i < |WindowsAt(z, rule, since)| && WindowsAt(z, rule, since)[i] == w;
    RevisionWindowsTile(z, rule, since, i);
    assert WindowsAt(z, rule, now)[i] == w;
    if rule.config.period.Durations? {
      var j :| 0 <= j < |r.config.windows| && r.config.windows[j].seconds == w.seconds;
      assert WindowsAt(z, r, now)[j].SameSpan(w);
    } else {
      assert WindowsAt(z, r, now)[0].SameSpan(w);
    }
  }

  /** Admissions inside the window of `t` are all made on the term of `rule`, under limits that
  `t` covers. */
  ghost predicate EditsKeepTerm(z: Zone, b: Book, evs: seq<Event>, rule: Revision, t: Terms)
    requires z.Valid() && ValidBook(b)
    decreases |evs|
  {
    evs == [] ||
    ((evs[0].Begin? && t.w.Holds(evs[0].now) && (t.user == EVERYONE || t.user == evs[0].request.user) ==>
        forall r :: InForce(b, r, evs[0].now) ==>
          && SameTerm(rule, r, t.w.seconds)
          && forall w <- WindowsAt(z, r, evs[0].now) :: w.SameSpan(t.w) ==> Covered(r.config, w, evs[0].request.user, t))
     && EditsKeepTerm(z, Apply(z, b, evs[0]), evs[1..], rule, t))
  }

  lemma {:induction false} EditsKeepRun(z: Zone, b: Book, evs: seq<Event>, rule: Revision, since: int, t: Terms)
    requires z.Valid() && z.DatesAdvance() && ValidBook(b) && Accepted(rule.config)
    requires rule.anchor <= since && t.w in WindowsAt(z, rule, since)
    requires EditsKeepTerm(z, b, evs, rule, t)
    ensures RunKeeps(z, b, evs, t)
    decreases |evs|
  {
    if evs != [] {
      if evs[0].Begin? && t.w.Holds(evs[0].now) && (t.user == EVERYONE || t.user == evs[0].request.user) {
        forall r | InForce(b, r, evs[0].now) ensures AdmitsUnder(z, r, t, evs[0].request.user, evs[0].now) {
          WindowOutlivesEdits(z, rule, since, t.w, r, evs[0].now);
        }
      }
      EditsKeepRun(z, Apply(z, b, evs[0]), evs[1..], rule, since, t);
    }
  }

  /** Over every run, whatever is edited, retried, recovered or pruned on the way, a window never
  owes more than its limits with their buffer, plus the excess no admission answered for. Read
  with a member it bounds the member's allowance; read for everyone, the shared budget. */
  lemma {:induction false} BudgetIsNeverExceeded(z: Zone, b: Book, evs: seq<Event>, rule: Revision, since: int, t: Terms)
    requires z.Valid() && z.DatesAdvance() && ValidBook(b) && Accepted(rule.config)
    requires rule.anchor <= since && t.w in WindowsAt(z, rule, since)
    requires EditsKeepTerm(z, b, evs, rule, t)
    requires 0 <= t.bound && forall e <- b.entries :: !t.Scope().Covers(e)
    ensures var end := Run(z, b, evs);
            Used(end, t.Scope()) + Held(end, t.Scope(), t.w) <= t.bound + Excess(end, t)
  {
    EditsKeepRun(z, b, evs, rule, since, t);
    NothingCommitted(b.entries, b.revisions, t);
    RunStaysWithin(z, b, evs, t);
    OwedIsCommittedPlusExcess(Run(z, b, evs), t);
  }

  lemma {:induction false} NothingCommitted(entries: seq<Entry>, revisions: map<int, Revision>, t: Terms)
    requires forall e <- entries :: !t.Scope().Covers(e)
    ensures Sum(entries, CommittedIn(t, revisions)) == 0 && Sum(entries, OneIn(t.Scope())) == 0
  {
    if entries != [] {
      NothingCommitted(entries[1..], revisions, t);
    }
  }

  // ---- One rule that is never edited ----

  /** Within one revision a window's span fixes its limit too. */
  lemma {:induction false} SpanFixesWindow(z: Zone, r: Revision, a: Window, at: int, b: Window, bt: int)
    requires z.Valid() && Accepted(r.config)
    requires a in WindowsAt(z, r, at) && b in WindowsAt(z, r, bt) && a.SameSpan(b)
    ensures a == b
  {
    if r.config.period.Durations? {
      WindowLimitIsCondition(z, r, at, a);
      WindowLimitIsCondition(z, r, bt, b);
      LimitForKnown(r.config.windows, a.seconds, a.limit, b.limit);
    }
  }

  predicate NoEdits(evs: seq<Event>) {
    forall ev <- evs :: !ev.Append? && !ev.DeletePending?
  }

  lemma EditsLeaveRules(z: Zone, b: Book, ev: Event)
    requires z.Valid() && ValidBook(b) && !ev.Append? && !ev.DeletePending?
    ensures Apply(z, b, ev).revisions == b.revisions
  {
  }

  lemma SharedCovers(c: Config, w: Window, a: int, b: int, t: Terms)
    requires t.user == EVERYONE && Covered(c, w, a, t)
    ensures Covered(c, w, b, t)
  {
  }

  lemma {:induction false} FixedRuleKeepsTerm(z: Zone, b: Book, evs: seq<Event>, rule: Revision, since: int, t: Terms)
    requires z.Valid() && ValidBook(b) && Accepted(rule.config) && b.revisions == map[rule.id := rule] && NoEdits(evs)
    requires t.w in WindowsAt(z, rule, since) && Covered(rule.config, t.w, t.user, t)
    ensures EditsKeepTerm(z, b, evs, rule, t)
    decreases |evs|
  {
    hide WindowsAt, Accepted, ValidBook, Covered, Apply;
    if evs != [] {
      EditsLeaveRules(z, b, evs[0]);
      if evs[0].Begin? && t.w.Holds(evs[0].now) {
        WindowLimitIsCondition(z, rule, since, t.w);
        if t.user == EVERYONE { SharedCovers(rule.config, t.w, t.user, evs[0].request.user, t); }
        forall w <- WindowsAt(z, rule, evs[0].now) | w.SameSpan(t.w)
          ensures w == t.w
        {
          SpanFixesWindow(z, rule, w, evs[0].now, t.w, since);
        }
      }
      FixedRuleKeepsTerm(z, Apply(z, b, evs[0]), evs[1..], rule, since, t);
    }
  }

  lemma {:induction false} FixedRuleLimits(z: Zone, b: Book, evs: seq<Event>, rule: Revision, since: int, t: Terms)
    requires z.Valid() && z.DatesAdvance() && ValidBook(b) && Accepted(rule.config) && rule.anchor <= since
    requires b.revisions == map[rule.id := rule] && NoEdits(evs) && t.w in WindowsAt(z, rule, since)
    requires forall m <- ShareOf(rule.config.members, t.user) :: !Unlimited(rule.config, MemberLimit(rule.config, m, t.w))
    ensures RunLimits(z, b, evs, t)
    decreases |evs|
  {
    hide WindowsAt, Accepted, ValidBook, MemberLimit, Apply;
    if evs != [] {
      EditsLeaveRules(z, b, evs[0]);
      if evs[0].Begin? && t.w.Holds(evs[0].now) {
        WindowLimitIsCondition(z, rule, since, t.w);
        WindowOutlivesEdits(z, rule, since, t.w, rule, evs[0].now);
        var w :| w in WindowsAt(z, rule, evs[0].now) && w.SameSpan(t.w);
        SpanFixesWindow(z, rule, w, evs[0].now, t.w, since);
      }
      FixedRuleLimits(z, Apply(z, b, evs[0]), evs[1..], rule, since, t);
    }
  }

  /** A ledger that has only seen one rule. */
  ghost function NewLedger(rule: Revision): (b: Book)
    requires Accepted(rule.config) && rule.anchor <= rule.effectiveAt
    ensures ValidBook(b) && b.entries == [] && b.revisions == map[rule.id := rule]
  {
    Book([], map[rule.id := rule])
  }

  function MemberTerms(c: Config, m: Share, w: Window): Terms {
    var limit := MemberLimit(c, m, w);
    Terms(EntryUnit(c), m.user, w, limit + Reservation(limit))
  }

  function SharedTerms(c: Config, w: Window): Terms {
    var total := WindowTotal(c, w);
    Terms(EntryUnit(c), EVERYONE, w, total + Reservation(total))
  }

  lemma MemberTermsCover(z: Zone, rule: Revision, since: int, w: Window, m: Share)
    requires z.Valid() && Accepted(rule.config) && w in WindowsAt(z, rule, since) && m in rule.config.members
    ensures var t := MemberTerms(rule.config, m, w);
            0 <= t.bound && t.user != EVERYONE && Covered(rule.config, w, t.user, t)
    ensures ShareOf(rule.config.members, m.user) == [m]
  {
    LimitNotNegative(z, rule, since, w, m);
    assert ValidMemberLimit(rule.config, m);
    OneSharePerUser(rule.config.members, m, ShareOf(rule.config.members, m.user)[0]);
  }

  /** Under one rule a member owes, in any window, at most the limit, a tenth of it, and the excess
  no admission answered for. */
  lemma {:induction false} MemberBudget(z: Zone, rule: Revision, evs: seq<Event>, since: int, w: Window, m: Share)
    requires z.Valid() && z.DatesAdvance() && Accepted(rule.config) && rule.anchor <= rule.effectiveAt
    requires rule.anchor <= since && w in WindowsAt(z, rule, since) && m in rule.config.members
    requires NoEdits(evs)
    ensures var limit := MemberLimit(rule.config, m, w);
            var t := MemberTerms(rule.config, m, w);
            var end := Run(z, NewLedger(rule), evs);
            Used(end, t.Scope()) + Held(end, t.Scope(), w) <= limit + Reservation(limit) + Excess(end, t)
  {
    hide WindowsAt, Accepted, MemberLimit, ValidBook, Covered;
    var t := MemberTerms(rule.config, m, w);
    MemberTermsCover(z, rule, since, w, m);
    FixedRuleKeepsTerm(z, NewLedger(rule), evs, rule, since, t);
    BudgetIsNeverExceeded(z, NewLedger(rule), evs, rule, since, t);
  }

  /** Under one rule a limited member never has more than four requests running in a window. */
  lemma {:induction false} MemberConcurrency(z: Zone, rule: Revision, evs: seq<Event>, since: int, w: Window, m: Share)
    requires z.Valid() && z.DatesAdvance() && Accepted(rule.config) && rule.anchor <= rule.effectiveAt
    requires rule.anchor <= since && w in WindowsAt(z, rule, since) && m in rule.config.members
    requires !Unlimited(rule.config, MemberLimit(rule.config, m, w)) && NoEdits(evs)
    ensures ActiveCount(Run(z, NewLedger(rule), evs), ScopeOf(rule.config, m.user, w)) <= MAX_OUTSTANDING
  {
    hide WindowsAt, Accepted, MemberLimit, ValidBook, Covered;
    var t := MemberTerms(rule.config, m, w);
    MemberTermsCover(z, rule, since, w, m);
    FixedRuleLimits(z, NewLedger(rule), evs, rule, since, t);
    RunKeepsFewActive(z, NewLedger(rule), evs, t);
  }

  /** Under one ratio rule all members together owe, in any window, at most the total, a tenth of
  it, and the excess. */
  lemma {:induction false} SharedBudget(z: Zone, rule: Revision, evs: seq<Event>, since: int, w: Window)
    requires z.Valid() && z.DatesAdvance() && Accepted(rule.config) && rule.anchor <= rule.effectiveAt
    requires rule.anchor <= since && w in WindowsAt(z, rule, since)
    requires rule.config.mode.RatioMode? && NoEdits(evs)
    ensures var total := WindowTotal(rule.config, w);
            var t := SharedTerms(rule.config, w);
            var end := Run(z, NewLedger(rule), evs);
            Used(end, t.Scope()) + Held(end, t.Scope(), w) <= total + Reservation(total) + Excess(end, t)
  {
    var t := SharedTerms(rule.config, w);
    WindowLimitNotNegative(z, rule, since, w);
    assert Covered(rule.config, w, t.user, t);
    hide WindowsAt, Accepted, ValidBook, Covered;
    FixedRuleKeepsTerm(z, NewLedger(rule), evs, rule, since, t);
    BudgetIsNeverExceeded(z, NewLedger(rule), evs, rule, since, t);
  }

  lemma WindowLimitNotNegative(z: Zone, r: Revision, now: int, w: Window)
    requires z.Valid() && Accepted(r.config) && w in WindowsAt(z, r, now)
    ensures 0 <= w.limit && 0 <= WindowTotal(r.config, w)
  {
    if r.config.period.Durations? {
      var i :| 0 <= i < |r.config.windows| && w == DurationWindow(now, r.anchor, r.config.windows[i]);
      assert r.config.windows[i] in r.config.windows;
    }
  }

  lemma LimitNotNegative(z: Zone, r: Revision, now: int, w: Window, m: Share)
    requires z.Valid() && Accepted(r.config) && w in WindowsAt(z, r, now) && m in r.config.members
    ensures 0 <= MemberLimit(r.config, m, w)
  {
    WindowLimitNotNegative(z, r, now, w);
    assert ValidMemberLimit(r.config, m);
    if r.config.mode.WindowMode? {
      LimitForBound(m.overrides, w.seconds, w.limit);
    }
  }

  lemma {:induction false} LimitForBound(conditions: seq<Condition>, seconds: int, otherwise: int)
    requires 0 <= otherwise && forall k <- conditions :: 0 <= k.limit
    ensures 0 <= LimitFor(conditions, seconds, otherwise)
  {
    if conditions != [] { LimitForBound(conditions[1..], seconds, otherwise); }
  }
}
