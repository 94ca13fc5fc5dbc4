/** The life of one ledger entry, over every run. */
module EntryLifecycle {
  import opened Sums
  import opened Calendar
  import opened Allowances
  import opened Ledger
  import opened LedgerSteps
  import opened BudgetBounds

  /** `later` is a state the same entry may reach from `e`: who asked, for what, when and under
  which revision never changes, states only advance, and a settled entry is final. */
  predicate Follows(e: Entry, later: Entry) {
    && later.id == e.id && later.revision == e.revision && later.user == e.user
    && later.account == e.account && later.model == e.model && later.unit == e.unit
    && later.windowStart == e.windowStart && later.resetAt == e.resetAt && later.startedAt == e.startedAt
    && (e.state.Settled? ==> later == e)
    && (e.state.Pending? ==> !later.state.Active?)
  }

  lemma StepFollows(z: Zone, b: Book, ev: Event, e: Entry, later: Entry)
    requires z.Valid() && ValidBook(b) && e in b.entries && later in Apply(z, b, ev).entries && e.id == later.id
    ensures Follows(e, later)
  {
    match ev
    case Begin(q, permitted, now) =>
      if r :| Starts(z, b, r, q, permitted, now) && Apply(z, b, ev) == b.(entries := b.entries + [NewEntry(z, r, q, now)]) {
        OneEntryPerId(b.entries + [NewEntry(z, r, q, now)], e, later);
      } else {
        OneEntryPerId(b.entries, e, later);
      }
    case Finish(id, done, at, manual) =>
      var after := Apply(z, b, ev).entries;
      if HasId(b.entries, id) && Outcome(b, id, done, at, manual).Saved? {
        var i := IndexOf(b.entries, id);
        FinishIsSound(b.entries[i], b.revisions[b.entries[i].revision].config, done, at, manual);
        if e.id == id {
          OneEntryPerId(b.entries, e, b.entries[i]);
          assert after[i] in after;
          OneEntryPerId(after, later, after[i]);
        } else {
          assert later in b.entries;
          OneEntryPerId(b.entries, e, later);
        }
      } else {
        OneEntryPerId(b.entries, e, later);
      }
    case Recover =>
      var i :| 0 <= i < |b.entries| && Recovered(b.entries[i]) == later;
      assert b.entries[i] in b.entries;
      OneEntryPerId(b.entries, e, b.entries[i]);
    case Prune(before, batch) => OneEntryPerId(b.entries, e, later);
    case Append(r) => OneEntryPerId(b.entries, e, later);
    case DeletePending(at, now) => OneEntryPerId(b.entries, e, later);
  }

  lemma OneEntryPerId(entries: seq<Entry>, a: Entry, b: Entry)
    requires DistinctIds(entries) && a in entries && b in entries && a.id == b.id
    ensures a == b
  {
    var i :| 0 <= i < |entries| && entries[i] == a;
    var j :| 0 <= j < |entries| && entries[j] == b;
    assert !(i < j) && !(j < i);
  }

  /** A request that is not in the ledger only gets there by being admitted. */
  lemma StepAddsOnlyAdmitted(z: Zone, b: Book, ev: Event, id: string)
    requires z.Valid() && ValidBook(b) && !HasId(b.entries, id)
    requires ev.Begin? ==> ev.request.id != id
    ensures !HasId(Apply(z, b, ev).entries, id)
  {
    if later :| later in Apply(z, b, ev).entries && later.id == id {
      match ev
      case Begin(q, permitted, now) =>
      case Finish(other, done, at, manual) =>
        if HasId(b.entries, other) && Outcome(b, other, done, at, manual).Saved? {
          var i := IndexOf(b.entries, other);
          FinishIsSound(b.entries[i], b.revisions[b.entries[i].revision].config, done, at, manual);
          assert b.entries[i] in b.entries;
        }
      case Recover =>
      case Prune(before, batch) =>
      case Append(r) =>
      case DeletePending(at, now) =>
    }
  }

  predicate NotAdmitted(evs: seq<Event>, id: string) {
    forall ev <- evs :: ev.Begin? ==> ev.request.id != id
  }

  lemma {:induction false} AbsentStaysAbsent(z: Zone, b: Book, evs: seq<Event>, id: string)
    requires z.Valid() && ValidBook(b) && !HasId(b.entries, id) && NotAdmitted(evs, id)
    ensures !HasId(Run(z, b, evs).entries, id)
    decreases |evs|
  {
    if evs != [] {
      StepAddsOnlyAdmitted(z, b, evs[0], id);
      AbsentStaysAbsent(z, Apply(z, b, evs[0]), evs[1..], id);
    }
  }

  /** Over every run an entry only advances, and once settled neither its charge nor anything else
  about it changes while it is kept. */
  lemma {:induction false} ChargedAtMostOnce(z: Zone, b: Book, evs: seq<Event>, e: Entry, later: Entry)
    requires z.Valid() && ValidBook(b) && e in b.entries && NotAdmitted(evs, e.id)
    requires later in Run(z, b, evs).entries && later.id == e.id
    ensures Follows(e, later)
    decreases |evs|
  {
    hide Apply;
    if evs == [] {
      OneEntryPerId(b.entries, e, later);
    } else {
      var next := Apply(z, b, evs[0]);
      if HasId(next.entries, e.id) {
        var mid :| mid in next.entries && mid.id == e.id;
        StepFollows(z, b, evs[0], e, mid);
        ChargedAtMostOnce(z, next, evs[1..], mid, later);
      } else {
        AbsentStaysAbsent(z, next, evs[1..], e.id);
      }
    }
  }

  /** Under any revision edits, an admitted request settles exactly when its counts are countable:
  its price never stands in the way, and nothing else is refused. */
  lemma {:induction false} AdmittedSettlesIffCountable(b: Book, e: Entry, done: Completion, now: int)
    requires ValidBook(b) && e in b.entries && e.state.Active?
    ensures Outcome(b, e.id, done, now, false).Saved? <==> ValidCounts(done.input, done.output, done.cached)
    ensures Outcome(b, e.id, done, now, false).BadUsage? <==> !ValidCounts(done.input, done.output, done.cached)
    ensures var f := Outcome(b, e.id, done, now, false);
            f.Saved? ==> (f.entry.state.Settled? <==> !done.dispatched || done.rejected || done.known)
  {
    var i := IndexOf(b.entries, e.id);
    assert b.entries[i] in b.entries;
    OneEntryPerId(b.entries, e, b.entries[i]);
    assert ValidEntry(e, b.revisions);
    var rate := RateFor(b.revisions[e.revision].config.rates, e.model);
    if e.unit.Amount? && ValidCounts(done.input, done.output, done.cached) {
      StoredRatesCharge(rate[0], done.input, done.output, done.cached);
    }
  }

  // ---- Charges ----

  /** The price of `model`: the first one its rule lists for it. */
  predicate Prices(rates: seq<Rate>, model: string, rate: Rate) {
    exists i :: 0 <= i < |rates| && rates[i] == rate && rate.model == model && forall j :: 0 <= j < i ==> rates[j].model != model
  }

  lemma {:induction false} RateIsThePrice(rates: seq<Rate>, model: string, rate: Rate)
    requires RateFor(rates, model) == [rate]
    ensures Prices(rates, model, rate)
  {
    if rates[0].model != model {
      RateIsThePrice(rates[1..], model, rate);
      var i :| 0 <= i < |rates| - 1 && rates[1..][i] == rate && forall j :: 0 <= j < i ==> rates[1..][j].model != model;
      assert rates[i + 1] == rate;
      forall j | 0 <= j < i + 1 ensures rates[j].model != model {
        if 0 < j {
          assert rates[j] == rates[1..][j - 1];
        }
      }
    } else {
      assert rates[0] == rate;
    }
  }

  /** The charge of a request, by the price in force when it was admitted: its tokens, or their price in
  millionths, summed over the three kinds of token and rounded up once. */
  ghost predicate Charge(r: Revision, e: Entry, done: Completion, cost: int) {
    if e.unit == Tokens then cost == done.input + done.output
    else exists rate :: Prices(r.config.rates, e.model, rate) && RoundsUp(rate, done, cost)
  }

  predicate RoundsUp(rate: Rate, done: Completion, cost: int) {
    var exact := (done.input - done.cached) * rate.input + done.cached * rate.cached + done.output * rate.output;
    1_000_000 * (cost - 1) < exact <= 1_000_000 * cost
  }

  /** What settlement makes of an entry. It waits, uncharged, when something was sent, was not rejected and
  its usage is not known; otherwise it is settled with its charge. Its counts are kept either way. */
  lemma {:induction false} FinishedEntryIsCharged(b: Book, e: Entry, done: Completion, now: int, manual: bool)
    requires ValidBook(b) && e in b.entries && Outcome(b, e.id, done, now, manual).Saved?
    ensures var f := Outcome(b, e.id, done, now, manual).entry;
      && f == e.(finishedAt := now, state := f.state, input := done.input, output := done.output, cached := done.cached,
                 cost := f.cost, manual := manual)
      && e.state == (if manual then Pending else Active)
      && (if done.dispatched && !done.rejected && !done.known then f.state == Pending && f.cost == 0
          else f.state == Settled && Charge(b.revisions[e.revision], e, done, f.cost))
  {
    var i := IndexOf(b.entries, e.id);
    assert b.entries[i] in b.entries;
    OneEntryPerId(b.entries, e, b.entries[i]);
    assert ValidEntry(e, b.revisions);
    var rates := b.revisions[e.revision].config.rates;
    if e.unit.Amount? {
      var rate := RateFor(rates, e.model)[0];
      RateIsThePrice(rates, e.model, rate);
      StoredRatesCharge(rate, done.input, done.output, done.cached);
      assert RoundsUp(rate, done, Price(rate, done.input, done.output, done.cached).value);
    }
  }

  /** Every window that covers the entry is charged by that much, and by nothing while it waits. */
  lemma {:induction false} FinishChargesItsWindows(b: Book, e: Entry, done: Completion, now: int, manual: bool, s: Scope)
    requires ValidBook(b) && e in b.entries && Outcome(b, e.id, done, now, manual).Saved?
    ensures var f := Outcome(b, e.id, done, now, manual).entry;
      Used(FinishBook(b, e.id, done, now, manual), s) ==
      Used(b, s) + if s.unit == e.unit && s.start <= e.startedAt < s.end && (s.user == 0 || s.user == e.user) && f.state == Settled then f.cost else 0
  {
    var i := IndexOf(b.entries, e.id);
    assert b.entries[i] in b.entries;
    OneEntryPerId(b.entries, e, b.entries[i]);
    FinishedEntryIsCharged(b, e, done, now, manual);
    hide Outcome, Charge;
    SumUpdate(b.entries, i, Outcome(b, e.id, done, now, manual).entry, CostIn(s));
  }

  // ---- Retention ----

  /** Each entry is retained until the last window it was admitted in has closed. */
  ghost predicate Retained(z: Zone, b: Book)
    requires z.Valid() && ValidBook(b)
  {
    forall e <- b.entries :: ValidEntry(e, b.revisions) ==> RetainedEntry(z, b.revisions[e.revision], e)
  }

  ghost predicate RetainedEntry(z: Zone, r: Revision, e: Entry)
    requires z.Valid()
  {
    Accepted(r.config) ==> e.resetAt == Longest(WindowsAt(z, r, e.startedAt)).end
  }

  lemma {:induction false} StepRetains(z: Zone, b: Book, ev: Event)
    requires z.Valid() && ValidBook(b) && Retained(z, b)
    ensures Retained(z, Apply(z, b, ev))
  {
    hide WindowsAt, Longest, Accepted;
    var after := Apply(z, b, ev);
    forall e <- after.entries ensures RetainedEntry(z, after.revisions[e.revision], e) {
      match ev
      case Begin(q, permitted, now) =>
      case Finish(id, done, at, manual) =>
        if HasId(b.entries, id) && Outcome(b, id, done, at, manual).Saved? {
          var i := IndexOf(b.entries, id);
          assert b.entries[i] in b.entries;
          FinishIsSound(b.entries[i], b.revisions[b.entries[i].revision].config, done, at, manual);
        }
      case Recover =>
        var i :| 0 <= i < |b.entries| && Recovered(b.entries[i]) == e;
        assert b.entries[i] in b.entries;
      case Prune(before, batch) =>
      case Append(r) => assert ValidEntry(e, b.revisions);
      case DeletePending(at, now) => assert ValidEntry(e, b.revisions);
    }
  }

  lemma {:induction false} RunRetains(z: Zone, b: Book, evs: seq<Event>)
    requires z.Valid() && ValidBook(b) && Retained(z, b)
    ensures Retained(z, Run(z, b, evs))
    decreases |evs|
  {
    if evs != [] {
      StepRetains(z, b, evs[0]);
      RunRetains(z, Apply(z, b, evs[0]), evs[1..]);
    }
  }

  /** Retention never lowers the usage of a window that is still open, however short the other
  windows of the rule are. */
  lemma {:induction false} PruneKeepsOpenWindows(z: Zone, b: Book, before: int, batch: set<string>, rule: Revision, now: int, w: Window, s: Scope)
    requires z.Valid() && z.DatesAdvance() && ValidBook(b) && Retained(z, b)
    requires Accepted(rule.config) && rule.anchor <= now && w in WindowsAt(z, rule, now)
    requires before <= now && s.start == w.start && s.end == w.end
    requires forall e <- b.entries :: s.Covers(e) ==> e.revision in b.revisions && SameTerm(rule, b.revisions[e.revision], w.seconds)
    ensures Used(PruneBook(b, before, batch), s) == Used(b, s)
  {
    forall e <- b.entries ensures Kept(before, batch)(e) || CostIn(s)(e) == 0 {
      assert ValidEntry(e, b.revisions);
      if s.Covers(e) {
        var r := b.revisions[e.revision];
        WindowOutlivesEdits(z, rule, now, w, r, e.startedAt);
        var i: nat :| i < |WindowsAt(z, rule, now)| && WindowsAt(z, rule, now)[i] == w;
        RevisionWindowsTile(z, rule, now, i);
      }
    }
    SumFilter(b.entries, Kept(before, batch), CostIn(s));
  }
}
