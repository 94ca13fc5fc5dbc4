/** Durable redemption of reset cards: reserve, call the provider, settle and replay, with crashes and
lost or late messages at any point.

Nothing but the database outlives a crash, so a state holds the account's rows, what has ever been sent
and what the provider has decided. The provider decides each idempotency key once, when a request with
that key first reaches it. */
module Redemption {

  import opened Common
  import opened Calendar
  import opened ResetDays

  type Key = nat

  datatype Outcome = Pending | Success | Skipped

  datatype Trigger = Manual | Scheduled | Exhausted

  /** A row; `reason` says why it has its outcome. */
  datatype Run = Run(key: Key, trigger: Trigger, occurrence: Option<int>, outcome: Outcome, reason: string, startedAt: int, card: string)

  const UNCONFIRMED := "confirmation_required"

  /** `next` is the next scheduled occurrence, or zero. */
  datatype Account = Account(enabled: bool, reauthorize: bool, models: int, revision: int, scheduled: bool, limit: int, next: int)

  /** `issued` remembers every key ever reserved, with its card and its start; `claimed` every scheduled
  occurrence ever claimed. */
  datatype State = State(
    account: Account,
    runs: seq<Run>,
    sent: set<(Key, string)>,
    decided: map<Key, bool>,
    issued: map<Key, Run>,
    claimed: seq<int>,
    clock: int)

  /** A zone, with the noons the library proposes for the date of an instant and the one after. */
  datatype Almanac = Almanac(zone: Zone, noons: int -> Noons) {

    function Day(t: int): int {
      zone.Day(t)
    }

    /** What the service takes for the present day. */
    function Today(now: int): Span {
      BoundsOf(zone, noons(now))
    }

    ghost predicate CoversToday(now: int) {
      ResetDays.CoversToday(zone, now, noons(now))
    }
  }

  // ---- Rows ----

  predicate Counted(today: Span, r: Run) {
    r.outcome != Skipped && today.Holds(r.startedAt)
  }

  /** Runs between the bounds of a day that spent a card or may have. */
  function Usage(today: Span, runs: seq<Run>): nat {
    if runs == [] then 0 else Usage(today, runs[..|runs| - 1]) + (if Counted(today, runs[|runs| - 1]) then 1 else 0)
  }

  predicate HasPending(runs: seq<Run>) {
    exists i :: 0 <= i < |runs| && runs[i].outcome == Pending
  }

  predicate HasOccurrence(runs: seq<Run>, o: Option<int>) {
    o.Some? && exists i :: 0 <= i < |runs| && runs[i].occurrence == o
  }

  function Finished(r: Run, key: Key, a: Answer): Run {
    if r.key == key && r.outcome == Pending then
      r.(outcome := OutcomeOf(a), reason := ReasonOf(a), card := if OutcomeOf(a) == Pending then r.card else "")
    else r
  }

  function FinishAll(runs: seq<Run>, key: Key, a: Answer): (u: seq<Run>)
    ensures |u| == |runs| && forall i :: 0 <= i < |runs| ==> u[i] == Finished(runs[i], key, a)
  {
    seq(|runs|, i requires 0 <= i < |runs| => Finished(runs[i], key, a))
  }

  const HISTORY := 100

  /** Finished runs from before the day's start go, beyond the most recent hundred. */
  function Prune(start: int, runs: seq<Run>, kept: nat): (u: seq<Run>)
    ensures |u| <= |runs|
  {
    if runs == [] then []
    else
      var last := runs[|runs| - 1];
      var rest := Prune(start, runs[..|runs| - 1], kept + 1);
      if last.outcome != Pending && last.startedAt < start && HISTORY <= kept then rest else rest + [last]
  }

  // ---- Steps ----

  datatype Answer = Redeemed | AlreadyRedeemed | NothingToReset | NoCredit | Unknown

  datatype Event =
    | Tick(now: int)
    | Edit(enabled: bool, reauthorize: bool, models: int)
    | Save(scheduled: bool, limit: int, next: int)
    | Advance(revision: int, previous: int, now: int, next: int, claim: bool)
    | Skip(key: Key, trigger: Trigger, occurrence: Option<int>, reason: string)
    | Reserve(key: Key, trigger: Trigger, card: string, occurrence: Option<int>, revision: int, models: int)
    | Replay
    | Deliver(key: Key, card: string, spends: bool)
    | Settle(key: Key, answer: Answer)
    | PruneRuns

  function OutcomeOf(a: Answer): Outcome {
    match a
    case Redeemed => Success
    case AlreadyRedeemed => Success
    case NothingToReset => Skipped
    case NoCredit => Skipped
    case Unknown => Pending
  }

  function ReasonOf(a: Answer): string {
    match a
    case Redeemed => "reset"
    case AlreadyRedeemed => "already_redeemed"
    case NothingToReset => "nothing_to_reset"
    case NoCredit => "no_credit"
    case Unknown => UNCONFIRMED
  }

  /** A new row, unless its occurrence has one. */
  function Insert(runs: seq<Run>, r: Run): seq<Run> {
    if HasOccurrence(runs, r.occurrence) then runs else runs + [r]
  }

  /** The reservation's transaction: the account is as it was when it was inspected, nothing is
  pending, and the day has room. */
  predicate CanReserve(z: Almanac, s: State, e: Event)
    requires e.Reserve?
  {
    && s.account.enabled && !s.account.reauthorize
    && s.account.models == e.models && s.account.revision == e.revision
    && !HasPending(s.runs) && Usage(z.Today(s.clock), s.runs) < s.account.limit
    && !HasOccurrence(s.runs, e.occurrence)
  }

  function PendingRun(runs: seq<Run>): (r: Run)
    requires HasPending(runs)
    ensures r in runs && r.outcome == Pending
  {
    if runs[0].outcome == Pending then runs[0] else PendingRun(runs[1..])
  }

  predicate Claims(s: State, e: Event) {
    && e.Advance? && s.account.revision == e.revision && s.account.next == e.previous
    && e.claim && s.account.scheduled && 0 < e.previous <= e.now
  }

  function Step(z: Almanac, s: State, e: Event): State {
    match e
    case Tick(now) => s.(clock := now)
    case Edit(enabled, reauthorize, models) => s.(account := s.account.(enabled := enabled, reauthorize := reauthorize, models := models))
    case Save(scheduled, limit, next) =>
      s.(account := s.account.(scheduled := scheduled, limit := limit, next := next, revision := s.account.revision + 1))
    case Advance(revision, previous, now, next, claim) =>
      if s.account.revision == revision && s.account.next == previous then
        s.(account := s.account.(next := next), claimed := if Claims(s, e) then s.claimed + [previous] else s.claimed)
      else s
    case Skip(key, trigger, occurrence, reason) => s.(runs := Insert(s.runs, Run(key, trigger, occurrence, Skipped, reason, s.clock, "")))
    case Reserve(key, trigger, card, occurrence, _, _) =>
      if CanReserve(z, s, e) then
        var r := Run(key, trigger, occurrence, Pending, UNCONFIRMED, s.clock, card);
        s.(runs := s.runs + [r], issued := s.issued[key := r], sent := s.sent + {(key, card)})
      else s
    case Replay => if HasPending(s.runs) then s.(sent := s.sent + {(PendingRun(s.runs).key, PendingRun(s.runs).card)}) else s
    case Deliver(key, card, spends) => if key in s.decided then s else s.(decided := s.decided[key := spends])
    case Settle(key, answer) => s.(runs := FinishAll(s.runs, key, answer))
    case PruneRuns => s.(runs := Prune(z.Today(s.clock).start, s.runs, 0))
  }

  predicate Fresh(s: State, key: Key) {
    key !in s.issued && forall i :: 0 <= i < |s.runs| ==> s.runs[i].key != key
  }

  /** Keys never repeat, only what was sent arrives, answers come from the provider's decision, the
  clock does not go back, and occurrences are proposed after the moment they are computed for. One run
  at a time holds the account's lock, so that moment is no earlier than the last claim. */
  predicate CanStep(s: State, e: Event) {
    match e
    case Tick(now) => s.clock <= now
    case Save(_, limit, next) => 1 <= limit <= 100 && (next == 0 || s.clock < next)
    case Advance(_, _, now, next, _) => now <= s.clock && (next == 0 || now < next) && (s.claimed == [] || s.claimed[|s.claimed| - 1] <= now)
    case Skip(key, _, _, _) => Fresh(s, key)
    case Reserve(key, _, _, _, _, _) => Fresh(s, key)
    case Deliver(key, card, _) => (key, card) in s.sent
    case Settle(key, answer) =>
      && (answer == Redeemed || answer == AlreadyRedeemed ==> key in s.decided && s.decided[key])
      && (answer == NothingToReset || answer == NoCredit ==> key in s.decided && !s.decided[key])
    case _ => true
  }

  function Start(account: Account, clock: int): State {
    State(account, [], {}, map[], map[], [], clock)
  }

  // ---- Invariants ----

  /** At most one run awaits confirmation. */
  predicate OnePending(runs: seq<Run>) {
    forall i, j :: 0 <= i < j < |runs| ==> runs[i].outcome != Pending || runs[j].outcome != Pending
  }

  predicate DistinctKeys(runs: seq<Run>) {
    forall i, j :: 0 <= i < j < |runs| ==> runs[i].key != runs[j].key
  }

  predicate DistinctOccurrences(runs: seq<Run>) {
    forall i, j :: 0 <= i < j < |runs| ==> runs[i].occurrence.None? || runs[i].occurrence != runs[j].occurrence
  }

  /** One key always goes with the card reserved for it. */
  predicate Paired(s: State) {
    && (forall m <- s.sent :: m.0 in s.issued && s.issued[m.0].card == m.1)
    && (forall k <- s.decided :: k in s.issued)
    && (forall k <- s.issued :: s.issued[k].reason == UNCONFIRMED)
    && (forall i :: 0 <= i < |s.runs| && s.runs[i].outcome == Pending ==> s.runs[i].key in s.issued && s.runs[i] == s.issued[s.runs[i].key])
  }

  /** What a key may have spent is on record until its day is over: its run is pending or a success,
  unless the provider decided against it. */
  predicate OnRecord(z: Almanac, s: State, k: Key)
    requires k in s.issued
  {
    || (k in s.decided && !s.decided[k])
    || z.Day(s.issued[k].startedAt) < z.Day(s.clock)
    || exists i :: 0 <= i < |s.runs| && s.runs[i].key == k && s.runs[i].outcome != Skipped && s.runs[i].startedAt == s.issued[k].startedAt
  }

  predicate Recorded(z: Almanac, s: State) {
    && (forall k <- s.issued :: OnRecord(z, s, k))
    && (forall k <- s.issued :: s.issued[k].startedAt <= s.clock)
  }

  predicate Safe(s: State) {
    OnePending(s.runs) && DistinctKeys(s.runs) && DistinctOccurrences(s.runs) && Paired(s)
  }

  // ---- Rows under the steps ----

  lemma {:induction false} PruneKeeps(start: int, runs: seq<Run>, kept: nat)
    ensures forall r :: r in Prune(start, runs, kept) ==> r in runs
    ensures forall r :: r in runs && r !in Prune(start, runs, kept) ==> r.outcome != Pending && r.startedAt < start
  {
    if runs != [] {
      PruneKeeps(start, runs[..|runs| - 1], kept + 1);
    }
  }

  /** Of rows with distinct keys, retention deletes exactly the finished ones from before the day start that a
  hundred later ones follow. */
  lemma {:induction false} PruneDeletesIff(start: int, runs: seq<Run>, kept: nat, i: nat)
    requires DistinctKeys(runs) && i < |runs|
    ensures runs[i] in Prune(start, runs, kept) <==>
            runs[i].outcome == Pending || start <= runs[i].startedAt || |runs| - 1 - i + kept < 100
    decreases |runs|
  {
    var front, last := runs[..|runs| - 1], runs[|runs| - 1];
    assert forall j :: 0 <= j < |front| ==> front[j] == runs[j];
    if i < |front| {
      PruneDeletesIff(start, front, kept + 1, i);
      assert runs[i].key != last.key;
    } else {
      PruneKeeps(start, front, kept + 1);
      assert last !in front;
    }
  }

  datatype Difference = NotBothPending | OtherKeys | OtherOccurrences

  predicate Apart(d: Difference, a: Run, b: Run) {
    match d
    case NotBothPending => a.outcome != Pending || b.outcome != Pending
    case OtherKeys => a.key != b.key
    case OtherOccurrences => a.occurrence.None? || a.occurrence != b.occurrence
  }

  predicate AllApart(d: Difference, runs: seq<Run>) {
    forall i, j :: 0 <= i < j < |runs| ==> Apart(d, runs[i], runs[j])
  }

  lemma {:induction false} PruneKeepsApart(start: int, runs: seq<Run>, kept: nat, d: Difference)
    requires AllApart(d, runs)
    ensures AllApart(d, Prune(start, runs, kept))
  {
    if runs != [] {
      var front, last := runs[..|runs| - 1], runs[|runs| - 1];
      assert forall i :: 0 <= i < |front| ==> front[i] == runs[i];
      PruneKeepsApart(start, front, kept + 1, d);
      PruneKeeps(start, front, kept + 1);
      var rest := Prune(start, front, kept + 1);
      forall i | 0 <= i < |rest| ensures Apart(d, rest[i], last) {
        assert rest[i] in front;
        var k :| 0 <= k < |front| && front[k] == rest[i];
      }
    }
  }

  lemma PrunedRowsAreDistinct(start: int, runs: seq<Run>)
    requires OnePending(runs) && DistinctKeys(runs) && DistinctOccurrences(runs)
    ensures var u := Prune(start, runs, 0); OnePending(u) && DistinctKeys(u) && DistinctOccurrences(u)
  {
    PruneKeepsApart(start, runs, 0, NotBothPending);
    PruneKeepsApart(start, runs, 0, OtherKeys);
    PruneKeepsApart(start, runs, 0, OtherOccurrences);
    var u := Prune(start, runs, 0);
    assert forall i, j :: 0 <= i < j < |u| ==>
      Apart(NotBothPending, u[i], u[j]) && Apart(OtherKeys, u[i], u[j]) && Apart(OtherOccurrences, u[i], u[j]);
  }

  lemma PruneIsSafe(z: Almanac, s: State)
    requires Safe(s)
    ensures Safe(Step(z, s, PruneRuns))
  {
    var start := z.Today(s.clock).start;
    var u := Prune(start, s.runs, 0);
    PrunedRowsAreDistinct(start, s.runs);
    PruneKeeps(start, s.runs, 0);
    hide Prune;
    forall i | 0 <= i < |u| && u[i].outcome == Pending ensures u[i].key in s.issued && u[i] == s.issued[u[i].key] {
      assert u[i] in u;
      var j :| 0 <= j < |s.runs| && s.runs[j] == u[i];
    }
  }

  lemma InsertIsSafe(s: State, r: Run, t: State)
    requires Safe(s) && Fresh(s, r.key) && !HasOccurrence(s.runs, r.occurrence)
    requires r.outcome == Pending ==> !HasPending(s.runs) && r.reason == UNCONFIRMED
    requires r.outcome != Success && t == (if r.outcome == Pending then s.(runs := s.runs + [r], issued := s.issued[r.key := r], sent := s.sent + {(r.key, r.card)}) else s.(runs := s.runs + [r]))
    ensures Safe(t)
  {
    assert t.runs[|s.runs|] == r;
    assert forall i :: 0 <= i < |s.runs| ==> t.runs[i] == s.runs[i];
  }

  lemma ReplayIsSafe(z: Almanac, s: State)
    requires Safe(s)
    ensures Safe(Step(z, s, Replay))
  {
    if HasPending(s.runs) {
      var i :| 0 <= i < |s.runs| && s.runs[i] == PendingRun(s.runs);
    }
  }

  lemma DeliverIsSafe(z: Almanac, s: State, key: Key, card: string, spends: bool)
    requires Safe(s) && CanStep(s, Deliver(key, card, spends))
    ensures Safe(Step(z, s, Deliver(key, card, spends)))
  {
    assert (key, card).0 in s.issued;
  }

  lemma SettleIsSafe(z: Almanac, s: State, key: Key, answer: Answer)
    requires Safe(s)
    ensures Safe(Step(z, s, Settle(key, answer)))
  {
  }

  lemma StepIsSafe(z: Almanac, s: State, e: Event)
    requires Safe(s) && CanStep(s, e)
    ensures Safe(Step(z, s, e))
  {
    match e
    case Skip(key, trigger, occurrence, reason) =>
      if !HasOccurrence(s.runs, occurrence) {
        InsertIsSafe(s, Run(key, trigger, occurrence, Skipped, reason, s.clock, ""), Step(z, s, e));
      }
    case Reserve(key, trigger, card, occurrence, _, _) =>
      if CanReserve(z, s, e) {
        InsertIsSafe(s, Run(key, trigger, occurrence, Pending, UNCONFIRMED, s.clock, card), Step(z, s, e));
      }
    case Replay => ReplayIsSafe(z, s);
    case Deliver(key, card, spends) => DeliverIsSafe(z, s, key, card, spends);
    case Settle(key, answer) => SettleIsSafe(z, s, key, answer);
    case PruneRuns => PruneIsSafe(z, s);
    case _ => SameRows(s, Step(z, s, e));
  }

  lemma SameRows(s: State, t: State)
    requires Safe(s) && t == s.(account := t.account, claimed := t.claimed, clock := t.clock)
    ensures Safe(t)
  {
  }

  // ---- What is on record ----

  lemma PruneKeepsRecord(z: Almanac, s: State)
    requires Recorded(z, s) && z.CoversToday(s.clock) && z.zone.DatesAdvance()
    ensures Recorded(z, Step(z, s, PruneRuns))
  {
    var u := Prune(z.Today(s.clock).start, s.runs, 0);
    PruneKeeps(z.Today(s.clock).start, s.runs, 0);
    hide Prune;
    forall k <- s.issued ensures OnRecord(z, s.(runs := u), k) {
      if i :| 0 <= i < |s.runs| && s.runs[i].key == k && s.runs[i].outcome != Skipped && s.runs[i].startedAt == s.issued[k].startedAt {
        assert s.runs[i] in s.runs;
        if s.runs[i] in u {
          var j :| 0 <= j < |u| && u[j] == s.runs[i];
        } else {
          assert z.Day(s.runs[i].startedAt) <= z.Day(s.clock);
        }
      } else {
        assert OnRecord(z, s, k);
      }
    }
  }

  lemma StepKeepsRecord(z: Almanac, s: State, e: Event)
    requires Safe(s) && Recorded(z, s) && CanStep(s, e) && z.zone.DatesAdvance()
    requires e.PruneRuns? ==> z.CoversToday(s.clock)
    ensures Recorded(z, Step(z, s, e))
  {
    if e.PruneRuns? {
      PruneKeepsRecord(z, s);
    } else {
      var t := Step(z, s, e);
      forall k <- t.issued ensures OnRecord(z, t, k) {
        StepKeepsOnRecord(z, s, e, k);
      }
    }
  }

  lemma StepKeepsOnRecord(z: Almanac, s: State, e: Event, k: Key)
    requires Safe(s) && Recorded(z, s) && CanStep(s, e) && z.zone.DatesAdvance() && !e.PruneRuns?
    requires k in Step(z, s, e).issued
    ensures OnRecord(z, Step(z, s, e), k)
  {
    hide Usage, BoundsOf, Zone.Day;
    var t := Step(z, s, e);
    if k in s.issued {
      assert OnRecord(z, s, k);
      if i :| 0 <= i < |s.runs| && s.runs[i].key == k && s.runs[i].outcome != Skipped && s.runs[i].startedAt == s.issued[k].startedAt {
        assert t.runs[i] == if e.Settle? then Finished(s.runs[i], e.key, e.answer) else s.runs[i];
      }
    } else {
      assert t.runs[|s.runs|].key == k;
    }
  }

  // ---- What the steps record ----

  /** An answer settles the run that waits for it: redeemed and already redeemed are successes, nothing to reset
  and no credit are skips, and an unknown answer leaves it pending with its card. */
  lemma AnswerIsRecorded(runs: seq<Run>, key: Key, a: Answer, i: nat)
    requires i < |runs|
    ensures var (r, t) := (runs[i], FinishAll(runs, key, a)[i]);
      if r.key != key || r.outcome != Pending then t == r
      else match a
           case Redeemed => t == r.(outcome := Success, reason := "reset", card := "")
           case AlreadyRedeemed => t == r.(outcome := Success, reason := "already_redeemed", card := "")
           case NothingToReset => t == r.(outcome := Skipped, reason := "nothing_to_reset", card := "")
           case NoCredit => t == r.(outcome := Skipped, reason := "no_credit", card := "")
           case Unknown => t == r.(reason := "confirmation_required")
  {
  }

  /** An occurrence advances only from the schedule it was computed for, and is claimed only when it is due. */
  lemma AdvanceIsConditional(z: Almanac, s: State, revision: int, previous: int, now: int, next: int, claim: bool)
    ensures var t := Step(z, s, Advance(revision, previous, now, next, claim));
      if s.account.revision != revision || s.account.next != previous then t == s
      else && t.account == s.account.(next := next)
           && t == s.(account := t.account, claimed := if claim && s.account.scheduled && 0 < previous <= now then s.claimed + [previous] else s.claimed)
  {
  }

  /** An edit of the account leaves its schedule, its limit and everything else alone. */
  lemma EditKeepsTheSchedule(z: Almanac, s: State, enabled: bool, reauthorize: bool, models: int)
    ensures var (t, a) := (Step(z, s, Edit(enabled, reauthorize, models)), s.account);
      t == s.(account := Account(enabled, reauthorize, models, a.revision, a.scheduled, a.limit, a.next))
  {
  }

  /** A reservation is recorded as pending, with its card, to be confirmed. */
  lemma ReservationIsRecorded(z: Almanac, s: State, e: Event)
    requires e.Reserve? && CanReserve(z, s, e)
    ensures Step(z, s, e).runs == s.runs + [Run(e.key, e.trigger, e.occurrence, Pending, "confirmation_required", s.clock, e.card)]
  {
  }

  /** A reservation is made exactly when the account is in use and as it was inspected, nothing waits to be
  confirmed, the present day has room, and its occurrence is new. */
  lemma {:induction false} ReservesIff(z: Almanac, s: State, e: Event)
    requires e.Reserve?
    ensures CanReserve(z, s, e) <==>
      && s.account.enabled && !s.account.reauthorize && s.account.models == e.models && s.account.revision == e.revision
      && (forall r <- s.runs :: r.outcome != Pending) && (e.occurrence.Some? ==> forall r <- s.runs :: r.occurrence != e.occurrence)
      && Usage(z.Today(s.clock), s.runs) < s.account.limit
  {
    hide Usage, BoundsOf;
    assert forall i :: 0 <= i < |s.runs| ==> s.runs[i] in s.runs;
  }

  // ---- The daily limit ----

  /** Keys of runs started on a day that spent a card or still may. */
  function MaySpend(z: Almanac, s: State, day: int): set<Key> {
    set k | k in s.issued && z.Day(s.issued[k].startedAt) == day && !(k in s.decided && !s.decided[k])
  }

  /** Keys of runs started on a day for which the provider spent a card. */
  function Spent(z: Almanac, s: State, day: int): set<Key> {
    set k | k in s.issued && z.Day(s.issued[k].startedAt) == day && k in s.decided && s.decided[k]
  }

  ghost predicate Capped(z: Almanac, s: State, limit: int) {
    s.account.limit <= limit && forall day :: |MaySpend(z, s, day)| <= limit
  }

  function CountedKeys(today: Span, runs: seq<Run>): set<Key> {
    set i | 0 <= i < |runs| && Counted(today, runs[i]) :: runs[i].key
  }

  lemma {:induction false} CountedKeysFit(today: Span, runs: seq<Run>)
    ensures |CountedKeys(today, runs)| <= Usage(today, runs)
  {
    if runs == [] {
      assert CountedKeys(today, runs) == {};
    } else {
      var front, last := runs[..|runs| - 1], runs[|runs| - 1];
      CountedKeysFit(today, front);
      assert forall i :: 0 <= i < |front| ==> front[i] == runs[i];
      if Counted(today, last) {
        assert CountedKeys(today, runs) <= CountedKeys(today, front) + {last.key};
        SubsetFits(CountedKeys(today, runs), CountedKeys(today, front) + {last.key});
      } else {
        assert CountedKeys(today, runs) <= CountedKeys(today, front);
        SubsetFits(CountedKeys(today, runs), CountedKeys(today, front));
      }
    }
  }

  /** What may be spent today is counted today, when the bounds leave out nothing of it. */
  lemma TodayIsCounted(z: Almanac, s: State)
    requires Recorded(z, s) && z.CoversToday(s.clock)
    ensures MaySpend(z, s, z.Day(s.clock)) <= CountedKeys(z.Today(s.clock), s.runs)
  {
    hide BoundsOf;
    forall k | k in MaySpend(z, s, z.Day(s.clock)) ensures k in CountedKeys(z.Today(s.clock), s.runs) {
      assert OnRecord(z, s, k);
      var i :| 0 <= i < |s.runs| && s.runs[i].key == k && s.runs[i].outcome != Skipped && s.runs[i].startedAt == s.issued[k].startedAt;
      assert Counted(z.Today(s.clock), s.runs[i]);
    }
  }

  lemma ReserveIsCapped(z: Almanac, s: State, e: Event, limit: int)
    requires Recorded(z, s) && Capped(z, s, limit) && e.Reserve? && CanStep(s, e) && CanReserve(z, s, e)
    requires z.CoversToday(s.clock)
    ensures Capped(z, Step(z, s, e), limit)
  {
    var t := Step(z, s, e);
    var today := z.Day(s.clock);
    TodayIsCounted(z, s);
    CountedKeysFit(z.Today(s.clock), s.runs);
    SubsetFits(MaySpend(z, s, today), CountedKeys(z.Today(s.clock), s.runs));
    assert |MaySpend(z, s, today)| < s.account.limit;
    forall day ensures |MaySpend(z, t, day)| <= limit {
      hide Recorded, CountedKeys, Usage, BoundsOf;
      ReserveSpends(z, s, e, day);
      hide Step, CanStep, MaySpend;
      SubsetFits(MaySpend(z, t, day), MaySpend(z, s, day) + if day == today then {e.key} else {});
    }
  }

  lemma ReserveSpends(z: Almanac, s: State, e: Event, day: int)
    requires e.Reserve? && CanReserve(z, s, e)
    ensures MaySpend(z, Step(z, s, e), day) <= MaySpend(z, s, day) + if day == z.Day(s.clock) then {e.key} else {}
  {
    hide Usage, BoundsOf, Zone.Day;
  }

  lemma StepIsCapped(z: Almanac, s: State, e: Event, limit: int)
    requires Recorded(z, s) && Capped(z, s, limit) && CanStep(s, e) && (e.Save? ==> e.limit <= limit)
    requires e.Reserve? ==> z.CoversToday(s.clock)
    ensures Capped(z, Step(z, s, e), limit)
  {
    var t := Step(z, s, e);
    if e.Reserve? && CanReserve(z, s, e) {
      ReserveIsCapped(z, s, e, limit);
    } else {
      forall day ensures |MaySpend(z, t, day)| <= limit {
        assert MaySpend(z, t, day) <= MaySpend(z, s, day);
        SubsetFits(MaySpend(z, t, day), MaySpend(z, s, day));
      }
    }
  }

  // ---- Scheduled occurrences ----

  predicate Increasing(times: seq<int>) {
    forall i, j :: 0 <= i < j < |times| ==> times[i] < times[j]
  }

  /** Claims come in order of time, and the next occurrence is later than all of them. */
  predicate ClaimedOnce(s: State) {
    && Increasing(s.claimed)
    && forall i :: 0 <= i < |s.claimed| ==> s.claimed[i] <= s.clock && (s.account.next == 0 || s.claimed[i] < s.account.next)
  }

  lemma StepClaimsOnce(z: Almanac, s: State, e: Event)
    requires ClaimedOnce(s) && CanStep(s, e)
    ensures ClaimedOnce(Step(z, s, e))
  {
  }

  // ---- Runs ----

  predicate CanRun(z: Almanac, s: State, es: seq<Event>)
    decreases |es|
  {
    es == [] || (CanStep(s, es[0]) && CanRun(z, Step(z, s, es[0]), es[1..]))
  }

  function RunAll(z: Almanac, s: State, es: seq<Event>): State
    decreases |es|
  {
    if es == [] then s else RunAll(z, Step(z, s, es[0]), es[1..])
  }

  lemma {:induction false} RunAppends(z: Almanac, s: State, es: seq<Event>, e: Event)
    requires CanRun(z, s, es) && CanStep(RunAll(z, s, es), e)
    ensures CanRun(z, s, es + [e]) && RunAll(z, s, es + [e]) == Step(z, RunAll(z, s, es), e)
    decreases |es|
  {
    if es == [] {
      assert [e][1..] == [];
    } else {
      RunAppends(z, Step(z, s, es[0]), es[1..], e);
      assert (es + [e])[1..] == es[1..] + [e];
    }
  }

  predicate LimitsUpTo(es: seq<Event>, limit: int) {
    forall e <- es :: e.Save? ==> e.limit <= limit
  }

  /** However runs crash, replay, race and are pruned, one run at most awaits confirmation, one key was
  only ever sent with the card reserved for it, and each scheduled occurrence was claimed once. */
  lemma {:induction false} RunIsSafe(z: Almanac, s: State, es: seq<Event>)
    requires Safe(s) && ClaimedOnce(s) && CanRun(z, s, es)
    ensures Safe(RunAll(z, s, es)) && ClaimedOnce(RunAll(z, s, es))
    decreases |es|
  {
    if es != [] {
      StepIsSafe(z, s, es[0]);
      StepClaimsOnce(z, s, es[0]);
      RunIsSafe(z, Step(z, s, es[0]), es[1..]);
    }
  }

  lemma {:induction false} ClockGoesOn(z: Almanac, s: State, es: seq<Event>)
    requires CanRun(z, s, es)
    ensures s.clock <= RunAll(z, s, es).clock
    decreases |es|
  {
    if es != [] {
      ClockGoesOn(z, Step(z, s, es[0]), es[1..]);
    }
  }

  /** At each moment of a span of time the bounds leave out nothing of the day. */
  ghost predicate CoversDays(z: Almanac, first: int, last: int) {
    forall now :: first <= now <= last ==> z.CoversToday(now)
  }

  lemma {:induction false} RunIsCapped(z: Almanac, s: State, es: seq<Event>, limit: int)
    requires Safe(s) && Recorded(z, s) && Capped(z, s, limit) && CanRun(z, s, es) && LimitsUpTo(es, limit)
    requires z.zone.DatesAdvance() && CoversDays(z, s.clock, RunAll(z, s, es).clock)
    ensures Recorded(z, RunAll(z, s, es)) && Capped(z, RunAll(z, s, es), limit)
    decreases |es|
  {
    hide Safe, Recorded, Capped, Zone.DatesAdvance, Almanac.CoversToday;
    if es != [] {
      var t := Step(z, s, es[0]);
      ClockGoesOn(z, t, es[1..]);
      assert s.clock <= t.clock;
      hide Step, CanStep;
      StepIsSafe(z, s, es[0]);
      StepKeepsRecord(z, s, es[0]);
      StepIsCapped(z, s, es[0], limit);
      RunIsCapped(z, t, es[1..], limit);
    }
  }

  ghost predicate WithinLimit(z: Almanac, s: State, limit: int) {
    forall day :: |Spent(z, s, day)| <= limit
  }

  /** However runs crash, replay, race and are pruned: one run at most awaits confirmation, one key was
  only ever sent with the card reserved for it, each scheduled occurrence was claimed once, and, while
  the bounds of the day leave out nothing of it, the cards spent by the runs that started on any one day
  are within the daily limit. */
  lemma RedemptionIsSafe(z: Almanac, account: Account, clock: int, es: seq<Event>, limit: int)
    requires CanRun(z, Start(account, clock), es)
    ensures var s := RunAll(z, Start(account, clock), es);
      && OnePending(s.runs)
      && (forall m, n | m in s.sent && n in s.sent && m.0 == n.0 :: m.1 == n.1)
      && Increasing(s.claimed) && DistinctOccurrences(s.runs)
      && (z.zone.DatesAdvance() && CoversDays(z, clock, s.clock) && 0 <= account.limit <= limit && LimitsUpTo(es, limit)
          ==> WithinLimit(z, s, limit))
  {
    var start := Start(account, clock);
    RunIsSafe(z, start, es);
    var s := RunAll(z, start, es);
    if z.zone.DatesAdvance() && CoversDays(z, clock, s.clock) && 0 <= account.limit <= limit && LimitsUpTo(es, limit) {
      assert forall day :: MaySpend(z, start, day) == {};
      RunIsCapped(z, start, es, limit);
      forall day ensures |Spent(z, s, day)| <= limit {
        assert Spent(z, s, day) <= MaySpend(z, s, day);
        SubsetFits(Spent(z, s, day), MaySpend(z, s, day));
      }
    }
  }

  // ---- When the limit holds ----

  /** An account that may spend one card a day. */
  const ONE_A_DAY := Account(true, false, 0, 0, false, 1, 0)

  /** A card is spent, and later another. */
  function TwoCards(later: int): seq<Event> {
    [Reserve(0, Manual, "", None, 0, 0), Deliver(0, "", true), Settle(0, Redeemed), Tick(later), Reserve(1, Manual, "", None, 0, 0), Deliver(1, "", true)]
  }

  /** Whenever the bounds leave out an instant of the day, the limit can be exceeded: a card spent at that
  instant is not counted at the later one. */
  lemma {:induction false} MissedRunIsNotCounted(z: Almanac, first: int, later: int)
    requires first <= later && z.Day(first) == z.Day(later) && !z.Today(later).Holds(first)
    ensures CanRun(z, Start(ONE_A_DAY, first), TwoCards(later))
    ensures |Spent(z, RunAll(z, Start(ONE_A_DAY, first), TwoCards(later)), z.Day(later))| == 2
  {
    var s := AfterFirst(first, later);
    var es := TwoCards(later);
    hide BoundsOf;
    FirstCard(z, first, later);
    SecondCard(z, first, later);
    hide Step, CanStep;
    var t := Step(z, s[4], es[4]);
    var u := Step(z, t, es[5]);
    RunFollows(z, s + [t, u], es);
  }

  /** The states up to the time the second card is asked for. */
  function AfterFirst(first: int, later: int): (states: seq<State>)
    ensures |states| == 5
  {
    var asked := Run(0, Manual, None, Pending, UNCONFIRMED, first, "");
    var s0 := Start(ONE_A_DAY, first);
    var s1 := s0.(runs := [asked], issued := map[0 := asked], sent := {(0, "")});
    var s2 := s1.(decided := map[0 := true]);
    var s3 := s2.(runs := [asked.(outcome := Success, reason := "reset")]);
    [s0, s1, s2, s3, s3.(clock := later)]
  }

  lemma FirstCard(z: Almanac, first: int, later: int)
    requires first <= later
    ensures var (s, es) := (AfterFirst(first, later), TwoCards(later));
      forall i :: 0 <= i < 4 ==> CanStep(s[i], es[i]) && Step(z, s[i], es[i]) == s[i + 1]
  {
    hide BoundsOf, Zone.Day;
    var s := AfterFirst(first, later);
    var es := TwoCards(later);
    assert CanReserve(z, s[0], es[0]);
    assert Step(z, s[0], es[0]) == s[1];
    assert Step(z, s[1], es[1]) == s[2];
    assert FinishAll(s[2].runs, 0, Redeemed) == s[3].runs;
    assert Step(z, s[2], es[2]) == s[3];
    assert Step(z, s[3], es[3]) == s[4];
  }

  lemma SecondCard(z: Almanac, first: int, later: int)
    requires z.Day(first) == z.Day(later) && !z.Today(later).Holds(first)
    ensures var (s, es) := (AfterFirst(first, later)[4], TwoCards(later));
      var t := Step(z, s, es[4]);
      CanStep(s, es[4]) && CanStep(t, es[5]) && |Spent(z, Step(z, t, es[5]), z.Day(later))| == 2
  {
    hide BoundsOf, Zone.Day;
    var s := AfterFirst(first, later)[4];
    var es := TwoCards(later);
    assert s.runs[..0] == [] && !Counted(z.Today(later), s.runs[0]);
    assert Usage(z.Today(later), s.runs) == 0;
    assert CanReserve(z, s, es[4]);
    var t := Step(z, s, es[4]);
    assert t.issued.Keys == {0, 1};
    assert Spent(z, Step(z, t, es[5]), z.Day(later)) == {0, 1};
  }

  lemma {:induction false} RunFollows(z: Almanac, states: seq<State>, es: seq<Event>)
    requires |states| == |es| + 1
    requires forall i :: 0 <= i < |es| ==> CanStep(states[i], es[i]) && Step(z, states[i], es[i]) == states[i + 1]
    ensures CanRun(z, states[0], es) && RunAll(z, states[0], es) == states[|es|]
    decreases |es|
  {
    if es != [] {
      RunFollows(z, states[1..], es[1..]);
    }
  }

  ghost predicate LimitHolds(z: Almanac) {
    forall account: Account, clock, es, limit ::
      0 <= account.limit <= limit && CanRun(z, Start(account, clock), es) && LimitsUpTo(es, limit)
      ==> WithinLimit(z, RunAll(z, Start(account, clock), es), limit)
  }

  /** What two look-ups of the zone tell of the bounds at a moment. */
  predicate BoundsEncloseNow(z: Almanac, now: int) {
    z.Day(z.Today(now).start - 1) < z.Day(now) && now < z.Today(now).end
  }

  predicate NoonsStraddleMidnight(z: Almanac, now: int) {
    z.Day(z.noons(now).today) <= z.Day(now) < z.Day(z.noons(now).tomorrow)
  }

  predicate NoonsAreSearchable(z: Almanac, now: int) {
    Searchable(z.zone, z.noons(now))
  }

  lemma CoveredIff(z: Almanac, now: int)
    requires z.zone.DatesAdvance()
    ensures z.CoversToday(now) <==> BoundsEncloseNow(z, now)
    ensures NoonsAreSearchable(z, now) ==> (z.CoversToday(now) <==> NoonsStraddleMidnight(z, now))
  {
    CoversTodayIff(z.zone, now, z.noons(now));
  }

  /** The daily limit holds over all runs exactly when the computed bounds never leave out an instant of
  the present day; where the searches find their dates, that is when the proposed noon of the present
  date never comes after it and that of the next one always does. */
  lemma {:induction false} LimitHoldsIffDaysAreCovered(z: Almanac)
    requires z.zone.DatesAdvance()
    ensures LimitHolds(z) <==> forall now :: BoundsEncloseNow(z, now)
    ensures (forall now :: NoonsAreSearchable(z, now)) ==> (LimitHolds(z) <==> forall now :: NoonsStraddleMidnight(z, now))
  {
    LimitHoldsIffCovered(z);
    hide LimitHolds, BoundsEncloseNow, NoonsStraddleMidnight, NoonsAreSearchable, Almanac.CoversToday;
    forall now { CoveredIff(z, now); }
  }

  lemma {:induction false} LimitHoldsIffCovered(z: Almanac)
    requires z.zone.DatesAdvance()
    ensures LimitHolds(z) <==> forall now :: z.CoversToday(now)
  {
    hide BoundsOf, Zone.DatesAdvance, CanRun, RunAll;
    if forall now :: z.CoversToday(now) {
      forall account: Account, clock, es, limit |
        0 <= account.limit <= limit && CanRun(z, Start(account, clock), es) && LimitsUpTo(es, limit)
        ensures WithinLimit(z, RunAll(z, Start(account, clock), es), limit)
      {
        RedemptionIsSafe(z, account, clock, es, limit);
      }
    }
    if LimitHolds(z) {
      forall now ensures z.CoversToday(now) {
        forall t | t <= now && z.zone.Day(t) == z.zone.Day(now) ensures z.Today(now).Holds(t) {
          if !z.Today(now).Holds(t) {
            MissedInstantBreaksTheLimit(z, t, now);
          }
        }
      }
    }
  }

  lemma MissedInstantBreaksTheLimit(z: Almanac, first: int, later: int)
    requires first <= later && z.Day(first) == z.Day(later) && !z.Today(later).Holds(first)
    ensures !LimitHolds(z)
  {
    MissedRunIsNotCounted(z, first, later);
    hide BoundsOf, CanRun, RunAll, Spent;
    assert 0 <= ONE_A_DAY.limit <= 1 && LimitsUpTo(TwoCards(later), 1);
    assert !WithinLimit(z, RunAll(z, Start(ONE_A_DAY, first), TwoCards(later)), 1);
  }

  /** A zone that skips a civil date: at instant zero the clock moves from one midnight to the next. */
  const SKIPS_A_DATE := Zone(
    (t: int) => if t < 0 then 0 else DAY,
    (t: int) => if t < 0 then At(0) else Never,
    (day: int) => if day <= 0 then day * DAY else (day - 1) * DAY)

  function NoonOf(day: int): int {
    (if day <= 0 then day else day - 1) * DAY + DAY / 2
  }

  /** The noon of the date that does not exist is proposed on the date before it. */
  const NOON_BEFORE := Almanac(SKIPS_A_DATE,
    (now: int) => var d := SKIPS_A_DATE.Day(now); Noons(NoonOf(d), if d == -1 then NoonOf(-1) else NoonOf(d + 1)))

  lemma SkipsADate()
    ensures SKIPS_A_DATE.Valid() && SKIPS_A_DATE.DatesAdvance()
  {
    var z := SKIPS_A_DATE;
    forall t ensures z.Stretch(t, z.next(t)) {
    }
  }

  /** There the day before the skipped date has no instant between its bounds, and its limit is exceeded. */
  lemma SkippedDateBreaksTheLimit()
    ensures SKIPS_A_DATE.Valid() && SKIPS_A_DATE.DatesAdvance()
    ensures forall t :: SKIPS_A_DATE.Day(t) == -1 ==> !NOON_BEFORE.Today(t).Holds(t)
    ensures !LimitHolds(NOON_BEFORE)
  {
    SkipsADate();
    hide DateStart, LimitHolds, Zone.Valid, Zone.DatesAdvance;
    forall t | SKIPS_A_DATE.Day(t) == -1 ensures !NOON_BEFORE.Today(t).Holds(t) {
      assert NOON_BEFORE.noons(t) == Noons(NoonOf(-1), NoonOf(-1));
    }
    assert SKIPS_A_DATE.Day(-1) == -1;
    MissedInstantBreaksTheLimit(NOON_BEFORE, -1, -1);
  }

  /** The provider's answer to a replay, once it has decided. */
  function Verdict(s: State, key: Key): Answer {
    if key !in s.decided then Unknown else if s.decided[key] then AlreadyRedeemed else NothingToReset
  }

  /** Uncertainty ends by replaying: the pending run's key and card are sent again, the provider, having
  decided or deciding now, answers, and the run is recorded as a success iff a card was spent. */
  lemma ReplayResolves(z: Almanac, s: State, spends: bool)
    requires Safe(s) && HasPending(s.runs)
    ensures var r := PendingRun(s.runs);
      var u := Step(z, Step(z, s, Replay), Deliver(r.key, r.card, spends));
      var t := Step(z, u, Settle(r.key, Verdict(u, r.key)));
      && CanStep(s, Replay) && CanStep(Step(z, s, Replay), Deliver(r.key, r.card, spends)) && CanStep(u, Settle(r.key, Verdict(u, r.key)))
      && !HasPending(t.runs)
      && (forall i :: 0 <= i < |t.runs| && t.runs[i].key == r.key ==> (t.runs[i].outcome == Success <==> t.decided[r.key]))
      && t.decided[r.key] == if r.key in s.decided then s.decided[r.key] else spends
  {
    var r := PendingRun(s.runs);
    var u := Step(z, Step(z, s, Replay), Deliver(r.key, r.card, spends));
    assert u.runs == s.runs && r.key in u.decided;
    hide Safe, Step;
    SettledRows(s, r, Verdict(u, r.key));
  }

  lemma SettledRows(s: State, r: Run, answer: Answer)
    requires Safe(s) && HasPending(s.runs) && r == PendingRun(s.runs) && answer != Unknown
    ensures var after := FinishAll(s.runs, r.key, answer);
      !HasPending(after) && forall i :: 0 <= i < |after| && after[i].key == r.key ==> after[i].outcome == OutcomeOf(answer)
  {
    var k :| 0 <= k < |s.runs| && s.runs[k] == r;
    assert forall i :: 0 <= i < |s.runs| && i != k ==> s.runs[i].outcome != Pending && s.runs[i].key != r.key;
  }
}
