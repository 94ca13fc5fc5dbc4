/** The ledger of one allowance scheme: its revisions, its entries, and the queries over them. */
module Ledger {
  import opened Sums
  import opened Calendar
  import opened Allowances

  datatype EntryState = Active | Pending | Settled

  datatype Entry = Entry(
    id: string, revision: int, user: int, account: string, model: string, unit: Unit,
    windowStart: int, resetAt: int, startedAt: int, finishedAt: int,
    state: EntryState, input: int, output: int, cached: int, cost: int, manual: bool)

  /** The stored tables. */
  datatype Book = Book(entries: seq<Entry>, revisions: map<int, Revision>)

  // ---- Queries ----

  const EVERYONE := 0
  const ROW_LIMIT := 4096

  /** The entries one accounting query ranges over. */
  datatype Scope = Scope(unit: Unit, user: int, start: int, end: int) {
    predicate Covers(e: Entry) {
      e.unit == unit && start <= e.startedAt < end && (user == EVERYONE || e.user == user)
    }
  }

  function ScopeOf(c: Config, user: int, w: Window): Scope {
    Scope(EntryUnit(c), user, w.start, w.end)
  }

  function CostIn(s: Scope): Entry -> int {
    (e: Entry) => if s.Covers(e) && e.state.Settled? then e.cost else 0
  }

  function OneIn(s: Scope): Entry -> int {
    (e: Entry) => if s.Covers(e) && e.state.Active? then 1 else 0
  }

  function HeldIn(s: Scope, revisions: map<int, Revision>, w: Window): Entry -> int {
    (e: Entry) => if s.Covers(e) && e.state.Active? then Captured(revisions, e, w) else 0
  }

  function ActiveIn(s: Scope): Entry -> bool {
    (e: Entry) => s.Covers(e) && e.state.Active?
  }

  function Used(b: Book, s: Scope): int {
    Sum(b.entries, CostIn(s))
  }

  function ActiveCount(b: Book, s: Scope): int {
    Sum(b.entries, OneIn(s))
  }

  function Held(b: Book, s: Scope, w: Window): int {
    Sum(b.entries, HeldIn(s, b.revisions, w))
  }

  function ActiveRows(b: Book, s: Scope): seq<Entry> {
    Filter(b.entries, ActiveIn(s))
  }

  function ShareOf(members: seq<Share>, user: int): (found: seq<Share>)
    ensures |found| <= 1
    ensures found != [] ==> found[0] in members && found[0].user == user
    ensures found == [] ==> forall m <- members :: m.user != user
  {
    if members == [] then []
    else if members[0].user == user then [members[0]]
    else ShareOf(members[1..], user)
  }

  /** What a configuration reserves in window `w` for each request of `user`. */
  function ReservedFor(c: Config, user: int, w: Window): int {
    var found := ShareOf(c.members, user);
    if found == [] then 0
    else
      var limit := MemberLimit(c, found[0], w.(limit := LimitFor(c.windows, w.seconds, w.limit)));
      if Unlimited(c, limit) then 0 else Reservation(limit)
  }

  /** What an entry holds in window `w`, by the revision that admitted it. */
  function Captured(revisions: map<int, Revision>, e: Entry, w: Window): int {
    if e.revision in revisions then ReservedFor(revisions[e.revision].config, e.user, w) else 0
  }

  function Supersedes(a: Revision, b: Revision): bool {
    b.effectiveAt < a.effectiveAt || (b.effectiveAt == a.effectiveAt && b.id < a.id)
  }

  /** `r` is the revision in force at `now`: the latest effective one, the last written on a tie. */
  predicate InForce(b: Book, r: Revision, now: int) {
    && r.id in b.revisions && b.revisions[r.id] == r && r.effectiveAt <= now
    && forall id <- b.revisions :: b.revisions[id].effectiveAt <= now ==> !Supersedes(b.revisions[id], r)
  }

  // ---- Integrity of the tables ----

  ghost predicate ValidRevisions(revisions: map<int, Revision>) {
    forall id <- revisions ::
      && revisions[id].id == id && Accepted(revisions[id].config)
      && revisions[id].anchor <= revisions[id].effectiveAt
  }

  ghost predicate ValidEntry(e: Entry, revisions: map<int, Revision>) {
    && 0 < e.user && e.revision in revisions
    && e.unit == EntryUnit(revisions[e.revision].config)
    && (e.unit.Amount? ==> RateFor(revisions[e.revision].config.rates, e.model) != [])
    && 0 <= e.cost && (!e.state.Settled? ==> e.cost == 0)
    && (e.state.Active? ==> !e.manual)
  }

  predicate DistinctIds(entries: seq<Entry>) {
    forall i, j :: 0 <= i < j < |entries| ==> entries[i].id != entries[j].id
  }

  ghost predicate ValidBook(b: Book) {
    && ValidRevisions(b.revisions)
    && (forall e <- b.entries :: ValidEntry(e, b.revisions))
    && DistinctIds(b.entries)
  }

  // ---- Admission ----

  const MAX_OUTSTANDING := 4

  datatype Verdict = Admitted | QuotaSpent | RiskLimited | Unpriced | Unavailable

  function Room(limit: int, used: int, held: int): int {
    var room := limit + Reservation(limit) - used - held;
    if room < 0 then 0 else room
  }

  /** The member, or the whole scheme under a ratio rule, has spent this window. */
  ghost predicate Exhausted(b: Book, c: Config, m: Share, w: Window) {
    var limit := MemberLimit(c, m, w);
    || (!Unlimited(c, limit) && limit <= Used(b, ScopeOf(c, m.user, w)))
    || (c.mode.RatioMode? && WindowTotal(c, w) <= Used(b, ScopeOf(c, EVERYONE, w)))
  }

  /** The member alone could not carry another full reservation in this window. */
  ghost predicate MemberTight(b: Book, c: Config, m: Share, w: Window) {
    var limit := MemberLimit(c, m, w);
    var s := ScopeOf(c, m.user, w);
    && !Unlimited(c, limit)
    && (MAX_OUTSTANDING <= ActiveCount(b, s)
        || Room(limit, Used(b, s), Held(b, s, w)) < Reservation(limit))
  }

  /** The shared budget could not carry another full reservation of this member. */
  ghost predicate SharedTight(b: Book, c: Config, m: Share, w: Window) {
    var s := ScopeOf(c, EVERYONE, w);
    && c.mode.RatioMode?
    && Room(WindowTotal(c, w), Used(b, s), Held(b, s, w)) < Reservation(MemberLimit(c, m, w))
  }

  ghost predicate Tight(b: Book, c: Config, m: Share, w: Window) {
    MemberTight(b, c, m, w) || SharedTight(b, c, m, w)
  }

  // The one wide read that serves every window of a member, or of all members under a ratio rule.

  function WideUser(c: Config, m: Share): int {
    if c.mode.RatioMode? then EVERYONE else m.user
  }

  predicate ReadsWindow(c: Config, m: Share, w: Window) {
    c.mode.RatioMode? || !Unlimited(c, MemberLimit(c, m, w))
  }

  function Earliest(c: Config, m: Share, ws: seq<Window>): (from: int)
    requires exists w <- ws :: ReadsWindow(c, m, w)
    ensures forall w <- ws :: ReadsWindow(c, m, w) ==> from <= w.start
    ensures exists w <- ws :: ReadsWindow(c, m, w) && from == w.start
  {
    if exists w <- ws[1..] :: ReadsWindow(c, m, w) then
      var rest := Earliest(c, m, ws[1..]);
      if ReadsWindow(c, m, ws[0]) && ws[0].start < rest then ws[0].start else rest
    else ws[0].start
  }

  function Latest(c: Config, m: Share, ws: seq<Window>): (to: int)
    requires exists w <- ws :: ReadsWindow(c, m, w)
    ensures forall w <- ws :: ReadsWindow(c, m, w) ==> w.end <= to
    ensures exists w <- ws :: ReadsWindow(c, m, w) && to == w.end
  {
    if exists w <- ws[1..] :: ReadsWindow(c, m, w) then
      var rest := Latest(c, m, ws[1..]);
      if ReadsWindow(c, m, ws[0]) && rest < ws[0].end then ws[0].end else rest
    else ws[0].end
  }

  function WideScope(c: Config, m: Share, ws: seq<Window>): Scope
    requires exists w <- ws :: ReadsWindow(c, m, w)
  {
    Scope(EntryUnit(c), WideUser(c, m), Earliest(c, m, ws), Latest(c, m, ws))
  }

  /** More concurrent requests than one read may return. */
  ghost predicate TooManyRows(b: Book, c: Config, m: Share, ws: seq<Window>) {
    && (exists w <- ws :: ReadsWindow(c, m, w))
    && ROW_LIMIT < |ActiveRows(b, WideScope(c, m, ws))|
  }

  /** What admission decides for a member, stated window by window over the tables. */
  ghost function Judge(b: Book, c: Config, m: Share, ws: seq<Window>): Verdict {
    if TooManyRows(b, c, m, ws) then RiskLimited
    else if exists w <- ws :: Exhausted(b, c, m, w) then QuotaSpent
    else if exists w <- ws :: Tight(b, c, m, w) then RiskLimited
    else Admitted
  }

  ghost function CheckVerdict(z: Zone, b: Book, r: Revision, user: int, permitted: bool, model: string, now: int): Verdict
    requires z.Valid() && Accepted(r.config)
  {
    var found := ShareOf(r.config.members, user);
    if !permitted || found == [] then Unavailable
    else if !Charges(r.config, model) then Unpriced
    else Judge(b, r.config, found[0], WindowsAt(z, r, now))
  }

  // ---- Settlement of one entry ----

  datatype Completion = Completion(input: int, output: int, cached: int, known: bool, dispatched: bool, rejected: bool)

  datatype Finished = Unchanged | Saved(entry: Entry) | BadSettlement | BadUsage | NoRate

  function FinishEntry(e: Entry, c: Config, done: Completion, now: int, manual: bool): Finished {
    if !manual && !e.state.Active? then Unchanged
    else if manual && e.state.Settled? && e.manual && e.input == done.input && e.output == done.output && e.cached == done.cached then Unchanged
    else if manual && (!e.state.Pending? || done.input < e.input || done.output < e.output) then BadSettlement
    else if !ValidCounts(done.input, done.output, done.cached) then BadUsage
    else
      var state := if done.dispatched && !done.rejected && !done.known then Pending else Settled;
      var rate := RateFor(c.rates, e.model);
      if e.unit.Amount? && rate == [] then NoRate
      else
        var price := if e.unit.Tokens? then Cost(done.input + done.output)
                     else Price(rate[0], done.input, done.output, done.cached);
        if price.BadInput? then BadUsage
        else
          // Partial observations stay available for correction but are not a charge.
          Saved(e.(finishedAt := now, state := state, input := done.input, output := done.output,
                   cached := done.cached, cost := if state.Pending? then 0 else price.value, manual := manual))
  }
}
