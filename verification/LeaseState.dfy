/** The gateway's admission state: account and model limits, open leases, members and queues.

Everything here runs under one lock. A model's runtime is shared by pointer between the published
table and the requests that hold it; the pointer is an identifier into `objects`. */
module LeaseState {

  import opened Common

  datatype Key = Key(account: string, model: string)

  datatype Reason = NoReason | RateLimited | UpstreamError

  // ---- Stored rows ----

  /** An account with its runtime row; `revision` and `lifecycle` number its resumes and its
  authorizations, and `catalog` is the set of models it lists. */
  datatype AccountRow = AccountRow(lifecycle: int, revision: int, maxConcurrency: int, cooldownUntil: int, failures: int, catalog: set<string>)

  datatype ModelRow = ModelRow(lifecycle: int, revision: int, version: int, cooldownUntil: int, failures: int,
                               reason: Reason, lastFailureAt: int, failureWindowAt: int)

  datatype Disk = Disk(accounts: map<string, AccountRow>, models: map<Key, ModelRow>)

  // ---- State in memory ----

  datatype Runtime = Runtime(maxConcurrency: int, inFlight: int, cooldownUntil: int, failures: int, lastFailureSequence: int, revision: int)

  datatype ModelRuntime = ModelRuntime(
    key: Key, lifecycle: int, revision: int, version: int, cooldownUntil: int, failures: int, inFlight: int,
    lastFailureSequence: int, persistFailed: bool, reason: Reason, lastFailureAt: int, failureWindowAt: int)

  /** Capacity held by a request or by a management check. A request takes a new sequence number;
  a check takes none, and is given the next one to be issued. */
  datatype Lease = Lease(account: string, model: Option<nat>, sequence: int, revision: int)

  /** A request from its arrival to its end. */
  datatype Call = Call(user: int, group: int, member: bool, queued: bool)

  datatype State = State(
    disk: Disk,
    health: map<string, Runtime>,
    objects: map<nat, ModelRuntime>,
    nextObject: nat,
    published: map<Key, nat>,
    memberActive: map<int, int>,
    waiting: map<int, int>,
    sequence: int,
    open: map<nat, Lease>,
    calls: map<nat, Call>)

  datatype Policy = Policy(queueLimit: int, rateLimitCooldown: int, transientThreshold: int, transientWindow: int, transientCooldown: int)

  /** How a request ended, as far as limits are concerned. */
  datatype Result = Completed | AccountLimited | ModelLimited | Transient | Failed

  /** What a finished request brings: its result, the provider's hint, the instant in milliseconds and
  the fate of the two writes. */
  datatype Report = Report(result: Result, hint: Option<int>, at: int, account: Saved, model: Saved)

  const MAX_MODEL_RUNTIME := 1000
  const MAX_FAILURES := 16

  function Seconds(at: int): int { at / 1000 }

  function Count(counts: map<int, int>, k: int): int {
    if k in counts then counts[k] else 0
  }

  /** One fewer, and no entry at zero. */
  function Lowered(counts: map<int, int>, k: int): map<int, int> {
    if Count(counts, k) <= 1 then counts - {k} else counts[k := counts[k] - 1]
  }

  /** Requests, their members and their queues are as before. */
  predicate SameCalls(s: State, t: State) {
    t.calls == s.calls && t.memberActive == s.memberActive && t.waiting == s.waiting
  }

  /** Leases, limits and model state in memory are as before. */
  predicate SameLeases(s: State, t: State) {
    && t.open == s.open && t.health == s.health && t.objects == s.objects && t.sequence == s.sequence
    && t.published == s.published && t.nextObject == s.nextObject
  }

  // ---- Reading ----

  predicate SameEpoch(d: Disk, k: Key, lifecycle: int, revision: int) {
    && k.account in d.accounts
    && d.accounts[k.account].lifecycle == lifecycle && d.accounts[k.account].revision == revision
  }

  /** Memory has the revision of the account's row. */
  predicate InStep(s: State, id: string) {
    id in s.health && id in s.disk.accounts ==> s.health[id].revision == s.disk.accounts[id].revision
  }

  /** A model's stored state, in the account's present epoch; absent rows read as zero. */
  function ReadRow(d: Disk, k: Key): ModelRuntime
    requires k.account in d.accounts
  {
    var a := d.accounts[k.account];
    if k in d.models && d.models[k].lifecycle == a.lifecycle && d.models[k].revision == a.revision then
      var m := d.models[k];
      ModelRuntime(k, a.lifecycle, a.revision, m.version, m.cooldownUntil, m.failures, 0, 0, false, m.reason, m.lastFailureAt, m.failureWindowAt)
    else ModelRuntime(k, a.lifecycle, a.revision, 0, 0, 0, 0, 0, false, NoReason, 0, 0)
  }

  predicate PublishedNow(s: State, k: Key) {
    && k in s.published && s.published[k] in s.objects
    && SameEpoch(s.disk, k, s.objects[s.published[k]].lifecycle, s.objects[s.published[k]].revision)
  }

  /** A model's state as admission sees it: the published one of this epoch, or the stored one. */
  function ReadModel(s: State, k: Key): ModelRuntime
    requires k.account in s.disk.accounts
  {
    if PublishedNow(s, k) then s.objects[s.published[k]] else ReadRow(s.disk, k)
  }

  predicate Obsolete(d: Disk, k: Key, m: ModelRow, now: int) {
    && k.account in d.accounts
    && var a := d.accounts[k.account];
       || m.lifecycle != a.lifecycle || m.revision != a.revision
       || (m.cooldownUntil <= now && k.model !in a.catalog)
  }

  function Pruned(d: Disk, now: int): Disk {
    d.(models := map k | k in d.models && !Obsolete(d, k, d.models[k], now) :: d.models[k])
  }

  /** An account's state in memory: kept with the stored limit on concurrency, or read from its row. */
  function Followed(health: map<string, Runtime>, id: string, row: AccountRow): Runtime {
    if id in health then health[id].(maxConcurrency := row.maxConcurrency)
    else Runtime(row.maxConcurrency, 0, row.cooldownUntil, row.failures, 0, row.revision)
  }

  /** Runtime state follows the stored accounts: new accounts appear, removed ones go once idle, and
  model state of a past epoch is unpublished even if its last write failed. */
  function Reload(s: State, now: int): (t: State)
    ensures SameCalls(s, t) && t.open == s.open && t.objects == s.objects && t.sequence == s.sequence
  {
    var accounts := s.disk.accounts;
    s.(disk := Pruned(s.disk, now),
       health := map id | id in s.health.Keys + accounts.Keys && (id in accounts || s.health[id].inFlight != 0) ::
         if id in accounts then Followed(s.health, id, accounts[id]) else s.health[id],
       published := map k | k in s.published && PublishedNow(s, k) :: s.published[k])
  }

  // ---- Admission ----

  datatype Admission = Ok | Busy | Cooling(retryAfter: int) | NotFound

  function AccountAdmission(s: State, id: string, now: int): Admission {
    if id !in s.health then NotFound
    else
      var a := s.health[id];
      if now < a.cooldownUntil then Cooling(a.cooldownUntil - now)
      else if a.maxConcurrency <= a.inFlight || (0 < a.cooldownUntil && 0 < a.failures && 0 < a.inFlight) then Busy
      else Ok
  }

  function ModelAdmission(m: ModelRuntime, now: int): Admission {
    if now < m.cooldownUntil then Cooling(m.cooldownUntil - now)
    else if 0 < m.cooldownUntil && 0 < m.failures && 0 < m.inFlight then Busy
    else Ok
  }

  /** What a lease for `model` on `id` meets; an empty model has no limit of its own. */
  function LeaseAdmission(s: State, id: string, model: string, now: int): Admission {
    if id !in s.disk.accounts then NotFound
    else
      var account := AccountAdmission(s, id, now);
      if !account.Ok? || model == "" then account
      else
        var k := Key(id, model);
        var m := ModelAdmission(ReadModel(s, k), now);
        if !m.Ok? then m
        else if k !in s.published && MAX_MODEL_RUNTIME <= |s.published| then Busy
        else Ok
  }

  // ---- Leases ----

  /** The object a lease takes: the published one, or one newly read. */
  function Taken(s: State, k: Key): nat {
    if PublishedNow(s, k) then s.published[k] else s.nextObject
  }

  /** Capacity taken on the account and, under a model, on its published state. */
  function Occupied(s: State, id: string, model: string): (t: State)
    requires id in s.health && id in s.disk.accounts
    ensures SameCalls(s, t) && t.open == s.open && t.sequence == s.sequence
  {
    var u := s.(health := s.health[id := s.health[id].(inFlight := s.health[id].inFlight + 1)]);
    if model == "" then u
    else
      var k := Key(id, model);
      var m := ReadModel(s, k);
      u.(objects := s.objects[Taken(s, k) := m.(inFlight := m.inFlight + 1)],
         nextObject := if PublishedNow(s, k) then s.nextObject else s.nextObject + 1,
         published := s.published[k := Taken(s, k)])
  }

  function LeaseFor(s: State, id: string, model: string): Lease
    requires id in s.health && id in s.disk.accounts
  {
    Lease(id, if model == "" then None else Some(Taken(s, Key(id, model))), s.sequence + 1, s.health[id].revision)
  }

  /** Capacity of lease `c` given back. */
  function Vacated(s: State, c: nat): (t: State)
    requires c in s.open
    ensures SameCalls(s, t) && t.open == s.open - {c}
  {
    var l := s.open[c];
    s.(open := s.open - {c},
       health := if l.account in s.health then s.health[l.account := s.health[l.account].(inFlight := Max(0, s.health[l.account].inFlight - 1))] else s.health,
       objects := if l.model.Some? && l.model.value in s.objects then
         s.objects[l.model.value := s.objects[l.model.value].(inFlight := Max(0, s.objects[l.model.value].inFlight - 1))] else s.objects)
  }

  predicate IsPublished(s: State, o: nat) {
    o in s.objects && s.objects[o].key in s.published && s.published[s.objects[o].key] == o
  }

  /** Idle model state whose last write succeeded is dropped; its row is read again on demand. */
  function Evicted(s: State, model: Option<nat>): (t: State)
    ensures SameCalls(s, t) && t.open == s.open && t.objects == s.objects && t.health == s.health && t.sequence == s.sequence
  {
    if model.Some? && IsPublished(s, model.value) && s.objects[model.value].inFlight == 0 && !s.objects[model.value].persistFailed then
      s.(published := s.published - {s.objects[model.value].key})
    else s
  }

  // ---- Verdicts ----

  function Delay(hint: Option<int>, p: Policy): (d: int)
    ensures 1 <= d <= 3600
  {
    Max(1, Min(3600, if hint.Some? then hint.value else p.rateLimitCooldown))
  }

  predicate ClearsAccount(a: Runtime, l: Lease, r: Report) {
    a.revision == l.revision && r.result.Completed? && a.lastFailureSequence < l.sequence && a.cooldownUntil <= Seconds(r.at)
  }

  predicate LimitsAccount(a: Runtime, l: Lease, r: Report) {
    a.revision == l.revision && r.result.AccountLimited?
  }

  /** An account after the result of one of its requests; `next` is the number of a failure. */
  function AccountVerdict(a: Runtime, l: Lease, r: Report, next: int, p: Policy): Runtime {
    if LimitsAccount(a, l, r) then
      a.(failures := Min(MAX_FAILURES, a.failures + 1), lastFailureSequence := next,
         cooldownUntil := Max(a.cooldownUntil, Seconds(r.at) + Delay(r.hint, p)))
    else if ClearsAccount(a, l, r) then a.(failures := 0, cooldownUntil := 0, lastFailureSequence := 0)
    else a
  }

  function SaveAccount(d: Disk, id: string, a: Runtime, saved: Saved): Disk {
    if saved.Lost? || id !in d.accounts then d
    else d.(accounts := d.accounts[id := d.accounts[id].(cooldownUntil := a.cooldownUntil, failures := a.failures, revision := a.revision)])
  }

  function JudgeAccount(s: State, l: Lease, r: Report, p: Policy): (t: State)
    ensures SameCalls(s, t) && t.open == s.open && t.objects == s.objects && t.published == s.published
  {
    if l.account !in s.health then s
    else
      var a := s.health[l.account];
      var b := AccountVerdict(a, l, r, s.sequence + 1, p);
      var changed := LimitsAccount(a, l, r) || (ClearsAccount(a, l, r) && (a.failures != 0 || a.cooldownUntil != 0));
      s.(health := s.health[l.account := b],
         sequence := if LimitsAccount(a, l, r) then s.sequence + 1 else s.sequence,
         disk := if changed then SaveAccount(s.disk, l.account, b, r.account) else s.disk)
  }

  predicate LimitsModel(r: Report, p: Policy) {
    r.result.ModelLimited? || (r.result.Transient? && 0 < p.transientThreshold)
  }

  predicate ClearsModel(m: ModelRuntime, l: Lease, r: Report) {
    r.result.Completed? && m.cooldownUntil <= Seconds(r.at) && m.lastFailureSequence < l.sequence && 0 < m.failures
  }

  /** A model after one more failure. A streak counts from its first failure, and starts again when
  the reason changes, its window has passed or the clock went back. */
  function ModelFailure(m: ModelRuntime, r: Report, next: int, p: Policy): ModelRuntime {
    var reason := if r.result.Transient? then UpstreamError else RateLimited;
    var again := reason != m.reason || (reason == UpstreamError && (r.at < m.lastFailureAt || p.transientWindow <= r.at - m.failureWindowAt));
    var failures := Min(MAX_FAILURES, if again then 1 else m.failures + 1);
    m.(failures := failures,
       failureWindowAt := if again then r.at else m.failureWindowAt,
       reason := reason, lastFailureAt := r.at, lastFailureSequence := next,
       cooldownUntil :=
         if r.result.ModelLimited? then Max(m.cooldownUntil, Seconds(r.at) + Delay(r.hint, p))
         else if p.transientThreshold <= failures then
           Max(m.cooldownUntil, Seconds(r.at) + Max(1, Min(300, Doubled(p.transientCooldown, Min(4, failures - p.transientThreshold)))))
         else m.cooldownUntil)
  }

  /** The conditional write: only in the epoch the model's state belongs to. */
  function SaveModel(d: Disk, m: ModelRuntime): Disk {
    if !SameEpoch(d, m.key, m.lifecycle, m.revision) then d
    else
      var version := if m.key in d.models then d.models[m.key].version + 1 else 1;
      d.(models := d.models[m.key := ModelRow(m.lifecycle, m.revision, version, m.cooldownUntil, m.failures, m.reason, m.lastFailureAt, m.failureWindowAt)])
  }

  /** The conditional deletion: only the very version that was read or written last. */
  function DeleteModel(d: Disk, m: ModelRuntime): Disk {
    if && m.key in d.models && d.models[m.key].version == m.version
       && d.models[m.key].lifecycle == m.lifecycle && d.models[m.key].revision == m.revision
       && SameEpoch(d, m.key, m.lifecycle, m.revision)
    then d.(models := d.models - {m.key})
    else d
  }

  /** A write that reports failure leaves the failure in memory; one that finds its epoch gone
  leaves nothing. */
  function RecordModelFailure(s: State, o: nat, m: ModelRuntime, saved: Saved): (t: State)
    requires o in s.objects
    ensures SameCalls(s, t) && t.open == s.open && t.health == s.health
  {
    var disk := if saved.Lost? then s.disk else SaveModel(s.disk, m);
    var m' :=
      if !saved.Stored? then m.(persistFailed := true)
      else if SameEpoch(s.disk, m.key, m.lifecycle, m.revision) then m.(version := disk.models[m.key].version, persistFailed := false)
      else s.objects[o];
    s.(disk := disk, objects := s.objects[o := m'])
  }

  function ClearModelFailure(s: State, o: nat, saved: Saved): (t: State)
    requires o in s.objects
    ensures SameCalls(s, t) && t.open == s.open && t.health == s.health
  {
    var m := s.objects[o];
    s.(disk := if saved.Lost? then s.disk else DeleteModel(s.disk, m),
       objects := s.objects[o := if saved.Stored? then m.(failures := 0, cooldownUntil := 0, persistFailed := false) else m.(persistFailed := true)])
  }

  /** Only published state may learn from a result. */
  function JudgeModel(s: State, l: Lease, r: Report, p: Policy): (t: State)
    ensures SameCalls(s, t) && t.open == s.open && t.health == s.health
  {
    if l.model.None? || !IsPublished(s, l.model.value) then s
    else
      var o := l.model.value;
      var m := s.objects[o];
      if LimitsModel(r, p) then
        RecordModelFailure(s.(sequence := s.sequence + 1), o, ModelFailure(m, r, s.sequence + 1, p), r.model)
      else if ClearsModel(m, l, r) then ClearModelFailure(s, o, r.model)
      else s
  }

  // ---- Events ----

  datatype Event =
    | Outside(disk: Disk)                                   // accounts and rows changed from elsewhere
    | Reloaded(at: int)
    | Arrive(call: nat, user: int, group: int)
    | JoinMember(call: nat, limit: int)
    | Park(call: nat)
    | Leave(call: nat)
    | Lend(call: nat, account: string, model: string, at: int)
    | Check(call: nat, account: string, model: string, at: int)
    | Release(call: nat)
    | Finish(call: nat, report: Report)
    | Resume(account: string, at: int, saved: Saved)
    | SetConcurrency(account: string, limit: int)

  /** A lease admitted in `s`: a request takes a sequence number, a check takes none. */
  function Opened(s: State, c: nat, id: string, model: string, numbers: int): (t: State)
    requires id in s.health && id in s.disk.accounts
    ensures SameCalls(s, t) && t.open == s.open[c := LeaseFor(s, id, model)] && t.sequence == s.sequence + numbers
    ensures t.health == s.health[id := s.health[id].(inFlight := s.health[id].inFlight + 1)]
  {
    Occupied(s, id, model).(sequence := s.sequence + numbers, open := s.open[c := LeaseFor(s, id, model)])
  }

  function LendOf(s: State, c: nat, id: string, model: string, at: int, numbers: int): (t: State)
    ensures SameCalls(s, t) && (t.open == s.open || (c in t.open && t.open[c].account == id && t.open == s.open[c := t.open[c]]))
  {
    var u := Reload(s, Seconds(at));
    if LeaseAdmission(u, id, model, Seconds(at)) != Ok then u else Opened(u, c, id, model, numbers)
  }

  function ReleaseOf(s: State, c: nat): (t: State)
    requires c in s.open
    ensures SameCalls(s, t) && t.open == s.open - {c}
  {
    Evicted(Vacated(s, c), s.open[c].model)
  }

  /** The result is judged on the account, the capacity given back, then the model judged. */
  function Judged(s: State, c: nat, r: Report, p: Policy): (t: State)
    requires c in s.open
    ensures SameCalls(s, t) && t.open == s.open - {c}
  {
    var l := s.open[c];
    Evicted(JudgeModel(Vacated(JudgeAccount(s, l, r, p), c), l, r, p), l.model)
  }

  function FinishOf(s: State, c: nat, r: Report, p: Policy): (t: State)
    requires c in s.calls
    ensures SameLeases(if c in s.open then Judged(s, c, r, p) else s, t)
  {
    var u := if c in s.open then Judged(s, c, r, p) else s;
    u.(memberActive := if s.calls[c].member then Lowered(s.memberActive, s.calls[c].user) else s.memberActive, calls := s.calls - {c})
  }

  /** A resume stores the cleared account and deletes the rows of its models. */
  function ResumedDisk(d: Disk, id: string, a: Runtime): Disk {
    SaveAccount(d, id, a, Stored).(models := map k | k in d.models && (k.account != id || id !in d.accounts) :: d.models[k])
  }

  function Resumed(a: Runtime): Runtime {
    a.(cooldownUntil := 0, failures := 0, lastFailureSequence := 0, revision := a.revision + 1)
  }

  /** An operator's resume starts a new epoch for the account and all its models. When its write lands but
  reports failure, memory stays in the epoch before. */
  function ResumeOf(s: State, id: string, at: int, saved: Saved): (t: State)
    ensures SameCalls(s, t) && t.open == s.open
  {
    var u := Reload(s, Seconds(at));
    if id !in u.health || saved.Lost? then u
    else if saved.Landed? then u.(disk := ResumedDisk(u.disk, id, Resumed(u.health[id])))
    else
      u.(health := u.health[id := Resumed(u.health[id])], disk := ResumedDisk(u.disk, id, Resumed(u.health[id])),
         published := map k | k in u.published && k.account != id :: u.published[k])
  }

  function SetConcurrencyOf(s: State, id: string, limit: int): (t: State)
    ensures SameCalls(s, t) && t.open == s.open
  {
    if limit < 1 || 1000 < limit || id !in s.disk.accounts then s
    else
      s.(disk := s.disk.(accounts := s.disk.accounts[id := s.disk.accounts[id].(maxConcurrency := limit)]),
         health := if id in s.health then s.health[id := s.health[id].(maxConcurrency := limit)] else s.health)
  }

  function JoinOf(s: State, c: nat, limit: int): (t: State)
    requires c in s.calls
    ensures SameLeases(s, t)
  {
    var user := s.calls[c].user;
    if 0 < limit <= Count(s.memberActive, user) then s
    else s.(memberActive := s.memberActive[user := Count(s.memberActive, user) + 1], calls := s.calls[c := s.calls[c].(member := true)])
  }

  function ParkOf(s: State, c: nat, p: Policy): (t: State)
    requires c in s.calls
    ensures SameLeases(s, t)
  {
    var group := s.calls[c].group;
    if p.queueLimit <= Count(s.waiting, group) then s
    else s.(waiting := s.waiting[group := Count(s.waiting, group) + 1], calls := s.calls[c := s.calls[c].(queued := true)])
  }

  function LeaveOf(s: State, c: nat): (t: State)
    requires c in s.calls
    ensures SameLeases(s, t)
  {
    s.(waiting := Lowered(s.waiting, s.calls[c].group), calls := s.calls[c := s.calls[c].(queued := false)])
  }

  /** What a request does in order: it joins its member's active requests before it waits or leases,
  leaves the queue before it ends, and ends once. */
  predicate CanStep(s: State, e: Event) {
    match e
    case Arrive(c, _, _) => c !in s.calls && c !in s.open
    case JoinMember(c, _) => c in s.calls && !s.calls[c].member && c !in s.open
    case Park(c) => c in s.calls && s.calls[c].member && !s.calls[c].queued && c !in s.open
    case Leave(c) => c in s.calls && s.calls[c].queued
    case Lend(c, _, _, _) => c in s.calls && s.calls[c].member && c !in s.open
    case Check(c, _, model, _) => c !in s.calls && c !in s.open && model != ""
    case Release(c) => c in s.open && c !in s.calls
    case Finish(c, _) => c in s.calls && !s.calls[c].queued
    case _ => true
  }

  function Step(s: State, e: Event, p: Policy): State
    requires CanStep(s, e)
  {
    match e
    case Outside(disk) => s.(disk := disk)
    case Reloaded(at) => Reload(s, Seconds(at))
    case Arrive(c, user, group) => s.(calls := s.calls[c := Call(user, group, false, false)])
    case JoinMember(c, limit) => JoinOf(s, c, limit)
    case Park(c) => ParkOf(s, c, p)
    case Leave(c) => LeaveOf(s, c)
    case Lend(c, id, model, at) => LendOf(s, c, id, model, at, 1)
    case Check(c, id, model, at) => LendOf(s, c, id, model, at, 0)
    case Release(c) => ReleaseOf(s, c)
    case Finish(c, r) => FinishOf(s, c, r, p)
    case Resume(id, at, saved) => ResumeOf(s, id, at, saved)
    case SetConcurrency(id, limit) => SetConcurrencyOf(s, id, limit)
  }

  function Start(disk: Disk): State {
    State(disk, map[], map[], 0, map[], map[], map[], 0, map[], map[])
  }
}
