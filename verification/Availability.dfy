/** The observer of a pool: it reports which accounts a new request could use, from its own reading of
the same state and in its own order of checks, and takes no part in selection. */
module Availability {

  import opened Common
  import opened LeaseState
  import opened LeaseConservation
  import StoredEpochs
  import opened Routing

  /** A model's limit as the observer collects it: its published state if that is of the account's
  epoch, or its row of that epoch, or none. */
  function ObservedLimit(s: State, k: Key): Option<ModelRuntime>
    requires k.account in s.disk.accounts
  {
    var row := s.disk.accounts[k.account];
    if && k in s.published && s.published[k] in s.objects && k.account in s.health
       && s.objects[s.published[k]].lifecycle == row.lifecycle && s.objects[s.published[k]].revision == s.health[k.account].revision
    then Some(s.objects[s.published[k]])
    else if k in s.disk.models && s.disk.models[k].lifecycle == row.lifecycle && s.disk.models[k].revision == row.revision then
      Some(ReadRow(s.disk, k))
    else None
  }

  datatype Reason = Available | ProviderDisabled | Disabled | Reauthorize | NotAllowed | CatalogUnavailable | NotListed
                  | Held(answer: Admission) | ModelHeld(answer: Admission) | OutOfQuota(wait: int)

  function Observe(s: State, q: Request, row: Row, now: int): Reason
    requires row.id in s.disk.accounts
  {
    if row.provider !in q.providers then ProviderDisabled
    else if !row.enabled then Disabled
    else if row.reauthorize then Reauthorize
    else if !AllowsProvider(q.policy, row.provider) || !AllowsResource(q.policy, row.provider, q.model) then NotAllowed
    else if !Known(row.catalog, q.model) then CatalogUnavailable
    else if !Supports(row.catalog, q.model) then NotListed
    else
      var account := AccountAdmission(s, row.id, now);
      if account != Ok then Held(account)
      else
        var limit := ObservedLimit(s, Key(row.id, CatalogName(q.model)));
        var model := if limit.None? then Ok else ModelAdmission(limit.value, now);
        if model != Ok then ModelHeld(model)
        else if row.quota.exhausted then OutOfQuota(Max(1, row.quota.retryAt - now))
        else Available
  }

  function RetryAt(r: Reason, now: int): int {
    match r
    case Held(Cooling(wait)) => now + wait
    case ModelHeld(Cooling(wait)) => now + wait
    case OutOfQuota(wait) => now + wait
    case _ => 0
  }

  /** A request the observer speaks for: a native model, in the whole pool, with no allowance. */
  predicate Plain(q: Request, rows: seq<Row>) {
    && q.provider == "" && q.model != "" && q.kind != Compact && q.unfunded == {}
    && forall i :: 0 <= i < |rows| ==> rows[i].id in q.pool
  }

  predicate Stored(s: State, rows: seq<Row>) {
    forall i :: 0 <= i < |rows| ==> rows[i].id in s.disk.accounts
  }

  /** Accounts in memory are of the revision their rows have. */
  predicate Matched(s: State) {
    forall id <- s.health :: InStep(s, id)
  }

  // ---- Agreement ----

  lemma CatalogNameIsNamed(model: string)
    requires model != ""
    ensures CatalogName(model) != ""
  {
  }

  /** The observer reads the limit that selection would read. */
  lemma ObservesTheSameLimit(s: State, k: Key, now: int)
    requires InStep(s, k.account) && k.account in s.disk.accounts && k.account in s.health
    ensures var limit := ObservedLimit(s, k);
      (if limit.None? then Ok else ModelAdmission(limit.value, now)) == ModelAdmission(ReadModel(s, k), now) || now < 0
  {
  }

  /** Nothing but the state of the model can keep this account from the request. */
  predicate HangsOnModel(s: State, q: Request, row: Row, now: int) {
    && Eligible(q, row) && Supports(row.catalog, q.model)
    && AccountAdmission(s, row.id, now) == Ok && !row.quota.exhausted
  }

  predicate Agrees(s: State, q: Request, row: Row, now: int)
    requires row.id in s.disk.accounts
  {
    Observe(s, q, row, now) == Available <==> IsAdmitted(s, q, row, now)
  }

  /** The two orders of checks come down to how each reads the state of the model. */
  lemma AgreementHangsOnModel(s: State, q: Request, row: Row, now: int)
    requires Plain(q, [row]) && row.id in s.disk.accounts
    ensures var k := Key(row.id, CatalogName(q.model));
      var limit := ObservedLimit(s, k);
      if HangsOnModel(s, q, row, now) then
        && (Observe(s, q, row, now) == Available <==> limit.None? || ModelAdmission(limit.value, now) == Ok)
        && (IsAdmitted(s, q, row, now) <==> ModelAdmission(ReadModel(s, k), now) == Ok)
      else !IsAdmitted(s, q, row, now) && Observe(s, q, row, now) != Available
  {
    assert [row][0] == row;
    CatalogNameIsNamed(q.model);
    KnownIfSupported(row.catalog, q.model);
    hide CatalogName, AllowsProvider, AllowsResource, Supports, Known, ReadModel, ModelAdmission, ObservedLimit;
  }

  /** The same accounts, with any state of the models in memory and in their rows. */
  function WithModels(s: State, objects: map<nat, ModelRuntime>, published: map<Key, nat>, models: map<Key, ModelRow>): State {
    s.(objects := objects, published := published, disk := s.disk.(models := models))
  }

  ghost predicate AlwaysAgrees(s: State, q: Request, row: Row, now: int)
    requires row.id in s.disk.accounts
  {
    forall objects, published, models :: Agrees(WithModels(s, objects, published, models), q, row, now)
  }

  /** A limit known only in memory, under the revision of the account's row. */
  function OnlyInMemory(s: State, k: Key, now: int): State
    requires k.account in s.disk.accounts
  {
    var row := s.disk.accounts[k.account];
    WithModels(s, map[0 := ModelRuntime(k, row.lifecycle, row.revision, 0, now + 1, 1, 0, 1, true, RateLimited, 0, 0)], map[k := 0], map[])
  }

  lemma OnlyInMemoryIsMissed(s: State, k: Key, now: int)
    requires k.account in s.disk.accounts && k.account in s.health && !InStep(s, k.account)
    ensures var t := OnlyInMemory(s, k, now); ObservedLimit(t, k).None? && ModelAdmission(ReadModel(t, k), now) != Ok
  {
  }

  /** Whatever the state of the models, the observer reports an account as available exactly when selection
  would admit it, if and only if memory has the revision of the account's row, or something other than a
  model refuses the account. */
  lemma {:induction false} ObserverAgreesOnAccountIff(s: State, q: Request, row: Row, now: int)
    requires Plain(q, [row]) && row.id in s.disk.accounts && 0 <= now
    ensures AlwaysAgrees(s, q, row, now) <==> InStep(s, row.id) || !HangsOnModel(s, q, row, now)
  {
    var k := Key(row.id, CatalogName(q.model));
    if InStep(s, row.id) || !HangsOnModel(s, q, row, now) {
      forall objects, published, models ensures Agrees(WithModels(s, objects, published, models), q, row, now) {
        var t := WithModels(s, objects, published, models);
        assert HangsOnModel(t, q, row, now) == HangsOnModel(s, q, row, now) && InStep(t, row.id) == InStep(s, row.id);
        ObserverAgreesOnAccount(t, q, row, now);
      }
    } else {
      var t := OnlyInMemory(s, k, now);
      OnlyInMemoryIsMissed(s, k, now);
      assert HangsOnModel(t, q, row, now) == HangsOnModel(s, q, row, now);
      AgreementHangsOnModel(t, q, row, now);
      hide Observe, IsAdmitted, HangsOnModel;
      assert !Agrees(t, q, row, now);
    }
  }

  lemma ObserverAgreesOnAccount(s: State, q: Request, row: Row, now: int)
    requires Plain(q, [row]) && row.id in s.disk.accounts && 0 <= now
    requires InStep(s, row.id) || !HangsOnModel(s, q, row, now)
    ensures Agrees(s, q, row, now)
  {
    AgreementHangsOnModel(s, q, row, now);
    if HangsOnModel(s, q, row, now) {
      ObservesTheSameLimit(s, Key(row.id, CatalogName(q.model)), now);
    }
    hide Observe, IsAdmitted, ReadModel, ModelAdmission, ObservedLimit;
  }

  lemma KnownIfSupported(c: Catalog, model: string)
    ensures Supports(c, model) ==> Known(c, model)
  {
  }

  // ---- The report ----

  datatype Outcome = Usable | Unknown | Unusable

  datatype PoolReport = PoolReport(outcome: Outcome, available: nat, unknown: nat, retryAt: int, reasons: seq<Reason>)

  function Observations(s: State, q: Request, rows: seq<Row>, now: int): (rs: seq<Reason>)
    requires Stored(s, rows)
    ensures |rs| == |rows| && forall i :: 0 <= i < |rows| ==> rs[i] == Observe(s, q, rows[i], now)
  {
    seq(|rows|, i requires 0 <= i < |rows| => Observe(s, q, rows[i], now))
  }

  function Occurrences(rs: seq<Reason>, r: Reason): (n: nat)
    ensures n == 0 <==> r !in rs
  {
    if rs == [] then 0 else Occurrences(rs[..|rs| - 1], r) + (if rs[|rs| - 1] == r then 1 else 0)
  }

  /** `at` is the earliest moment after `now` at which a reason ends, or zero if none is known to. */
  predicate Earliest(rs: seq<Reason>, now: int, at: int) {
    && (at == 0 ==> forall i :: 0 <= i < |rs| ==> RetryAt(rs[i], now) <= now)
    && (at != 0 ==> now < at && exists i :: 0 <= i < |rs| && RetryAt(rs[i], now) == at)
    && (at != 0 ==> forall i :: 0 <= i < |rs| && now < RetryAt(rs[i], now) ==> at <= RetryAt(rs[i], now))
  }

  predicate Tallied(rs: seq<Reason>, now: int, available: nat, unknown: nat, retryAt: int) {
    && available == Occurrences(rs, Available) && unknown == Occurrences(rs, CatalogUnavailable)
    && Earliest(rs, now, retryAt)
  }

  method Tally(ghost rs: seq<Reason>, r: Reason, now: int, available: nat, unknown: nat, retryAt: int) returns (a: nat, u: nat, t: int)
    requires Tallied(rs, now, available, unknown, retryAt) && 0 <= now
    ensures Tallied(rs + [r], now, a, u, t)
  {
    a, u, t := available, unknown, retryAt;
    EarliestGrows(rs, r, now, retryAt);
    OccurrencesGrow(rs, r);
    if r == Available {
      a := available + 1;
    } else {
      if r == CatalogUnavailable {
        u := unknown + 1;
      }
      var at := RetryAt(r, now);
      if now < at && (retryAt == 0 || at < retryAt) {
        t := at;
      }
    }
    hide Occurrences, Earliest;
  }

  /** The report of a pool whose accounts are observed as `rs`: how many a new request could use, how
  many cannot be judged, and the earliest moment one may return. */
  predicate Reports(rs: seq<Reason>, now: int, report: PoolReport) {
    && report.reasons == rs
    && report.available == Occurrences(rs, Available) && report.unknown == Occurrences(rs, CatalogUnavailable)
    && report.outcome == (if 0 < report.available then Usable else if 0 < report.unknown then Unknown else Unusable)
    && if report.outcome == Unusable then Earliest(rs, now, report.retryAt) else report.retryAt == 0
  }

  method ModelAvailability(s: State, q: Request, rows: seq<Row>, now: int) returns (report: PoolReport)
    requires Stored(s, rows) && 0 <= now
    ensures if Refused(q) then report == PoolReport(Unusable, 0, 0, 0, []) else Reports(Observations(s, q, rows, now), now, report)
  {
    hide Observe, Observations, Tallied;
    if q.model != "" && !Allows(q.policy, q.provider, q.model) {
      return PoolReport(Unusable, 0, 0, 0, []);
    }
    var available: nat, unknown: nat, retryAt := 0, 0, 0;
    ghost var all := Observations(s, q, rows, now);
    var reasons: seq<Reason> := [];
    NothingTallied(now);
    for i := 0 to |rows|
      invariant reasons == all[..i]
      invariant Tallied(reasons, now, available, unknown, retryAt)
    {
      var r := Observe(s, q, rows[i], now);
      available, unknown, retryAt := Tally(reasons, r, now, available, unknown, retryAt);
      assert all[..i + 1] == reasons + [r];
      reasons := reasons + [r];
    }
    assert all[..|rows|] == all;
    TalliedIs(reasons, now, available, unknown, retryAt);
    var outcome := if 0 < available then Usable else if 0 < unknown then Unknown else Unusable;
    report := PoolReport(outcome, available, unknown, if outcome == Unusable then retryAt else 0, reasons);
  }

  lemma NothingTallied(now: int)
    ensures Tallied([], now, 0, 0, 0)
  {
  }

  lemma TalliedIs(rs: seq<Reason>, now: int, available: nat, unknown: nat, retryAt: int)
    requires Tallied(rs, now, available, unknown, retryAt)
    ensures available == Occurrences(rs, Available) && unknown == Occurrences(rs, CatalogUnavailable) && Earliest(rs, now, retryAt)
  {
  }

  lemma OccurrencesGrow(rs: seq<Reason>, r: Reason)
    ensures forall x :: Occurrences(rs + [r], x) == Occurrences(rs, x) + (if x == r then 1 else 0)
  {
    assert (rs + [r])[..|rs|] == rs;
  }

  lemma EarliestGrows(rs: seq<Reason>, r: Reason, now: int, at: int)
    requires Earliest(rs, now, at) && 0 <= now
    ensures Earliest(rs + [r], now, if now < RetryAt(r, now) && (at == 0 || RetryAt(r, now) < at) then RetryAt(r, now) else at)
    ensures RetryAt(Available, now) == 0
  {
    var all := rs + [r];
    assert all[|rs|] == r;
    assert forall i :: 0 <= i < |rs| ==> all[i] == rs[i];
  }

  /** The observer reports an account iff selection, asked at that moment, would choose one. */
  lemma ObserverAgreesWithSelection(s: State, q: Request, rows: seq<Row>, now: int, best: int)
    requires Plain(q, rows) && Stored(s, rows) && 0 <= now && IsBest(s, q, rows, now, best)
    requires forall i :: 0 <= i < |rows| ==> InStep(s, rows[i].id) || !HangsOnModel(s, q, rows[i], now)
    ensures 0 < Occurrences(Observations(s, q, rows, now), Available) <==> Tier(s, q, rows, now, best) != []
  {
    var rs := Observations(s, q, rows, now);
    forall i | 0 <= i < |rows| ensures rs[i] == Available <==> IsAdmitted(s, q, rows[i], now) {
      ObserverAgreesOnAccount(s, q, rows[i], now);
    }
    BestTierIsEmptyOnlyIfNoneAdmitted(s, q, rows, now, best);
    hide Observe, IsAdmitted;
    if 0 < Occurrences(rs, Available) {
      var i :| 0 <= i < |rs| && rs[i] == Available;
      assert IsAdmitted(s, q, rows[i], now);
    }
  }

  // ---- The premise along runs ----

  lemma JudgedKeepsMatched(s: State, c: nat, r: Report, p: Policy)
    requires Matched(s) && c in s.open
    ensures Matched(Judged(s, c, r, p))
  {
    var v := Vacated(JudgeAccount(s, s.open[c], r, p), c);
    assert Matched(v);
    StoredEpochs.ModelsOnly(v, s.open[c], r, p);
    hide JudgeAccount, JudgeModel, Vacated;
  }

  lemma ReloadKeepsMatched(s: State, now: int)
    requires Matched(s)
    ensures Matched(Reload(s, now))
  {
  }

  lemma OccupiedKeepsDisk(s: State, id: string, model: string)
    ensures id in s.health && id in s.disk.accounts ==> Occupied(s, id, model).disk == s.disk
  {
  }

  lemma LendKeepsMatched(s: State, c: nat, id: string, model: string, at: int, numbers: int)
    requires Matched(s)
    ensures Matched(LendOf(s, c, id, model, at, numbers))
  {
    OccupiedKeepsDisk(Reload(s, Seconds(at)), id, model);
    ReloadKeepsMatched(s, Seconds(at));
    hide Reload, ReadModel, ModelAdmission, Occupied;
  }

  lemma ResumeKeepsMatched(s: State, id: string, at: int, saved: Saved)
    requires Matched(s) && !saved.Landed?
    ensures Matched(ResumeOf(s, id, at, saved))
  {
    ReloadKeepsMatched(s, Seconds(at));
    hide Reload;
  }

  /** Every step keeps the premise, as long as rows are changed from elsewhere within their revision and no
  resume lands that reports failure. */
  lemma StepKeepsMatched(s: State, e: Event, p: Policy)
    requires Matched(s) && CanStep(s, e)
    requires e.Outside? ==> Matched(s.(disk := e.disk))
    requires e.Resume? ==> !e.saved.Landed?
    ensures Matched(Step(s, e, p))
  {
    hide Judged, LendOf, ResumeOf, Reload;
    match e
    case Reloaded(at) => ReloadKeepsMatched(s, Seconds(at));
    case Lend(c, id, model, at) => LendKeepsMatched(s, c, id, model, at, 1);
    case Check(c, id, model, at) => LendKeepsMatched(s, c, id, model, at, 0);
    case Resume(id, at, saved) => ResumeKeepsMatched(s, id, at, saved);
    case Finish(c, r) => if c in s.open { JudgedKeepsMatched(s, c, r, p); }
    case _ =>
  }

  /** A resume that lands but reports failure always leaves memory behind the row. */
  lemma LandedResumeFallsBehind(s: State, id: string, at: int)
    requires id in s.disk.accounts
    ensures !InStep(ResumeOf(s, id, at, Landed), id)
  {
    var u := Reload(s, Seconds(at));
    assert id in u.health && id in u.disk.accounts;
    hide Reload;
  }

  // ---- A limit the observer misses ----

  const ROW := AccountRow(0, 0, 4, 0, 0, {"m"})

  const MODEL := Key("a", "m")

  /** An account is resumed by a commit that lands but reports failure; a request then meets a limit of its
  model, and the write of that limit is lost. */
  function MissedLimit(): seq<Event> {
    [Reloaded(0), Resume("a", 0, Landed), Arrive(0, 1, 1), JoinMember(0, 0), Lend(0, "a", "m", 0),
     Finish(0, Report(ModelLimited, Some(60), 0, Lost, Lost))]
  }

  function UpToLimit(): (states: seq<State>)
    ensures |states| == 7
  {
    var m := ModelRuntime(MODEL, 0, 1, 0, 0, 0, 1, 0, false, NoReason, 0, 0);
    var idle := Runtime(4, 0, 0, 0, 0, 0);
    var s0 := Start(Disk(map["a" := ROW], map[]));
    var s1 := s0.(health := map["a" := idle]);
    var s2 := s1.(disk := Disk(map["a" := ROW.(revision := 1)], map[]));
    var s3 := s2.(calls := map[0 := Call(1, 1, false, false)]);
    var s4 := s3.(memberActive := map[1 := 1], calls := map[0 := Call(1, 1, true, false)]);
    var s5 := s4.(health := map["a" := idle.(inFlight := 1)], objects := map[0 := m], nextObject := 1, published := map[MODEL := 0],
                  sequence := 1, open := map[0 := Lease("a", Some(0), 1, 0)]);
    var limited := m.(inFlight := 0, cooldownUntil := 60, failures := 1, lastFailureSequence := 2, persistFailed := true, reason := RateLimited);
    [s0, s1, s2, s3, s4, s5,
     s5.(health := map["a" := idle], objects := map[0 := limited], sequence := 2, open := map[], memberActive := map[], calls := map[])]
  }

  lemma AccountFallsBehind(p: Policy)
    ensures var (s, es) := (UpToLimit(), MissedLimit());
      forall i :: 0 <= i < 2 ==> CanStep(s[i], es[i]) && Step(s[i], es[i], p) == s[i + 1]
  {
    var (s, es) := (UpToLimit(), MissedLimit());
    assert Reload(s[0], 0).health == s[1].health;
    assert Reload(s[0], 0) == s[1];
    assert Reload(s[1], 0).health == s[1].health;
    assert Reload(s[1], 0) == s[1];
    hide Reload;
    assert ResumedDisk(s[1].disk, "a", Resumed(s[1].health["a"])) == s[2].disk;
  }

  lemma RequestArrives(p: Policy)
    ensures var (s, es) := (UpToLimit(), MissedLimit());
      forall i :: 2 <= i < 4 ==> CanStep(s[i], es[i]) && Step(s[i], es[i], p) == s[i + 1]
  {
    var (s, es) := (UpToLimit(), MissedLimit());
    assert Step(s[2], es[2], p) == s[3];
    assert Step(s[3], es[3], p) == s[4];
  }

  lemma ModelIsNew()
    ensures var u := UpToLimit()[4];
      Reload(u, 0) == u && !PublishedNow(u, MODEL) && ReadModel(u, MODEL) == ModelRuntime(MODEL, 0, 1, 0, 0, 0, 0, 0, false, NoReason, 0, 0)
  {
    var u := UpToLimit()[4];
    assert Reload(u, 0).health == u.health;
  }

  lemma RequestIsAdmitted()
    ensures LeaseAdmission(UpToLimit()[4], "a", "m", 0) == Ok
  {
    hide Reload, ReadModel, PublishedNow;
    ModelIsNew();
  }

  lemma RequestIsOpened()
    ensures Opened(UpToLimit()[4], 0, "a", "m", 1) == UpToLimit()[5]
  {
    hide Reload, ReadModel, PublishedNow;
    var u, t := UpToLimit()[4], UpToLimit()[5];
    ModelIsNew();
    var v := Occupied(u, "a", "m");
    assert v.objects == t.objects;
    assert v.health == t.health;
    assert v.published == t.published && v.nextObject == t.nextObject;
    assert u.open[0 := LeaseFor(u, "a", "m")] == t.open;
  }

  lemma RequestIsLent(p: Policy)
    ensures var (s, es) := (UpToLimit(), MissedLimit()); CanStep(s[4], es[4]) && Step(s[4], es[4], p) == s[5]
  {
    ModelIsNew();
    RequestIsAdmitted();
    RequestIsOpened();
    hide Reload, LeaseAdmission, Opened, ReadModel, PublishedNow;
  }

  lemma LimitIsJudged(p: Policy)
    ensures var (s, r) := (UpToLimit()[5], MissedLimit()[5].report);
      Judged(s, 0, r, p) == UpToLimit()[6].(memberActive := s.memberActive, calls := s.calls)
  {
    var (s, t, r) := (UpToLimit()[5], UpToLimit()[6], MissedLimit()[5].report);
    assert JudgeAccount(s, s.open[0], r, p) == s;
    hide JudgeAccount;
    var v := Vacated(s, 0);
    assert v.health == t.health && v.objects[0] == s.objects[0].(inFlight := 0) && v.open == t.open;
    hide Vacated;
    assert ModelFailure(v.objects[0], r, 2, p) == t.objects[0].(persistFailed := false);
    hide ModelFailure;
    var w := JudgeModel(v, s.open[0], r, p);
    assert w.objects == t.objects && w == v.(objects := t.objects, sequence := 2);
  }

  lemma LimitIsReported(p: Policy)
    ensures var (s, es) := (UpToLimit(), MissedLimit()); CanStep(s[5], es[5]) && Step(s[5], es[5], p) == s[6]
  {
    LimitIsJudged(p);
    hide Judged;
  }

  lemma MissedLimitRuns(p: Policy)
    ensures var start := Start(Disk(map["a" := ROW], map[]));
      CanRun(start, MissedLimit(), p) && Run(start, MissedLimit(), p) == UpToLimit()[6]
  {
    AccountFallsBehind(p);
    RequestArrives(p);
    RequestIsLent(p);
    LimitIsReported(p);
    hide Step, CanStep, CanRun, Run;
    RunFollows(UpToLimit(), MissedLimit(), p);
  }

  /** Such a run from the start ends with the observer reporting an account that selection refuses. */
  lemma {:induction false} ObserverCanMissALimit(p: Policy)
    ensures var start := Start(Disk(map["a" := ROW], map[]));
      && CanRun(start, MissedLimit(), p)
      && var s := Run(start, MissedLimit(), p);
         exists q: Request, row: Row :: Plain(q, [row]) && row.id in s.disk.accounts
           && Observe(s, q, row, 10) == Available && Judge(s, q, row, 10) == CoolsFor(50, "m")
  {
    MissedLimitRuns(p);
    hide Run, CanRun;
    var s := UpToLimit()[6];
    var q := Request(Responses, "", "m", {"a"}, {"codex"}, ModelPolicy(Protocol, false, true, false, []), {}, "");
    var row := Row("a", "codex", true, false, Catalog(true, true, {"m"}), Quota(false, 0, 0));
    assert CatalogName("m") == "m";
    assert [row][0] == row;
    assert Observe(s, q, row, 10) == Available;
    assert Judge(s, q, row, 10) == CoolsFor(50, "m");
  }
}
