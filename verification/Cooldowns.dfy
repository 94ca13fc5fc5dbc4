/** A limit that was recorded stays until its time: neither eviction, nor a lost write, nor a reload reopen
it early, nor do the results of other requests while memory has the revision of the account's row. */
module Cooldowns {

  import opened Common
  import opened LeaseState
  import opened LeaseConservation
  import opened StoredEpochs

  // ---- Models ----

  predicate RowCools(d: Disk, k: Key, until: int)
    requires k.account in d.accounts
  {
    until <= ReadRow(d, k).cooldownUntil
  }

  /** In its present epoch the model cools until `until`: in memory if its state is published, and in
  its row unless the last write failed and the state stays in memory. */
  predicate Cools(s: State, k: Key, until: int) {
    && k.account in s.disk.accounts
    && if PublishedNow(s, k) then
         var m := s.objects[s.published[k]]; until <= m.cooldownUntil && (m.persistFailed || RowCools(s.disk, k, until))
       else RowCools(s.disk, k, until)
  }

  /** No result under the lease takes the model's account back to an earlier epoch. */
  predicate KeepsEpoch(s: State, l: Lease, k: Key) {
    l.account != k.account || SparesRow(s, l)
  }

  /** A calm step whose result, if any, keeps the epoch. */
  predicate Quiet(s: State, e: Event, k: Key, until: int) {
    Calm(s, e, k, until) && (e.Finish? && e.call in s.open ==> KeepsEpoch(s, s.open[e.call], k))
  }

  /** Before `until`, with neither a resume of the account nor a change of its epoch or of the model's
  row from elsewhere. */
  predicate Calm(s: State, e: Event, k: Key, until: int) {
    match e
    case Outside(d) =>
      && k.account in s.disk.accounts && k.account in d.accounts
      && d.accounts[k.account].lifecycle == s.disk.accounts[k.account].lifecycle
      && d.accounts[k.account].revision == s.disk.accounts[k.account].revision
      && (k in d.models <==> k in s.disk.models) && (k in d.models ==> d.models[k] == s.disk.models[k])
    case Reloaded(at) => Seconds(at) < until
    case Lend(_, _, _, at) => Seconds(at) < until
    case Check(_, _, _, at) => Seconds(at) < until
    case Finish(_, r) => Seconds(r.at) < until
    case Resume(id, at, saved) => (id != k.account || saved.Lost?) && Seconds(at) < until
    case _ => true
  }

  lemma ReloadCools(s: State, now: int, k: Key, until: int)
    requires Cools(s, k, until) && now < until && 0 < until
    ensures Cools(Reload(s, now), k, until)
  {
  }

  lemma LendCools(s: State, c: nat, id: string, model: string, at: int, numbers: int, k: Key, until: int)
    requires Cools(s, k, until) && Wired(s) && Seconds(at) < until && 0 < until
    ensures Cools(LendOf(s, c, id, model, at, numbers), k, until)
  {
    var u := Reload(s, Seconds(at));
    ReloadCools(s, Seconds(at), k, until);
    assert Wired(u);
    hide Reload, LeaseAdmission, RowCools;
    if LeaseAdmission(u, id, model, Seconds(at)) == Ok {
      AdmittedElsewhere(u, id, model, Seconds(at), k, until);
      OpenedCools(u, c, id, model, numbers, k, until);
    }
  }

  /** While it cools, a model admits no one. */
  lemma AdmittedElsewhere(s: State, id: string, model: string, now: int, k: Key, until: int)
    requires Cools(s, k, until) && now < until && LeaseAdmission(s, id, model, now) == Ok
    ensures id in s.health && id in s.disk.accounts && (model == "" || Key(id, model) != k)
  {
  }

  predicate SameObject(s: State, t: State, o: nat) {
    o in s.objects && o in t.objects && t.objects[o] == s.objects[o]
  }

  predicate SameView(s: State, t: State, k: Key) {
    && t.disk == s.disk && (k in t.published <==> k in s.published)
    && (k in s.published ==> t.published[k] == s.published[k] && SameObject(s, t, s.published[k]))
  }

  lemma SameViewCools(s: State, t: State, k: Key, until: int)
    requires Cools(s, k, until) && SameView(s, t, k)
    ensures Cools(t, k, until)
  {
  }

  lemma OpenedElsewhere(s: State, c: nat, id: string, model: string, numbers: int, k: Key)
    requires Wired(s) && id in s.health && id in s.disk.accounts && (model == "" || Key(id, model) != k)
    ensures SameView(s, Opened(s, c, id, model, numbers), k)
  {
    hide ReadModel;
  }

  lemma OpenedCools(s: State, c: nat, id: string, model: string, numbers: int, k: Key, until: int)
    requires Cools(s, k, until) && Wired(s) && id in s.health && id in s.disk.accounts && (model == "" || Key(id, model) != k)
    ensures Cools(Opened(s, c, id, model, numbers), k, until)
  {
    hide Cools, Opened, Wired, SameView;
    OpenedElsewhere(s, c, id, model, numbers, k);
    SameViewCools(s, Opened(s, c, id, model, numbers), k, until);
  }

  lemma VacatedCools(s: State, c: nat, k: Key, until: int)
    requires Cools(s, k, until) && c in s.open
    ensures Cools(Vacated(s, c), k, until)
  {
  }

  lemma EvictedCools(s: State, model: Option<nat>, k: Key, until: int)
    requires Cools(s, k, until) && Wired(s)
    ensures Cools(Evicted(s, model), k, until)
  {
  }

  lemma JudgeAccountCools(s: State, l: Lease, r: Report, p: Policy, k: Key, until: int)
    requires Cools(s, k, until) && KeepsEpoch(s, l, k)
    ensures Cools(JudgeAccount(s, l, r, p), k, until)
  {
    AccountResultKeepsModels(s, l, r, p);
    SameEpochCools(s, JudgeAccount(s, l, r, p), k, until);
    hide JudgeAccount;
  }

  lemma SameEpochCools(s: State, t: State, k: Key, until: int)
    requires Cools(s, k, until) && t.objects == s.objects && t.published == s.published && t.disk.models == s.disk.models
    requires k.account in t.disk.accounts && t.disk.accounts[k.account].lifecycle == s.disk.accounts[k.account].lifecycle
    requires t.disk.accounts[k.account].revision == s.disk.accounts[k.account].revision
    ensures Cools(t, k, until)
  {
  }

  lemma SaveModelElsewhere(d: Disk, m: ModelRuntime, k: Key)
    requires k.account in d.accounts && (m.key != k || !SameEpoch(d, k, m.lifecycle, m.revision))
    ensures SaveModel(d, m).accounts == d.accounts && ReadRow(SaveModel(d, m), k) == ReadRow(d, k)
    ensures DeleteModel(d, m).accounts == d.accounts && ReadRow(DeleteModel(d, m), k) == ReadRow(d, k)
  {
  }

  lemma FailureCoolsLonger(m: ModelRuntime, r: Report, next: int, p: Policy)
    ensures var n := ModelFailure(m, r, next, p);
      m.cooldownUntil <= n.cooldownUntil && n.key == m.key && n.lifecycle == m.lifecycle && n.revision == m.revision
  {
  }

  lemma RecordCools(s: State, o: nat, m: ModelRuntime, saved: Saved, k: Key, until: int)
    requires Cools(s, k, until) && Wired(s) && IsPublished(s, o)
    requires s.objects[o].cooldownUntil <= m.cooldownUntil && m.key == s.objects[o].key
    requires m.lifecycle == s.objects[o].lifecycle && m.revision == s.objects[o].revision
    ensures Cools(RecordModelFailure(s, o, m, saved), k, until)
  {
    if m.key != k || !SameEpoch(s.disk, k, m.lifecycle, m.revision) {
      SaveModelElsewhere(s.disk, m, k);
      hide SaveModel;
    }
  }

  lemma ClearCools(s: State, o: nat, saved: Saved, k: Key, until: int, now: int)
    requires Cools(s, k, until) && Wired(s) && IsPublished(s, o)
    requires s.objects[o].cooldownUntil <= now < until
    ensures Cools(ClearModelFailure(s, o, saved), k, until)
  {
    SaveModelElsewhere(s.disk, s.objects[o], k);
    hide DeleteModel;
  }

  lemma FailureCools(s: State, o: nat, r: Report, p: Policy, k: Key, until: int)
    requires Cools(s, k, until) && Wired(s) && IsPublished(s, o)
    ensures Cools(RecordModelFailure(s.(sequence := s.sequence + 1), o, ModelFailure(s.objects[o], r, s.sequence + 1, p), r.model), k, until)
  {
    var u := s.(sequence := s.sequence + 1);
    assert Cools(u, k, until) && Wired(u);
    hide Cools, ModelFailure, RecordModelFailure, Wired;
    FailureCoolsLonger(s.objects[o], r, s.sequence + 1, p);
    RecordCools(u, o, ModelFailure(s.objects[o], r, s.sequence + 1, p), r.model, k, until);
  }

  lemma JudgeModelCools(s: State, l: Lease, r: Report, p: Policy, k: Key, until: int)
    requires Cools(s, k, until) && Wired(s) && Seconds(r.at) < until
    ensures Cools(JudgeModel(s, l, r, p), k, until)
  {
    hide Cools, ModelFailure, RecordModelFailure, ClearModelFailure, Wired;
    if l.model.Some? && IsPublished(s, l.model.value) {
      FailureCools(s, l.model.value, r, p, k, until);
      if ClearsModel(s.objects[l.model.value], l, r) {
        ClearCools(s, l.model.value, r.model, k, until, Seconds(r.at));
      }
    }
  }

  lemma WiredBeforeModel(s: State, c: nat, r: Report, p: Policy)
    requires Wired(s) && c in s.open
    ensures Wired(Vacated(JudgeAccount(s, s.open[c], r, p), c))
  {
  }

  lemma WiredAfterModel(s: State, l: Lease, r: Report, p: Policy)
    requires Wired(s)
    ensures Wired(JudgeModel(s, l, r, p))
  {
    if l.model.Some? && IsPublished(s, l.model.value) {
      ModelVerdict(s, l, r, p);
      hide JudgeModel;
    }
  }

  lemma JudgedCools(s: State, c: nat, r: Report, p: Policy, k: Key, until: int)
    requires Cools(s, k, until) && Wired(s) && c in s.open && Seconds(r.at) < until && KeepsEpoch(s, s.open[c], k)
    ensures Cools(Judged(s, c, r, p), k, until)
  {
    var l := s.open[c];
    var t := JudgeAccount(s, l, r, p);
    var v := Vacated(t, c);
    hide Cools, Wired, JudgeAccount, JudgeModel, Vacated, Evicted;
    JudgeAccountCools(s, l, r, p, k, until);
    VacatedCools(t, c, k, until);
    WiredBeforeModel(s, c, r, p);
    JudgeModelCools(v, l, r, p, k, until);
    WiredAfterModel(v, l, r, p);
    EvictedCools(JudgeModel(v, l, r, p), l.model, k, until);
  }

  lemma ReleaseCools(s: State, c: nat, k: Key, until: int)
    requires Cools(s, k, until) && Wired(s) && c in s.open
    ensures Cools(ReleaseOf(s, c), k, until)
  {
    VacatedCools(s, c, k, until);
    assert Wired(Vacated(s, c));
    hide Cools, Wired, Vacated, Evicted;
    EvictedCools(Vacated(s, c), s.open[c].model, k, until);
  }

  lemma SameMemoryCools(s: State, t: State, k: Key, until: int)
    requires Cools(s, k, until) && t.objects == s.objects && t.published == s.published && t.disk == s.disk
    ensures Cools(t, k, until)
  {
  }

  lemma ResumeCools(s: State, id: string, at: int, saved: Saved, k: Key, until: int)
    requires Cools(s, k, until) && (id != k.account || saved.Lost?) && Seconds(at) < until && 0 < until
    ensures Cools(ResumeOf(s, id, at, saved), k, until)
  {
    ReloadCools(s, Seconds(at), k, until);
    hide Reload;
  }

  lemma SetConcurrencyCools(s: State, id: string, limit: int, k: Key, until: int)
    requires Cools(s, k, until)
    ensures Cools(SetConcurrencyOf(s, id, limit), k, until)
  {
  }

  lemma OutsideCools(s: State, d: Disk, k: Key, until: int)
    requires Cools(s, k, until) && Quiet(s, Outside(d), k, until)
    ensures Cools(s.(disk := d), k, until)
  {
  }

  lemma StepCools(s: State, e: Event, p: Policy, k: Key, until: int)
    requires Cools(s, k, until) && Wired(s) && CanStep(s, e) && Quiet(s, e, k, until) && 0 < until
    ensures Cools(Step(s, e, p), k, until)
  {
    hide Cools, Wired, Reload, LendOf, ReleaseOf, ResumeOf, SetConcurrencyOf, Judged;
    match e
    case Outside(d) => OutsideCools(s, d, k, until);
    case Reloaded(at) => ReloadCools(s, Seconds(at), k, until);
    case Lend(c, id, model, at) => LendCools(s, c, id, model, at, 1, k, until);
    case Check(c, id, model, at) => LendCools(s, c, id, model, at, 0, k, until);
    case Release(c) => ReleaseCools(s, c, k, until);
    case Finish(c, r) =>
      if c in s.open { JudgedCools(s, c, r, p, k, until); }
      SameMemoryCools(if c in s.open then Judged(s, c, r, p) else s, FinishOf(s, c, r, p), k, until);
    case Resume(id, at, saved) => ResumeCools(s, id, at, saved, k, until);
    case SetConcurrency(id, limit) => SetConcurrencyCools(s, id, limit, k, until);
    case Arrive(_, _, _) => SameMemoryCools(s, Step(s, e, p), k, until);
    case JoinMember(c, limit) => SameMemoryCools(s, Step(s, e, p), k, until);
    case Park(c) => SameMemoryCools(s, Step(s, e, p), k, until);
    case Leave(c) => SameMemoryCools(s, Step(s, e, p), k, until);
  }

  predicate QuietRun(s: State, es: seq<Event>, p: Policy, k: Key, until: int)
    requires CanRun(s, es, p)
    decreases |es|
  {
    es == [] || (Quiet(s, es[0], k, until) && QuietRun(Step(s, es[0], p), es[1..], p, k, until))
  }

  lemma {:induction false} RunCools(s: State, es: seq<Event>, p: Policy, k: Key, until: int)
    requires Cools(s, k, until) && LeasesConserved(s) && CanRun(s, es, p) && QuietRun(s, es, p, k, until) && 0 < until
    ensures Cools(Run(s, es, p), k, until)
    decreases |es|
  {
    if es != [] {
      OrderOf(s);
      StepCools(s, es[0], p, k, until);
      StepKeepsLeases(s, es[0], p);
      RunCools(Step(s, es[0], p), es[1..], p, k, until);
    }
  }

  lemma OrderOf(s: State)
    requires LeasesConserved(s)
    ensures Wired(s)
  {
  }

  // ---- While memory has the revision of the row ----

  predicate CalmRun(s: State, es: seq<Event>, p: Policy, k: Key, until: int)
    requires CanRun(s, es, p)
    decreases |es|
  {
    es == [] || (Calm(s, es[0], k, until) && CalmRun(Step(s, es[0], p), es[1..], p, k, until))
  }

  lemma JudgedKeepsInStep(s: State, c: nat, r: Report, p: Policy, id: string)
    requires InStep(s, id) && c in s.open
    ensures InStep(Judged(s, c, r, p), id)
  {
    var v := Vacated(JudgeAccount(s, s.open[c], r, p), c);
    assert InStep(v, id);
    ModelsOnly(v, s.open[c], r, p);
    hide JudgeAccount, JudgeModel, Vacated;
  }

  lemma ReloadKeepsInStep(s: State, now: int, id: string)
    requires InStep(s, id)
    ensures InStep(Reload(s, now), id)
  {
  }

  lemma LendKeepsInStep(s: State, c: nat, a: string, model: string, at: int, numbers: int, id: string)
    requires InStep(s, id)
    ensures InStep(LendOf(s, c, a, model, at, numbers), id)
  {
    ReloadKeepsInStep(s, Seconds(at), id);
    hide Reload, ReadModel, LeaseAdmission;
  }

  lemma ResumeKeepsInStep(s: State, a: string, at: int, saved: Saved, id: string)
    requires InStep(s, id) && (a != id || saved.Lost?)
    ensures InStep(ResumeOf(s, a, at, saved), id)
  {
    ReloadKeepsInStep(s, Seconds(at), id);
    hide Reload;
  }

  lemma CalmKeepsInStep(s: State, e: Event, p: Policy, k: Key, until: int)
    requires InStep(s, k.account) && CanStep(s, e) && Calm(s, e, k, until)
    ensures InStep(Step(s, e, p), k.account)
  {
    hide Judged, LendOf, ResumeOf, Reload;
    match e
    case Reloaded(at) => ReloadKeepsInStep(s, Seconds(at), k.account);
    case Lend(c, id, model, at) => LendKeepsInStep(s, c, id, model, at, 1, k.account);
    case Check(c, id, model, at) => LendKeepsInStep(s, c, id, model, at, 0, k.account);
    case Resume(id, at, saved) => ResumeKeepsInStep(s, id, at, saved, k.account);
    case Finish(c, r) => if c in s.open { JudgedKeepsInStep(s, c, r, p, k.account); }
    case _ =>
  }

  /** A calm run that starts with memory at the revision of the row keeps it there, so that no result in it
  changes the epoch. */
  lemma {:induction false} CalmRunIsQuiet(s: State, es: seq<Event>, p: Policy, k: Key, until: int)
    requires InStep(s, k.account) && CanRun(s, es, p) && CalmRun(s, es, p, k, until)
    ensures QuietRun(s, es, p, k, until)
    decreases |es|
  {
    hide Step, CanStep, Calm;
    if es != [] {
      CalmKeepsInStep(s, es[0], p, k, until);
      CalmRunIsQuiet(Step(s, es[0], p), es[1..], p, k, until);
    }
  }

  // ---- Results that keep a model cooling ----

  /** The same requests and accounts, with any model state published and any stored. */
  function WithTables(s: State, published: map<Key, nat>, models: map<Key, ModelRow>): State {
    s.(published := published, disk := s.disk.(models := models))
  }

  /** Whatever model state there is, if the model cools it keeps cooling under every result of the request. */
  ghost predicate LeavesCooling(s: State, c: nat, p: Policy, k: Key)
    requires c in s.calls && c in s.open
  {
    forall published, models, until, r :: CoolsUntil(WithTables(s, published, models), k, until, r)
      ==> Cools(FinishOf(WithTables(s, published, models), c, r, p), k, until)
  }

  predicate CoolsUntil(s: State, k: Key, until: int, r: Report) {
    Wired(s) && Cools(s, k, until) && 0 < until && Seconds(r.at) < until
  }

  lemma StoredLimitIsLost(s: State, c: nat, p: Policy, k: Key)
    requires c in s.calls && c in s.open && k.account in s.disk.accounts && !KeepsEpoch(s, s.open[c], k)
    requires Wired(WithTables(s, map[], map[]))
    ensures !LeavesCooling(s, c, p, k)
  {
    var row := s.disk.accounts[k.account];
    var r := Report(AccountLimited, None, 0, Stored, Stored);
    var models := map[k := ModelRow(row.lifecycle, row.revision, 1, 1, 1, RateLimited, 0, 0)];
    var t := WithTables(s, map[], models);
    assert CoolsUntil(t, k, 1, r);
    LimitTakesRowBack(t, t.open[c], r, p);
    AccountResultKeepsModels(t, t.open[c], r, p);
    var v := Vacated(JudgeAccount(t, t.open[c], r, p), c);
    JudgesNothing(v, t.open[c], r, p);
    assert v.published == map[] && v.disk.models == models;
    var u := FinishOf(t, c, r, p);
    assert u.published == map[] && u.disk == v.disk;
    hide JudgeAccount, JudgeModel, FinishOf, Vacated, Evicted;
    assert !Cools(u, k, 1);
  }

  /** Every cooling of a model, whatever holds it in memory or in its row, outlasts the results of an open
  request, all of them, exactly when the request is another account's, memory has the revision of the
  account's row, or the request is not of the revision in memory. */
  lemma {:induction false} ResultsLeaveCoolingIff(s: State, c: nat, p: Policy, k: Key)
    requires c in s.calls && c in s.open && k.account in s.disk.accounts && Wired(s)
    ensures LeavesCooling(s, c, p, k) <==> KeepsEpoch(s, s.open[c], k)
  {
    if KeepsEpoch(s, s.open[c], k) {
      forall published, models, until, r | CoolsUntil(WithTables(s, published, models), k, until, r)
        ensures Cools(FinishOf(WithTables(s, published, models), c, r, p), k, until)
      {
        var t := WithTables(s, published, models);
        assert KeepsEpoch(t, t.open[c], k);
        hide KeepsEpoch, Cools, Judged, FinishOf;
        JudgedCools(t, c, r, p, k, until);
        FinishCools(t, c, r, p, k, until);
      }
    } else {
      StoredLimitIsLost(s, c, p, k);
    }
  }

  /** The premise of a model limit: the request holds the model's published state, of the epoch the
  account is in. */
  predicate HoldsPresentState(s: State, l: Lease) {
    && l.model.Some? && IsPublished(s, l.model.value)
    && var m := s.objects[l.model.value];
       SameEpoch(s.disk, m.key, m.lifecycle, m.revision)
  }

  lemma ModelLimitLeavesAccount(s: State, c: nat, r: Report, p: Policy)
    requires Wired(s) && c in s.open && r.result.ModelLimited? && HoldsPresentState(s, s.open[c])
    ensures var l, v := s.open[c], Vacated(JudgeAccount(s, s.open[c], r, p), c);
      Wired(v) && HoldsPresentState(v, l) && v.objects[l.model.value].key == s.objects[l.model.value].key
  {
  }

  /** A model limit that a request reported in the model's present epoch is in force at once, until the
  time its provider asked for. */
  lemma ReportedLimitCools(s: State, c: nat, r: Report, p: Policy)
    requires Wired(s) && c in s.open && r.result.ModelLimited? && HoldsPresentState(s, s.open[c])
    ensures Cools(Judged(s, c, r, p), s.objects[s.open[c].model.value].key, Seconds(r.at) + Delay(r.hint, p))
  {
    var l := s.open[c];
    var v := Vacated(JudgeAccount(s, l, r, p), c);
    ModelLimitLeavesAccount(s, c, r, p);
    hide JudgeAccount, JudgeModel, Delay, Evicted, Vacated, Wired, HoldsPresentState, Cools;
    ModelLimitCools(v, l, r, p);
    WiredAfterModel(v, l, r, p);
    EvictedCools(JudgeModel(v, l, r, p), l.model, s.objects[l.model.value].key, Seconds(r.at) + Delay(r.hint, p));
  }

  lemma ModelLimitCools(s: State, l: Lease, r: Report, p: Policy)
    requires Wired(s) && HoldsPresentState(s, l) && r.result.ModelLimited?
    ensures Cools(JudgeModel(s, l, r, p), s.objects[l.model.value].key, Seconds(r.at) + Delay(r.hint, p))
  {
    var o := l.model.value;
    var u := s.(sequence := s.sequence + 1);
    var m := ModelFailure(s.objects[o], r, u.sequence, p);
    assert Seconds(r.at) + Delay(r.hint, p) <= m.cooldownUntil && m.key == s.objects[o].key && m.lifecycle == s.objects[o].lifecycle && m.revision == s.objects[o].revision;
    hide ModelFailure, Delay, RecordModelFailure, Cools;
    RecordedLimitCools(u, o, m, r.model, Seconds(r.at) + Delay(r.hint, p));
  }

  lemma RecordedLimitCools(s: State, o: nat, m: ModelRuntime, saved: Saved, until: int)
    requires Wired(s) && IsPublished(s, o) && until <= m.cooldownUntil
    requires m.key == s.objects[o].key && SameEpoch(s.disk, m.key, m.lifecycle, m.revision)
    ensures Cools(RecordModelFailure(s, o, m, saved), m.key, until)
  {
  }

  /** A limited model is refused at every moment before its time, along every run in which no result takes
  its account back to an earlier epoch: the answer does not depend on whether its state is in memory, its
  writes succeeded or other requests reported since. While memory has the revision of the row, none can. */
  lemma LimitedModelStaysClosed(s: State, c: nat, r: Report, es: seq<Event>, p: Policy, now: int)
    requires LeasesConserved(s) && CanStep(s, Finish(c, r)) && c in s.open && HoldsPresentState(s, s.open[c])
    requires r.result.ModelLimited? && s.objects[s.open[c].model.value].key.model != ""
    requires var until := Seconds(r.at) + Delay(r.hint, p);
      && 0 < until && now < until && CanRun(Step(s, Finish(c, r), p), es, p)
      && var (t, k) := (Step(s, Finish(c, r), p), s.objects[s.open[c].model.value].key);
         QuietRun(t, es, p, k, until) || (InStep(t, k.account) && CalmRun(t, es, p, k, until))
    ensures var k := s.objects[s.open[c].model.value].key;
      LeaseAdmission(Reload(Run(Step(s, Finish(c, r), p), es, p), now), k.account, k.model, now) != Ok
  {
    hide LeasesConserved, Judged, Cools, Delay, Reload, LeaseAdmission, Wired, Run, CanRun, QuietRun, CalmRun, FinishOf;
    var k, until := s.objects[s.open[c].model.value].key, Seconds(r.at) + Delay(r.hint, p);
    hide HoldsPresentState;
    var t := Step(s, Finish(c, r), p);
    OrderOf(s);
    ReportedLimitCools(s, c, r, p);
    FinishCools(s, c, r, p, k, until);
    StepKeepsLeases(s, Finish(c, r), p);
    hide Step, CanStep;
    if !QuietRun(t, es, p, k, until) {
      CalmRunIsQuiet(t, es, p, k, until);
    }
    RunCools(t, es, p, k, until);
    ReloadCools(Run(t, es, p), now, k, until);
    CoolsIsRefused(Reload(Run(t, es, p), now), k, until, now);
  }

  lemma FinishCools(s: State, c: nat, r: Report, p: Policy, k: Key, until: int)
    requires c in s.calls && c in s.open && Cools(Judged(s, c, r, p), k, until)
    ensures Cools(FinishOf(s, c, r, p), k, until)
  {
    hide Judged, Cools;
    SameMemoryCools(Judged(s, c, r, p), FinishOf(s, c, r, p), k, until);
  }

  lemma CoolsIsRefused(s: State, k: Key, until: int, now: int)
    requires Cools(s, k, until) && now < until && k.model != ""
    ensures LeaseAdmission(s, k.account, k.model, now) != Ok
  {
  }

  // ---- Accounts ----

  predicate AccountCools(s: State, id: string, until: int) {
    id in s.health && until <= s.health[id].cooldownUntil && id in s.disk.accounts
  }

  /** Before `until`, with the account neither resumed nor removed. */
  predicate AccountQuiet(e: Event, id: string, until: int) {
    match e
    case Outside(d) => id in d.accounts
    case Finish(_, r) => Seconds(r.at) < until
    case Resume(a, _, saved) => a != id || !saved.Stored?
    case _ => true
  }

  lemma JudgedAccountCools(s: State, c: nat, r: Report, p: Policy, id: string, until: int)
    requires AccountCools(s, id, until) && c in s.open && Seconds(r.at) < until
    ensures AccountCools(Judged(s, c, r, p), id, until)
  {
    var v := Vacated(JudgeAccount(s, s.open[c], r, p), c);
    assert AccountCools(v, id, until);
    ModelsOnly(v, s.open[c], r, p);
    hide JudgeAccount, JudgeModel, Vacated;
  }

  lemma ReloadAccountCools(s: State, now: int, id: string, until: int)
    requires AccountCools(s, id, until)
    ensures AccountCools(Reload(s, now), id, until)
  {
  }

  lemma LendAccountCools(s: State, c: nat, account: string, model: string, at: int, numbers: int, id: string, until: int)
    requires AccountCools(s, id, until)
    ensures AccountCools(LendOf(s, c, account, model, at, numbers), id, until)
  {
    ReloadAccountCools(s, Seconds(at), id, until);
    hide Reload, ReadModel;
  }

  lemma ResumeAccountCools(s: State, a: string, at: int, saved: Saved, id: string, until: int)
    requires AccountCools(s, id, until) && (a != id || !saved.Stored?)
    ensures AccountCools(ResumeOf(s, a, at, saved), id, until)
  {
    ReloadAccountCools(s, Seconds(at), id, until);
    hide Reload;
  }

  lemma StepAccountCools(s: State, e: Event, p: Policy, id: string, until: int)
    requires AccountCools(s, id, until) && CanStep(s, e) && AccountQuiet(e, id, until)
    ensures AccountCools(Step(s, e, p), id, until)
  {
    hide Reload, LendOf, Judged, ResumeOf;
    match e
    case Reloaded(at) => ReloadAccountCools(s, Seconds(at), id, until);
    case Lend(c, a, model, at) => LendAccountCools(s, c, a, model, at, 1, id, until);
    case Check(c, a, model, at) => LendAccountCools(s, c, a, model, at, 0, id, until);
    case Finish(c, r) => if c in s.open { JudgedAccountCools(s, c, r, p, id, until); }
    case Resume(a, at, saved) => ResumeAccountCools(s, a, at, saved, id, until);
    case _ =>
  }

  /** A limited account is refused until its time along every run, whatever other requests report and
  even if the write of its limit was lost. */
  lemma {:induction false} LimitedAccountStaysClosed(s: State, es: seq<Event>, p: Policy, id: string, until: int, model: string, now: int)
    requires AccountCools(s, id, until) && CanRun(s, es, p) && now < until
    requires forall e <- es :: AccountQuiet(e, id, until)
    ensures LeaseAdmission(Reload(Run(s, es, p), now), id, model, now) != Ok
    decreases |es|
  {
    if es == [] {
      ReloadAccountCools(s, now, id, until);
      hide Reload;
    } else {
      StepAccountCools(s, es[0], p, id, until);
      LimitedAccountStaysClosed(Step(s, es[0], p), es[1..], p, id, until, model, now);
    }
  }

  /** An account limit that a request of its present revision reported is in force at once. */
  lemma ReportedAccountLimitCools(s: State, c: nat, r: Report, p: Policy)
    requires c in s.open && r.result.AccountLimited? && s.open[c].account in s.disk.accounts
    requires s.open[c].account in s.health && s.health[s.open[c].account].revision == s.open[c].revision
    ensures AccountCools(Judged(s, c, r, p), s.open[c].account, Seconds(r.at) + Delay(r.hint, p))
  {
    var v := Vacated(JudgeAccount(s, s.open[c], r, p), c);
    assert AccountCools(v, s.open[c].account, Seconds(r.at) + Delay(r.hint, p));
    ModelsOnly(v, s.open[c], r, p);
    hide JudgeAccount, JudgeModel, Vacated, Delay;
  }

  // ---- Streaks of transient failures ----

  /** A model's state after failures reported one after another. */
  function Streak(m: ModelRuntime, rs: seq<Report>, next: int, p: Policy): ModelRuntime {
    if rs == [] then m else ModelFailure(Streak(m, rs[..|rs| - 1], next, p), rs[|rs| - 1], next + |rs| - 1, p)
  }

  predicate WithinWindow(rs: seq<Report>, p: Policy) {
    && (forall i :: 0 <= i < |rs| ==> rs[i].result.Transient? && rs[i].at - rs[0].at < p.transientWindow)
    && forall i, j :: 0 <= i < j < |rs| ==> rs[i].at <= rs[j].at
  }

  /** Transient failures limit a model iff as many as the threshold fall within a window of the first, until
  the last of them plus a time that each further one doubles, up to sixteen times and five minutes. */
  lemma {:induction false} StreakLimitsFromThreshold(m: ModelRuntime, rs: seq<Report>, next: int, p: Policy)
    requires rs != [] && WithinWindow(rs, p) && m.reason != UpstreamError && 1 <= p.transientThreshold <= MAX_FAILURES
    ensures var n := Streak(m, rs, next, p);
      && n.failures == Min(MAX_FAILURES, |rs|) && n.failureWindowAt == rs[0].at && n.reason == UpstreamError && n.lastFailureAt == rs[|rs| - 1].at
      && n.cooldownUntil == if |rs| < p.transientThreshold then m.cooldownUntil
                            else Max(m.cooldownUntil, Seconds(rs[|rs| - 1].at) + TransientDelay(|rs|, p))
  {
    hide ModelFailure, TransientDelay;
    var front, last := rs[..|rs| - 1], rs[|rs| - 1];
    if front != [] {
      assert forall i :: 0 <= i < |front| ==> front[i] == rs[i];
      StreakLimitsFromThreshold(m, front, next, p);
      assert front[|front| - 1].at <= last.at;
      NextInStreak(Streak(m, front, next, p), last, next + |front|, p);
      DelayGrows(|front|, p);
      SameDelay(|rs|, p);
    } else {
      FirstInStreak(m, last, next, p);
    }
  }

  lemma FirstInStreak(m: ModelRuntime, r: Report, next: int, p: Policy)
    requires r.result.Transient? && m.reason != UpstreamError && 1 <= p.transientThreshold
    ensures var n := ModelFailure(m, r, next, p);
      && n.failures == 1 && n.failureWindowAt == r.at && n.reason == UpstreamError && n.lastFailureAt == r.at
      && n.cooldownUntil == if 1 < p.transientThreshold then m.cooldownUntil else Max(m.cooldownUntil, Seconds(r.at) + TransientDelay(1, p))
  {
  }

  lemma NextInStreak(m: ModelRuntime, r: Report, next: int, p: Policy)
    requires r.result.Transient? && m.reason == UpstreamError && 0 < m.failures
    requires m.lastFailureAt <= r.at && r.at - m.failureWindowAt < p.transientWindow
    ensures var n := ModelFailure(m, r, next, p);
      && n.failures == Min(MAX_FAILURES, m.failures + 1) && n.failureWindowAt == m.failureWindowAt
      && n.reason == UpstreamError && n.lastFailureAt == r.at
      && n.cooldownUntil == if n.failures < p.transientThreshold then m.cooldownUntil
                            else Max(m.cooldownUntil, Seconds(r.at) + TransientDelay(n.failures, p))
  {
  }

  /** Failures beyond the count that is kept wait no longer. */
  lemma SameDelay(failures: nat, p: Policy)
    ensures TransientDelay(Min(MAX_FAILURES, failures), p) == TransientDelay(failures, p)
  {
  }

  function TransientDelay(failures: nat, p: Policy): (d: int)
    ensures 1 <= d <= 300
  {
    Max(1, Min(300, Doubled(p.transientCooldown, Min(4, Min(MAX_FAILURES, failures) - p.transientThreshold))))
  }

  lemma {:induction false} DoubledGrows(n: int, times: int)
    requires 0 <= n
    ensures n <= Doubled(n, times) <= Doubled(n, times + 1)
    decreases times
  {
    if 0 <= times {
      DoubledGrows(2 * n, times - 1);
    }
  }

  lemma {:induction false} DoubledStaysBelow(n: int, times: int)
    requires n <= 0
    ensures Doubled(n, times) <= 0
    decreases times
  {
    if 0 < times {
      DoubledStaysBelow(2 * n, times - 1);
    }
  }

  /** Each further failure waits at least as long as the one before it. */
  lemma DelayGrows(failures: nat, p: Policy)
    ensures TransientDelay(failures, p) <= TransientDelay(failures + 1, p)
  {
    var n := Min(4, Min(MAX_FAILURES, failures) - p.transientThreshold);
    if 0 <= p.transientCooldown {
      DoubledGrows(p.transientCooldown, n);
    } else {
      DoubledStaysBelow(p.transientCooldown, n);
      DoubledStaysBelow(p.transientCooldown, n + 1);
    }
  }

  /** From failure `i` on, as many failures as the threshold fall within a window of it. */
  predicate Crowded(rs: seq<Report>, i: nat, p: Policy) {
    0 < p.transientThreshold <= |rs| - i && WithinWindow(rs[i..i + p.transientThreshold], p)
  }

  predicate Sparse(rs: seq<Report>, p: Policy) {
    forall i :: 0 <= i < |rs| ==> !Crowded(rs, i, p)
  }

  predicate Transients(rs: seq<Report>) {
    forall i :: 0 <= i < |rs| ==> rs[i].result.Transient?
  }

  /** Whenever failures come, those counted are the last ones, and lie within a window of the first of them. */
  lemma {:induction false} CountedLieWithinWindow(m: ModelRuntime, rs: seq<Report>, next: int, p: Policy) returns (first: nat)
    requires rs != [] && Transients(rs) && m.reason != UpstreamError && 0 < p.transientWindow
    ensures first < |rs| && WithinWindow(rs[first..], p)
    ensures var n := Streak(m, rs, next, p);
      && n.reason == UpstreamError && n.failures == Min(MAX_FAILURES, |rs| - first)
      && n.failureWindowAt == rs[first].at && n.lastFailureAt == rs[|rs| - 1].at
    decreases |rs|
  {
    var front, last := rs[..|rs| - 1], rs[|rs| - 1];
    first := |rs| - 1;
    if front != [] {
      var i := CountedLieWithinWindow(m, front, next, p);
      var n := Streak(m, front, next, p);
      if n.lastFailureAt <= last.at && last.at - n.failureWindowAt < p.transientWindow {
        first := i;
        assert rs[i..] == front[i..] + [last];
        assert front[i..][|front| - 1 - i] == front[|front| - 1];
      }
    }
  }

  lemma WithinShorter(rs: seq<Report>, n: nat, p: Policy)
    requires WithinWindow(rs, p) && 0 < n <= |rs|
    ensures WithinWindow(rs[..n], p)
  {
  }

  /** Failures that never come as close as the threshold, whatever their times and however many, never
  limit the model. */
  lemma {:induction false} SparseFailuresNeverLimit(m: ModelRuntime, rs: seq<Report>, next: int, p: Policy)
    requires Transients(rs) && Sparse(rs, p)
    requires m.reason != UpstreamError && 1 <= p.transientThreshold <= MAX_FAILURES && 0 < p.transientWindow
    ensures Streak(m, rs, next, p).cooldownUntil == m.cooldownUntil
    decreases |rs|
  {
    if rs != [] {
      var front := rs[..|rs| - 1];
      forall i | 0 <= i < |front| ensures !Crowded(front, i, p) {
        if p.transientThreshold <= |front| - i {
          assert front[i..i + p.transientThreshold] == rs[i..i + p.transientThreshold];
          assert !Crowded(rs, i, p);
        }
      }
      SparseFailuresNeverLimit(m, front, next, p);
      var first := CountedLieWithinWindow(m, rs, next, p);
      if p.transientThreshold <= |rs| - first {
        assert rs[first..first + p.transientThreshold] == rs[first..][..p.transientThreshold];
        WithinShorter(rs[first..], p.transientThreshold, p);
        assert Crowded(rs, first, p);
        assert false;
      }
    }
  }

  /** The window is not a sliding one: failures within a window of each other that straddle the end of an
  earlier one do not limit. */
  lemma StraddlingFailuresDoNotLimit()
    ensures var p := Policy(0, 0, 3, 10, 30);
      var rs := [Fails(0), Fails(9), Fails(10), Fails(11)];
      var m := ModelRuntime(Key("a", "m"), 0, 0, 0, 0, 0, 0, 0, false, NoReason, 0, 0);
      Transients(rs) && !Sparse(rs, p) && Streak(m, rs, 1, p).cooldownUntil == 0
  {
    var p := Policy(0, 0, 3, 10, 30);
    var m := ModelRuntime(Key("a", "m"), 0, 0, 0, 0, 0, 0, 0, false, NoReason, 0, 0);
    var rs := [Fails(0), Fails(9), Fails(10), Fails(11)];
    assert rs[1..1 + p.transientThreshold] == [Fails(9), Fails(10), Fails(11)];
    assert Crowded(rs, 1, p);
    StreakGrows(m, [], Fails(0), p);
    StreakGrows(m, [Fails(0)], Fails(9), p);
    StreakGrows(m, [Fails(0), Fails(9)], Fails(10), p);
    StreakGrows(m, [Fails(0), Fails(9), Fails(10)], Fails(11), p);
    assert [] + [Fails(0)] == [Fails(0)];
    assert [Fails(0)] + [Fails(9)] == [Fails(0), Fails(9)];
    assert [Fails(0), Fails(9)] + [Fails(10)] == [Fails(0), Fails(9), Fails(10)];
    assert [Fails(0), Fails(9), Fails(10)] + [Fails(11)] == rs;
    hide Streak, Delay, TransientDelay;
  }

  lemma StreakGrows(m: ModelRuntime, rs: seq<Report>, r: Report, p: Policy)
    ensures Streak(m, rs + [r], 1, p) == ModelFailure(Streak(m, rs, 1, p), r, 1 + |rs|, p)
    ensures Streak(m, [], 1, p) == m
  {
    assert (rs + [r])[..|rs|] == rs;
  }

  function Fails(at: int): Report {
    Report(Transient, None, at, Stored, Stored)
  }
}
