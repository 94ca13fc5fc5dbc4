/** Late completions: in memory, a success clears only failures older than its own admission. */
module LeaseEpochs {

  import opened Common
  import opened LeaseState
  import opened LeaseConservation

  // ---- The failures reported so far ----

  datatype Epoch = Epoch(key: Key, lifecycle: int, revision: int)

  /** The sequence number at the last failure reported of an account's revision and of a model's epoch. */
  datatype Past = Past(accounts: map<(string, int), int>, models: map<Epoch, int>)

  function EpochOf(m: ModelRuntime): Epoch { Epoch(m.key, m.lifecycle, m.revision) }

  predicate ReportsAccountFailure(s: State, e: Event) {
    && e.Finish? && e.call in s.open && e.report.result.AccountLimited?
    && var l := s.open[e.call]; l.account in s.health && s.health[l.account].revision == l.revision
  }

  /** A model failure is known unless its write found that the epoch had ended. */
  predicate ReportsModelFailure(s: State, e: Event, p: Policy) {
    && e.Finish? && e.call in s.open && LimitsModel(e.report, p)
    && s.open[e.call].model.Some? && IsPublished(s, s.open[e.call].model.value)
    && var m := s.objects[s.open[e.call].model.value]; !e.report.model.Stored? || SameEpoch(s.disk, m.key, m.lifecycle, m.revision)
  }

  function Remember(past: Past, s: State, e: Event, p: Policy): Past {
    Past(
      if ReportsAccountFailure(s, e) then
        past.accounts[(s.open[e.call].account, s.open[e.call].revision) := s.sequence + 1]
      else past.accounts,
      if ReportsModelFailure(s, e, p) then
        past.models[EpochOf(s.objects[s.open[e.call].model.value]) := s.sequence + 1]
      else past.models)
  }

  predicate Dirty(a: Runtime) { a.failures != 0 || a.cooldownUntil != 0 }

  /** A lease that would clear its account's failures was admitted after the last one reported. */
  predicate AccountsCovered(open: Leases, health: map<string, Runtime>, past: map<(string, int), int>) {
    forall c <- open | open[c].account in health ::
      var l, a := open[c], health[open[c].account];
      Dirty(a) && a.revision == l.revision && a.lastFailureSequence < l.sequence && (l.account, l.revision) in past ==>
        past[(l.account, l.revision)] < l.sequence
  }

  predicate NewerIfClears(m: ModelRuntime, l: Lease, past: map<Epoch, int>) {
    0 < m.failures && m.lastFailureSequence < l.sequence && EpochOf(m) in past ==> past[EpochOf(m)] < l.sequence
  }

  predicate ObjectsCovered(open: Leases, objects: map<nat, ModelRuntime>, past: map<Epoch, int>, published: map<Key, nat>) {
    forall c <- open | open[c].model.Some? && open[c].model.value in objects ::
      var l, m := open[c], objects[open[c].model.value];
      m.key in published && published[m.key] == l.model.value ==> NewerIfClears(m, l, past)
  }

  predicate Covered(s: State, past: Past) {
    && (forall k <- past.accounts :: past.accounts[k] <= s.sequence)
    && (forall k <- past.models :: past.models[k] <= s.sequence)
    && AccountsCovered(s.open, s.health, past.accounts)
    && ObjectsCovered(s.open, s.objects, past.models, s.published)
  }

  // ---- Steps ----

  lemma ReloadKeepsCovered(s: State, now: int, past: Past)
    requires LeasesConserved(s) && Covered(s, past)
    ensures Covered(Reload(s, now), past)
  {
    var t := Reload(s, now);
    forall c <- t.open | t.open[c].account in t.health
      ensures t.open[c].account in s.health && Dirty(t.health[t.open[c].account]) == Dirty(s.health[t.open[c].account]) {
    }
  }

  lemma TakesKeepsCovered(s: State, t: State, c: nat, l: Lease, m: ModelRuntime, past: Past)
    requires Covered(s, past) && Wired(s) && l.account in s.health && Takes(s, t, c, l, m)
    requires ObjectsConserved(s.open, s.objects)
    requires l.model.Some? && l.model.value in s.objects ==> IsPublished(s, l.model.value)
    ensures Covered(t, past)
  {
    hide Where;
  }

  lemma LendKeepsCovered(s: State, c: nat, id: string, model: string, at: int, numbers: int, past: Past)
    requires LeasesConserved(s) && Covered(s, past) && c !in s.open && 0 <= numbers <= 1
    ensures Covered(LendOf(s, c, id, model, at, numbers), past)
  {
    var u := Reload(s, Seconds(at));
    ReloadKeepsCovered(s, Seconds(at), past);
    ReloadKeepsLeases(s, Seconds(at));
    assert Wired(u) && ObjectsConserved(u.open, u.objects);
    hide Reload, LeasesConserved, Covered, Takes, ObjectsConserved;
    if LeaseAdmission(u, id, model, Seconds(at)) == Ok {
      var m := OpenedTakes(u, c, id, model, Seconds(at), numbers);
      TakesKeepsCovered(u, Opened(u, c, id, model, numbers), c, LeaseFor(u, id, model), m, past);
    }
  }

  lemma VacatedKeepsCovered(s: State, c: nat, past: Past)
    requires Covered(s, past) && c in s.open
    ensures Covered(Vacated(s, c), past)
  {
  }

  lemma EvictedKeepsCovered(s: State, model: Option<nat>, past: Past)
    requires Covered(s, past)
    ensures Covered(Evicted(s, model), past)
  {
  }

  lemma JudgeAccountKeepsCovered(s: State, c: nat, r: Report, p: Policy, past: Past)
    requires Covered(s, past) && Ordered(s) && c in s.open
    ensures Covered(JudgeAccount(s, s.open[c], r, p), past.(accounts := Remember(past, s, Finish(c, r), p).accounts))
  {
  }

  lemma JudgeModelKeepsCovered(s: State, l: Lease, r: Report, p: Policy, past: Past)
    requires Covered(s, past) && Ordered(s) && Wired(s)
    requires l.model.Some? && IsPublished(s, l.model.value)
    ensures Covered(JudgeModel(s, l, r, p), RememberModel(past, s, s.objects[l.model.value], r, p))
  {
    var o := l.model.value;
    ModelVerdict(s, l, r, p);
    FailureKnown(s, o, r, p);
    ClearKnown(s, o, r.model);
    hide ModelFailure, RecordModelFailure, ClearModelFailure, Covered, Wired;
    LearntKeepsCovered(s, JudgeModel(s, l, r, p), o, past, RememberModel(past, s, s.objects[o], r, p));
  }

  /** One object's state after a verdict, and the failures known after it. */
  lemma LearntKeepsCovered(s: State, t: State, o: nat, past: Past, known: Past)
    requires Covered(s, past) && Ordered(s) && Wired(s) && o in s.objects && o in t.objects
    requires t == s.(disk := t.disk, objects := s.objects[o := t.objects[o]], sequence := t.sequence)
    requires EpochOf(t.objects[o]) == EpochOf(s.objects[o]) && s.sequence <= t.sequence
    requires || (known == past && (t.objects[o].failures <= 0
                  || (t.objects[o].failures == s.objects[o].failures && t.objects[o].lastFailureSequence == s.objects[o].lastFailureSequence)))
             || (known == past.(models := past.models[EpochOf(t.objects[o]) := s.sequence + 1])
                  && t.sequence == s.sequence + 1 == t.objects[o].lastFailureSequence && IsPublished(s, o))
    ensures Covered(t, known)
  {
  }

  lemma ClearKnown(s: State, o: nat, saved: Saved)
    requires o in s.objects
    ensures var m, n := s.objects[o], ClearModelFailure(s, o, saved).objects[o];
      n.failures == 0 || (n.failures == m.failures && n.lastFailureSequence == m.lastFailureSequence)
  {
  }

  lemma FailureKnown(s: State, o: nat, r: Report, p: Policy)
    requires o in s.objects
    ensures var m := s.objects[o];
      var t := RecordModelFailure(s.(sequence := s.sequence + 1), o, ModelFailure(m, r, s.sequence + 1, p), r.model);
      if !r.model.Stored? || SameEpoch(s.disk, m.key, m.lifecycle, m.revision) then t.objects[o].lastFailureSequence == s.sequence + 1
      else t.objects[o] == m
  {
  }

  lemma VacatedThenSame(s: State, c: nat, r: Report, p: Policy)
    requires c in s.open && Wired(s)
    ensures var l := s.open[c];
      var v := Vacated(JudgeAccount(s, l, r, p), c);
      && (forall o <- s.objects :: o in v.objects && EpochOf(v.objects[o]) == EpochOf(s.objects[o]))
      && v.published == s.published
      && (l.model.Some? ==> IsPublished(v, l.model.value) == IsPublished(s, l.model.value))
      && (LimitsModel(r, p) ==> v.sequence == s.sequence && v.disk == s.disk)
  {
  }

  function RememberModel(past: Past, s: State, m: ModelRuntime, r: Report, p: Policy): Past {
    if LimitsModel(r, p) && (!r.model.Stored? || SameEpoch(s.disk, m.key, m.lifecycle, m.revision)) then
      past.(models := past.models[EpochOf(m) := s.sequence + 1])
    else past
  }

  lemma RememberInParts(past: Past, s: State, c: nat, r: Report, p: Policy)
    requires c in s.open && Wired(s)
    ensures var l := s.open[c];
      var v := Vacated(JudgeAccount(s, l, r, p), c);
      var account := past.(accounts := Remember(past, s, Finish(c, r), p).accounts);
      Remember(past, s, Finish(c, r), p) ==
        if l.model.Some? && IsPublished(v, l.model.value) then RememberModel(account, v, v.objects[l.model.value], r, p) else account
  {
    VacatedThenSame(s, c, r, p);
    hide JudgeAccount, Vacated;
  }

  lemma JudgedKeepsCovered(s: State, c: nat, r: Report, p: Policy, past: Past)
    requires Covered(s, past) && LeasesConserved(s) && c in s.open
    ensures Covered(Judged(s, c, r, p), Remember(past, s, Finish(c, r), p))
  {
    var l := s.open[c];
    var account := past.(accounts := Remember(past, s, Finish(c, r), p).accounts);
    var t := JudgeAccount(s, l, r, p);
    OrderedAndWired(s);
    hide JudgeAccount, Vacated, Covered, LeasesConserved, JudgeModel, Evicted, Ordered, Wired, Remember, RememberModel, ObjectsConserved;
    JudgeAccountKeepsCovered(s, c, r, p, past);
    JudgeAccountKeepsLeases(s, l, r, p);
    VacatedKeepsCovered(t, c, account);
    VacatedKeepsLeases(t, c);
    var v := Vacated(t, c);
    OrderedAndWired(v);
    RememberInParts(past, s, c, r, p);
    if l.model.Some? && IsPublished(v, l.model.value) {
      JudgeModelKeepsCovered(v, l, r, p, account);
    } else {
      JudgesNothing(v, l, r, p);
    }
    EvictedKeepsCovered(JudgeModel(v, l, r, p), l.model, Remember(past, s, Finish(c, r), p));
  }

  lemma OrderedAndWired(s: State)
    requires LeasesConserved(s)
    ensures Ordered(s) && Wired(s) && ObjectsConserved(s.open, s.objects)
  {
  }

  lemma SameLeasesCovered(s: State, t: State, past: Past)
    requires Covered(s, past) && SameLeases(s, t)
    ensures Covered(t, past)
  {
  }

  lemma FinishKeepsCovered(s: State, c: nat, r: Report, p: Policy, past: Past)
    requires Covered(s, past) && LeasesConserved(s) && c in s.calls
    ensures Covered(FinishOf(s, c, r, p), Remember(past, s, Finish(c, r), p))
  {
    assert c !in s.open ==> Remember(past, s, Finish(c, r), p) == past;
    hide Covered, LeasesConserved, Judged, Remember, FinishOf;
    var u := if c in s.open then Judged(s, c, r, p) else s;
    if c in s.open {
      JudgedKeepsCovered(s, c, r, p, past);
    }
    SameLeasesCovered(u, FinishOf(s, c, r, p), Remember(past, s, Finish(c, r), p));
  }

  lemma ResumeKeepsCovered(s: State, id: string, at: int, saved: Saved, past: Past)
    requires Covered(s, past) && LeasesConserved(s)
    ensures Covered(ResumeOf(s, id, at, saved), past)
  {
    ReloadKeepsCovered(s, Seconds(at), past);
    hide Reload, LeasesConserved;
  }

  lemma SetConcurrencyKeepsCovered(s: State, id: string, limit: int, past: Past)
    requires Covered(s, past)
    ensures Covered(SetConcurrencyOf(s, id, limit), past)
  {
  }

  lemma ReleaseKeepsCovered(s: State, c: nat, past: Past)
    requires Covered(s, past) && c in s.open
    ensures Covered(ReleaseOf(s, c), past)
  {
    VacatedKeepsCovered(s, c, past);
    hide Covered, Vacated, Evicted;
    EvictedKeepsCovered(Vacated(s, c), s.open[c].model, past);
  }

  lemma StepKeepsCovered(s: State, e: Event, p: Policy, past: Past)
    requires Covered(s, past) && LeasesConserved(s) && CanStep(s, e)
    ensures Covered(Step(s, e, p), Remember(past, s, e, p))
  {
    assert !e.Finish? ==> Remember(past, s, e, p) == past;
    hide Covered, LeasesConserved, Reload, LendOf, ReleaseOf, FinishOf, ResumeOf, SetConcurrencyOf, Remember, JoinOf, ParkOf, LeaveOf;
    match e
    case Reloaded(at) => ReloadKeepsCovered(s, Seconds(at), past);
    case Lend(c, id, model, at) => LendKeepsCovered(s, c, id, model, at, 1, past);
    case Check(c, id, model, at) => LendKeepsCovered(s, c, id, model, at, 0, past);
    case Release(c) => ReleaseKeepsCovered(s, c, past);
    case Finish(c, r) => FinishKeepsCovered(s, c, r, p, past);
    case Resume(id, at, saved) => ResumeKeepsCovered(s, id, at, saved, past);
    case SetConcurrency(id, limit) => SetConcurrencyKeepsCovered(s, id, limit, past);
    case _ => SameLeasesCovered(s, Step(s, e, p), past);
  }

  // ---- Only a newer success clears ----

  predicate IsLimited(a: Runtime) { Limited(a.cooldownUntil, a.failures) }

  /** Request `c` succeeded on account `id` after its cooldown, in its present revision, and was
  admitted after every failure known of it there. */
  predicate ProvesAccount(s: State, past: Past, c: nat, r: Report, id: string) {
    && r.result.Completed? && c in s.open && s.open[c].account == id && id in s.health
    && s.open[c].revision == s.health[id].revision && s.health[id].cooldownUntil <= Seconds(r.at)
    && ((id, s.health[id].revision) in past.accounts ==> past.accounts[(id, s.health[id].revision)] < s.open[c].sequence)
  }

  /** An account stops being limited only by a resume, or by the success of a newer request. */
  lemma AccountClearedByNewer(s: State, e: Event, p: Policy, past: Past, id: string)
    requires Covered(s, past) && CanStep(s, e)
    requires id in s.health && IsLimited(s.health[id])
    requires var t := Step(s, e, p); id in t.health && !IsLimited(t.health[id])
    ensures (e.Resume? && e.account == id && e.saved.Stored?) || (e.Finish? && ProvesAccount(s, past, e.call, e.report, id))
  {
    hide Covered, LendOf, Reload, ReleaseOf, ResumeOf, FinishOf, ProvesAccount;
    match e
    case Finish(c, r) => FinishClearsByNewer(s, c, r, p, past, id);
    case Release(c) => ReleaseKeepsLimits(s, c, id);
    case Lend(c, account, model, at) => LendKeepsLimits(s, c, account, model, at, 1, id);
    case Check(c, account, model, at) => LendKeepsLimits(s, c, account, model, at, 0, id);
    case Reloaded(at) => ReloadKeepsLimits(s, Seconds(at), id);
    case Resume(account, at, saved) => if account != id || !saved.Stored? { ResumeKeepsLimits(s, account, at, saved, id); }
    case _ =>
  }

  lemma LendKeepsLimits(s: State, c: nat, account: string, model: string, at: int, numbers: int, id: string)
    requires id in s.health
    ensures var t := LendOf(s, c, account, model, at, numbers); id in t.health ==> IsLimited(t.health[id]) == IsLimited(s.health[id])
  {
    hide Opened, Reload, ReadModel;
    ReloadKeepsLimits(s, Seconds(at), id);
  }

  lemma ResumeKeepsLimits(s: State, account: string, at: int, saved: Saved, id: string)
    requires id in s.health && (id != account || !saved.Stored?)
    ensures var t := ResumeOf(s, account, at, saved); id in t.health ==> IsLimited(t.health[id]) == IsLimited(s.health[id])
  {
    hide Reload;
    ReloadKeepsLimits(s, Seconds(at), id);
  }

  lemma ReleaseKeepsLimits(s: State, c: nat, id: string)
    requires id in s.health && c in s.open
    ensures var t := ReleaseOf(s, c); id in t.health && IsLimited(t.health[id]) == IsLimited(s.health[id])
  {
    hide Evicted;
  }

  lemma FinishClearsByNewer(s: State, c: nat, r: Report, p: Policy, past: Past, id: string)
    requires Covered(s, past) && c in s.calls && id in s.health && IsLimited(s.health[id])
    requires id in FinishOf(s, c, r, p).health && !IsLimited(FinishOf(s, c, r, p).health[id])
    ensures ProvesAccount(s, past, c, r, id)
  {
    hide Covered, Judged, JudgeAccount, FinishOf;
    if c in s.open {
      JudgedHealth(s, c, r, p);
      AccountJudgedByNewer(s, c, r, p, past, id);
    }
  }

  lemma ReloadKeepsLimits(s: State, now: int, id: string)
    requires id in s.health
    ensures var t := Reload(s, now); id in t.health ==> IsLimited(t.health[id]) == IsLimited(s.health[id])
  {
  }

  lemma AccountJudgedByNewer(s: State, c: nat, r: Report, p: Policy, past: Past, id: string)
    requires Covered(s, past) && c in s.open && id in s.health && IsLimited(s.health[id])
    requires id in JudgeAccount(s, s.open[c], r, p).health && !IsLimited(JudgeAccount(s, s.open[c], r, p).health[id])
    ensures ProvesAccount(s, past, c, r, id)
  {
  }

  lemma JudgedHealth(s: State, c: nat, r: Report, p: Policy)
    requires c in s.open
    ensures var l := s.open[c];
      var h := JudgeAccount(s, l, r, p).health;
      Judged(s, c, r, p).health ==
        if l.account in h then h[l.account := h[l.account].(inFlight := Max(0, h[l.account].inFlight - 1))] else h
  {
    hide JudgeAccount;
  }

  // ---- Models ----

  /** The request of lease `l` succeeded on the published state `o` of a model after its cooldown, and
  was admitted after every failure known of that state's epoch. */
  predicate ProvesModel(s: State, past: Past, l: Lease, r: Report, o: nat) {
    && r.result.Completed? && l.model == Some(o) && IsPublished(s, o)
    && s.objects[o].cooldownUntil <= Seconds(r.at)
    && (EpochOf(s.objects[o]) in past.models ==> past.models[EpochOf(s.objects[o])] < l.sequence)
  }

  /** Between `s` and `t`, a model's failures are cleared in memory and its row removed only on proof. */
  predicate ClearsOnProof(s: State, t: State, past: Past, l: Lease, r: Report) {
    && (forall o <- s.objects :: o in t.objects && (0 < s.objects[o].failures && t.objects[o].failures <= 0 ==> ProvesModel(s, past, l, r, o)))
    && (forall k <- s.disk.models | k !in t.disk.models ::
          l.model.Some? && ProvesModel(s, past, l, r, l.model.value) && s.objects[l.model.value].key == k)
  }

  lemma FailuresRise(s: State, o: nat, r: Report, p: Policy)
    requires o in s.objects
    ensures var t := RecordModelFailure(s.(sequence := s.sequence + 1), o, ModelFailure(s.objects[o], r, s.sequence + 1, p), r.model);
      && (0 < s.objects[o].failures ==> 0 < t.objects[o].failures)
      && s.disk.models.Keys <= t.disk.models.Keys
  {
  }

  lemma OneRowDeleted(s: State, o: nat, saved: Saved)
    requires o in s.objects
    ensures s.disk.models.Keys - {s.objects[o].key} <= ClearModelFailure(s, o, saved).disk.models.Keys
  {
  }

  lemma ModelJudgedOnProof(s: State, l: Lease, r: Report, p: Policy, past: Past)
    requires l.model.Some? && IsPublished(s, l.model.value) ==> NewerIfClears(s.objects[l.model.value], l, past.models)
    ensures ClearsOnProof(s, JudgeModel(s, l, r, p), past, l, r)
  {
    if l.model.Some? && IsPublished(s, l.model.value) {
      var o := l.model.value;
      FailuresRise(s, o, r, p);
      OneRowDeleted(s, o, r.model);
      ModelVerdict(s, l, r, p);
      if !LimitsModel(r, p) && ClearsModel(s.objects[o], l, r) {
        assert ProvesModel(s, past, l, r, o);
      }
      hide ModelFailure, RecordModelFailure, ClearModelFailure, ProvesModel;
    }
  }

  lemma SameBeforeVacating(s: State, c: nat, r: Report, p: Policy)
    requires c in s.open && Wired(s)
    ensures var v := Vacated(JudgeAccount(s, s.open[c], r, p), c);
      SameModels(s, v)
  {
  }

  lemma LeaseIsCovered(s: State, c: nat, past: Past)
    requires Covered(s, past) && c in s.open
    ensures s.open[c].model.Some? && IsPublished(s, s.open[c].model.value) ==> NewerIfClears(s.objects[s.open[c].model.value], s.open[c], past.models)
  {
  }

  predicate SameModels(s: State, v: State) {
    && v.objects.Keys == s.objects.Keys && v.disk.models == s.disk.models && v.published == s.published
    && (forall o <- s.objects :: v.objects[o] == s.objects[o].(inFlight := v.objects[o].inFlight))
  }

  lemma SameProof(s: State, v: State, t: State, past: Past, l: Lease, r: Report)
    requires SameModels(s, v) && ClearsOnProof(v, t, past, l, r)
    ensures ClearsOnProof(s, t, past, l, r)
  {
  }

  lemma JudgedOnProof(s: State, c: nat, r: Report, p: Policy, past: Past)
    requires Covered(s, past) && Wired(s) && c in s.open
    ensures ClearsOnProof(s, Judged(s, c, r, p), past, s.open[c], r)
  {
    var l := s.open[c];
    var v := Vacated(JudgeAccount(s, l, r, p), c);
    SameBeforeVacating(s, c, r, p);
    LeaseIsCovered(s, c, past);
    hide JudgeAccount, Vacated, JudgeModel, Covered, ClearsOnProof, Evicted;
    ModelJudgedOnProof(v, l, r, p, past);
    SameProof(s, v, JudgeModel(v, l, r, p), past, l, r);
    SameClears(s, JudgeModel(v, l, r, p), Judged(s, c, r, p), past, l, r);
  }

  lemma LendKeepsFailures(s: State, c: nat, id: string, model: string, at: int, numbers: int)
    requires Wired(s)
    ensures var t := LendOf(s, c, id, model, at, numbers);
      forall o <- s.objects :: o in t.objects && t.objects[o].failures == s.objects[o].failures
  {
    hide LeaseAdmission;
  }

  /** A model's failures are cleared in memory, and a finished request removes its row, only by the
  success of a newer request, even when the state was evicted and its row read back in between. */
  lemma ModelClearedByNewer(s: State, e: Event, p: Policy, past: Past)
    requires Covered(s, past) && Wired(s) && CanStep(s, e)
    ensures e.Finish? && e.call in s.open ==> ClearsOnProof(s, Step(s, e, p), past, s.open[e.call], e.report)
    ensures !(e.Finish? && e.call in s.open) ==> forall o <- s.objects :: o in Step(s, e, p).objects && Step(s, e, p).objects[o].failures == s.objects[o].failures
  {
    hide Covered, Judged, ClearsOnProof, Reload, LendOf, Evicted, Wired;
    match e
    case Finish(c, r) => if c in s.open {
      JudgedOnProof(s, c, r, p, past);
      SameClears(s, Judged(s, c, r, p), FinishOf(s, c, r, p), past, s.open[c], r);
    }
    case Lend(c, id, model, at) => LendKeepsFailures(s, c, id, model, at, 1);
    case Check(c, id, model, at) => LendKeepsFailures(s, c, id, model, at, 0);
    case _ =>
  }

  lemma SameClears(s: State, t: State, u: State, past: Past, l: Lease, r: Report)
    requires ClearsOnProof(s, t, past, l, r) && u.objects == t.objects && u.disk == t.disk
    ensures ClearsOnProof(s, u, past, l, r)
  {
  }

  // ---- Runs ----

  /** The failures known at the end of a run. */
  function History(past: Past, s: State, es: seq<Event>, p: Policy): Past
    requires CanRun(s, es, p)
    decreases |es|
  {
    if es == [] then past else History(Remember(past, s, es[0], p), Step(s, es[0], p), es[1..], p)
  }

  lemma {:induction false} RunIsCovered(s: State, es: seq<Event>, p: Policy, past: Past)
    requires Covered(s, past) && LeasesConserved(s) && CanRun(s, es, p)
    ensures Covered(Run(s, es, p), History(past, s, es, p)) && LeasesConserved(Run(s, es, p))
    decreases |es|
  {
    if es != [] {
      StepKeepsCovered(s, es[0], p, past);
      StepKeepsLeases(s, es[0], p);
      RunIsCovered(Step(s, es[0], p), es[1..], p, Remember(past, s, es[0], p));
    }
  }

  /** Along every run from the start, whatever clears a limit in memory came after every failure of it that was
  reported: a resume by an operator, or the success of a request admitted later. */
  lemma LateSuccessClearsNothing(disk: Disk, es: seq<Event>, e: Event, p: Policy)
    requires CanRun(Start(disk), es, p) && CanStep(Run(Start(disk), es, p), e)
    ensures var s, past := Run(Start(disk), es, p), History(Past(map[], map[]), Start(disk), es, p);
      var t := Step(s, e, p);
      && (forall id <- s.health :: id in t.health && IsLimited(s.health[id]) && !IsLimited(t.health[id]) ==>
            (e.Resume? && e.account == id && e.saved.Stored?) || (e.Finish? && ProvesAccount(s, past, e.call, e.report, id)))
      && (forall o <- s.objects :: o in t.objects && (0 < s.objects[o].failures && t.objects[o].failures <= 0 ==>
            e.Finish? && e.call in s.open && ProvesModel(s, past, s.open[e.call], e.report, o)))
  {
    var s, past := Run(Start(disk), es, p), History(Past(map[], map[]), Start(disk), es, p);
    var t := Step(s, e, p);
    StartConserves(disk, p);
    RunIsCovered(Start(disk), es, p, Past(map[], map[]));
    hide LeasesConserved, Covered, Step, CanStep, ProvesAccount, ProvesModel, Run, History;
    forall id <- s.health | id in t.health && IsLimited(s.health[id]) && !IsLimited(t.health[id])
      ensures (e.Resume? && e.account == id && e.saved.Stored?) || (e.Finish? && ProvesAccount(s, past, e.call, e.report, id)) {
      AccountClearedByNewer(s, e, p, past, id);
    }
    OrderedAndWired(s);
    ModelClearedByNewer(s, e, p, past);
  }
}
