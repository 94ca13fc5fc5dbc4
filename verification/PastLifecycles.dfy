/** A new authorization ends an epoch of the account's models, but not of the account itself: what the
requests opened before it report later reaches no model, and reaches the account unless a resume came in
between. */
module PastLifecycles {

  import opened Common
  import opened LeaseState
  import opened LeaseConservation
  import opened StoredEpochs
  import opened ResumedAccounts

  /** Object `o` was read under a lifecycle below `floor`, which its account has reached since. */
  predicate Past(s: State, o: nat, floor: int) {
    && o in s.objects && s.objects[o].lifecycle < floor
    && AtLeast(s.disk, s.objects[o].key.account, floor)
  }

  predicate AtLeast(d: Disk, id: string, floor: int) {
    id in d.accounts ==> floor <= d.accounts[id].lifecycle
  }

  /** A change from elsewhere does not take the account back. */
  predicate NeverLowers(e: Event, id: string, floor: int) {
    e.Outside? ==> AtLeast(e.disk, id, floor)
  }

  // ---- Objects keep the lifecycle they were read under ----

  predicate EpochsKept(s: State, t: State) {
    forall o <- s.objects :: o in t.objects && t.objects[o].key == s.objects[o].key && t.objects[o].lifecycle == s.objects[o].lifecycle
  }

  predicate LifecyclesKept(d: Disk, e: Disk) {
    e.accounts.Keys == d.accounts.Keys && forall id <- d.accounts :: e.accounts[id].lifecycle == d.accounts[id].lifecycle
  }

  lemma LendKeepsEpochs(s: State, c: nat, id: string, model: string, at: int, numbers: int)
    requires Wired(s)
    ensures var t := LendOf(s, c, id, model, at, numbers); EpochsKept(s, t) && LifecyclesKept(s.disk, t.disk)
  {
    var u := Reload(s, Seconds(at));
    assert Wired(u) && LifecyclesKept(s.disk, u.disk);
    hide Reload, LeaseAdmission;
    if LeaseAdmission(u, id, model, Seconds(at)) == Ok {
      AdmittedExists(u, id, model, Seconds(at));
      OpenedKeepsEpochs(u, c, id, model, numbers);
    }
  }

  lemma OpenedKeepsEpochs(s: State, c: nat, id: string, model: string, numbers: int)
    requires Wired(s) && id in s.health && id in s.disk.accounts
    ensures var t := Opened(s, c, id, model, numbers); EpochsKept(s, t) && t.disk == s.disk
  {
  }

  lemma FailureKeepsEpochs(s: State, o: nat, r: Report, next: int, p: Policy, saved: Saved)
    requires o in s.objects
    ensures var t := RecordModelFailure(s, o, ModelFailure(s.objects[o], r, next, p), saved);
      EpochsKept(s, t) && t.disk.accounts == s.disk.accounts && t.published == s.published
  {
  }

  lemma ClearKeepsEpochs(s: State, o: nat, saved: Saved)
    requires o in s.objects
    ensures var t := ClearModelFailure(s, o, saved); EpochsKept(s, t) && t.disk.accounts == s.disk.accounts && t.published == s.published
  {
  }

  lemma JudgeModelKeepsEpochs(s: State, l: Lease, r: Report, p: Policy)
    ensures var t := JudgeModel(s, l, r, p); EpochsKept(s, t) && t.disk.accounts == s.disk.accounts && t.published == s.published
  {
    hide ModelFailure, RecordModelFailure, ClearModelFailure;
    if l.model.Some? && IsPublished(s, l.model.value) {
      FailureKeepsEpochs(s.(sequence := s.sequence + 1), l.model.value, r, s.sequence + 1, p, r.model);
      ClearKeepsEpochs(s, l.model.value, r.model);
    }
  }

  lemma JudgeAccountKeepsEpochs(s: State, l: Lease, r: Report, p: Policy)
    ensures var t := JudgeAccount(s, l, r, p); EpochsKept(s, t) && LifecyclesKept(s.disk, t.disk)
  {
  }

  lemma VacatedKeepsEpochs(s: State, c: nat)
    requires c in s.open
    ensures var t := Vacated(s, c); EpochsKept(s, t) && t.disk == s.disk
  {
  }

  lemma JudgedKeepsEpochs(s: State, c: nat, r: Report, p: Policy)
    requires c in s.open
    ensures var t := Judged(s, c, r, p); EpochsKept(s, t) && LifecyclesKept(s.disk, t.disk)
  {
    hide JudgeAccount, JudgeModel, Vacated;
    JudgeAccountKeepsEpochs(s, s.open[c], r, p);
    var u := JudgeAccount(s, s.open[c], r, p);
    VacatedKeepsEpochs(u, c);
    JudgeModelKeepsEpochs(Vacated(u, c), s.open[c], r, p);
  }

  lemma ResumeKeepsEpochs(s: State, id: string, at: int, saved: Saved)
    ensures var t := ResumeOf(s, id, at, saved); EpochsKept(s, t) && LifecyclesKept(s.disk, t.disk)
  {
    assert LifecyclesKept(s.disk, Reload(s, Seconds(at)).disk);
    hide Reload;
  }

  lemma FinishKeepsEpochs(s: State, c: nat, r: Report, p: Policy)
    requires c in s.calls
    ensures var t := FinishOf(s, c, r, p); EpochsKept(s, t) && LifecyclesKept(s.disk, t.disk)
  {
    if c in s.open {
      JudgedKeepsEpochs(s, c, r, p);
    }
    hide Judged;
  }

  lemma SetConcurrencyKeepsEpochs(s: State, id: string, limit: int)
    ensures var t := SetConcurrencyOf(s, id, limit); EpochsKept(s, t) && LifecyclesKept(s.disk, t.disk)
  {
  }

  lemma ReleaseKeepsEpochs(s: State, c: nat)
    requires c in s.open
    ensures var t := ReleaseOf(s, c); EpochsKept(s, t) && t.disk == s.disk
  {
  }

  lemma ReloadKeepsEpochs(s: State, now: int)
    ensures var t := Reload(s, now); EpochsKept(s, t) && LifecyclesKept(s.disk, t.disk)
  {
  }

  lemma StepKeepsEpochs(s: State, e: Event, p: Policy)
    requires Wired(s) && CanStep(s, e)
    ensures EpochsKept(s, Step(s, e, p)) && (!e.Outside? ==> LifecyclesKept(s.disk, Step(s, e, p).disk))
  {
    hide LendOf, Judged, ResumeOf, Reload, ReleaseOf, SetConcurrencyOf, FinishOf;
    match e
    case SetConcurrency(id, limit) => SetConcurrencyKeepsEpochs(s, id, limit);
    case Reloaded(at) => ReloadKeepsEpochs(s, Seconds(at));
    case Release(c) => ReleaseKeepsEpochs(s, c);
    case Lend(c, id, model, at) => LendKeepsEpochs(s, c, id, model, at, 1);
    case Check(c, id, model, at) => LendKeepsEpochs(s, c, id, model, at, 0);
    case Resume(id, at, saved) => ResumeKeepsEpochs(s, id, at, saved);
    case Finish(c, r) => FinishKeepsEpochs(s, c, r, p);
    case _ =>
  }

  lemma StepKeepsPast(s: State, e: Event, p: Policy, o: nat, floor: int)
    requires Wired(s) && CanStep(s, e) && Past(s, o, floor) && NeverLowers(e, s.objects[o].key.account, floor)
    ensures Past(Step(s, e, p), o, floor) && Step(s, e, p).objects[o].key == s.objects[o].key
  {
    StepKeepsEpochs(s, e, p);
    assert e.Outside? ==> Step(s, e, p).disk == e.disk;
    hide Step;
  }

  /** Request `c` still holds lease `l`, on a model object of a past lifecycle. */
  predicate Late(s: State, c: nat, l: Lease, floor: int) {
    && c in s.open && s.open[c] == l && l.model.Some?
    && Past(s, l.model.value, floor) && s.objects[l.model.value].key.account == l.account
  }

  lemma {:induction false} RunKeepsLate(s: State, es: seq<Event>, p: Policy, c: nat, l: Lease, floor: int)
    requires Sound(s) && CanRun(s, es, p) && Late(s, c, l, floor)
    requires forall e <- es :: !Closes(e, c) && NeverLowers(e, l.account, floor)
    ensures Late(Run(s, es, p), c, l, floor)
    decreases |es|
  {
    if es != [] {
      LeasesOnAccounts(s);
      OpenUnlessClosed(s, es[0], p, c);
      StepKeepsPast(s, es[0], p, l.model.value, floor);
      StepKeepsSound(s, es[0], p);
      hide Step, CanStep, Sound, Past;
      RunKeepsLate(Step(s, es[0], p), es[1..], p, c, l, floor);
    }
  }

  // ---- Models ----

  /** Nothing admission reads of a model, and no model's row, differs. */
  ghost predicate SameReadings(s: State, t: State) {
    && t.disk.models == s.disk.models
    && forall k: Key | k.account in s.disk.accounts :: k.account in t.disk.accounts && ReadModel(t, k) == ReadModel(s, k)
  }

  predicate Stale(s: State, o: nat) {
    o in s.objects && !SameEpoch(s.disk, s.objects[o].key, s.objects[o].lifecycle, s.objects[o].revision)
  }

  /** Only object `o` may differ, or leave the table. */
  predicate OnlyObject(s: State, t: State, o: nat) {
    && t.disk.models == s.disk.models
    && o in s.objects && o in t.objects && t.objects == s.objects[o := t.objects[o]]
    && t.objects[o].key == s.objects[o].key && t.objects[o].lifecycle == s.objects[o].lifecycle && t.objects[o].revision == s.objects[o].revision
    && (t.published == s.published || (IsPublished(s, o) && t.published == s.published - {s.objects[o].key}))
  }

  lemma StaleFailureIsNotSaved(s: State, o: nat, r: Report, next: int, p: Policy, saved: Saved)
    requires Stale(s, o)
    ensures var t := RecordModelFailure(s, o, ModelFailure(s.objects[o], r, next, p), saved);
      OnlyObject(s, t, o) && t.disk == s.disk && t.published == s.published
  {
  }

  lemma StaleClearIsNotSaved(s: State, o: nat, saved: Saved)
    requires Stale(s, o)
    ensures var t := ClearModelFailure(s, o, saved); OnlyObject(s, t, o) && t.disk == s.disk && t.published == s.published
  {
  }

  lemma StaleResultIsNotSaved(s: State, l: Lease, r: Report, p: Policy)
    requires l.model.Some? && Stale(s, l.model.value)
    ensures var t := JudgeModel(s, l, r, p); OnlyObject(s, t, l.model.value) && t.disk == s.disk
  {
    hide ModelFailure, RecordModelFailure, ClearModelFailure;
    var o := l.model.value;
    if IsPublished(s, o) {
      StaleFailureIsNotSaved(s.(sequence := s.sequence + 1), o, r, s.sequence + 1, p, r.model);
      StaleClearIsNotSaved(s, o, r.model);
    }
  }

  lemma JudgedTouchesOnlyItsObject(s: State, c: nat, r: Report, p: Policy)
    requires c in s.open && s.open[c].model.Some? && Stale(s, s.open[c].model.value)
    requires var id := s.open[c].account; s.objects[s.open[c].model.value].key.account == id
    requires Stale(JudgeAccount(s, s.open[c], r, p), s.open[c].model.value)
    ensures var t := Judged(s, c, r, p);
      OnlyObject(s, t, s.open[c].model.value) && (SparesRow(s, s.open[c]) ==> SameEpochs(s.disk, t.disk))
  {
    var l := s.open[c];
    AccountResultKeepsModels(s, l, r, p);
    var u := JudgeAccount(s, l, r, p);
    var v := Vacated(u, c);
    assert OnlyObject(s, v, l.model.value) && Stale(v, l.model.value) && v.disk == u.disk;
    StaleResultIsNotSaved(v, l, r, p);
    hide JudgeAccount, JudgeModel, Vacated, Stale;
  }

  lemma OnlyStaleObjectMoves(s: State, t: State, o: nat)
    requires Wired(s) && Stale(s, o) && OnlyObject(s, t, o) && SameEpochs(s.disk, t.disk)
    ensures SameReadings(s, t)
  {
    forall k: Key | k.account in s.disk.accounts ensures ReadModel(t, k) == ReadModel(s, k) {
      assert ReadRow(t.disk, k) == ReadRow(s.disk, k);
      if k in s.published && s.published[k] == o {
        assert !PublishedNow(s, k);
      }
    }
  }

  /** Once an account has a new lifecycle, no result of a request that was open then changes a model's row,
  whatever happens in between; and none changes anything that admission reads of a model exactly when memory
  has the revision of the account's row, or the account was resumed since the request was admitted. */
  lemma {:induction false} NewLifecycleIgnoresLateModelResultsIff(s: State, d: Disk, es: seq<Event>, c: nat, p: Policy)
    requires Sound(s) && c in s.open && s.open[c].model.Some?
    requires var id := s.open[c].account;
      && id in d.accounts && s.objects[s.open[c].model.value].lifecycle < d.accounts[id].lifecycle
      && forall e <- es :: !Closes(e, c) && NeverLowers(e, id, d.accounts[id].lifecycle)
    requires CanRun(Step(s, Outside(d), p), es, p) && c in Run(Step(s, Outside(d), p), es, p).calls
    ensures var t := Run(Step(s, Outside(d), p), es, p);
      && (forall r :: FinishOf(t, c, r, p).disk.models == t.disk.models)
      && ((forall r :: SameReadings(t, FinishOf(t, c, r, p))) <==> SparesRow(t, s.open[c]))
  {
    var l, u := s.open[c], Step(s, Outside(d), p);
    var floor := d.accounts[l.account].lifecycle;
    StepKeepsSound(s, Outside(d), p);
    assert Late(u, c, l, floor);
    RunKeepsLate(u, es, p, c, l, floor);
    RunKeepsSound(u, es, p);
    hide Run, CanRun, Sound;
    LateFinishIff(Run(u, es, p), c, l, floor, p);
  }

  lemma LateFinishIff(s: State, c: nat, l: Lease, floor: int, p: Policy)
    requires Sound(s) && Late(s, c, l, floor) && c in s.calls
    ensures forall r :: FinishOf(s, c, r, p).disk.models == s.disk.models
    ensures (forall r :: SameReadings(s, FinishOf(s, c, r, p))) <==> SparesRow(s, l)
  {
    LeasesOnAccounts(s);
    assert s.open[c] == l;
    hide Sound, Late, SparesRow, SameReadings;
    forall r ensures FinishOf(s, c, r, p).disk.models == s.disk.models && (SparesRow(s, l) ==> SameReadings(s, FinishOf(s, c, r, p))) {
      LateFinish(s, c, l, floor, r, p);
    }
    if !SparesRow(s, l) {
      var r := Report(AccountLimited, None, 0, Stored, Stored);
      RowTakenBackIsRead(s, c, r, p);
      assert !SameReadings(s, FinishOf(s, c, r, p));
    }
  }

  /** A model is read in the epoch of its account's row. */
  lemma ReadInTheRowsEpoch(s: State, k: Key)
    requires k.account in s.disk.accounts
    ensures ReadModel(s, k).revision == s.disk.accounts[k.account].revision
  {
  }

  lemma RowTakenBackIsRead(s: State, c: nat, r: Report, p: Policy)
    requires c in s.open && c in s.calls && !SparesRow(s, s.open[c]) && r.result.AccountLimited? && !r.account.Lost?
    ensures !SameReadings(s, FinishOf(s, c, r, p))
  {
    var l, t := s.open[c], FinishOf(s, c, r, p);
    var k := Key(l.account, "");
    LimitTakesRowBack(s, l, r, p);
    JudgedAccounts(s, c, r, p);
    hide FinishOf, JudgeAccount;
    ReadInTheRowsEpoch(s, k);
    ReadInTheRowsEpoch(t, k);
    hide ReadModel;
  }

  lemma LateFinish(s: State, c: nat, l: Lease, floor: int, r: Report, p: Policy)
    requires Wired(s) && Late(s, c, l, floor) && c in s.calls
    ensures var t := FinishOf(s, c, r, p);
      t.disk.models == s.disk.models && (SparesRow(s, l) ==> SameReadings(s, t))
  {
    LateJudged(s, c, l, floor, r, p);
    hide Judged;
  }

  lemma LateJudged(s: State, c: nat, l: Lease, floor: int, r: Report, p: Policy)
    requires Wired(s) && Late(s, c, l, floor)
    ensures var t := Judged(s, c, r, p);
      t.disk.models == s.disk.models && (SparesRow(s, l) ==> SameReadings(s, t))
  {
    var o := l.model.value;
    assert Stale(s, o) && Stale(JudgeAccount(s, l, r, p), o);
    JudgedTouchesOnlyItsObject(s, c, r, p);
    if SparesRow(s, l) {
      hide Judged, JudgeAccount;
      OnlyStaleObjectMoves(s, Judged(s, c, r, p), o);
    }
  }

  // ---- The account ----

  /** The end of a request changes no account but for the capacity it gives back. */
  predicate OnlyCapacity(s: State, t: State, id: string) {
    && t.disk.accounts == s.disk.accounts
    && id in s.health && t.health == s.health[id := s.health[id].(inFlight := Max(0, s.health[id].inFlight - 1))]
  }

  ghost predicate ReachesAccount(s: State, c: nat, p: Policy)
    requires c in s.calls && c in s.open
  {
    exists r :: !OnlyCapacity(s, FinishOf(s, c, r, p), s.open[c].account)
  }

  /** Whatever the lifecycle, some result of an open request still reaches its account exactly when the
  account has not been resumed since the request was admitted: the account's revision is the only epoch
  it has. */
  lemma {:induction false} LateResultReachesAccountIff(s: State, c: nat, p: Policy)
    requires Sound(s) && c in s.open && c in s.calls
    ensures ReachesAccount(s, c, p) <==> s.open[c].revision == s.health[s.open[c].account].revision
  {
    LeasesOnAccounts(s);
    var l := s.open[c];
    if l.revision == s.health[l.account].revision {
      var r := Report(AccountLimited, None, 0, Lost, Lost);
      LimitIsNumbered(s, c, r, p);
      assert !OnlyCapacity(s, FinishOf(s, c, r, p), l.account);
    } else {
      forall r ensures OnlyCapacity(s, FinishOf(s, c, r, p), l.account) {
        OtherRevisionIsSpared(s, c, r, p);
      }
    }
  }

  lemma OtherRevisionIsSpared(s: State, c: nat, r: Report, p: Policy)
    requires c in s.open && c in s.calls
    requires s.open[c].account in s.health && s.open[c].revision != s.health[s.open[c].account].revision
    ensures OnlyCapacity(s, FinishOf(s, c, r, p), s.open[c].account)
  {
    var l := s.open[c];
    assert JudgeAccount(s, l, r, p) == s;
    var v := Vacated(s, c);
    JudgeModelKeepsEpochs(v, l, r, p);
    assert JudgeModel(v, l, r, p).health == v.health;
    hide JudgeAccount, JudgeModel, Evicted, Vacated;
  }

  /** A request of the old lifecycle that reports a limit only after the account has the new one. */
  function LateLimit(): seq<Event> {
    [Outside(Disk(map["a" := AccountRow(0, 0, 1, 0, 0, {"m"})], map[])), Arrive(0, 1, 1), JoinMember(0, 0), Lend(0, "a", "m", 0),
     Outside(Disk(map["a" := AccountRow(1, 0, 1, 0, 0, {"m"})], map[])), Finish(0, Report(AccountLimited, Some(60), 0, Stored, Stored))]
  }

  function UpToLimit(): (states: seq<State>)
    ensures |states| == 6
  {
    var row := AccountRow(0, 0, 1, 0, 0, {"m"});
    var k := Key("a", "m");
    var m := ModelRuntime(k, 0, 0, 0, 0, 0, 1, 0, false, NoReason, 0, 0);
    var s0 := Start(Disk(map[], map[]));
    var s1 := s0.(disk := Disk(map["a" := row], map[]));
    var s2 := s1.(calls := map[0 := Call(1, 1, false, false)]);
    var s3 := s2.(memberActive := map[1 := 1], calls := map[0 := Call(1, 1, true, false)]);
    var s4 := s3.(health := map["a" := Runtime(1, 1, 0, 0, 0, 0)], objects := map[0 := m], nextObject := 1, published := map[k := 0],
                  sequence := 1, open := map[0 := Lease("a", Some(0), 1, 0)]);
    [s0, s1, s2, s3, s4, s4.(disk := Disk(map["a" := row.(lifecycle := 1)], map[]))]
  }

  lemma RequestArrives(p: Policy)
    ensures var (s, es) := (UpToLimit(), LateLimit());
      forall i :: 0 <= i < 3 ==> CanStep(s[i], es[i]) && Step(s[i], es[i], p) == s[i + 1]
  {
    var (s, es) := (UpToLimit(), LateLimit());
    assert Step(s[0], es[0], p) == s[1];
    assert Step(s[1], es[1], p) == s[2];
    assert Step(s[2], es[2], p) == s[3];
  }

  lemma AccountIsRead()
    ensures var s := UpToLimit()[3]; Reload(s, 0) == s.(health := map["a" := Runtime(1, 0, 0, 0, 0, 0)])
  {
    var s := UpToLimit()[3];
    var u := Reload(s, 0);
    assert u.disk == s.disk && u.published == s.published;
    assert u.health == map["a" := Runtime(1, 0, 0, 0, 0, 0)];
  }

  lemma ModelIsNew(u: State)
    requires u == UpToLimit()[3].(health := map["a" := Runtime(1, 0, 0, 0, 0, 0)])
    ensures !PublishedNow(u, Key("a", "m"))
    ensures ReadModel(u, Key("a", "m")) == ModelRuntime(Key("a", "m"), 0, 0, 0, 0, 0, 0, 0, false, NoReason, 0, 0)
  {
  }

  lemma RequestIsAdmitted()
    ensures var u := UpToLimit()[3].(health := map["a" := Runtime(1, 0, 0, 0, 0, 0)]);
      LeaseAdmission(u, "a", "m", 0) == Ok
  {
    hide ReadModel, PublishedNow;
    ModelIsNew(UpToLimit()[3].(health := map["a" := Runtime(1, 0, 0, 0, 0, 0)]));
  }

  lemma RequestIsOpened()
    ensures var u := UpToLimit()[3].(health := map["a" := Runtime(1, 0, 0, 0, 0, 0)]);
      Opened(u, 0, "a", "m", 1) == UpToLimit()[4]
  {
    hide ReadModel, PublishedNow;
    var u, t := UpToLimit()[3].(health := map["a" := Runtime(1, 0, 0, 0, 0, 0)]), UpToLimit()[4];
    ModelIsNew(u);
    var v := Occupied(u, "a", "m");
    assert v.objects == t.objects;
    assert v.health == t.health;
    assert v.published == t.published && v.nextObject == t.nextObject;
    assert u.open[0 := LeaseFor(u, "a", "m")] == t.open;
  }

  lemma RequestIsLent(p: Policy)
    ensures var (s, es) := (UpToLimit(), LateLimit()); CanStep(s[3], es[3]) && Step(s[3], es[3], p) == s[4]
  {
    AccountIsRead();
    RequestIsAdmitted();
    RequestIsOpened();
    hide Reload, LeaseAdmission, Opened;
  }

  lemma LifecycleChanges(p: Policy)
    ensures var (s, es) := (UpToLimit(), LateLimit()); CanStep(s[4], es[4]) && Step(s[4], es[4], p) == s[5]
  {
  }

  lemma LimitIsJudged(p: Policy)
    ensures var (s, r) := (UpToLimit()[5], LateLimit()[5].report);
      var u := JudgeAccount(s, s.open[0], r, p);
      && "a" in u.disk.accounts && u.disk.accounts["a"].lifecycle == 1 && "a" in u.health && u.health["a"] == Runtime(1, 1, 60, 1, 2, 0)
  {
  }

  lemma LimitIsReported(p: Policy)
    ensures var (s, e) := (UpToLimit()[5], LateLimit()[5]);
      && CanStep(s, e) && "a" in Step(s, e, p).disk.accounts && Step(s, e, p).disk.accounts["a"].lifecycle == 1
      && AccountAdmission(Step(s, e, p), "a", 0) == Cooling(60)
  {
    LimitIsJudged(p);
    var (s, r) := (UpToLimit()[5], LateLimit()[5].report);
    var u := JudgeAccount(s, s.open[0], r, p);
    hide JudgeAccount, JudgeModel, Evicted;
    var v := Vacated(u, 0);
    JudgeModelKeepsEpochs(v, s.open[0], r, p);
    assert v.health["a"].cooldownUntil == 60 && v.disk == u.disk;
    hide Vacated;
    assert JudgeModel(v, s.open[0], r, p).health == v.health;
  }

  /** From the start, such a request closes the account under its new lifecycle. */
  lemma {:induction false} LateLimitClosesTheNewLifecycle(p: Policy)
    ensures CanRun(Start(Disk(map[], map[])), LateLimit(), p)
    ensures var t := Run(Start(Disk(map[], map[])), LateLimit(), p);
      && "a" in t.disk.accounts && t.disk.accounts["a"].lifecycle == 1
      && AccountAdmission(t, "a", 0) == Cooling(60)
  {
    RequestArrives(p);
    RequestIsLent(p);
    LifecycleChanges(p);
    LimitIsReported(p);
    hide Step, CanStep, AccountAdmission, CanRun, Run;
    var (s, es) := (UpToLimit(), LateLimit());
    RunFollows(s + [Step(s[5], es[5], p)], es, p);
  }
}
