/** The epoch of an account's row, and the one way a request can take it back: the row's write carries the
revision in memory, which a resume that lands but reports failure leaves behind. */
module StoredEpochs {

  import opened Common
  import opened LeaseState
  import opened LeaseConservation

  predicate SameEpochs(d: Disk, e: Disk) {
    && e.accounts.Keys == d.accounts.Keys
    && forall id <- d.accounts :: e.accounts[id].lifecycle == d.accounts[id].lifecycle && e.accounts[id].revision == d.accounts[id].revision
  }

  /** The lease is of another revision than its account in memory, or memory has the revision of the row. */
  predicate SparesRow(s: State, l: Lease) {
    l.account in s.health && l.revision == s.health[l.account].revision ==> InStep(s, l.account)
  }

  lemma AccountResultKeepsModels(s: State, l: Lease, r: Report, p: Policy)
    ensures var t := JudgeAccount(s, l, r, p);
      && t.disk.models == s.disk.models && (SparesRow(s, l) ==> SameEpochs(s.disk, t.disk))
      && forall id <- s.disk.accounts | id != l.account :: id in t.disk.accounts && t.disk.accounts[id] == s.disk.accounts[id]
  {
  }

  lemma ModelsOnly(s: State, l: Lease, r: Report, p: Policy)
    ensures JudgeModel(s, l, r, p).disk.accounts == s.disk.accounts
  {
  }

  lemma JudgedAccounts(s: State, c: nat, r: Report, p: Policy)
    requires c in s.open && c in s.calls
    ensures FinishOf(s, c, r, p).disk.accounts == JudgeAccount(s, s.open[c], r, p).disk.accounts
  {
    var v := Vacated(JudgeAccount(s, s.open[c], r, p), c);
    ModelsOnly(v, s.open[c], r, p);
    hide JudgeAccount, JudgeModel;
  }

  /** A row that memory lags behind is taken back by an account limit. */
  lemma LimitTakesRowBack(s: State, l: Lease, r: Report, p: Policy)
    requires !SparesRow(s, l) && r.result.AccountLimited? && !r.account.Lost?
    ensures var t := JudgeAccount(s, l, r, p);
      l.account in t.disk.accounts && t.disk.accounts[l.account].revision == l.revision != s.disk.accounts[l.account].revision
  {
  }

  /** The results of an open request leave every row in its epoch, all of them, exactly when memory has the
  revision of its account's row or the request is not of the revision in memory. */
  lemma {:induction false} FinishKeepsEpochsIff(s: State, c: nat, p: Policy)
    requires c in s.open && c in s.calls
    ensures (forall r :: SameEpochs(s.disk, FinishOf(s, c, r, p).disk)) <==> SparesRow(s, s.open[c])
  {
    var l := s.open[c];
    if SparesRow(s, l) {
      forall r ensures SameEpochs(s.disk, FinishOf(s, c, r, p).disk) {
        AccountResultKeepsModels(s, l, r, p);
        JudgedAccounts(s, c, r, p);
        hide FinishOf, JudgeAccount;
      }
    } else {
      var r := Report(AccountLimited, None, 0, Stored, Stored);
      LimitTakesRowBack(s, l, r, p);
      JudgedAccounts(s, c, r, p);
      hide FinishOf, JudgeAccount;
      assert !SameEpochs(s.disk, FinishOf(s, c, r, p).disk);
    }
  }

  // ---- A limit of the new epoch that a late result lifts ----

  const ROW := AccountRow(0, 0, 4, 0, 0, {"m"})

  const MODEL := Key("a", "m")

  /** One request opens; its account is resumed by a commit that lands but reports failure; a second request
  opens in the new epoch, and reports a limit of its model, which is stored; the first reports a limit of
  the account. */
  function LateLimit(): (es: seq<Event>)
    ensures |es| == 10
  {
    [Reloaded(0), Arrive(1, 1, 1), JoinMember(1, 0), Lend(1, "a", "", 0), Resume("a", 0, Landed),
     Arrive(0, 1, 1), JoinMember(0, 0), Lend(0, "a", "m", 0),
     Finish(0, Report(ModelLimited, Some(60), 0, Stored, Stored)), Finish(1, Report(AccountLimited, Some(1), 0, Stored, Stored))]
  }

  function Traced(): (states: seq<State>)
    ensures |states| == 11 && states[0] == Start(Disk(map["a" := ROW], map[]))
  {
    var row := ROW.(revision := 1);
    var idle := Runtime(4, 0, 0, 0, 0, 0);
    var first := Lease("a", None, 1, 0);
    var m := ModelRuntime(MODEL, 0, 1, 0, 0, 0, 1, 0, false, NoReason, 0, 0);
    var limited := ModelRuntime(MODEL, 0, 1, 1, 60, 1, 0, 3, false, RateLimited, 0, 0);
    var s0 := Start(Disk(map["a" := ROW], map[]));
    var s1 := s0.(health := map["a" := idle]);
    var s2 := s1.(calls := map[1 := Call(1, 1, false, false)]);
    var s3 := s2.(memberActive := map[1 := 1], calls := map[1 := Call(1, 1, true, false)]);
    var s4 := s3.(health := map["a" := idle.(inFlight := 1)], sequence := 1, open := map[1 := first]);
    var s5 := s4.(disk := Disk(map["a" := row], map[]));
    var s6 := s5.(calls := s5.calls[0 := Call(1, 1, false, false)]);
    var s7 := s6.(memberActive := map[1 := 2], calls := s5.calls[0 := Call(1, 1, true, false)]);
    var s8 := s7.(health := map["a" := idle.(inFlight := 2)], objects := map[0 := m], nextObject := 1, published := map[MODEL := 0],
                  sequence := 2, open := map[1 := first, 0 := Lease("a", Some(0), 2, 0)]);
    var s9 := s8.(disk := Disk(map["a" := row], map[MODEL := ModelRow(0, 1, 1, 60, 1, RateLimited, 0, 0)]),
                  health := map["a" := idle.(inFlight := 1)], objects := map[0 := limited], published := map[], sequence := 3,
                  open := map[1 := first], memberActive := map[1 := 1], calls := s5.calls);
    var s10 := s9.(disk := Disk(map["a" := row.(revision := 0, cooldownUntil := 1, failures := 1)], s9.disk.models),
                   health := map["a" := Runtime(4, 0, 1, 1, 4, 0)], sequence := 4, open := map[], memberActive := map[], calls := map[]);
    [s0, s1, s2, s3, s4, s5, s6, s7, s8, s9, s10]
  }

  predicate Traces(i: nat, p: Policy)
    requires i < 10
  {
    CanStep(Traced()[i], LateLimit()[i]) && Step(Traced()[i], LateLimit()[i], p) == Traced()[i + 1]
  }

  lemma Reloads(s: State)
    requires s.disk.accounts.Keys == {"a"} && s.disk.models == map[] && s.published == map[]
    requires s.health == map[] || (s.health.Keys == {"a"} && s.health["a"].maxConcurrency == 4)
    requires s.disk.accounts["a"].maxConcurrency == 4
    ensures Reload(s, 0) == s.(health := map["a" := Followed(s.health, "a", s.disk.accounts["a"])])
  {
    assert Reload(s, 0).health == map["a" := Followed(s.health, "a", s.disk.accounts["a"])];
  }

  lemma Arrivals(p: Policy)
    ensures Traces(0, p) && Traces(1, p) && Traces(2, p) && Traces(5, p) && Traces(6, p)
  {
    var (s, es) := (Traced(), LateLimit());
    Reloads(s[0]);
    hide Reload;
    assert Step(s[1], es[1], p) == s[2];
    assert Step(s[2], es[2], p) == s[3];
    assert Step(s[5], es[5], p) == s[6];
    assert s[6].calls[0 := Call(1, 1, true, false)] == s[7].calls;
    assert Step(s[6], es[6], p) == s[7];
  }

  lemma FirstIsLent(p: Policy)
    ensures Traces(3, p)
  {
    var s := Traced();
    Reloads(s[3]);
    hide Reload;
    assert LeaseAdmission(s[3], "a", "", 0) == Ok;
    assert Opened(s[3], 1, "a", "", 1) == s[4];
  }

  lemma ResumeLands(p: Policy)
    ensures Traces(4, p)
  {
    var s := Traced();
    Reloads(s[4]);
    hide Reload;
    assert ResumedDisk(s[4].disk, "a", Resumed(s[4].health["a"])) == s[5].disk;
  }

  lemma ModelIsNew()
    ensures var u := Traced()[7];
      !PublishedNow(u, MODEL) && ReadModel(u, MODEL) == ModelRuntime(MODEL, 0, 1, 0, 0, 0, 0, 0, false, NoReason, 0, 0)
  {
  }

  lemma SecondIsAdmitted()
    ensures LeaseAdmission(Traced()[7], "a", "m", 0) == Ok
  {
    hide ReadModel, PublishedNow;
    ModelIsNew();
  }

  lemma SecondIsOpened()
    ensures Opened(Traced()[7], 0, "a", "m", 1) == Traced()[8]
  {
    hide ReadModel, PublishedNow;
    var (u, t) := (Traced()[7], Traced()[8]);
    ModelIsNew();
    var v := Occupied(u, "a", "m");
    assert v.objects == t.objects;
    assert v.health == t.health;
    assert v.published == t.published && v.nextObject == t.nextObject;
    assert u.open[0 := LeaseFor(u, "a", "m")] == t.open;
  }

  lemma SecondIsLent(p: Policy)
    ensures Traces(7, p)
  {
    Reloads(Traced()[7]);
    SecondIsAdmitted();
    SecondIsOpened();
    hide Reload, LeaseAdmission, Opened;
  }

  /** The state in which the limit is judged: the capacity of its request is given back. */
  function BeforeLimit(): State {
    var (s, t) := (Traced()[8], Traced()[9]);
    s.(health := t.health, open := t.open, objects := map[0 := s.objects[0].(inFlight := 0)])
  }

  lemma CapacityIsBack(p: Policy)
    ensures Vacated(JudgeAccount(Traced()[8], Traced()[8].open[0], LateLimit()[8].report, p), 0) == BeforeLimit()
  {
    var (s, r) := (Traced()[8], LateLimit()[8].report);
    assert JudgeAccount(s, s.open[0], r, p) == s;
    hide JudgeAccount;
    var (v, t) := (Vacated(s, 0), BeforeLimit());
    assert v.health == t.health && v.open == t.open && v.objects == t.objects;
  }

  lemma ModelIsJudged(p: Policy)
    ensures var (v, t) := (BeforeLimit(), Traced()[9]);
      JudgeModel(v, Traced()[8].open[0], LateLimit()[8].report, p) == v.(objects := t.objects, sequence := 3, disk := t.disk)
  {
    var (v, t, r) := (BeforeLimit(), Traced()[9], LateLimit()[8].report);
    assert IsPublished(v, 0);
    assert ModelFailure(v.objects[0], r, 3, p) == t.objects[0].(version := 0);
    hide ModelFailure;
    assert SaveModel(v.disk, t.objects[0].(version := 0)) == t.disk;
    hide SaveModel;
    assert v.objects[0 := t.objects[0]] == t.objects;
  }

  lemma ModelIsLimited(p: Policy)
    ensures Traces(8, p)
  {
    var (s, t, r) := (Traced()[8], Traced()[9], LateLimit()[8].report);
    CapacityIsBack(p);
    ModelIsJudged(p);
    hide JudgeAccount, JudgeModel, Vacated;
    var w := BeforeLimit().(objects := t.objects, sequence := 3, disk := t.disk);
    assert w.published - {MODEL} == t.published;
    assert Evicted(w, Some(0)) == t.(memberActive := s.memberActive, calls := s.calls);
    assert Judged(s, 0, r, p) == t.(memberActive := s.memberActive, calls := s.calls);
    hide Judged;
    assert s.calls - {0} == t.calls;
  }

  lemma AccountIsLimited(p: Policy)
    ensures Traces(9, p)
  {
    var (s, t, r) := (Traced()[9], Traced()[10], LateLimit()[9].report);
    var u := JudgeAccount(s, s.open[1], r, p);
    assert u.disk == t.disk && u.sequence == 4 && u.health["a"] == t.health["a"].(inFlight := 1);
    hide JudgeAccount;
    var v := Vacated(u, 1);
    assert v.health == t.health && v.open == t.open;
    hide Vacated;
    assert Judged(s, 1, r, p) == t.(memberActive := s.memberActive, calls := s.calls);
    hide Judged;
    assert s.calls - {1} == t.calls;
  }

  lemma AllTrace(p: Policy, i: nat)
    requires i < 10
    ensures Traces(i, p)
  {
    hide Traces;
    Arrivals(p);
    FirstIsLent(p);
    ResumeLands(p);
    SecondIsLent(p);
    ModelIsLimited(p);
    AccountIsLimited(p);
  }

  lemma {:induction false} LateLimitRuns(p: Policy, n: nat)
    requires n <= 10
    ensures CanRun(Traced()[0], LateLimit()[..n], p) && Run(Traced()[0], LateLimit()[..n], p) == Traced()[n]
  {
    hide Step, CanStep, CanRun, Run, Traced, LateLimit;
    var (s, es) := (Traced(), LateLimit());
    forall i | 0 <= i < 10 ensures CanStep(s[i], es[i]) && Step(s[i], es[i], p) == s[i + 1] {
      AllTrace(p, i);
    }
    RunFollows(s[..n + 1], es[..n], p);
  }

  /** In this run from the start a limit of the new epoch is in force until its sixtieth second, and the
  result of a request opened before the resume takes the row back to the old epoch: at the fifth second the
  model is admitted. */
  lemma {:induction false} LateResultReopensTheModel(p: Policy)
    ensures var (start, es) := (Start(Disk(map["a" := ROW], map[])), LateLimit());
      && CanRun(start, es[..9], p) && CanRun(start, es, p)
      && var (s, t) := (Run(start, es[..9], p), Run(start, es, p));
         && LeaseAdmission(Reload(s, 5), "a", "m", 5) == Cooling(55)
         && LeaseAdmission(Reload(t, 5), "a", "m", 5) == Ok
         && 1 in s.open && 0 in s.objects && s.open[1].sequence < s.objects[0].lastFailureSequence
  {
    hide Run, CanRun, Reload, LeaseAdmission, LateLimit, Traced;
    LateLimitRuns(p, 9);
    LateLimitRuns(p, 10);
    assert LateLimit()[..10] == LateLimit();
    ModelCools();
    ModelIsOpen();
  }

  lemma ModelCools()
    ensures var s := Traced()[9];
      LeaseAdmission(Reload(s, 5), "a", "m", 5) == Cooling(55) && 1 in s.open && 0 in s.objects && s.open[1].sequence < s.objects[0].lastFailureSequence
  {
    var s := Traced()[9];
    var u := Reload(s, 5);
    assert u.disk.models == s.disk.models && u.health == s.health && u.published == map[];
    hide Reload;
    assert !PublishedNow(u, MODEL) && ReadModel(u, MODEL).cooldownUntil == 60;
    hide ReadModel, PublishedNow;
  }

  lemma ModelIsOpen()
    ensures LeaseAdmission(Reload(Traced()[10], 5), "a", "m", 5) == Ok
  {
    var s := Traced()[10];
    var u := Reload(s, 5);
    assert u.disk.models == map[] && u.health == s.health && u.published == map[] && u.disk.accounts == s.disk.accounts;
    hide Reload;
    assert !PublishedNow(u, MODEL) && ReadModel(u, MODEL).cooldownUntil == 0;
    hide ReadModel, PublishedNow;
  }
}
