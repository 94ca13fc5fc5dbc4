/** A resume that reports success ends an epoch of its account in memory: whatever the requests opened
before it report later, only their capacity comes back. */
module ResumedAccounts {

  import opened Common
  import opened LeaseState
  import opened LeaseConservation

  /** No lease is ahead of its account. */
  predicate RevisionsOrdered(open: Leases, health: map<string, Runtime>) {
    forall c <- open :: open[c].account in health && open[c].revision <= health[open[c].account].revision
  }

  /** Lease `l`, still open as `c`, belongs to an epoch that a resume has ended. */
  predicate Outlived(s: State, c: nat, l: Lease) {
    && c in s.open && s.open[c] == l
    && l.account in s.health && l.revision < s.health[l.account].revision
    && (l.model.Some? ==> Unpublished(s, l.model.value))
  }

  predicate Closes(e: Event, c: nat) {
    (e.Release? && e.call == c) || (e.Finish? && e.call == c)
  }

  predicate Resumes(e: Event, id: string) {
    e.Resume? && e.account == id && e.saved.Stored?
  }

  // ---- Revisions in memory change by resumes only while a request is in flight ----

  predicate RevisionsKept(s: State, t: State) {
    && (forall c <- s.open :: s.open[c].account in t.health)
    && (forall id <- t.health | id in s.health :: t.health[id].revision == s.health[id].revision)
  }

  /** Only a resume that reports success moves a revision, and it moves it on. */
  predicate RevisionsMove(s: State, t: State, e: Event) {
    && (forall c <- s.open :: s.open[c].account in t.health)
    && (forall id <- t.health | id in s.health ::
          if Resumes(e, id) then s.health[id].revision < t.health[id].revision else t.health[id].revision == s.health[id].revision)
  }

  lemma ReloadKeepsRevisions(s: State, now: int)
    requires LeasesConserved(s)
    ensures RevisionsKept(s, Reload(s, now))
  {
    ReloadKeepsLeases(s, now);
  }

  lemma JudgedKeepsRevisions(s: State, c: nat, r: Report, p: Policy)
    requires c in s.open && forall c <- s.open :: s.open[c].account in s.health
    ensures RevisionsKept(s, Judged(s, c, r, p))
  {
    var u := JudgeAccount(s, s.open[c], r, p);
    assert u.health.Keys == s.health.Keys && forall id <- s.health :: u.health[id].revision == s.health[id].revision;
    hide JudgeAccount, JudgeModel, Evicted;
  }

  lemma LendKeepsRevisions(s: State, c: nat, id: string, model: string, at: int, numbers: int)
    requires LeasesConserved(s)
    ensures var t := LendOf(s, c, id, model, at, numbers);
      RevisionsKept(s, t) && (c in t.open && c !in s.open ==> WithinRevision(t.open[c], t.health))
  {
    ReloadKeepsRevisions(s, Seconds(at));
    hide Reload, LeasesConserved, ReadModel;
  }

  lemma ResumeMovesRevisions(s: State, id: string, at: int, saved: Saved)
    requires LeasesConserved(s)
    ensures RevisionsMove(s, ResumeOf(s, id, at, saved), Resume(id, at, saved))
  {
    ReloadKeepsRevisions(s, Seconds(at));
    hide Reload, LeasesConserved;
  }

  lemma ReleaseKeepsRevisions(s: State, c: nat)
    requires c in s.open && forall c <- s.open :: s.open[c].account in s.health
    ensures RevisionsKept(s, ReleaseOf(s, c))
  {
    hide Evicted;
  }

  lemma SetConcurrencyKeepsRevisions(s: State, id: string, limit: int)
    requires forall c <- s.open :: s.open[c].account in s.health
    ensures RevisionsKept(s, SetConcurrencyOf(s, id, limit))
  {
  }

  lemma FinishKeepsRevisions(s: State, c: nat, r: Report, p: Policy)
    requires c in s.calls && forall c <- s.open :: s.open[c].account in s.health
    ensures RevisionsKept(s, FinishOf(s, c, r, p))
  {
    if c in s.open {
      JudgedKeepsRevisions(s, c, r, p);
    }
    hide Judged;
  }

  /** In memory, the revision of an account with a lease changes only by a resume that reports success. */
  lemma StepMovesRevisions(s: State, e: Event, p: Policy)
    requires LeasesConserved(s) && CanStep(s, e)
    ensures RevisionsMove(s, Step(s, e, p), e)
  {
    LeasesOnAccounts(s);
    hide LeasesConserved, Reload, LendOf, ResumeOf, Judged, SetConcurrencyOf, ReleaseOf, FinishOf, JoinOf, ParkOf, LeaveOf, RevisionsKept;
    if e.Resume? {
      ResumeMovesRevisions(s, e.account, e.at, e.saved);
    } else {
      assert RevisionsKept(s, Step(s, e, p)) by { OtherStepKeepsRevisions(s, e, p); }
      KeptIsMoved(s, Step(s, e, p), e);
    }
  }

  lemma KeptIsMoved(s: State, t: State, e: Event)
    requires RevisionsKept(s, t) && !e.Resume?
    ensures RevisionsMove(s, t, e)
  {
  }

  lemma OtherStepKeepsRevisions(s: State, e: Event, p: Policy)
    requires LeasesConserved(s) && CanStep(s, e) && !e.Resume?
    ensures RevisionsKept(s, Step(s, e, p))
  {
    LeasesOnAccounts(s);
    hide LeasesConserved, Reload, LendOf, ResumeOf, Judged, SetConcurrencyOf, ReleaseOf, FinishOf, JoinOf, ParkOf, LeaveOf, RevisionsKept;
    match e
    case Reloaded(at) => ReloadKeepsRevisions(s, Seconds(at));
    case Lend(c, id, model, at) => LendKeepsRevisions(s, c, id, model, at, 1);
    case Check(c, id, model, at) => LendKeepsRevisions(s, c, id, model, at, 0);
    case Finish(c, r) => FinishKeepsRevisions(s, c, r, p);
    case Release(c) => ReleaseKeepsRevisions(s, c);
    case SetConcurrency(id, limit) => SetConcurrencyKeepsRevisions(s, id, limit);
    case Resume(_, _, _) =>
    case _ => SameHealthKeepsRevisions(s, Step(s, e, p));
  }

  lemma SameHealthKeepsRevisions(s: State, t: State)
    requires t.health == s.health && forall c <- s.open :: s.open[c].account in s.health
    ensures RevisionsKept(s, t)
  {
  }

  lemma LeasesOnAccounts(s: State)
    requires LeasesConserved(s)
    ensures Wired(s) && (forall c <- s.open :: s.open[c].account in s.health)
  {
  }

  predicate WithinRevision(l: Lease, health: map<string, Runtime>) {
    l.account in health && l.revision <= health[l.account].revision
  }

  lemma RevisionsStayOrdered(s: State, t: State, e: Event)
    requires RevisionsOrdered(s.open, s.health) && RevisionsMove(s, t, e)
    requires forall c <- t.open :: (c in s.open && t.open[c] == s.open[c]) || WithinRevision(t.open[c], t.health)
    ensures RevisionsOrdered(t.open, t.health)
  {
  }

  lemma StepOpens(s: State, e: Event, p: Policy)
    requires LeasesConserved(s) && CanStep(s, e)
    ensures var t := Step(s, e, p);
      forall c <- t.open :: (c in s.open && t.open[c] == s.open[c]) || WithinRevision(t.open[c], t.health)
  {
    hide LeasesConserved, LendOf, Reload, Judged, ReleaseOf, SetConcurrencyOf, ResumeOf, FinishOf, JoinOf, ParkOf, LeaveOf;
    match e
    case Lend(c, id, model, at) => LendKeepsRevisions(s, c, id, model, at, 1);
    case Check(c, id, model, at) => LendKeepsRevisions(s, c, id, model, at, 0);
    case _ =>
  }

  lemma StepOrdersRevisions(s: State, e: Event, p: Policy)
    requires LeasesConserved(s) && CanStep(s, e) && RevisionsOrdered(s.open, s.health)
    ensures RevisionsOrdered(Step(s, e, p).open, Step(s, e, p).health)
  {
    hide LeasesConserved, CanStep, Step, RevisionsOrdered, RevisionsMove;
    StepMovesRevisions(s, e, p);
    StepOpens(s, e, p);
    RevisionsStayOrdered(s, Step(s, e, p), e);
  }

  // ---- An unpublished object stays unpublished ----

  predicate Unpublished(s: State, o: nat) {
    o in s.objects && o < s.nextObject && forall k <- s.published :: s.published[k] != o
  }

  lemma LendKeepsUnpublished(s: State, c: nat, id: string, model: string, at: int, numbers: int, o: nat)
    requires Unpublished(s, o)
    ensures Unpublished(LendOf(s, c, id, model, at, numbers), o)
  {
    hide LeaseAdmission;
  }

  lemma JudgeModelKeepsPublished(s: State, l: Lease, r: Report, p: Policy)
    ensures var t := JudgeModel(s, l, r, p); t.published == s.published && t.nextObject == s.nextObject && t.objects.Keys == s.objects.Keys
  {
  }

  lemma JudgedKeepsUnpublished(s: State, c: nat, r: Report, p: Policy, o: nat)
    requires Unpublished(s, o) && c in s.open
    ensures Unpublished(Judged(s, c, r, p), o)
  {
    var v := Vacated(JudgeAccount(s, s.open[c], r, p), c);
    JudgeModelKeepsPublished(v, s.open[c], r, p);
    assert v.published == s.published && v.nextObject == s.nextObject && s.objects.Keys == v.objects.Keys;
    hide JudgeAccount, JudgeModel, Vacated;
  }

  lemma ReloadKeepsUnpublished(s: State, now: int, o: nat)
    requires Unpublished(s, o)
    ensures Unpublished(Reload(s, now), o)
  {
  }

  lemma ResumeKeepsUnpublished(s: State, id: string, at: int, saved: Saved, o: nat)
    requires Unpublished(s, o)
    ensures Unpublished(ResumeOf(s, id, at, saved), o)
  {
    ReloadKeepsUnpublished(s, Seconds(at), o);
    assert Reload(s, Seconds(at)).nextObject == s.nextObject;
    hide Reload, ResumedDisk, Resumed;
  }

  lemma ReleaseKeepsUnpublished(s: State, c: nat, o: nat)
    requires Unpublished(s, o) && c in s.open
    ensures Unpublished(ReleaseOf(s, c), o)
  {
  }

  lemma StepKeepsUnpublished(s: State, e: Event, p: Policy, o: nat)
    requires Unpublished(s, o) && CanStep(s, e)
    ensures Unpublished(Step(s, e, p), o)
  {
    hide LendOf, Judged, JudgeAccount, JudgeModel, Reload, ResumeOf, ReleaseOf;
    match e
    case Reloaded(at) => ReloadKeepsUnpublished(s, Seconds(at), o);
    case Resume(id, at, saved) => ResumeKeepsUnpublished(s, id, at, saved, o);
    case Release(c) => ReleaseKeepsUnpublished(s, c, o);
    case Lend(c, id, model, at) => LendKeepsUnpublished(s, c, id, model, at, 1, o);
    case Check(c, id, model, at) => LendKeepsUnpublished(s, c, id, model, at, 0, o);
    case Finish(c, r) => if c in s.open { JudgedKeepsUnpublished(s, c, r, p, o); }
    case _ =>
  }

  // ---- A lease's object belongs to its account ----

  predicate Keyed(open: map<nat, Lease>, objects: map<nat, ModelRuntime>) {
    forall c <- open | open[c].model.Some? :: open[c].model.value in objects && objects[open[c].model.value].key.account == open[c].account
  }

  predicate KeysKept(s: State, t: State) {
    forall o <- s.objects :: o in t.objects && t.objects[o].key == s.objects[o].key
  }

  lemma LendKeepsKeyed(s: State, c: nat, id: string, model: string, at: int, numbers: int)
    requires Keyed(s.open, s.objects) && Wired(s) && c !in s.open
    ensures var t := LendOf(s, c, id, model, at, numbers); Keyed(t.open, t.objects)
  {
    var u := Reload(s, Seconds(at));
    assert Wired(u);
    hide Reload, LeaseAdmission;
    if LeaseAdmission(u, id, model, Seconds(at)) == Ok {
      AdmittedExists(u, id, model, Seconds(at));
      OpenedKeepsKeyed(u, c, id, model, numbers);
    }
  }

  lemma AdmittedExists(s: State, id: string, model: string, now: int)
    requires LeaseAdmission(s, id, model, now) == Ok
    ensures id in s.health && id in s.disk.accounts
  {
  }

  lemma OpenedKeepsKeyed(s: State, c: nat, id: string, model: string, numbers: int)
    requires Keyed(s.open, s.objects) && Wired(s) && c !in s.open && id in s.health && id in s.disk.accounts
    ensures var t := Opened(s, c, id, model, numbers); Keyed(t.open, t.objects)
  {
  }

  lemma JudgedKeepsKeys(s: State, c: nat, r: Report, p: Policy)
    requires c in s.open
    ensures KeysKept(s, Judged(s, c, r, p))
  {
    var v := Vacated(JudgeAccount(s, s.open[c], r, p), c);
    assert KeysKept(s, v) && v.published == s.published;
    if s.open[c].model.Some? && IsPublished(v, s.open[c].model.value) {
      ModelVerdict(v, s.open[c], r, p);
    } else {
      JudgesNothing(v, s.open[c], r, p);
    }
    hide JudgeAccount, JudgeModel, Vacated, Evicted;
  }

  lemma StepKeepsKeyed(s: State, e: Event, p: Policy)
    requires Keyed(s.open, s.objects) && Wired(s) && CanStep(s, e)
    ensures Keyed(Step(s, e, p).open, Step(s, e, p).objects)
  {
    hide LendOf, Judged, Reload, Evicted, Wired;
    match e
    case Lend(c, id, model, at) => LendKeepsKeyed(s, c, id, model, at, 1);
    case Check(c, id, model, at) => LendKeepsKeyed(s, c, id, model, at, 0);
    case Finish(c, r) => if c in s.open { JudgedKeepsKeys(s, c, r, p); }
    case _ =>
  }

  // ---- Results of an ended epoch ----

  ghost predicate Sound(s: State) {
    LeasesConserved(s) && RevisionsOrdered(s.open, s.health) && Keyed(s.open, s.objects)
  }

  lemma StepKeepsSound(s: State, e: Event, p: Policy)
    requires Sound(s) && CanStep(s, e)
    ensures Sound(Step(s, e, p))
  {
    StepKeepsLeases(s, e, p);
    StepOrdersRevisions(s, e, p);
    LeasesOnAccounts(s);
    StepKeepsKeyed(s, e, p);
  }

  lemma StartIsSound(disk: Disk)
    ensures Sound(Start(disk))
  {
  }

  /** A resume ends the epoch of a request of its account exactly when its write reports success. */
  lemma ResumeOutlives(s: State, id: string, at: int, saved: Saved, c: nat)
    requires Sound(s) && c in s.open && s.open[c].account == id
    ensures saved.Stored? ==> Outlived(ResumeOf(s, id, at, saved), c, s.open[c])
    ensures id in s.health && s.open[c].revision == s.health[id].revision ==>
            (Outlived(ResumeOf(s, id, at, saved), c, s.open[c]) <==> saved.Stored?)
  {
    var t := Reload(s, Seconds(at));
    ReloadKeepsRevisions(s, Seconds(at));
    ReloadKeepsLeases(s, Seconds(at));
    LeasesOnAccounts(s);
    LeasesOnAccounts(t);
    hide LeasesConserved, Reload;
  }

  lemma OpenUnlessClosed(s: State, e: Event, p: Policy, c: nat)
    requires CanStep(s, e) && c in s.open && !Closes(e, c)
    ensures var t := Step(s, e, p); c in t.open && t.open[c] == s.open[c]
  {
    hide LendOf, Reload, Judged, ReleaseOf, SetConcurrencyOf, ResumeOf;
  }

  lemma StepKeepsOutlived(s: State, e: Event, p: Policy, c: nat, l: Lease)
    requires Sound(s) && CanStep(s, e) && Outlived(s, c, l) && !Closes(e, c)
    ensures Outlived(Step(s, e, p), c, l)
  {
    StepMovesRevisions(s, e, p);
    OpenUnlessClosed(s, e, p, c);
    if l.model.Some? {
      StepKeepsUnpublished(s, e, p, l.model.value);
    }
    hide Step, Sound;
  }

  lemma {:induction false} RunKeepsOutlived(s: State, es: seq<Event>, p: Policy, c: nat, l: Lease)
    requires Sound(s) && CanRun(s, es, p) && Outlived(s, c, l)
    requires forall e <- es :: !Closes(e, c)
    ensures Outlived(Run(s, es, p), c, l)
    decreases |es|
  {
    if es != [] {
      StepKeepsSound(s, es[0], p);
      StepKeepsOutlived(s, es[0], p, c, l);
      RunKeepsOutlived(Step(s, es[0], p), es[1..], p, c, l);
    }
  }

  /** All that the end of such a request changes: its capacity is given back. */
  predicate OnlyVacates(s: State, t: State, id: string) {
    && t.disk == s.disk && t.published == s.published && t.sequence == s.sequence
    && id in s.health && t.health == s.health[id := s.health[id].(inFlight := Max(0, s.health[id].inFlight - 1))]
    && t.objects.Keys == s.objects.Keys && (forall o <- s.objects :: t.objects[o] == s.objects[o].(inFlight := t.objects[o].inFlight))
  }

  lemma OutlivedIsInert(s: State, c: nat, l: Lease, r: Report, p: Policy)
    requires Outlived(s, c, l)
    ensures OnlyVacates(s, Judged(s, c, r, p), l.account)
  {
    assert !(l.model.Some? && IsPublished(s, l.model.value));
    assert JudgeAccount(s, l, r, p) == s;
    var v := Vacated(s, c);
    assert l.model.Some? ==> !IsPublished(v, l.model.value);
    JudgesNothing(v, l, r, p);
    hide JudgeModel, JudgeAccount;
  }

  /** The end of the request changes nothing but its capacity, whatever its result. */
  ghost predicate Ignored(s: State, c: nat, p: Policy)
    requires c in s.calls && c in s.open
  {
    forall r :: OnlyVacates(s, FinishOf(s, c, r, p), s.open[c].account)
  }

  lemma LimitIsNumbered(s: State, c: nat, r: Report, p: Policy)
    requires LeasesConserved(s) && c in s.open && c in s.calls && r.result.AccountLimited?
    requires s.open[c].account in s.health && s.open[c].revision == s.health[s.open[c].account].revision
    ensures var id := s.open[c].account; var t := FinishOf(s, c, r, p);
      id in t.health && t.health[id].lastFailureSequence == s.sequence + 1 > s.health[id].lastFailureSequence
  {
    var v := Vacated(JudgeAccount(s, s.open[c], r, p), c);
    assert v.health[s.open[c].account].lastFailureSequence == s.sequence + 1;
    assert JudgeModel(v, s.open[c], r, p).health == v.health;
    assert s.health[s.open[c].account].lastFailureSequence <= s.sequence by { SequenceOrder(s); }
    hide JudgeAccount, JudgeModel, Vacated, Evicted, LeasesConserved;
  }

  lemma SequenceOrder(s: State)
    requires LeasesConserved(s)
    ensures Ordered(s)
  {
  }

  lemma PresentIsNotIgnored(s: State, c: nat, p: Policy)
    requires LeasesConserved(s) && c in s.open && c in s.calls
    requires s.open[c].account in s.health && s.open[c].revision == s.health[s.open[c].account].revision
    ensures !Ignored(s, c, p)
  {
    var r := Report(AccountLimited, None, 0, Lost, Lost);
    LimitIsNumbered(s, c, r, p);
    assert !OnlyVacates(s, FinishOf(s, c, r, p), s.open[c].account);
  }

  lemma OutlivedIsIgnored(s: State, c: nat, l: Lease, p: Policy)
    requires Outlived(s, c, l) && c in s.calls
    ensures Ignored(s, c, p)
  {
    forall r ensures OnlyVacates(s, FinishOf(s, c, r, p), l.account) {
      OutlivedIsInert(s, c, l, r, p);
    }
    hide Judged, FinishOf;
  }

  predicate HasResume(es: seq<Event>, id: string) {
    exists i :: 0 <= i < |es| && Resumes(es[i], id)
  }

  /** An open request stays in its account's present epoch up to the first resume, and is out of it then. */
  lemma {:induction false} RunOutlivesIffResumed(s: State, es: seq<Event>, p: Policy, c: nat, l: Lease)
    requires Sound(s) && CanRun(s, es, p) && c in s.open && s.open[c] == l
    requires l.account in s.health && l.revision == s.health[l.account].revision
    requires forall e <- es :: !Closes(e, c)
    ensures var t := Run(s, es, p);
      && c in t.open && t.open[c] == l
      && if HasResume(es, l.account) then Outlived(t, c, l)
         else l.account in t.health && t.health[l.account].revision == l.revision
    decreases |es|
  {
    if es != [] {
      var e, rest, t := es[0], es[1..], Step(s, es[0], p);
      StepKeepsSound(s, e, p);
      StepMovesRevisions(s, e, p);
      OpenUnlessClosed(s, e, p, c);
      assert forall i :: 0 <= i < |rest| ==> rest[i] == es[i + 1];
      assert HasResume(es, l.account) <==> Resumes(e, l.account) || HasResume(rest, l.account) by { ResumeHeadOrTail(es, l.account); }
      if Resumes(e, l.account) {
        ResumeOutlives(s, l.account, e.at, Stored, c);
        hide Sound, Outlived, Run, CanRun;
        RunKeepsOutlived(t, rest, p, c, l);
      } else {
        hide Step, CanStep, Sound, Outlived, HasResume;
        RunOutlivesIffResumed(t, rest, p, c, l);
      }
    }
  }

  lemma ResumeHeadOrTail(es: seq<Event>, id: string)
    requires es != []
    ensures HasResume(es, id) <==> Resumes(es[0], id) || HasResume(es[1..], id)
  {
    if i :| 0 <= i < |es| && Resumes(es[i], id) && 0 < i {
      assert es[1..][i - 1] == es[i];
    }
    if i :| 0 <= i < |es| - 1 && Resumes(es[1..][i], id) {
      assert es[i + 1] == es[1..][i];
    }
  }

  /** Whatever happens while a request of the present epoch is open, resumes of every fate among it, all its
  results are in vain, lifting no limit, setting none and writing no row, iff its account was resumed by one
  that reported success. */
  lemma {:induction false} ResumedEpochIgnoresLateResults(s: State, es: seq<Event>, c: nat, p: Policy)
    requires Sound(s) && c in s.open && CanRun(s, es, p) && forall e <- es :: !Closes(e, c)
    requires s.open[c].account in s.health && s.open[c].revision == s.health[s.open[c].account].revision
    requires c in Run(s, es, p).calls
    ensures c in Run(s, es, p).open
    ensures Ignored(Run(s, es, p), c, p) <==> HasResume(es, s.open[c].account)
  {
    var l, t := s.open[c], Run(s, es, p);
    RunOutlivesIffResumed(s, es, p, c, l);
    RunKeepsSound(s, es, p);
    hide Run, CanRun, Ignored, HasResume, LeasesConserved;
    if HasResume(es, l.account) {
      OutlivedIsIgnored(t, c, l, p);
    } else {
      PresentIsNotIgnored(t, c, p);
    }
  }

  lemma {:induction false} RunKeepsSound(s: State, es: seq<Event>, p: Policy)
    requires Sound(s) && CanRun(s, es, p)
    ensures Sound(Run(s, es, p))
    decreases |es|
  {
    if es != [] {
      StepKeepsSound(s, es[0], p);
      RunKeepsSound(Step(s, es[0], p), es[1..], p);
    }
  }

  /** Every state a run reaches meets the premise of these results. */
  lemma ReachableIsSound(disk: Disk, es: seq<Event>, p: Policy)
    requires CanRun(Start(disk), es, p)
    ensures Sound(Run(Start(disk), es, p))
  {
    StartIsSound(disk);
    RunKeepsSound(Start(disk), es, p);
  }
}
