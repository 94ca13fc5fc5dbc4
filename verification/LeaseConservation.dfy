/** What every interleaving of the gateway's steps keeps: counters equal what is open, and a limited
account or model carries one request admitted after its failure. */
module LeaseConservation {

  import opened Common
  import opened LeaseState

  // ---- Counting ----

  function Where<T>(m: map<nat, T>, p: T -> bool): set<nat> {
    set c | c in m && p(m[c])
  }

  lemma DropCount<T>(m: map<nat, T>, p: T -> bool, c: nat)
    requires c in m
    ensures |Where(m, p)| == |Where(m - {c}, p)| + (if p(m[c]) then 1 else 0)
  {
    var rest := Where(m - {c}, p);
    if p(m[c]) {
      assert Where(m, p) == rest + {c};
    } else {
      assert Where(m, p) == rest;
    }
  }

  lemma AddCount<T>(m: map<nat, T>, p: T -> bool, c: nat, v: T)
    requires c !in m
    ensures |Where(m[c := v], p)| == |Where(m, p)| + (if p(v) then 1 else 0)
  {
    DropCount(m[c := v], p, c);
    assert m[c := v] - {c} == m;
  }

  lemma SetCount<T>(m: map<nat, T>, p: T -> bool, c: nat, v: T)
    requires c in m
    ensures |Where(m[c := v], p)| == |Where(m, p)| - (if p(m[c]) then 1 else 0) + (if p(v) then 1 else 0)
  {
    DropCount(m, p, c);
    AddCount(m - {c}, p, c, v);
    assert (m - {c})[c := v] == m[c := v];
  }

  lemma NoneCount<T>(m: map<nat, T>, p: T -> bool)
    requires forall c <- m :: !p(m[c])
    ensures |Where(m, p)| == 0
  {
    assert Where(m, p) == {};
  }

  lemma SomeCount<T>(m: map<nat, T>, p: T -> bool, c: nat)
    requires c in m && p(m[c])
    ensures 1 <= |Where(m, p)|
  {
    DropCount(m, p, c);
  }

  lemma FewerCount<T>(m: map<nat, T>, p: T -> bool, q: T -> bool)
    requires forall c <- m :: p(m[c]) ==> q(m[c])
    ensures |Where(m, p)| <= |Where(m, q)|
  {
    SubsetFits(Where(m, p), Where(m, q));
  }

  function OnAccount(id: string): Lease -> bool { (l: Lease) => l.account == id }

  function OnObject(o: nat): Lease -> bool { (l: Lease) => l.model == Some(o) }

  function AccountAfter(id: string, failure: int): Lease -> bool { (l: Lease) => l.account == id && failure < l.sequence }

  function ObjectAfter(o: nat, failure: int): Lease -> bool { (l: Lease) => l.model == Some(o) && failure < l.sequence }

  function OfMember(user: int): Call -> bool { (c: Call) => c.member && c.user == user }

  function InQueue(group: int): Call -> bool { (c: Call) => c.queued && c.group == group }

  // ---- What is kept ----

  type Leases = map<nat, Lease>

  ghost predicate AccountsConserved(open: Leases, health: map<string, Runtime>) {
    && (forall c <- open :: open[c].account in health)
    && (forall id <- health :: health[id].inFlight == |Where(open, OnAccount(id))|)
  }

  ghost predicate ObjectsConserved(open: Leases, objects: map<nat, ModelRuntime>) {
    && (forall c <- open :: open[c].model.Some? ==> open[c].model.value in objects)
    && (forall o <- objects :: objects[o].inFlight == |Where(open, OnObject(o))|)
  }

  predicate Limited(cooldownUntil: int, failures: int) { 0 < cooldownUntil && 0 < failures }

  /** Until a failure clears, at most one open lease is younger than it. */
  ghost predicate AccountsProbed(open: Leases, health: map<string, Runtime>) {
    forall id <- health :: Limited(health[id].cooldownUntil, health[id].failures) ==>
      |Where(open, AccountAfter(id, health[id].lastFailureSequence))| <= 1
  }

  ghost predicate ObjectsProbed(open: Leases, objects: map<nat, ModelRuntime>) {
    forall o <- objects :: Limited(objects[o].cooldownUntil, objects[o].failures) ==>
      |Where(open, ObjectAfter(o, objects[o].lastFailureSequence))| <= 1
  }

  predicate Ordered(s: State) {
    && 0 <= s.sequence
    && (forall c <- s.open :: 0 < s.open[c].sequence <= s.sequence + 1)
    && (forall id <- s.health :: 0 <= s.health[id].lastFailureSequence <= s.sequence)
    && (forall o <- s.objects :: 0 <= s.objects[o].lastFailureSequence <= s.sequence)
  }

  predicate Wired(s: State) {
    && (forall o <- s.objects :: o < s.nextObject)
    && (forall k <- s.published :: s.published[k] in s.objects && s.objects[s.published[k]].key == k)
  }

  /** Model state stays in memory only for open leases and failed writes, and is bounded. */
  predicate PublishedBounded(s: State) {
    && |s.published| <= MAX_MODEL_RUNTIME
    && (forall k <- s.published :: s.published[k] in s.objects && (s.objects[s.published[k]].inFlight > 0 || s.objects[s.published[k]].persistFailed))
  }

  ghost predicate MembersConserved(s: State) {
    && (forall u :: Count(s.memberActive, u) == |Where(s.calls, OfMember(u))|)
    && (forall u <- s.memberActive :: s.memberActive[u] > 0)
  }

  ghost predicate QueuesConserved(s: State, p: Policy) {
    && (forall g :: Count(s.waiting, g) == |Where(s.calls, InQueue(g))| && Count(s.waiting, g) <= Max(0, p.queueLimit))
    && (forall g <- s.waiting :: s.waiting[g] > 0)
  }

  ghost predicate LeasesConserved(s: State) {
    && AccountsConserved(s.open, s.health) && AccountsProbed(s.open, s.health)
    && ObjectsConserved(s.open, s.objects) && ObjectsProbed(s.open, s.objects)
    && Ordered(s) && Wired(s)
  }

  ghost predicate Conserved(s: State, p: Policy) {
    LeasesConserved(s) && PublishedBounded(s) && MembersConserved(s) && QueuesConserved(s, p)
  }

  // ---- Taking and giving back ----

  lemma AccountTaken(open: Leases, health: map<string, Runtime>, c: nat, l: Lease)
    requires AccountsConserved(open, health) && AccountsProbed(open, health)
    requires c !in open && l.account in health
    requires Limited(health[l.account].cooldownUntil, health[l.account].failures) ==> health[l.account].inFlight <= 0
    ensures var taken := health[l.account := health[l.account].(inFlight := health[l.account].inFlight + 1)];
      AccountsConserved(open[c := l], taken) && AccountsProbed(open[c := l], taken)
  {
    var taken := health[l.account := health[l.account].(inFlight := health[l.account].inFlight + 1)];
    forall id <- taken
      ensures taken[id].inFlight == |Where(open[c := l], OnAccount(id))|
      ensures Limited(taken[id].cooldownUntil, taken[id].failures) ==> |Where(open[c := l], AccountAfter(id, taken[id].lastFailureSequence))| <= 1
    {
      AddCount(open, OnAccount(id), c, l);
      AddCount(open, AccountAfter(id, taken[id].lastFailureSequence), c, l);
      FewerCount(open, AccountAfter(id, taken[id].lastFailureSequence), OnAccount(id));
    }
  }

  lemma ObjectTaken(open: Leases, objects: map<nat, ModelRuntime>, c: nat, l: Lease, m: ModelRuntime)
    requires ObjectsConserved(open, objects) && ObjectsProbed(open, objects)
    requires c !in open && l.model.Some?
    requires if l.model.value in objects then m == objects[l.model.value] else m.inFlight == 0
    requires Limited(m.cooldownUntil, m.failures) ==> m.inFlight <= 0
    ensures var taken := objects[l.model.value := m.(inFlight := m.inFlight + 1)];
      ObjectsConserved(open[c := l], taken) && ObjectsProbed(open[c := l], taken)
  {
    var taken := objects[l.model.value := m.(inFlight := m.inFlight + 1)];
    forall o <- taken
      ensures taken[o].inFlight == |Where(open[c := l], OnObject(o))|
      ensures Limited(taken[o].cooldownUntil, taken[o].failures) ==> |Where(open[c := l], ObjectAfter(o, taken[o].lastFailureSequence))| <= 1
    {
      AddCount(open, OnObject(o), c, l);
      AddCount(open, ObjectAfter(o, taken[o].lastFailureSequence), c, l);
      FewerCount(open, ObjectAfter(o, taken[o].lastFailureSequence), OnObject(o));
      if o !in objects {
        NoneCount(open, OnObject(o));
      }
    }
  }

  lemma ObjectsNotTaken(open: Leases, objects: map<nat, ModelRuntime>, c: nat, l: Lease)
    requires ObjectsConserved(open, objects) && ObjectsProbed(open, objects)
    requires c !in open && l.model.None?
    ensures ObjectsConserved(open[c := l], objects) && ObjectsProbed(open[c := l], objects)
  {
    forall o <- objects
      ensures objects[o].inFlight == |Where(open[c := l], OnObject(o))|
      ensures Limited(objects[o].cooldownUntil, objects[o].failures) ==> |Where(open[c := l], ObjectAfter(o, objects[o].lastFailureSequence))| <= 1
    {
      AddCount(open, OnObject(o), c, l);
      AddCount(open, ObjectAfter(o, objects[o].lastFailureSequence), c, l);
    }
  }

  /** `t` is `s` after lease `l`, on model state `m` if it has one. */
  predicate Takes(s: State, t: State, c: nat, l: Lease, m: ModelRuntime)
    requires l.account in s.health
  {
    && t.open == s.open[c := l] && l.sequence == s.sequence + 1 && s.sequence <= t.sequence <= s.sequence + 1
    && t.health == s.health[l.account := s.health[l.account].(inFlight := s.health[l.account].inFlight + 1)]
    && s.nextObject <= t.nextObject
    && if l.model.None? then t.objects == s.objects && t.published == s.published else
       t.objects == s.objects[l.model.value := m.(inFlight := m.inFlight + 1)] && t.published == s.published[m.key := l.model.value]
       && l.model.value < t.nextObject
       && if l.model.value in s.objects then m == s.objects[l.model.value] else m.inFlight == 0 && m.lastFailureSequence == 0
  }

  lemma OpenedTakes(s: State, c: nat, id: string, model: string, now: int, numbers: int) returns (m: ModelRuntime)
    requires Wired(s) && LeaseAdmission(s, id, model, now) == Ok && 0 <= numbers <= 1
    ensures model != "" ==> m == ReadModel(s, Key(id, model))
    ensures Takes(s, Opened(s, c, id, model, numbers), c, LeaseFor(s, id, model), m)
    ensures Limited(s.health[id].cooldownUntil, s.health[id].failures) ==> s.health[id].inFlight <= 0
    ensures model != "" && Limited(m.cooldownUntil, m.failures) ==> m.inFlight <= 0
  {
    m := if model == "" then ReadRow(s.disk, Key(id, model)) else ReadModel(s, Key(id, model));
  }

  lemma OrderAfterTaking(s: State, t: State, c: nat, l: Lease, m: ModelRuntime)
    requires Ordered(s) && Wired(s) && l.account in s.health && Takes(s, t, c, l, m)
    ensures Ordered(t) && Wired(t)
  {
  }

  lemma TakesKeepsLeases(s: State, t: State, c: nat, l: Lease, m: ModelRuntime)
    requires LeasesConserved(s) && c !in s.open && l.account in s.health && Takes(s, t, c, l, m)
    requires Limited(s.health[l.account].cooldownUntil, s.health[l.account].failures) ==> s.health[l.account].inFlight <= 0
    requires l.model.Some? && Limited(m.cooldownUntil, m.failures) ==> m.inFlight <= 0
    ensures LeasesConserved(t)
  {
    hide Where;
    OrderAfterTaking(s, t, c, l, m);
    hide AccountsConserved, AccountsProbed, ObjectsConserved, ObjectsProbed, Ordered, Wired;
    AccountTaken(s.open, s.health, c, l);
    if l.model.None? {
      ObjectsNotTaken(s.open, s.objects, c, l);
    } else {
      ObjectTaken(s.open, s.objects, c, l, m);
    }
  }

  lemma OpenedKeepsLeases(s: State, c: nat, id: string, model: string, now: int, numbers: int)
    requires LeasesConserved(s) && c !in s.open && LeaseAdmission(s, id, model, now) == Ok && 0 <= numbers <= 1
    ensures LeasesConserved(Opened(s, c, id, model, numbers))
  {
    assert Wired(s) && id in s.health;
    hide LeasesConserved, Wired, Opened, Occupied, LeaseAdmission, Takes;
    var m := OpenedTakes(s, c, id, model, now, numbers);
    TakesKeepsLeases(s, Opened(s, c, id, model, numbers), c, LeaseFor(s, id, model), m);
  }

  /** While a lease is open its account and its model's state exist and count it, so giving it back
  never meets the lower bound of zero. */
  lemma ClampsNeverFire(s: State, c: nat)
    requires AccountsConserved(s.open, s.health) && ObjectsConserved(s.open, s.objects) && c in s.open
    ensures s.open[c].account in s.health && 1 <= s.health[s.open[c].account].inFlight
    ensures s.open[c].model.Some? ==> s.open[c].model.value in s.objects && 1 <= s.objects[s.open[c].model.value].inFlight
  {
    SomeCount(s.open, OnAccount(s.open[c].account), c);
    if s.open[c].model.Some? {
      SomeCount(s.open, OnObject(s.open[c].model.value), c);
    }
  }

  lemma AccountVacated(open: Leases, health: map<string, Runtime>, c: nat, vacated: map<string, Runtime>)
    requires AccountsConserved(open, health) && AccountsProbed(open, health) && c in open
    requires vacated == health[open[c].account := health[open[c].account].(inFlight := health[open[c].account].inFlight - 1)]
    ensures AccountsConserved(open - {c}, vacated) && AccountsProbed(open - {c}, vacated)
  {
    forall id <- vacated
      ensures vacated[id].inFlight == |Where(open - {c}, OnAccount(id))|
      ensures Limited(vacated[id].cooldownUntil, vacated[id].failures) ==> |Where(open - {c}, AccountAfter(id, vacated[id].lastFailureSequence))| <= 1
    {
      DropCount(open, OnAccount(id), c);
      DropCount(open, AccountAfter(id, vacated[id].lastFailureSequence), c);
    }
  }

  lemma ObjectVacated(open: Leases, objects: map<nat, ModelRuntime>, c: nat, vacated: map<nat, ModelRuntime>)
    requires ObjectsConserved(open, objects) && ObjectsProbed(open, objects) && c in open
    requires vacated == (if open[c].model.Some? then objects[open[c].model.value := objects[open[c].model.value].(inFlight := objects[open[c].model.value].inFlight - 1)] else objects)
    ensures ObjectsConserved(open - {c}, vacated) && ObjectsProbed(open - {c}, vacated)
  {
    forall o <- vacated
      ensures vacated[o].inFlight == |Where(open - {c}, OnObject(o))|
      ensures Limited(vacated[o].cooldownUntil, vacated[o].failures) ==> |Where(open - {c}, ObjectAfter(o, vacated[o].lastFailureSequence))| <= 1
    {
      DropCount(open, OnObject(o), c);
      DropCount(open, ObjectAfter(o, vacated[o].lastFailureSequence), c);
    }
  }

  lemma VacatedKeepsLeases(s: State, c: nat)
    requires LeasesConserved(s) && c in s.open
    ensures LeasesConserved(Vacated(s, c))
  {
    hide AccountsConserved, AccountsProbed, ObjectsConserved, ObjectsProbed;
    var t := Vacated(s, c);
    ClampsNeverFire(s, c);
    AccountVacated(s.open, s.health, c, t.health);
    ObjectVacated(s.open, s.objects, c, t.objects);
  }

  // ---- Verdicts ----

  lemma JudgeAccountKeepsLeases(s: State, l: Lease, r: Report, p: Policy)
    requires LeasesConserved(s)
    ensures LeasesConserved(JudgeAccount(s, l, r, p))
  {
    hide AccountsConserved, AccountsProbed, ObjectsConserved, ObjectsProbed;
    if l.account in s.health {
      var a, t := s.health[l.account], JudgeAccount(s, l, r, p);
      if LimitsAccount(a, l, r) || ClearsAccount(a, l, r) {
        AccountLearnt(s.open, s.health, l.account, t.health[l.account]);
      } else {
        assert t.health == s.health;
      }
    }
  }

  /** Model state after a verdict: nothing learnt, a new failure, or an old one gone. */
  predicate Learnt(m: ModelRuntime, n: ModelRuntime, s: State, t: State) {
    && n.key == m.key && n.inFlight == m.inFlight && n.lifecycle == m.lifecycle && n.revision == m.revision
    && s.sequence <= t.sequence <= s.sequence + 1
    && (|| (n.failures == m.failures && n.cooldownUntil == m.cooldownUntil && n.lastFailureSequence == m.lastFailureSequence)
        || n.lastFailureSequence == s.sequence + 1 == t.sequence
        || (n.failures == 0 && n.cooldownUntil == 0 && n.lastFailureSequence == m.lastFailureSequence))
  }

  lemma NothingLearnt(m: ModelRuntime, s: State)
    ensures Learnt(m, m, s, s)
  {
  }

  lemma FailureLearnt(s: State, o: nat, r: Report, p: Policy)
    requires o in s.objects
    ensures var m := ModelFailure(s.objects[o], r, s.sequence + 1, p);
      var t := RecordModelFailure(s.(sequence := s.sequence + 1), o, m, r.model);
      && t == s.(disk := t.disk, objects := s.objects[o := t.objects[o]], sequence := s.sequence + 1)
      && Learnt(s.objects[o], t.objects[o], s, t)
  {
  }

  lemma ClearLearnt(s: State, o: nat, saved: Saved)
    requires o in s.objects
    ensures var t := ClearModelFailure(s, o, saved);
      && t == s.(disk := t.disk, objects := s.objects[o := t.objects[o]])
      && Learnt(s.objects[o], t.objects[o], s, t)
  {
  }

  lemma ModelVerdict(s: State, l: Lease, r: Report, p: Policy)
    requires l.model.Some? && IsPublished(s, l.model.value)
    ensures var o, t := l.model.value, JudgeModel(s, l, r, p);
      && o in t.objects && t == s.(disk := t.disk, objects := s.objects[o := t.objects[o]], sequence := t.sequence)
      && Learnt(s.objects[o], t.objects[o], s, t)
  {
    FailureLearnt(s, l.model.value, r, p);
    ClearLearnt(s, l.model.value, r.model);
    hide ModelFailure, RecordModelFailure, ClearModelFailure, Learnt;
    assert Learnt(s.objects[l.model.value], s.objects[l.model.value], s, s) by { NothingLearnt(s.objects[l.model.value], s); }
  }

  lemma JudgesNothing(s: State, l: Lease, r: Report, p: Policy)
    requires l.model.None? || !IsPublished(s, l.model.value)
    ensures JudgeModel(s, l, r, p) == s
  {
  }

  lemma OrderAfterLearning(s: State, t: State, o: nat)
    requires Ordered(s) && Wired(s) && o in s.objects && o in t.objects && Learnt(s.objects[o], t.objects[o], s, t)
    requires t == s.(disk := t.disk, objects := s.objects[o := t.objects[o]], sequence := t.sequence)
    ensures Ordered(t) && Wired(t)
    ensures t.objects[o].lastFailureSequence == s.sequence + 1 ==> forall c <- s.open :: s.open[c].sequence <= t.objects[o].lastFailureSequence
  {
  }

  lemma JudgeModelKeepsLeases(s: State, l: Lease, r: Report, p: Policy)
    requires LeasesConserved(s)
    ensures LeasesConserved(JudgeModel(s, l, r, p))
  {
    if l.model.Some? && IsPublished(s, l.model.value) {
      ModelVerdict(s, l, r, p);
      hide JudgeModel, AccountsConserved, AccountsProbed, ObjectsConserved, ObjectsProbed, Ordered, Wired;
      OrderAfterLearning(s, JudgeModel(s, l, r, p), l.model.value);
      ObjectLearnt(s.open, s.objects, l.model.value, JudgeModel(s, l, r, p).objects[l.model.value]);
    }
  }

  lemma EvictedKeepsLeases(s: State, model: Option<nat>)
    requires LeasesConserved(s)
    ensures LeasesConserved(Evicted(s, model))
  {
    hide AccountsConserved, AccountsProbed, ObjectsConserved, ObjectsProbed;
  }

  lemma JudgedKeepsLeases(s: State, c: nat, r: Report, p: Policy)
    requires LeasesConserved(s) && c in s.open
    ensures LeasesConserved(Judged(s, c, r, p))
  {
    var l := s.open[c];
    var t := JudgeAccount(s, l, r, p);
    JudgeAccountKeepsLeases(s, l, r, p);
    assert t.open == s.open;
    hide JudgeAccount, JudgeModel, Evicted, Vacated, LeasesConserved;
    VacatedKeepsLeases(t, c);
    JudgeModelKeepsLeases(Vacated(t, c), l, r, p);
    EvictedKeepsLeases(JudgeModel(Vacated(t, c), l, r, p), l.model);
  }

  // ---- Reloading ----

  lemma ReloadKeepsLeases(s: State, now: int)
    requires LeasesConserved(s)
    ensures LeasesConserved(Reload(s, now))
  {
    hide Where;
    var t := Reload(s, now);
    forall c <- s.open ensures s.open[c].account in t.health {
      SomeCount(s.open, OnAccount(s.open[c].account), c);
    }
    forall id <- t.health ensures t.health[id].inFlight == |Where(t.open, OnAccount(id))|
      && (Limited(t.health[id].cooldownUntil, t.health[id].failures) ==> |Where(t.open, AccountAfter(id, t.health[id].lastFailureSequence))| <= 1) {
      if id !in s.health {
        NoneCount(t.open, OnAccount(id));
        NoneCount(t.open, AccountAfter(id, t.health[id].lastFailureSequence));
      }
    }
  }

  /** One account's limits replaced, either by none or by a failure younger than every lease. */
  lemma AccountLearnt(open: Leases, health: map<string, Runtime>, id: string, a: Runtime)
    requires AccountsConserved(open, health) && AccountsProbed(open, health)
    requires id in health && a.inFlight == health[id].inFlight
    requires !Limited(a.cooldownUntil, a.failures) || forall c <- open :: open[c].sequence <= a.lastFailureSequence
    ensures AccountsConserved(open, health[id := a]) && AccountsProbed(open, health[id := a])
  {
    if Limited(a.cooldownUntil, a.failures) {
      NoneCount(open, AccountAfter(id, a.lastFailureSequence));
    }
  }

  lemma ObjectLearnt(open: Leases, objects: map<nat, ModelRuntime>, o: nat, m: ModelRuntime)
    requires ObjectsConserved(open, objects) && ObjectsProbed(open, objects)
    requires o in objects && m.inFlight == objects[o].inFlight
    requires || !Limited(m.cooldownUntil, m.failures)
             || (m.cooldownUntil == objects[o].cooldownUntil && m.failures == objects[o].failures && m.lastFailureSequence == objects[o].lastFailureSequence)
             || forall c <- open :: open[c].sequence <= m.lastFailureSequence
    ensures ObjectsConserved(open, objects[o := m]) && ObjectsProbed(open, objects[o := m])
  {
    if forall c <- open :: open[c].sequence <= m.lastFailureSequence {
      NoneCount(open, ObjectAfter(o, m.lastFailureSequence));
    }
  }

  lemma ResumeKeepsLeases(s: State, id: string, at: int, saved: Saved)
    requires LeasesConserved(s)
    ensures LeasesConserved(ResumeOf(s, id, at, saved))
  {
    ReloadKeepsLeases(s, Seconds(at));
    hide Reload, LeasesConserved;
    var t := Reload(s, Seconds(at));
    if saved.Stored? && id in t.health {
      ResumedKeepsLeases(t, id, ResumeOf(s, id, at, saved));
    } else {
      DiskHoldsNoLeases(t, ResumeOf(s, id, at, saved).disk);
    }
  }

  lemma DiskHoldsNoLeases(s: State, d: Disk)
    requires LeasesConserved(s)
    ensures LeasesConserved(s.(disk := d))
  {
  }

  lemma ResumedKeepsLeases(t: State, id: string, u: State)
    requires LeasesConserved(t) && id in t.health
    requires u == t.(health := t.health[id := Resumed(t.health[id])], disk := u.disk,
                     published := map k | k in t.published && k.account != id :: t.published[k])
    ensures LeasesConserved(u)
  {
    hide Where, AccountsConserved, AccountsProbed, ObjectsConserved, ObjectsProbed;
    AccountLearnt(t.open, t.health, id, u.health[id]);
  }

  lemma LendKeepsLeases(s: State, c: nat, id: string, model: string, at: int, numbers: int)
    requires LeasesConserved(s) && c !in s.open && 0 <= numbers <= 1
    ensures LeasesConserved(LendOf(s, c, id, model, at, numbers))
  {
    var u := Reload(s, Seconds(at));
    ReloadKeepsLeases(s, Seconds(at));
    assert u.open == s.open;
    hide Reload, LeasesConserved, LeaseAdmission, Opened;
    if LeaseAdmission(u, id, model, Seconds(at)) == Ok {
      OpenedKeepsLeases(u, c, id, model, Seconds(at), numbers);
    }
  }

  lemma SameLeasesConserved(s: State, t: State)
    requires LeasesConserved(s) && SameLeases(s, t)
    ensures LeasesConserved(t)
  {
  }

  lemma FinishKeepsLeases(s: State, c: nat, r: Report, p: Policy)
    requires LeasesConserved(s) && c in s.calls
    ensures LeasesConserved(FinishOf(s, c, r, p))
  {
    hide LeasesConserved, Judged, FinishOf;
    var u := if c in s.open then Judged(s, c, r, p) else s;
    if c in s.open {
      JudgedKeepsLeases(s, c, r, p);
    }
    SameLeasesConserved(u, FinishOf(s, c, r, p));
  }

  lemma SetConcurrencyKeepsLeases(s: State, id: string, limit: int)
    requires LeasesConserved(s)
    ensures LeasesConserved(SetConcurrencyOf(s, id, limit))
  {
    hide Where;
  }

  lemma StepKeepsLeases(s: State, e: Event, p: Policy)
    requires LeasesConserved(s) && CanStep(s, e)
    ensures LeasesConserved(Step(s, e, p))
  {
    hide Where;
    hide LeasesConserved, Reload, LendOf, FinishOf, ResumeOf, Vacated, Evicted, SetConcurrencyOf, JoinOf, ParkOf, LeaveOf;
    match e
    case Reloaded(at) => ReloadKeepsLeases(s, Seconds(at));
    case Lend(c, id, model, at) => LendKeepsLeases(s, c, id, model, at, 1);
    case Check(c, id, model, at) => LendKeepsLeases(s, c, id, model, at, 0);
    case Release(c) =>
      VacatedKeepsLeases(s, c);
      EvictedKeepsLeases(Vacated(s, c), s.open[c].model);
    case Finish(c, r) => FinishKeepsLeases(s, c, r, p);
    case Resume(id, at, saved) => ResumeKeepsLeases(s, id, at, saved);
    case SetConcurrency(id, limit) => SetConcurrencyKeepsLeases(s, id, limit);
    case _ => SameLeasesConserved(s, Step(s, e, p));
  }

  // ---- Bounds on what is kept in memory ----

  lemma FewerKeys<K, V>(m: map<K, V>, n: map<K, V>)
    requires n.Keys <= m.Keys
    ensures |n| <= |m|
  {
    SubsetFits(n.Keys, m.Keys);
  }

  /** As `PublishedBounded`, leaving the judgment of one object's state open. */
  predicate BoundedBut(s: State, model: Option<nat>) {
    && |s.published| <= MAX_MODEL_RUNTIME
    && (forall k <- s.published ::
      s.published[k] in s.objects && (model == Some(s.published[k]) || s.objects[s.published[k]].inFlight > 0 || s.objects[s.published[k]].persistFailed))
  }

  lemma EvictedIsBounded(s: State, model: Option<nat>)
    requires Wired(s) && BoundedBut(s, model)
    requires forall o <- s.objects :: 0 <= s.objects[o].inFlight
    ensures PublishedBounded(Evicted(s, model))
  {
    FewerKeys(s.published, Evicted(s, model).published);
  }

  lemma ReloadIsBounded(s: State, now: int)
    requires PublishedBounded(s)
    ensures PublishedBounded(Reload(s, now))
  {
    FewerKeys(s.published, Reload(s, now).published);
  }

  lemma ResumeIsBounded(s: State, id: string, at: int, saved: Saved)
    requires PublishedBounded(s)
    ensures PublishedBounded(ResumeOf(s, id, at, saved))
  {
    ReloadIsBounded(s, Seconds(at));
    hide Reload;
    FewerKeys(Reload(s, Seconds(at)).published, ResumeOf(s, id, at, saved).published);
  }

  lemma TakesIsBounded(s: State, t: State, c: nat, l: Lease, m: ModelRuntime)
    requires PublishedBounded(s) && l.account in s.health && Takes(s, t, c, l, m) && (l.model.Some? ==> 0 <= m.inFlight)
    requires l.model.Some? && m.key !in s.published ==> |s.published| < MAX_MODEL_RUNTIME
    ensures PublishedBounded(t)
  {
    if l.model.Some? {
      if m.key in s.published {
        FewerKeys(s.published, t.published);
      } else {
        assert t.published.Keys == s.published.Keys + {m.key};
      }
    }
  }

  lemma OpenedIsBounded(s: State, c: nat, id: string, model: string, now: int, numbers: int)
    requires PublishedBounded(s) && Wired(s) && LeaseAdmission(s, id, model, now) == Ok && 0 <= numbers <= 1
    requires forall o <- s.objects :: 0 <= s.objects[o].inFlight
    ensures PublishedBounded(Opened(s, c, id, model, numbers))
  {
    hide PublishedBounded, Opened, Occupied, Takes;
    var m := OpenedTakes(s, c, id, model, now, numbers);
    TakesIsBounded(s, Opened(s, c, id, model, numbers), c, LeaseFor(s, id, model), m);
  }

  lemma InFlightNatural(s: State)
    requires LeasesConserved(s)
    ensures Wired(s) && forall o <- s.objects :: 0 <= s.objects[o].inFlight
  {
  }

  lemma VacatedIsBounded(s: State, c: nat)
    requires PublishedBounded(s) && c in s.open
    ensures BoundedBut(Vacated(s, c), s.open[c].model)
  {
  }

  lemma JudgedModelIsBounded(s: State, l: Lease, r: Report, p: Policy)
    requires BoundedBut(s, l.model)
    ensures BoundedBut(JudgeModel(s, l, r, p), l.model)
  {
    if l.model.Some? && IsPublished(s, l.model.value) {
      ModelVerdict(s, l, r, p);
      hide JudgeModel;
    }
  }

  lemma JudgedIsBounded(s: State, c: nat, r: Report, p: Policy)
    requires LeasesConserved(s) && PublishedBounded(s) && c in s.open
    ensures PublishedBounded(Judged(s, c, r, p))
  {
    var l := s.open[c];
    var t := JudgeAccount(s, l, r, p);
    assert PublishedBounded(t);
    hide LeasesConserved, JudgeAccount, JudgeModel, Vacated, Evicted, PublishedBounded, BoundedBut, Wired;
    JudgeAccountKeepsLeases(s, l, r, p);
    VacatedIsBounded(t, c);
    VacatedKeepsLeases(t, c);
    var u := Vacated(t, c);
    JudgedModelIsBounded(u, l, r, p);
    JudgeModelKeepsLeases(u, l, r, p);
    InFlightNatural(JudgeModel(u, l, r, p));
    EvictedIsBounded(JudgeModel(u, l, r, p), l.model);
  }

  lemma LendIsBounded(s: State, c: nat, id: string, model: string, at: int, numbers: int)
    requires LeasesConserved(s) && PublishedBounded(s) && 0 <= numbers <= 1
    ensures PublishedBounded(LendOf(s, c, id, model, at, numbers))
  {
    var u := Reload(s, Seconds(at));
    ReloadIsBounded(s, Seconds(at));
    ReloadKeepsLeases(s, Seconds(at));
    InFlightNatural(u);
    hide LeasesConserved, Reload, PublishedBounded, LeaseAdmission, Wired, Opened;
    if LeaseAdmission(u, id, model, Seconds(at)) == Ok {
      OpenedIsBounded(u, c, id, model, Seconds(at), numbers);
    }
  }

  lemma SamePublishedBounded(s: State, t: State)
    requires PublishedBounded(s) && t.published == s.published && t.objects == s.objects
    ensures PublishedBounded(t)
  {
  }

  lemma FinishIsBounded(s: State, c: nat, r: Report, p: Policy)
    requires LeasesConserved(s) && PublishedBounded(s) && c in s.calls
    ensures PublishedBounded(FinishOf(s, c, r, p))
  {
    hide LeasesConserved, PublishedBounded, Judged, FinishOf;
    var u := if c in s.open then Judged(s, c, r, p) else s;
    if c in s.open {
      JudgedIsBounded(s, c, r, p);
    }
    SamePublishedBounded(u, FinishOf(s, c, r, p));
  }

  lemma ReleaseIsBounded(s: State, c: nat)
    requires LeasesConserved(s) && PublishedBounded(s) && c in s.open
    ensures PublishedBounded(ReleaseOf(s, c))
  {
    VacatedIsBounded(s, c);
    VacatedKeepsLeases(s, c);
    InFlightNatural(Vacated(s, c));
    hide LeasesConserved, PublishedBounded, BoundedBut, Vacated, Evicted, Wired;
    EvictedIsBounded(Vacated(s, c), s.open[c].model);
  }

  lemma SetConcurrencyIsBounded(s: State, id: string, limit: int)
    requires PublishedBounded(s)
    ensures PublishedBounded(SetConcurrencyOf(s, id, limit))
  {
  }

  lemma StepIsBounded(s: State, e: Event, p: Policy)
    requires LeasesConserved(s) && PublishedBounded(s) && CanStep(s, e)
    ensures PublishedBounded(Step(s, e, p))
  {
    hide LeasesConserved, PublishedBounded, Reload, LendOf, ResumeOf, ReleaseOf, FinishOf, JoinOf, ParkOf, LeaveOf, SetConcurrencyOf;
    match e
    case Reloaded(at) => ReloadIsBounded(s, Seconds(at));
    case Lend(c, id, model, at) => LendIsBounded(s, c, id, model, at, 1);
    case Check(c, id, model, at) => LendIsBounded(s, c, id, model, at, 0);
    case Release(c) => ReleaseIsBounded(s, c);
    case Finish(c, r) => FinishIsBounded(s, c, r, p);
    case Resume(id, at, saved) => ResumeIsBounded(s, id, at, saved);
    case SetConcurrency(id, limit) => SetConcurrencyIsBounded(s, id, limit);
    case _ => SamePublishedBounded(s, Step(s, e, p));
  }

  // ---- Members and queues ----

  lemma LoweredCount(counts: map<int, int>, k: int, other: int)
    requires forall u <- counts :: counts[u] > 0
    requires 1 <= Count(counts, k)
    ensures Count(Lowered(counts, k), other) == Count(counts, other) - (if other == k then 1 else 0)
    ensures forall u <- Lowered(counts, k) :: Lowered(counts, k)[u] > 0
  {
  }

  /** Steps on leases leave calls, members and queues alone. */
  lemma OthersUnmoved(s: State, e: Event, p: Policy)
    requires CanStep(s, e) && !e.Arrive? && !e.JoinMember? && !e.Park? && !e.Leave? && !e.Finish?
    ensures SameCalls(s, Step(s, e, p))
  {
    hide Reload, LendOf, ReleaseOf, ResumeOf, SetConcurrencyOf;
  }

  lemma FinishMoves(s: State, c: nat, r: Report, p: Policy)
    requires c in s.calls
    ensures var t := FinishOf(s, c, r, p);
      && t.calls == s.calls - {c} && t.waiting == s.waiting
      && t.memberActive == if s.calls[c].member then Lowered(s.memberActive, s.calls[c].user) else s.memberActive
  {
    hide Judged;
  }

  lemma StepKeepsMembers(s: State, e: Event, p: Policy)
    requires MembersConserved(s) && CanStep(s, e)
    ensures MembersConserved(Step(s, e, p))
  {
    var t := Step(s, e, p);
    hide MembersConserved, Reload, LendOf, ReleaseOf, ResumeOf, SetConcurrencyOf, FinishOf;
    match e
    case Arrive(c, user, group) => ArriveKeepsMembers(s, c, Call(user, group, false, false), t);
    case JoinMember(c, _) => MembersAfter(s, c, s.calls[c].(member := true), t);
    case Park(c) => MembersAfter(s, c, s.calls[c].(queued := true), t);
    case Leave(c) => MembersAfter(s, c, s.calls[c].(queued := false), t);
    case Finish(c, r) => FinishKeepsMembers(s, c, r, p);
    case _ =>
      OthersUnmoved(s, e, p);
      SameMembers(s, t);
  }

  lemma SameMembers(s: State, t: State)
    requires MembersConserved(s) && SameCalls(s, t)
    ensures MembersConserved(t)
  {
  }

  lemma ArriveKeepsMembers(s: State, c: nat, call: Call, t: State)
    requires MembersConserved(s) && c !in s.calls && !call.member
    requires t.calls == s.calls[c := call] && t.memberActive == s.memberActive
    ensures MembersConserved(t)
  {
    forall u ensures Count(t.memberActive, u) == |Where(t.calls, OfMember(u))| {
      AddCount(s.calls, OfMember(u), c, call);
    }
  }

  lemma FinishKeepsMembers(s: State, c: nat, r: Report, p: Policy)
    requires MembersConserved(s) && c in s.calls
    ensures MembersConserved(FinishOf(s, c, r, p))
  {
    hide Where, FinishOf, Lowered;
    var t := FinishOf(s, c, r, p);
    FinishMoves(s, c, r, p);
    if s.calls[c].member {
      SomeCount(s.calls, OfMember(s.calls[c].user), c);
    }
    forall u ensures Count(t.memberActive, u) == |Where(t.calls, OfMember(u))| {
      DropCount(s.calls, OfMember(u), c);
      LowersCount(s.memberActive, s.calls[c], u);
    }
    LowersCount(s.memberActive, s.calls[c], 0);
  }

  lemma LowersCount(counts: map<int, int>, call: Call, u: int)
    requires forall v <- counts :: counts[v] > 0
    requires call.member ==> 1 <= Count(counts, call.user)
    ensures var lowered := if call.member then Lowered(counts, call.user) else counts;
      && Count(lowered, u) == Count(counts, u) - (if OfMember(u)(call) then 1 else 0)
      && forall v <- lowered :: lowered[v] > 0
  {
  }

  lemma MembersAfter(s: State, c: nat, call: Call, t: State)
    requires MembersConserved(s) && c in s.calls && call.user == s.calls[c].user
    requires (t.calls == s.calls && t.memberActive == s.memberActive)
      || (t.calls == s.calls[c := call] && t.memberActive ==
          if call.member && !s.calls[c].member then s.memberActive[call.user := Count(s.memberActive, call.user) + 1] else s.memberActive)
    requires s.calls[c].member ==> call.member
    ensures MembersConserved(t)
  {
    forall u ensures Count(t.memberActive, u) == |Where(t.calls, OfMember(u))| {
      SetCount(s.calls, OfMember(u), c, call);
    }
  }

  lemma QueuesUnmoved(s: State, t: State, p: Policy)
    requires QueuesConserved(s, p) && t.waiting == s.waiting
    requires forall g :: |Where(t.calls, InQueue(g))| == |Where(s.calls, InQueue(g))|
    ensures QueuesConserved(t, p)
  {
  }

  lemma StepKeepsQueues(s: State, e: Event, p: Policy)
    requires QueuesConserved(s, p) && CanStep(s, e)
    ensures QueuesConserved(Step(s, e, p), p)
  {
    hide Where;
    var t := Step(s, e, p);
    hide Reload, LendOf, ReleaseOf, ResumeOf, SetConcurrencyOf, FinishOf;
    match e
    case Arrive(c, user, group) =>
      forall g ensures |Where(t.calls, InQueue(g))| == |Where(s.calls, InQueue(g))| {
        AddCount(s.calls, InQueue(g), c, Call(user, group, false, false));
      }
      QueuesUnmoved(s, t, p);
    case JoinMember(c, _) =>
      forall g ensures |Where(t.calls, InQueue(g))| == |Where(s.calls, InQueue(g))| {
        SetCount(s.calls, InQueue(g), c, s.calls[c].(member := true));
      }
      QueuesUnmoved(s, t, p);
    case Park(c) => ParkKeepsQueues(s, c, p);
    case Leave(c) => LeaveKeepsQueues(s, c, p);
    case Finish(c, r) => FinishKeepsQueues(s, c, r, p);
    case _ => OthersUnmoved(s, e, p);
  }

  lemma FinishKeepsQueues(s: State, c: nat, r: Report, p: Policy)
    requires QueuesConserved(s, p) && CanStep(s, Finish(c, r))
    ensures QueuesConserved(Step(s, Finish(c, r), p), p)
  {
    hide Where, FinishOf;
    var t := Step(s, Finish(c, r), p);
    FinishMoves(s, c, r, p);
    forall g ensures |Where(t.calls, InQueue(g))| == |Where(s.calls, InQueue(g))| {
      DropCount(s.calls, InQueue(g), c);
    }
    QueuesUnmoved(s, t, p);
  }

  lemma ParkKeepsQueues(s: State, c: nat, p: Policy)
    requires QueuesConserved(s, p) && CanStep(s, Park(c))
    ensures QueuesConserved(ParkOf(s, c, p), p)
  {
    hide Where;
    var t := ParkOf(s, c, p);
    forall g ensures Count(t.waiting, g) == |Where(t.calls, InQueue(g))| {
      SetCount(s.calls, InQueue(g), c, s.calls[c].(queued := true));
    }
  }

  lemma LeaveKeepsQueues(s: State, c: nat, p: Policy)
    requires QueuesConserved(s, p) && CanStep(s, Leave(c))
    ensures QueuesConserved(LeaveOf(s, c), p)
  {
    hide Where;
    var t := LeaveOf(s, c);
    SomeCount(s.calls, InQueue(s.calls[c].group), c);
    forall g ensures Count(t.waiting, g) == |Where(t.calls, InQueue(g))| && Count(t.waiting, g) <= Count(s.waiting, g) {
      SetCount(s.calls, InQueue(g), c, s.calls[c].(queued := false));
      LoweredCount(s.waiting, s.calls[c].group, g);
    }
    LoweredCount(s.waiting, s.calls[c].group, 0);
  }

  // ---- Runs ----

  predicate CanRun(s: State, es: seq<Event>, p: Policy)
    decreases |es|
  {
    es == [] || (CanStep(s, es[0]) && CanRun(Step(s, es[0], p), es[1..], p))
  }

  function Run(s: State, es: seq<Event>, p: Policy): State
    requires CanRun(s, es, p)
    decreases |es|
  {
    if es == [] then s else Run(Step(s, es[0], p), es[1..], p)
  }

  lemma {:induction false} RunFollows(states: seq<State>, es: seq<Event>, p: Policy)
    requires |states| == |es| + 1
    requires forall i :: 0 <= i < |es| ==> CanStep(states[i], es[i]) && Step(states[i], es[i], p) == states[i + 1]
    ensures CanRun(states[0], es, p) && Run(states[0], es, p) == states[|es|]
    decreases |es|
  {
    hide Step, CanStep;
    if es != [] {
      RunFollows(states[1..], es[1..], p);
    }
  }

  /** Every run keeps every count: an account's and a model's requests in flight are its open leases,
  a member's active count is its admitted requests, a pool's queue is its waiting requests and within
  the limit, idle model state leaves memory, and a failure is probed by one request at a time. */
  lemma {:induction false} RunConserves(s: State, es: seq<Event>, p: Policy)
    requires Conserved(s, p) && CanRun(s, es, p)
    ensures Conserved(Run(s, es, p), p)
    decreases |es|
  {
    if es != [] {
      StepKeepsLeases(s, es[0], p);
      StepIsBounded(s, es[0], p);
      StepKeepsMembers(s, es[0], p);
      StepKeepsQueues(s, es[0], p);
      RunConserves(Step(s, es[0], p), es[1..], p);
    }
  }

  lemma StartConserves(disk: Disk, p: Policy)
    ensures Conserved(Start(disk), p)
  {
    hide Where;
    var s := Start(disk);
    forall u ensures Count(s.memberActive, u) == |Where(s.calls, OfMember(u))| { NoneCount(s.calls, OfMember(u)); }
    forall g ensures Count(s.waiting, g) == |Where(s.calls, InQueue(g))| { NoneCount(s.calls, InQueue(g)); }
  }

  /** Leases come one at a time, and only while the account has room and is not cooling: a step that
  adds one leaves the account within its limit. */
  lemma LeasesRespectLimits(s: State, e: Event, p: Policy, id: string)
    requires LeasesConserved(s) && CanStep(s, e)
    requires |Where(s.open, OnAccount(id))| < |Where(Step(s, e, p).open, OnAccount(id))|
    ensures var t := Step(s, e, p);
      && (e.Lend? || e.Check?) && e.account == id && id in t.health
      && |Where(t.open, OnAccount(id))| == |Where(s.open, OnAccount(id))| + 1 <= t.health[id].maxConcurrency
      && t.health[id].cooldownUntil <= Seconds(e.at)
      && (Limited(t.health[id].cooldownUntil, t.health[id].failures) ==> |Where(t.open, OnAccount(id))| == 1)
  {
    hide Reload, LendOf, ReleaseOf, ResumeOf, SetConcurrencyOf, Judged, LeasesConserved;
    match e
    case Lend(c, account, model, at) => LendRespectsLimits(s, c, account, model, at, id, 1);
    case Check(c, account, model, at) => LendRespectsLimits(s, c, account, model, at, id, 0);
    case Release(c) => DropCount(s.open, OnAccount(id), c);
    case Finish(c, r) => if c in s.open { DropCount(s.open, OnAccount(id), c); }
    case _ =>
  }

  lemma LendRespectsLimits(s: State, c: nat, account: string, model: string, at: int, id: string, numbers: int)
    requires LeasesConserved(s) && c !in s.open
    requires |Where(s.open, OnAccount(id))| < |Where(LendOf(s, c, account, model, at, numbers).open, OnAccount(id))|
    ensures var t := LendOf(s, c, account, model, at, numbers);
      && account == id && id in t.health
      && |Where(t.open, OnAccount(id))| == |Where(s.open, OnAccount(id))| + 1 <= t.health[id].maxConcurrency
      && t.health[id].cooldownUntil <= Seconds(at)
      && (Limited(t.health[id].cooldownUntil, t.health[id].failures) ==> |Where(t.open, OnAccount(id))| == 1)
  {
    var u := Reload(s, Seconds(at));
    ReloadKeepsLeases(s, Seconds(at));
    LeasesCountAccount(u);
    hide Reload, LeasesConserved, LeaseAdmission, Where, Opened;
    if LeaseAdmission(u, account, model, Seconds(at)) == Ok {
      AdmittedHasRoom(u, account, model, Seconds(at));
      AddCount(s.open, OnAccount(id), c, LeaseFor(u, account, model));
    }
  }

  lemma AdmittedHasRoom(s: State, id: string, model: string, now: int)
    requires LeaseAdmission(s, id, model, now) == Ok
    ensures id in s.health && s.health[id].inFlight < s.health[id].maxConcurrency && s.health[id].cooldownUntil <= now
    ensures Limited(s.health[id].cooldownUntil, s.health[id].failures) ==> s.health[id].inFlight <= 0
  {
  }

  lemma LeasesCountAccount(s: State)
    requires LeasesConserved(s)
    ensures forall id <- s.health :: s.health[id].inFlight == |Where(s.open, OnAccount(id))|
  {
  }
}
