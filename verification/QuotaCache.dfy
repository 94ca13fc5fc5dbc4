/** The quota cache: polls, response observations, evictions and revision changes race over the same
snapshots. */
module QuotaCache {

  import opened Common

  datatype Window = Window(kind: int, used: Option<real>, resetAt: Option<int>)

  datatype Limit = Limit(name: string, windows: seq<Window>, allowed: Option<bool>, reached: Option<bool>)

  datatype Usage = Usage(limits: seq<Limit>, updatedAt: int, readStartedAt: int)

  /** An account: the revision of its quota, and whether snapshots may be saved for it. */
  datatype Account = Account(revision: int, ready: bool)

  datatype Row = Row(revision: int, snapshot: Usage)

  /** A cached snapshot of one revision. While a poll runs, `flight` is the moment it started. */
  datatype Entry = Entry(id: string, revision: int, snapshot: Option<Usage>, flight: Option<int>, accessed: int)

  /** Polls keep their entry even after the cache has another one for the account, so entries are
  objects and the cache maps accounts to them. */
  datatype State = State(accounts: map<string, Account>, rows: map<string, Row>, objects: map<nat, Entry>, entries: map<string, nat>, next: nat)

  const CAPACITY := 100

  // ---- Rows ----

  function Committed(s: State, id: string): Option<Usage>
    requires id in s.accounts
  {
    if id in s.rows && s.rows[id].revision == s.accounts[id].revision then Some(s.rows[id].snapshot) else None
  }

  /** The conditional write: for the present revision, and never over a later observation of it. */
  predicate CanSave(s: State, id: string, revision: int, value: Usage) {
    && id in s.accounts && s.accounts[id].revision == revision && s.accounts[id].ready
    && (id in s.rows && s.rows[id].revision == revision ==> s.rows[id].snapshot.updatedAt <= value.updatedAt)
  }

  // ---- Loading ----

  predicate Evictable(s: State, id: string) {
    id in s.entries && s.entries[id] in s.objects && s.objects[s.entries[id]].flight.None?
  }

  predicate Oldest(s: State, id: string) {
    Evictable(s, id) && forall other <- s.entries | Evictable(s, other) :: s.objects[s.entries[id]].accessed <= s.objects[s.entries[other]].accessed
  }

  predicate IsLive(s: State, id: string) {
    && id in s.accounts && id in s.entries && s.entries[id] in s.objects
    && s.objects[s.entries[id]].revision == s.accounts[id].revision
  }

  function Fill(s: State, id: string, now: int): (t: State)
    requires id in s.accounts
    ensures t.rows == s.rows && t.accounts == s.accounts
  {
    s.(objects := s.objects[s.next := Entry(id, s.accounts[id].revision, Committed(s, id), None, now)],
       entries := s.entries[id := s.next], next := s.next + 1)
  }

  /** Reading an account's entry; a full cache first gives up `victim`, the entry unused longest. */
  function Load(s: State, id: string, victim: string, now: int): Option<State> {
    if id !in s.accounts then None
    else if IsLive(s, id) then Some(s.(objects := s.objects[s.entries[id] := s.objects[s.entries[id]].(accessed := now)]))
    else if |s.entries| < CAPACITY then Some(Fill(s, id, now))
    else if !Oldest(s, victim) then None
    else Some(Fill(s.(entries := s.entries - {victim}), id, now))
  }

  // ---- Polls ----

  function StartPoll(s: State, id: string, at: int): State {
    if IsLive(s, id) && s.objects[s.entries[id]].flight.None? then
      s.(objects := s.objects[s.entries[id] := s.objects[s.entries[id]].(flight := Some(at))])
    else s
  }

  predicate Overtaken(e: Entry, started: int) {
    e.snapshot.Some? && started < e.snapshot.value.readStartedAt
  }

  function Save(s: State, id: string, revision: int, value: Usage, saved: Saved): State {
    if !saved.Lost? && CanSave(s, id, revision, value) then s.(rows := s.rows[id := Row(revision, value)]) else s
  }

  /** The end of a poll: a snapshot a response has overtaken is dropped, and what is published is what
  was committed. */
  function FinishPoll(s: State, o: nat, value: Option<Usage>, saved: Saved): State
    requires o in s.objects && s.objects[o].flight.Some?
  {
    var e := s.objects[o].(flight := None);
    var started := s.objects[o].flight.value;
    if value.None? || Overtaken(e, started) then s.(objects := s.objects[o := e])
    else
      var v := value.value.(readStartedAt := started);
      var published := saved.Stored? && CanSave(s, e.id, e.revision, v);
      Save(s, e.id, e.revision, v, saved).(objects := s.objects[o := if published then e.(snapshot := Some(v)) else e])
  }

  // ---- Response observations ----

  predicate Succeeds(w: Window, n: Window, at: int) {
    && w.kind == n.kind && w.resetAt.Some? && n.resetAt == w.resetAt && at < n.resetAt.value
    && w.used.Some? && n.used.Some? && w.used.value <= n.used.value
  }

  predicate Matched(w: Window, ns: seq<Window>, at: int) {
    exists j :: 0 <= j < |ns| && Succeeds(w, ns[j], at)
  }

  predicate Extends(prior: Usage, v: Usage) {
    && prior.readStartedAt < v.readStartedAt && prior.updatedAt <= v.updatedAt
    && |v.limits| == 1 && |prior.limits| == 1
    && prior.limits[0].name == "" && v.limits[0].name == ""
    && |prior.limits[0].windows| == |v.limits[0].windows| && v.limits[0].windows != []
    && forall i :: 0 <= i < |prior.limits[0].windows| ==> Matched(prior.limits[0].windows[i], v.limits[0].windows, v.updatedAt)
  }

  function Completed(prior: Usage, v: Usage): Usage
    requires |v.limits| == 1 && |prior.limits| == 1
  {
    var l, k := v.limits[0], prior.limits[0];
    v.(limits := [l.(allowed := if l.allowed.None? then k.allowed else l.allowed, reached := if l.reached.None? then k.reached else l.reached)])
  }

  /** Quota that came with a response of `revision`, on the entry just loaded. */
  function Observe(s: State, id: string, revision: int, value: Usage, saved: Saved): State {
    if !IsLive(s, id) || s.objects[s.entries[id]].revision != revision then s
    else
      var o := s.entries[id];
      var e := s.objects[o];
      if e.snapshot.None? || !Extends(e.snapshot.value, value) then s
      else
        var v := Completed(e.snapshot.value, value);
        var published := saved.Stored? && CanSave(s, id, revision, v);
        Save(s, id, revision, v, saved).(objects := if published then s.objects[o := e.(snapshot := Some(v))] else s.objects)
  }

  // ---- Steps ----

  datatype Event =
    | Read(id: string, victim: string, now: int)
    | Poll(id: string, at: int)
    | EndPoll(object: nat, read: Option<Usage>, saved: Saved)
    | Response(id: string, victim: string, revision: int, value: Usage, now: int, saved: Saved)
    | Bump(id: string)
    | SetReady(id: string, ready: bool)

  predicate CanStep(s: State, e: Event) {
    match e
    case EndPoll(o, _, _) => o in s.objects && s.objects[o].flight.Some?
    case Bump(id) => id in s.accounts
    case SetReady(id, _) => id in s.accounts
    case _ => true
  }

  function Step(s: State, e: Event): State
    requires CanStep(s, e)
  {
    match e
    case Read(id, victim, now) => (match Load(s, id, victim, now) case None => s case Some(t) => t)
    case Poll(id, at) => StartPoll(s, id, at)
    case EndPoll(o, value, saved) => FinishPoll(s, o, value, saved)
    case Response(id, victim, revision, value, now, saved) =>
      (match Load(s, id, victim, now) case None => s case Some(t) => Observe(t, id, revision, value, saved))
    case Bump(id) => s.(accounts := s.accounts[id := s.accounts[id].(revision := s.accounts[id].revision + 1)])
    case SetReady(id, ready) => s.(accounts := s.accounts[id := s.accounts[id].(ready := ready)])
  }

  // ---- What is saved ----

  /** A read of the account's present quota, with snapshots allowed, that no later observation of it is stored
  against. */
  predicate Writable(s: State, id: string, revision: int, updatedAt: int) {
    && id in s.accounts && s.accounts[id] == Account(revision, true)
    && !(id in s.rows && s.rows[id].revision == revision && updatedAt < s.rows[id].snapshot.updatedAt)
  }

  /** A poll ends with its snapshot stored and shown, marked with the time it started, exactly when it read one,
  no response that came later is shown, and it is writable; otherwise with the entry as it was. */
  lemma PollIsStoredIff(s: State, o: nat, value: Option<Usage>)
    requires o in s.objects && s.objects[o].flight.Some?
    ensures var e := s.objects[o];
      var t := FinishPoll(s, o, value, Stored);
      if value.Some? && (e.snapshot.Some? ==> e.snapshot.value.readStartedAt <= e.flight.value) && Writable(s, e.id, e.revision, value.value.updatedAt)
      then var v := Usage(value.value.limits, value.value.updatedAt, e.flight.value);
           t == s.(rows := s.rows[e.id := Row(e.revision, v)], objects := s.objects[o := e.(snapshot := Some(v), flight := None)])
      else t == s.(objects := s.objects[o := e.(flight := None)])
  {
  }

  /** The one limit of a response, with what it does not say of allowance taken from the snapshot before it. */
  predicate FilledIn(prior: Limit, said: Limit, l: Limit) {
    && l.name == said.name && l.windows == said.windows
    && (if said.allowed.Some? then l.allowed == said.allowed else l.allowed == prior.allowed)
    && (if said.reached.Some? then l.reached == said.reached else l.reached == prior.reached)
  }

  /** A response is stored and shown exactly when the account's live entry has a snapshot of the revision it was
  asked under that it extends, and it is writable; otherwise it changes nothing. */
  lemma ResponseIsStoredIff(s: State, id: string, revision: int, value: Usage)
    ensures var t := Observe(s, id, revision, value, Stored);
      if && IsLive(s, id) && s.objects[s.entries[id]].revision == revision && s.objects[s.entries[id]].snapshot.Some?
         && Extends(s.objects[s.entries[id]].snapshot.value, value) && Writable(s, id, revision, value.updatedAt)
      then var (o, prior) := (s.entries[id], s.objects[s.entries[id]].snapshot.value);
           exists l :: FilledIn(prior.limits[0], value.limits[0], l)
             && t == s.(rows := s.rows[id := Row(revision, Usage([l], value.updatedAt, value.readStartedAt))],
                        objects := s.objects[o := s.objects[o].(snapshot := Some(Usage([l], value.updatedAt, value.readStartedAt)))])
      else t == s
  {
    if IsLive(s, id) && s.objects[s.entries[id]].snapshot.Some? && Extends(s.objects[s.entries[id]].snapshot.value, value) {
      var prior := s.objects[s.entries[id]].snapshot.value;
      var l := Completed(prior, value).limits[0];
      assert FilledIn(prior.limits[0], value.limits[0], l) && Completed(prior, value) == Usage([l], value.updatedAt, value.readStartedAt);
    }
  }

  // ---- Coherence ----

  predicate Wired(s: State) {
    && |s.entries| <= CAPACITY
    && (forall o <- s.objects :: o < s.next)
    && (forall id <- s.entries :: s.entries[id] in s.objects && s.objects[s.entries[id]].id == id)
  }

  /** An entry is of the present revision or an earlier one, and one out of the cache that a poll still
  holds is of an earlier one. */
  predicate Dated(s: State) {
    && (forall id <- s.entries | id in s.accounts :: s.entries[id] in s.objects && s.objects[s.entries[id]].revision <= s.accounts[id].revision)
    && (forall o <- s.objects | s.objects[o].flight.Some? && s.objects[o].id in s.accounts && !(s.objects[o].id in s.entries && s.entries[s.objects[o].id] == o) ::
         s.objects[o].revision < s.accounts[s.objects[o].id].revision)
  }

  /** A live entry shows exactly what is committed for its revision. */
  predicate Coherent(s: State) {
    forall id <- s.entries | IsLive(s, id) :: s.objects[s.entries[id]].snapshot == Committed(s, id)
  }

  /** No row is of a revision its account has not reached. */
  predicate RowsDated(s: State) {
    forall id <- s.rows | id in s.accounts :: s.rows[id].revision <= s.accounts[id].revision
  }

  predicate Sound(s: State) { Wired(s) && Dated(s) && RowsDated(s) && Coherent(s) }

  predicate Certain(e: Event) {
    e.EndPoll? || e.Response? ==> !e.saved.Landed?
  }

  lemma FillIsWired(s: State, id: string, now: int)
    requires Wired(s) && id in s.accounts && |s.entries| < CAPACITY
    ensures Wired(Fill(s, id, now))
  {
    assert s.entries[id := s.next].Keys == s.entries.Keys + {id};
  }

  lemma FillIsDated(s: State, id: string, now: int)
    requires Wired(s) && Dated(s) && id in s.accounts && !IsLive(s, id)
    ensures Dated(Fill(s, id, now))
  {
  }

  lemma FillIsCoherent(s: State, id: string, now: int)
    requires Wired(s) && Coherent(s) && id in s.accounts
    ensures Coherent(Fill(s, id, now))
  {
    var t := Fill(s, id, now);
    forall other <- t.entries | IsLive(t, other) ensures t.objects[t.entries[other]].snapshot == Committed(t, other) {
      assert other != id ==> IsLive(s, other);
    }
  }

  lemma FillIsSound(s: State, id: string, now: int)
    requires Sound(s) && id in s.accounts && !IsLive(s, id) && |s.entries| < CAPACITY
    ensures Sound(Fill(s, id, now))
  {
    hide Wired, Dated, Coherent, Fill;
    FillIsWired(s, id, now);
    FillIsDated(s, id, now);
    FillIsCoherent(s, id, now);
  }

  lemma EvictIsSound(s: State, victim: string)
    requires Sound(s) && Evictable(s, victim)
    ensures var t := s.(entries := s.entries - {victim}); Sound(t) && |t.entries| == |s.entries| - 1
  {
    assert s.entries.Keys == (s.entries - {victim}).Keys + {victim};
  }

  lemma TouchIsSound(s: State, id: string, now: int)
    requires Sound(s) && IsLive(s, id)
    ensures var t := s.(objects := s.objects[s.entries[id] := s.objects[s.entries[id]].(accessed := now)]);
      Sound(t) && IsLive(t, id)
  {
  }

  lemma LoadIsSound(s: State, id: string, victim: string, now: int)
    requires Sound(s)
    ensures var t := Load(s, id, victim, now);
      t.Some? ==> Sound(t.value) && t.value.rows == s.rows && t.value.accounts == s.accounts && IsLive(t.value, id)
  {
    assert |s.entries| <= CAPACITY;
    hide Sound, Fill, Committed, Wired, Dated, Coherent, RowsDated;
    var u := s.(entries := s.entries - {victim});
    if id in s.accounts && !IsLive(s, id) && |s.entries| < CAPACITY {
      FillIsLive(s, id, now);
      FillIsSound(s, id, now);
    } else if id in s.accounts && !IsLive(s, id) && Oldest(s, victim) {
      EvictIsSound(s, victim);
      FillIsSound(u, id, now);
      FillIsLive(u, id, now);
    } else if IsLive(s, id) {
      TouchIsSound(s, id, now);
    }
  }

  lemma FillIsLive(s: State, id: string, now: int)
    requires id in s.accounts
    ensures IsLive(Fill(s, id, now), id)
  {
  }

  lemma FinishPollIsSound(s: State, o: nat, value: Option<Usage>, saved: Saved)
    requires Sound(s) && o in s.objects && s.objects[o].flight.Some? && !saved.Landed?
    ensures Sound(FinishPoll(s, o, value, saved))
  {
    hide Wired, Dated, RowsDated, Coherent, FinishPoll;
    FinishPollIsDated(s, o, value, saved);
    FinishPollIsWired(s, o, value, saved);
    FinishPollIsCoherent(s, o, value, saved);
  }

  lemma FinishPollIsDated(s: State, o: nat, value: Option<Usage>, saved: Saved)
    requires Dated(s) && o in s.objects && s.objects[o].flight.Some?
    ensures Dated(FinishPoll(s, o, value, saved))
  {
    hide CanSave;
  }

  lemma FinishPollIsWired(s: State, o: nat, value: Option<Usage>, saved: Saved)
    requires Wired(s) && RowsDated(s) && o in s.objects && s.objects[o].flight.Some?
    ensures var t := FinishPoll(s, o, value, saved); Wired(t) && RowsDated(t)
  {
  }

  lemma FinishPollIsCoherent(s: State, o: nat, value: Option<Usage>, saved: Saved)
    requires Sound(s) && o in s.objects && s.objects[o].flight.Some? && !saved.Landed?
    ensures Coherent(FinishPoll(s, o, value, saved))
  {
    hide RowsDated;
  }

  lemma ObserveIsSound(s: State, id: string, revision: int, value: Usage, saved: Saved)
    requires Sound(s) && !saved.Landed?
    ensures Sound(Observe(s, id, revision, value, saved))
  {
  }

  lemma StepIsSound(s: State, e: Event)
    requires Sound(s) && CanStep(s, e) && Certain(e)
    ensures Sound(Step(s, e))
  {
    match e
    case Read(id, victim, now) => LoadIsSound(s, id, victim, now);
    case EndPoll(o, value, saved) => FinishPollIsSound(s, o, value, saved);
    case Response(id, victim, revision, value, now, saved) =>
      LoadIsSound(s, id, victim, now);
      var t := Load(s, id, victim, now);
      if t.Some? {
        ObserveIsSound(t.value, id, revision, value, saved);
      }
    case _ =>
  }

  // ---- Writes that land but report failure ----

  /** The snapshot a finished poll tries to save differs from the row. */
  predicate PollSavesAnother(s: State, o: nat, value: Option<Usage>)
    requires o in s.objects && s.objects[o].flight.Some?
  {
    var e := s.objects[o];
    var started := e.flight.value;
    && value.Some? && !Overtaken(e, started)
    && CanSave(s, e.id, e.revision, value.value.(readStartedAt := started))
    && !(e.id in s.rows && s.rows[e.id] == Row(e.revision, value.value.(readStartedAt := started)))
  }

  /** A poll whose write lands but reports failure breaks coherence exactly when it was about to save
  another snapshot than the row's: the cache goes on showing the one before it. */
  lemma {:induction false} LandedPollBreaksCoherenceIff(s: State, o: nat, value: Option<Usage>)
    requires Sound(s) && o in s.objects && s.objects[o].flight.Some?
    ensures var t := FinishPoll(s, o, value, Landed);
      Wired(t) && Dated(t) && RowsDated(t) && (Coherent(t) <==> !PollSavesAnother(s, o, value))
  {
    var t := FinishPoll(s, o, value, Landed);
    var id := s.objects[o].id;
    if PollSavesAnother(s, o, value) {
      assert IsLive(s, id) && s.entries[id] == o;
      assert IsLive(t, id) && t.objects[o].snapshot == s.objects[o].snapshot;
    } else {
      assert t.rows == s.rows;
    }
  }

  /** The quota of a response is about to be saved. */
  predicate ResponseSaves(s: State, id: string, revision: int, value: Usage) {
    && IsLive(s, id) && s.accounts[id].revision == revision
    && var before := s.objects[s.entries[id]].snapshot;
       before.Some? && Extends(before.value, value) && CanSave(s, id, revision, Completed(before.value, value))
  }

  /** A response whose write lands but reports failure always breaks coherence, if it is saved at all. */
  lemma {:induction false} LandedResponseBreaksCoherenceIff(s: State, id: string, revision: int, value: Usage)
    requires Sound(s)
    ensures var t := Observe(s, id, revision, value, Landed);
      Wired(t) && Dated(t) && RowsDated(t) && (Coherent(t) <==> !ResponseSaves(s, id, revision, value))
  {
    var t := Observe(s, id, revision, value, Landed);
    if ResponseSaves(s, id, revision, value) {
      assert IsLive(t, id) && t.objects[t.entries[id]].snapshot == s.objects[s.entries[id]].snapshot == Committed(s, id);
      assert Committed(t, id).value.readStartedAt == value.readStartedAt;
    } else {
      assert t == s;
    }
  }

  // ---- Order of observations ----

  /** Rows of an unchanged revision only move to reads that started later. */
  predicate ReadsAdvance(s: State, t: State) {
    forall id <- s.rows | id in t.rows && t.rows[id].revision == s.rows[id].revision ::
      s.rows[id].snapshot.readStartedAt <= t.rows[id].snapshot.readStartedAt
  }

  /** However polls and responses race, a snapshot never gives way to one that was read before it. */
  lemma StepReadsAdvance(s: State, e: Event)
    requires Sound(s) && CanStep(s, e)
    ensures ReadsAdvance(s, Step(s, e))
  {
    match e
    case Read(id, victim, now) => LoadIsSound(s, id, victim, now);
    case EndPoll(o, value, saved) => PollReadsAdvance(s, o, value, saved);
    case Response(id, victim, revision, value, now, saved) =>
      LoadIsSound(s, id, victim, now);
      var t := Load(s, id, victim, now);
      if t.Some? {
        ObserveReadsAdvance(t.value, id, revision, value, saved);
      }
    case _ =>
  }

  lemma PollReadsAdvance(s: State, o: nat, value: Option<Usage>, saved: Saved)
    requires Sound(s) && o in s.objects && s.objects[o].flight.Some?
    ensures ReadsAdvance(s, FinishPoll(s, o, value, saved))
  {
    var id := s.objects[o].id;
    if id in s.accounts && s.accounts[id].revision == s.objects[o].revision {
      assert IsLive(s, id) && s.entries[id] == o;
    }
  }

  lemma ObserveReadsAdvance(s: State, id: string, revision: int, value: Usage, saved: Saved)
    requires Sound(s)
    ensures ReadsAdvance(s, Observe(s, id, revision, value, saved))
  {
  }

  predicate CanRun(s: State, es: seq<Event>)
    decreases |es|
  {
    es == [] || (CanStep(s, es[0]) && CanRun(Step(s, es[0]), es[1..]))
  }

  function Run(s: State, es: seq<Event>): State
    requires CanRun(s, es)
    decreases |es|
  {
    if es == [] then s else Run(Step(s, es[0]), es[1..])
  }

  predicate RowsStay(s: State, t: State) {
    forall id <- s.rows :: id in t.rows && s.rows[id].revision <= t.rows[id].revision
  }

  /** No row is lost, or goes back to an earlier revision. */
  lemma StepRowsStay(s: State, e: Event)
    requires Sound(s) && CanStep(s, e)
    ensures RowsStay(s, Step(s, e))
  {
    hide Load, Observe, FinishPoll, Wired, Dated, Coherent;
    match e
    case Read(id, victim, now) => LoadIsSound(s, id, victim, now);
    case Response(id, victim, revision, value, now, saved) =>
      LoadIsSound(s, id, victim, now);
      var t := Load(s, id, victim, now);
      if t.Some? {
        ObserveRowsStay(t.value, id, revision, value, saved);
      }
    case EndPoll(o, value, saved) => PollRowsStay(s, o, value, saved);
    case _ =>
  }

  lemma PollRowsStay(s: State, o: nat, value: Option<Usage>, saved: Saved)
    requires RowsDated(s) && o in s.objects && s.objects[o].flight.Some?
    ensures RowsStay(s, FinishPoll(s, o, value, saved))
  {
  }

  lemma ObserveRowsStay(s: State, id: string, revision: int, value: Usage, saved: Saved)
    requires RowsDated(s)
    ensures RowsStay(s, Observe(s, id, revision, value, saved))
  {
  }

  /** Under every interleaving of reads, polls, responses, evictions and revision changes whose writes
  are certain, live entries show the committed rows, the cache is bounded, and every row that stays in
  its revision moves only forward. */
  lemma {:induction false} RunIsSound(s: State, es: seq<Event>)
    requires Sound(s) && CanRun(s, es) && forall e <- es :: Certain(e)
    ensures Sound(Run(s, es)) && ReadsAdvance(s, Run(s, es)) && RowsStay(s, Run(s, es)) && |Run(s, es).entries| <= 100
    decreases |es|
  {
    hide Sound, Step, CanStep, Certain;
    if es != [] {
      assert Certain(es[0]);
      StepIsSound(s, es[0]);
      StepReadsAdvance(s, es[0]);
      StepRowsStay(s, es[0]);
      RunIsSound(Step(s, es[0]), es[1..]);
    } else {
      CacheIsBounded(s);
    }
  }

  lemma CacheIsBounded(s: State)
    requires Sound(s)
    ensures |s.entries| <= 100
  {
  }

  lemma StartIsSound(accounts: map<string, Account>, rows: map<string, Row>)
    requires forall id <- rows | id in accounts :: rows[id].revision <= accounts[id].revision
    ensures Sound(State(accounts, rows, map[], map[], 0))
  {
  }

  /** A first poll, then a response that arrives during the second one; each reads later than the one
  before it. */
  function Overlapping(id: string, first: Usage, response: Usage, second: Usage): seq<Event> {
    [Read(id, "", 0), Poll(id, 1), EndPoll(0, Some(first), Stored), Poll(id, 2),
     Response(id, "", 0, response, 3, Landed), EndPoll(0, Some(second), Stored)]
  }

  const SEEN := Window(0, Some(10.0), Some(100))

  function Seen(at: int): Usage {
    Usage([Limit("", [SEEN], None, None)], at, at)
  }

  /** From the empty cache, a response whose write lands but reports failure leaves the cache showing the
  snapshot before it, and the poll that began before the response then replaces it in the row too. */
  lemma LandedResponseIsForgotten()
    ensures var s := State(map["a" := Account(0, true)], map[], map[], map[], 0);
      var es := Overlapping("a", Seen(1), Seen(3), Seen(4));
      && Sound(s) && CanRun(s, es[..5]) && CanRun(s, es)
      && !Coherent(Run(s, es[..5])) && !ReadsAdvance(Run(s, es[..5]), Run(s, es))
  {
    var states := OverlappingStates();
    var es := Overlapping("a", Seen(1), Seen(3), Seen(4));
    EntryIsRead();
    PollsStart();
    FirstPollIsStored();
    ResponseLands();
    SecondPollIsStored();
    hide Step, CanStep;
    RunFollows(states[..6], es[..5]);
    RunFollows(states, es);
  }

  function OverlappingStates(): (states: seq<State>)
    ensures |states| == 7
  {
    var e := Entry("a", 0, None, None, 0);
    var seen := e.(snapshot := Some(Seen(1)));
    var s0 := State(map["a" := Account(0, true)], map[], map[], map[], 0);
    var s1 := s0.(objects := map[0 := e], entries := map["a" := 0], next := 1);
    var s2 := s1.(objects := map[0 := e.(flight := Some(1))]);
    var s3 := s1.(objects := map[0 := seen], rows := map["a" := Row(0, Seen(1))]);
    var s4 := s3.(objects := map[0 := seen.(flight := Some(2))]);
    var s5 := s4.(objects := map[0 := seen.(flight := Some(2), accessed := 3)], rows := map["a" := Row(0, Seen(3))]);
    var last := Seen(4).(readStartedAt := 2);
    [s0, s1, s2, s3, s4, s5, s5.(objects := map[0 := e.(snapshot := Some(last), accessed := 3)], rows := map["a" := Row(0, last)])]
  }

  lemma EntryIsRead()
    ensures var (s, es) := (OverlappingStates(), Overlapping("a", Seen(1), Seen(3), Seen(4)));
      Sound(s[0]) && CanStep(s[0], es[0]) && Step(s[0], es[0]) == s[1]
  {
    var s := OverlappingStates();
    StartIsSound(s[0].accounts, s[0].rows);
    assert Load(s[0], "a", "", 0) == Some(s[1]);
  }

  lemma PollsStart()
    ensures var (s, es) := (OverlappingStates(), Overlapping("a", Seen(1), Seen(3), Seen(4)));
      && CanStep(s[1], es[1]) && Step(s[1], es[1]) == s[2]
      && CanStep(s[3], es[3]) && Step(s[3], es[3]) == s[4]
  {
    var s := OverlappingStates();
    assert IsLive(s[1], "a") && IsLive(s[3], "a");
    assert StartPoll(s[1], "a", 1) == s[2];
    assert StartPoll(s[3], "a", 2) == s[4];
  }

  lemma FirstPollIsStored()
    ensures var (s, es) := (OverlappingStates(), Overlapping("a", Seen(1), Seen(3), Seen(4)));
      CanStep(s[2], es[2]) && Step(s[2], es[2]) == s[3]
  {
    var s := OverlappingStates();
    var t := FinishPoll(s[2], 0, Some(Seen(1)), Stored);
    assert t.objects == s[3].objects;
    assert t.rows == s[3].rows;
  }

  lemma ResponseLands()
    ensures var (s, es) := (OverlappingStates(), Overlapping("a", Seen(1), Seen(3), Seen(4)));
      CanStep(s[4], es[4]) && Step(s[4], es[4]) == s[5] && !Coherent(s[5])
  {
    var (s, es) := (OverlappingStates(), Overlapping("a", Seen(1), Seen(3), Seen(4)));
    assert Succeeds(SEEN, Seen(3).limits[0].windows[0], 3) && Matched(SEEN, Seen(3).limits[0].windows, 3);
    assert Extends(Seen(1), Seen(3)) && Completed(Seen(1), Seen(3)) == Seen(3);
    var t := Load(s[4], "a", "", 3).value;
    assert IsLive(s[4], "a") && t.objects == s[5].objects && IsLive(t, "a");
    assert Observe(t, "a", 0, Seen(3), Landed) == s[5];
    assert IsLive(s[5], "a");
  }

  lemma SecondPollIsStored()
    ensures var (s, es) := (OverlappingStates(), Overlapping("a", Seen(1), Seen(3), Seen(4)));
      CanStep(s[5], es[5]) && Step(s[5], es[5]) == s[6] && !ReadsAdvance(s[5], s[6])
  {
    var (s, es) := (OverlappingStates(), Overlapping("a", Seen(1), Seen(3), Seen(4)));
    assert Step(s[5], es[5]).objects == s[6].objects && Step(s[5], es[5]).rows == s[6].rows;
    assert s[6].rows["a"].snapshot.readStartedAt == 2 && s[5].rows["a"].snapshot.readStartedAt == 3;
  }

  lemma {:induction false} RunFollows(states: seq<State>, es: seq<Event>)
    requires |states| == |es| + 1
    requires forall i :: 0 <= i < |es| ==> CanStep(states[i], es[i]) && Step(states[i], es[i]) == states[i + 1]
    ensures CanRun(states[0], es) && Run(states[0], es) == states[|es|]
    decreases |es|
  {
    if es != [] {
      RunFollows(states[1..], es[1..]);
    }
  }

  // ---- Windows ----

  /** What identifies a window in a response: its kind and the moment it resets. */
  function Keys(ws: seq<Window>): set<(int, Option<int>)> {
    set i | 0 <= i < |ws| :: (ws[i].kind, ws[i].resetAt)
  }

  predicate Alike(w: Window, x: Window) {
    w.kind == x.kind && w.resetAt == x.resetAt
  }

  predicate Distinct(ws: seq<Window>) {
    forall i, j :: 0 <= i < j < |ws| ==> !Alike(ws[i], ws[j])
  }

  lemma {:induction false} KeysCount(ws: seq<Window>)
    ensures |Keys(ws)| <= |ws|
    ensures |Keys(ws)| == |ws| <==> Distinct(ws)
  {
    if ws == [] {
      assert Keys(ws) == {};
    } else {
      var front, last := ws[..|ws| - 1], ws[|ws| - 1];
      KeysCount(front);
      assert forall i :: 0 <= i < |front| ==> front[i] == ws[i];
      assert Keys(ws) == Keys(front) + {(last.kind, last.resetAt)};
      if (last.kind, last.resetAt) in Keys(front) {
        assert Keys(ws) == Keys(front);
        var i :| 0 <= i < |front| && Alike(front[i], last);
        assert Alike(ws[i], ws[|ws| - 1]);
      }
    }
  }

  /** When no two old windows are of one kind with one reset, a response's windows are the old ones, each
  with the same reset and no less used. */
  lemma {:induction false} ResponseNeverLowersQuota(prior: Usage, v: Usage, j: nat)
    requires Extends(prior, v) && Distinct(prior.limits[0].windows) && j < |v.limits[0].windows|
    ensures Distinct(v.limits[0].windows)
    ensures exists i :: 0 <= i < |prior.limits[0].windows| && Succeeds(prior.limits[0].windows[i], v.limits[0].windows[j], v.updatedAt)
  {
    var ws, ns := prior.limits[0].windows, v.limits[0].windows;
    KeysCount(ws);
    KeysCount(ns);
    forall k | k in Keys(ws) ensures k in Keys(ns) {
      var i :| 0 <= i < |ws| && (ws[i].kind, ws[i].resetAt) == k;
      assert Matched(ws[i], ns, v.updatedAt);
      var m :| 0 <= m < |ns| && Succeeds(ws[i], ns[m], v.updatedAt);
      assert Alike(ns[m], ws[i]);
    }
    assert Keys(ns) == Keys(ws) + (Keys(ns) - Keys(ws));
    assert (ns[j].kind, ns[j].resetAt) in Keys(ns);
    assert (ns[j].kind, ns[j].resetAt) in Keys(ws);
    var i :| 0 <= i < |ws| && Alike(ws[i], ns[j]);
    assert Matched(ws[i], ns, v.updatedAt);
    var m :| 0 <= m < |ns| && Succeeds(ws[i], ns[m], v.updatedAt);
    AlikeIsShared(ws[i], ns[m], ns[j]);
  }

  lemma AlikeIsShared(w: Window, x: Window, y: Window)
    requires Alike(w, x) && Alike(w, y)
    ensures Alike(x, y) && Alike(y, x)
  {
  }

  /** A window of the response follows on none of the old ones. */
  predicate HasStranger(prior: Usage, v: Usage)
    requires |prior.limits| == 1 && |v.limits| == 1
  {
    exists w :: w in v.limits[0].windows && forall x :: x in prior.limits[0].windows ==> !Succeeds(x, w, v.updatedAt)
  }

  ghost predicate AdmitsStranger(prior: Usage) {
    exists v :: Extends(prior, v) && HasStranger(prior, v)
  }

  /** A snapshot that some response can follow on: one limit for everything, whose windows are all
  measured and still open. */
  predicate Extendable(prior: Usage) {
    && |prior.limits| == 1 && prior.limits[0].name == "" && prior.limits[0].windows != []
    && forall w <- prior.limits[0].windows :: w.used.Some? && w.resetAt.Some? && prior.updatedAt < w.resetAt.value
  }

  lemma OnlyExtendableIsExtended(prior: Usage, v: Usage)
    requires Extends(prior, v)
    ensures Extendable(prior)
  {
    var ws := prior.limits[0].windows;
    forall w <- ws ensures w.used.Some? && w.resetAt.Some? && prior.updatedAt < w.resetAt.value {
      var i :| 0 <= i < |ws| && ws[i] == w;
      assert Matched(ws[i], v.limits[0].windows, v.updatedAt);
    }
  }

  function LastReset(ws: seq<Window>): (at: int)
    ensures forall w <- ws :: w.resetAt.Some? ==> w.resetAt.value <= at
  {
    if ws == [] then 0
    else Max(LastReset(ws[1..]), if ws[0].resetAt.Some? then ws[0].resetAt.value else 0)
  }

  /** The response repeats the snapshot, except that the less used of two like windows is replaced by one
  that starts anew. */
  lemma ReplacedWindowIsAStranger(prior: Usage, kept: nat, lost: nat)
    requires Extendable(prior)
    requires var ws := prior.limits[0].windows;
      kept < |ws| && lost < |ws| && kept != lost && Alike(ws[kept], ws[lost]) && ws[lost].used.value <= ws[kept].used.value
    ensures AdmitsStranger(prior)
  {
    var ws := prior.limits[0].windows;
    var renewed := Window(ws[lost].kind, Some(0.0), Some(LastReset(ws) + 1));
    var ns := ws[lost := renewed];
    var v := Usage([Limit("", ns, None, None)], prior.updatedAt, prior.readStartedAt + 1);
    forall i | 0 <= i < |ws| ensures Matched(ws[i], ns, v.updatedAt) {
      assert ws[i] in ws;
      assert Succeeds(ws[i], ns[if i == lost then kept else i], v.updatedAt);
    }
    assert Extends(prior, v);
    assert ns[lost] == renewed && renewed in v.limits[0].windows;
    assert HasStranger(prior, v);
  }

  /** A response can bring a window that follows on none of the snapshot's exactly when the snapshot can
  be followed at all and has two windows of one kind with one reset. */
  lemma {:induction false} StrangersEnterIffRepeated(prior: Usage)
    ensures AdmitsStranger(prior) <==> Extendable(prior) && !Distinct(prior.limits[0].windows)
  {
    if v :| Extends(prior, v) && HasStranger(prior, v) {
      OnlyExtendableIsExtended(prior, v);
      if Distinct(prior.limits[0].windows) {
        var w :| w in v.limits[0].windows && forall x :: x in prior.limits[0].windows ==> !Succeeds(x, w, v.updatedAt);
        var j :| 0 <= j < |v.limits[0].windows| && v.limits[0].windows[j] == w;
        ResponseNeverLowersQuota(prior, v, j);
        assert false;
      }
    }
    if Extendable(prior) && !Distinct(prior.limits[0].windows) {
      var ws := prior.limits[0].windows;
      var i, j :| 0 <= i < j < |ws| && Alike(ws[i], ws[j]);
      assert ws[i] in ws && ws[j] in ws;
      if ws[j].used.value <= ws[i].used.value {
        ReplacedWindowIsAStranger(prior, i, j);
      } else {
        ReplacedWindowIsAStranger(prior, j, i);
      }
    }
  }

  // ---- The cache ----

  class Cache {
    var accounts: map<string, Account>
    var rows: map<string, Row>
    var objects: map<nat, Entry>
    var entries: map<string, nat>
    var next: nat

    function Current(): State
      reads this
    {
      State(accounts, rows, objects, entries, next)
    }

    /** The entry that has gone unused longest among those no poll is running for. */
    method FindOldest() returns (found: bool, victim: string)
      requires Wired(Current())
      ensures found ==> Oldest(Current(), victim)
      ensures !found ==> forall id <- entries :: !Evictable(Current(), id)
    {
      found, victim := false, "";
      var left: set<string> := entries.Keys;
      while left != {}
        invariant left <= entries.Keys
        invariant found ==> Evictable(Current(), victim)
        invariant found ==> forall id <- entries | id !in left && Evictable(Current(), id) :: objects[entries[victim]].accessed <= objects[entries[id]].accessed
        invariant !found ==> forall id <- entries | id !in left :: !Evictable(Current(), id)
        decreases |left|
      {
        SomeMember(left);
        var id :| id in left;
        var e := objects[entries[id]];
        if e.flight.None? && (!found || e.accessed < objects[entries[victim]].accessed) {
          found, victim := true, id;
        }
        left := left - {id};
      }
    }

    /** The account's entry, read from its row if the cache has none of its revision; an account for
    which there is no room is told so. */
    method LoadEntry(id: string, now: int) returns (loaded: bool, ghost victim: string)
      requires Wired(Current())
      modifies this
      ensures var t := Load(old(Current()), id, victim, now);
        loaded == t.Some? && Current() == if t.Some? then t.value else old(Current())
      ensures !loaded && id in accounts ==> |entries| >= CAPACITY && forall other <- entries :: !Evictable(Current(), other)
    {
      hide Fill;
      victim := "";
      if id !in accounts {
        return false, victim;
      }
      if id in entries && objects[entries[id]].revision == accounts[id].revision {
        objects := objects[entries[id] := objects[entries[id]].(accessed := now)];
        return true, victim;
      }
      if CAPACITY <= |entries| {
        var found, oldest := FindOldest();
        victim := oldest;
        if !found {
          return false, victim;
        }
        entries := entries - {oldest};
      }
      FillEntry(id, now);
      return true, victim;
    }

    method FillEntry(id: string, now: int)
      requires id in accounts
      modifies this
      ensures Current() == Fill(old(Current()), id, now)
    {
      var revision := accounts[id].revision;
      var snapshot := if id in rows && rows[id].revision == revision then Some(rows[id].snapshot) else None;
      objects := objects[next := Entry(id, revision, snapshot, None, now)];
      entries := entries[id := next];
      next := next + 1;
    }

    /** Whether every old window has a successor in the response. */
    method AllMatched(ws: seq<Window>, ns: seq<Window>, at: int) returns (all: bool)
      ensures all == forall i :: 0 <= i < |ws| ==> Matched(ws[i], ns, at)
    {
      for i := 0 to |ws|
        invariant forall k :: 0 <= k < i ==> Matched(ws[k], ns, at)
      {
        var matched := false;
        for j := 0 to |ns|
          invariant matched == exists k :: 0 <= k < j && Succeeds(ws[i], ns[k], at)
        {
          if Succeeds(ws[i], ns[j], at) {
            matched := true;
          }
        }
        if !matched {
          return false;
        }
      }
      return true;
    }

    method ObserveResponse(id: string, revision: int, value: Usage, saved: Saved)
      modifies this
      ensures Current() == Observe(old(Current()), id, revision, value, saved)
    {
      if !IsLive(Current(), id) {
        return;
      }
      var e := objects[entries[id]];
      if e.revision != revision || e.snapshot.None? {
        return;
      }
      var before := e.snapshot.value;
      if value.readStartedAt <= before.readStartedAt || value.updatedAt < before.updatedAt || |value.limits| != 1 || |before.limits| != 1 {
        return;
      }
      var current, following := before.limits[0], value.limits[0];
      if current.name != "" || following.name != "" || |current.windows| != |following.windows| || |following.windows| == 0 {
        return;
      }
      var all := AllMatched(current.windows, following.windows, value.updatedAt);
      if !all {
        return;
      }
      assert Extends(before, value);
      var v := Completed(before, value);
      var can := CanSave(Current(), id, revision, v);
      if can && !saved.Lost? {
        rows := rows[id := Row(revision, v)];
      }
      if can && saved.Stored? {
        objects := objects[entries[id] := e.(snapshot := Some(v))];
      }
    }

    method EndPoll(o: nat, value: Option<Usage>, saved: Saved)
      requires o in objects && objects[o].flight.Some?
      modifies this
      ensures Current() == FinishPoll(old(Current()), o, value, saved)
    {
      var e := objects[o];
      var started := e.flight.value;
      e := e.(flight := None);
      if value.Some? && !(e.snapshot.Some? && started < e.snapshot.value.readStartedAt) {
        var v := value.value.(readStartedAt := started);
        var can := CanSave(Current(), e.id, e.revision, v);
        if can && !saved.Lost? {
          rows := rows[e.id := Row(e.revision, v)];
        }
        if can && saved.Stored? {
          e := e.(snapshot := Some(v));
        }
      }
      objects := objects[o := e];
    }
  }
}
