/** The gateway's steps as they change its fields under the lock, each tied to its step on states. */
module Leases {

  import opened Common
  import opened LeaseState

  // ---- The loops over accounts and models ----

  /** Reads every account into memory, and takes its limit on concurrency from its row. */
  method FollowRows(health: map<string, Runtime>, accounts: map<string, AccountRow>) returns (followed: map<string, Runtime>)
    ensures forall id :: id in followed <==> id in health || id in accounts
    ensures forall id <- accounts :: followed[id] == Followed(health, id, accounts[id])
    ensures forall id <- health | id !in accounts :: followed[id] == health[id]
  {
    followed := health;
    var rows: set<string> := accounts.Keys;
    while rows != {}
      invariant rows <= accounts.Keys
      invariant forall id :: id in followed <==> id in health || (id in accounts && id !in rows)
      invariant forall id <- accounts | id !in rows :: followed[id] == Followed(health, id, accounts[id])
      invariant forall id <- health | id !in accounts || id in rows :: followed[id] == health[id]
      decreases |rows|
    {
      SomeMember(rows);
      var id :| id in rows;
      var row := accounts[id];
      var state := if id in followed then followed[id] else Runtime(row.maxConcurrency, 0, row.cooldownUntil, row.failures, 0, row.revision);
      followed := FollowRow(health, followed, id, row, state);
      rows := rows - {id};
    }
  }

  method FollowRow(ghost health: map<string, Runtime>, followed: map<string, Runtime>, id: string, row: AccountRow, state: Runtime) returns (after: map<string, Runtime>)
    requires id in health ==> state == health[id]
    requires id !in health ==> state == Runtime(row.maxConcurrency, 0, row.cooldownUntil, row.failures, 0, row.revision)
    ensures after == followed[id := Followed(health, id, row)]
  {
    after := followed[id := state.(maxConcurrency := row.maxConcurrency)];
  }

  /** Drops the accounts that are gone and idle. */
  method DropGone(health: map<string, Runtime>, accounts: map<string, AccountRow>) returns (kept: map<string, Runtime>)
    ensures kept == map id | id in health && (id in accounts || health[id].inFlight != 0) :: health[id]
  {
    kept := health;
    var states: set<string> := health.Keys;
    while states != {}
      invariant states <= health.Keys
      invariant forall id :: id in kept <==> id in health && (id in states || id in accounts || health[id].inFlight != 0)
      invariant forall id <- kept :: kept[id] == health[id]
      decreases |states|
    {
      SomeMember(states);
      var id :| id in states;
      if id !in accounts && health[id].inFlight == 0 {
        kept := kept - {id};
      }
      states := states - {id};
    }
  }

  /** Unpublishes the models that `ended` names. */
  method Unpublish(published: map<Key, nat>, ended: set<Key>) returns (kept: map<Key, nat>)
    ensures kept == map k | k in published && k !in ended :: published[k]
  {
    kept := published;
    var keys: set<Key> := published.Keys;
    while keys != {}
      invariant keys <= published.Keys
      invariant kept.Keys == set k | k in published && (k in keys || k !in ended)
      invariant forall k <- kept :: kept[k] == published[k]
      decreases |keys|
    {
      SomeMember(keys);
      var k :| k in keys;
      if k in ended {
        kept := kept - {k};
      }
      keys := keys - {k};
    }
  }

  // ---- A finished request in parts ----

  function AccountVacated(s: State, l: Lease): State {
    if l.account in s.health then
      s.(health := s.health[l.account := s.health[l.account].(inFlight := Max(0, s.health[l.account].inFlight - 1))])
    else s
  }

  function ModelVacated(s: State, l: Lease): State {
    if l.model.Some? && l.model.value in s.objects then
      s.(objects := s.objects[l.model.value := s.objects[l.model.value].(inFlight := Max(0, s.objects[l.model.value].inFlight - 1))])
    else s
  }

  lemma VacatedInParts(s: State, c: nat)
    requires c in s.open
    ensures var u := AccountVacated(s, s.open[c]); Vacated(s, c) == ModelVacated(u.(open := s.open - {c}), s.open[c])
  {
    var t := Vacated(s, c);
    var v := ModelVacated(AccountVacated(s, s.open[c]).(open := s.open - {c}), s.open[c]);
    assert t.health == v.health;
    assert t.objects == v.objects;
  }

  lemma ReloadInParts(s: State, now: int, followed: map<string, Runtime>, kept: map<string, Runtime>, published: map<Key, nat>)
    requires forall id :: id in followed <==> id in s.health || id in s.disk.accounts
    requires forall id <- s.disk.accounts :: followed[id] == Followed(s.health, id, s.disk.accounts[id])
    requires forall id <- s.health | id !in s.disk.accounts :: followed[id] == s.health[id]
    requires kept == map id | id in followed && (id in s.disk.accounts || followed[id].inFlight != 0) :: followed[id]
    requires published == map k | k in s.published && PublishedNow(s, k) :: s.published[k]
    ensures Reload(s, now) == s.(disk := Pruned(s.disk, now), health := kept, published := published)
  {
    assert Reload(s, now).health == kept;
    hide PublishedNow, Followed, Pruned;
  }

  lemma AccountVacatedOpen(s: State, l: Lease)
    ensures AccountVacated(s, l).open == s.open
  {
  }

  /** The published models whose state is not of their account's present epoch. */
  function EndedModels(d: Disk, objects: map<nat, ModelRuntime>, published: map<Key, nat>): set<Key> {
    set k | k in published && !(published[k] in objects && SameEpoch(d, k, objects[published[k]].lifecycle, objects[published[k]].revision))
  }

  lemma PrunedKeepsAccounts(d: Disk, now: int)
    ensures Pruned(d, now).accounts == d.accounts
  {
  }

  lemma EndedInParts(s: State, now: int, kept: map<Key, nat>)
    requires kept == map k | k in s.published && k !in EndedModels(Pruned(s.disk, now), s.objects, s.published) :: s.published[k]
    ensures kept == map k | k in s.published && PublishedNow(s, k) :: s.published[k]
  {
  }

  lemma NothingToResume(s: State, id: string, at: int, saved: Saved)
    requires id !in Reload(s, Seconds(at)).health || saved.Lost?
    ensures ResumeOf(s, id, at, saved) == Reload(s, Seconds(at))
  {
  }

  lemma ResumeLands(s: State, id: string, at: int)
    requires id in Reload(s, Seconds(at)).health
    ensures var u := Reload(s, Seconds(at)); ResumeOf(s, id, at, Landed) == u.(disk := ResumedDisk(u.disk, id, Resumed(u.health[id])))
  {
  }

  lemma ResumeInParts(s: State, id: string, at: int, kept: map<Key, nat>)
    requires var u := Reload(s, Seconds(at)); id in u.health && kept == map k | k in u.published && k !in OfAccount(u.published, id) :: u.published[k]
    ensures var u := Reload(s, Seconds(at));
      ResumeOf(s, id, at, Stored) == u.(health := u.health[id := Resumed(u.health[id])], disk := ResumedDisk(u.disk, id, Resumed(u.health[id])), published := kept)
  {
    hide Reload, ResumedDisk, Resumed;
  }

  function OfAccount(published: map<Key, nat>, id: string): set<Key> {
    set k | k in published && k.account == id
  }

  class Gateway {
    const policy: Policy
    var disk: Disk
    var health: map<string, Runtime>
    var objects: map<nat, ModelRuntime>
    var nextObject: nat
    var published: map<Key, nat>
    var memberActive: map<int, int>
    var waiting: map<int, int>
    var sequence: int
    var open: map<nat, Lease>
    var calls: map<nat, Call>

    function Current(): State
      reads this
    {
      State(disk, health, objects, nextObject, published, memberActive, waiting, sequence, open, calls)
    }

    constructor (policy: Policy, disk: Disk)
      ensures Current() == Start(disk) && this.policy == policy
    {
      this.policy := policy;
      this.disk := disk;
      health, objects, nextObject, published := map[], map[], 0, map[];
      memberActive, waiting, sequence, open, calls := map[], map[], 0, map[], map[];
    }

    /** Reads the accounts into memory, drops what has gone, and unpublishes what is of another epoch. */
    method LoadRuntime(now: int)
      modifies this
      ensures Current() == Reload(old(Current()), now)
    {
      hide PublishedNow, EndedModels, Pruned, Followed, Reload;
      ghost var s := Current();
      disk := Pruned(disk, now);
      var followed := FollowRows(health, disk.accounts);
      health := DropGone(followed, disk.accounts);
      published := Unpublish(published, EndedModels(disk, objects, published));
      EndedInParts(s, now, published);
      PrunedKeepsAccounts(s.disk, now);
      ReloadInParts(s, now, followed, health, published);
    }

    /** What a lease meets: the account's limits, then the model's, then the bound on model state. */
    method Admit(id: string, model: string, now: int) returns (answer: Admission)
      ensures answer == LeaseAdmission(Current(), id, model, now)
    {
      if id !in disk.accounts || id !in health {
        return NotFound;
      }
      var account := health[id];
      if now < account.cooldownUntil {
        return Cooling(account.cooldownUntil - now);
      }
      if account.maxConcurrency <= account.inFlight || (0 < account.cooldownUntil && 0 < account.failures && 0 < account.inFlight) {
        return Busy;
      }
      if model == "" {
        return Ok;
      }
      var k := Key(id, model);
      var m := ReadModel(Current(), k);
      if now < m.cooldownUntil {
        return Cooling(m.cooldownUntil - now);
      }
      if 0 < m.cooldownUntil && 0 < m.failures && 0 < m.inFlight {
        return Busy;
      }
      return if k !in published && MAX_MODEL_RUNTIME <= |published| then Busy else Ok;
    }

    /** Takes capacity on an account and, under a model, on the model's state; `numbers` is one for a
    request and none for a management check. */
    method Lend(c: nat, id: string, model: string, at: int, numbers: int) returns (answer: Admission)
      modifies this
      ensures Current() == LendOf(old(Current()), c, id, model, at, numbers)
      ensures answer == LeaseAdmission(Reload(old(Current()), Seconds(at)), id, model, Seconds(at))
    {
      LoadRuntime(Seconds(at));
      answer := Admit(id, model, Seconds(at));
      if answer == Ok {
        Take(c, id, model, numbers);
      }
    }

    method Take(c: nat, id: string, model: string, numbers: int)
      requires id in health && id in disk.accounts
      modifies this
      ensures Current() == Opened(old(Current()), c, id, model, numbers)
    {
      hide ReadModel, PublishedNow;
      var held := None;
      if model != "" {
        var o := TakeModel(Key(id, model));
        held := Some(o);
      }
      open := open[c := Lease(id, held, sequence + 1, health[id].revision)];
      health := health[id := health[id].(inFlight := health[id].inFlight + 1)];
      sequence := sequence + numbers;
    }

    /** The model's state, published for one more request. */
    method TakeModel(k: Key) returns (o: nat)
      requires k.account in disk.accounts
      modifies this`objects, this`nextObject, this`published
      ensures o == Taken(old(Current()), k)
      ensures var (s, m) := (old(Current()), ReadModel(old(Current()), k));
        && objects == s.objects[o := m.(inFlight := m.inFlight + 1)] && published == s.published[k := o]
        && nextObject == if PublishedNow(s, k) then s.nextObject else s.nextObject + 1
    {
      var m := ReadModel(Current(), k);
      hide ReadModel;
      o := nextObject;
      if k in published && published[k] in objects && SameEpoch(disk, k, objects[published[k]].lifecycle, objects[published[k]].revision) {
        o := published[k];
      } else {
        nextObject := nextObject + 1;
      }
      objects := objects[o := m.(inFlight := m.inFlight + 1)];
      published := published[k := o];
    }

    /** The account's part of a result: its limits, and one request fewer in flight. */
    method FinishAccount(l: Lease, r: Report)
      modifies this
      ensures Current() == AccountVacated(JudgeAccount(old(Current()), l, r, policy), l)
    {
      if l.account in health {
        var state := health[l.account];
        if state.revision == l.revision {
          var changed := false;
          if r.result.AccountLimited? {
            sequence := sequence + 1;
            state := state.(failures := Min(MAX_FAILURES, state.failures + 1), lastFailureSequence := sequence,
                            cooldownUntil := Max(state.cooldownUntil, Seconds(r.at) + Delay(r.hint, policy)));
            changed := true;
          } else if r.result.Completed? && state.lastFailureSequence < l.sequence && state.cooldownUntil <= Seconds(r.at) {
            changed := state.failures != 0 || state.cooldownUntil != 0;
            state := state.(failures := 0, cooldownUntil := 0, lastFailureSequence := 0);
          }
          if changed {
            disk := SaveAccount(disk, l.account, state, r.account);
          }
        }
        health := health[l.account := state.(inFlight := Max(0, state.inFlight - 1))];
      }
    }

    /** What a result teaches about the model's published state. */
    method LearnModel(l: Lease, r: Report)
      requires l.model.Some? && IsPublished(Current(), l.model.value)
      modifies this
      ensures Current() == JudgeModel(old(Current()), l, r, policy)
    {
      var o := l.model.value;
      var state := objects[o];
      if r.result.ModelLimited? || (r.result.Transient? && 0 < policy.transientThreshold) {
        sequence := sequence + 1;
        var next := ModelFailure(state, r, sequence, policy);
        var current := SameEpoch(disk, state.key, state.lifecycle, state.revision);
        if !r.model.Lost? {
          disk := SaveModel(disk, next);
        }
        if !r.model.Stored? {
          objects := objects[o := next.(persistFailed := true)];
        } else if current {
          objects := objects[o := next.(version := disk.models[state.key].version, persistFailed := false)];
        }
      } else if r.result.Completed? && state.cooldownUntil <= Seconds(r.at) && state.lastFailureSequence < l.sequence && 0 < state.failures {
        if !r.model.Lost? {
          disk := DeleteModel(disk, state);
        }
        objects := objects[o := if r.model.Stored? then state.(failures := 0, cooldownUntil := 0, persistFailed := false) else state.(persistFailed := true)];
      }
    }

    /** The model's part: one request fewer, what the result teaches, and eviction when idle. */
    method FinishModel(l: Lease, r: Report)
      modifies this
      ensures Current() == Evicted(JudgeModel(ModelVacated(old(Current()), l), l, r, policy), l.model)
    {
      if l.model.None? || l.model.value !in objects {
        return;
      }
      var o := l.model.value;
      objects := objects[o := objects[o].(inFlight := Max(0, objects[o].inFlight - 1))];
      if !IsPublished(Current(), o) {
        return;
      }
      LearnModel(l, r);
      EvictIdle(o);
    }

    method EvictIdle(o: nat)
      modifies this
      ensures Current() == Evicted(old(Current()), Some(o))
    {
      if o in objects && objects[o].key in published && published[objects[o].key] == o && objects[o].inFlight == 0 && !objects[o].persistFailed {
        published := published - {objects[o].key};
      }
    }

    /** The capacity of a finished request and what its result teaches. */
    method FinishLease(c: nat, r: Report)
      requires c in open
      modifies this
      ensures Current() == Judged(old(Current()), c, r, policy)
    {
      hide JudgeAccount, JudgeModel, ModelVacated, AccountVacated, Vacated, Evicted;
      ghost var s := Current();
      var l := open[c];
      FinishAccount(l, r);
      VacatedInParts(JudgeAccount(s, l, r, policy), c);
      AccountVacatedOpen(JudgeAccount(s, l, r, policy), l);
      open := open - {c};
      FinishModel(l, r);
    }

    method Finish(c: nat, r: Report)
      requires c in calls
      modifies this
      ensures Current() == FinishOf(old(Current()), c, r, policy)
    {
      hide Judged;
      if c in open {
        FinishLease(c, r);
      }
      var call := calls[c];
      if call.member {
        if Count(memberActive, call.user) <= 1 {
          memberActive := memberActive - {call.user};
        } else {
          memberActive := memberActive[call.user := memberActive[call.user] - 1];
        }
      }
      calls := calls - {c};
    }

    method Release(c: nat)
      requires c in open && open[c].account in health && open[c].model.Some? && open[c].model.value in objects
      requires 0 < health[open[c].account].inFlight && 0 < objects[open[c].model.value].inFlight
      modifies this
      ensures Current() == ReleaseOf(old(Current()), c)
    {
      var l := open[c];
      open := open - {c};
      health := health[l.account := health[l.account].(inFlight := health[l.account].inFlight - 1)];
      var o := l.model.value;
      var state := objects[o].(inFlight := objects[o].inFlight - 1);
      objects := objects[o := state];
      if state.inFlight == 0 && !state.persistFailed && state.key in published && published[state.key] == o {
        published := published - {state.key};
      }
    }

    method ResumeAccount(id: string, at: int, saved: Saved) returns (resumed: bool)
      modifies this
      ensures Current() == ResumeOf(old(Current()), id, at, saved)
      ensures resumed == (id in Reload(old(Current()), Seconds(at)).health && saved.Stored?)
    {
      hide Reload, ResumeOf, Resumed, ResumedDisk, OfAccount;
      ghost var s := Current();
      LoadRuntime(Seconds(at));
      if id !in health || saved.Lost? {
        NothingToResume(s, id, at, saved);
        return false;
      }
      var next := Resumed(health[id]);
      disk := ResumedDisk(disk, id, next);
      if saved.Landed? {
        ResumeLands(s, id, at);
        return false;
      }
      health := health[id := next];
      published := Unpublish(published, OfAccount(published, id));
      ResumeInParts(s, id, at, published);
      return true;
    }

    method SetConcurrency(id: string, limit: int) returns (changed: bool)
      modifies this
      ensures Current() == SetConcurrencyOf(old(Current()), id, limit)
      ensures changed == (1 <= limit <= 1000 && id in old(disk).accounts)
    {
      if limit < 1 || 1000 < limit || id !in disk.accounts {
        return false;
      }
      disk := disk.(accounts := disk.accounts[id := disk.accounts[id].(maxConcurrency := limit)]);
      if id in health {
        health := health[id := health[id].(maxConcurrency := limit)];
      }
      return true;
    }

    /** Counts a request among its member's active ones, unless the member's limit is reached. */
    method AdmitMember(c: nat, limit: int) returns (admitted: bool)
      requires c in calls
      modifies this
      ensures Current() == JoinOf(old(Current()), c, limit)
      ensures admitted == (limit <= 0 || Count(old(memberActive), old(calls)[c].user) < limit)
    {
      var user := calls[c].user;
      if 0 < limit && limit <= Count(memberActive, user) {
        return false;
      }
      memberActive := memberActive[user := Count(memberActive, user) + 1];
      calls := calls[c := calls[c].(member := true)];
      return true;
    }

    /** Joins the pool's queue, unless it is full. */
    method Enqueue(c: nat) returns (queued: bool)
      requires c in calls
      modifies this
      ensures Current() == ParkOf(old(Current()), c, policy)
      ensures queued == (Count(old(waiting), old(calls)[c].group) < policy.queueLimit)
    {
      var group := calls[c].group;
      if policy.queueLimit <= Count(waiting, group) {
        return false;
      }
      waiting := waiting[group := Count(waiting, group) + 1];
      calls := calls[c := calls[c].(queued := true)];
      return true;
    }

    method Dequeue(c: nat)
      requires c in calls && 0 < Count(waiting, calls[c].group)
      modifies this
      ensures Current() == LeaveOf(old(Current()), c)
    {
      var group := calls[c].group;
      waiting := waiting[group := waiting[group] - 1];
      if waiting[group] == 0 {
        waiting := waiting - {group};
      }
      calls := calls[c := calls[c].(queued := false)];
    }
  }
}
