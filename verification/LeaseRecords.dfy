/** What the gateway reads and stores of accounts and models, and when a lease is given. */
module LeaseRecords {

  import opened Common
  import opened LeaseState

  // ---- Reading ----

  /** A model's state is the published one if that was read under the account's present lifecycle and revision,
  or else its row of the same, or else that of a model nothing is known of. */
  lemma ModelIsRead(s: State, k: Key)
    requires k.account in s.disk.accounts
    ensures var (a, m) := (s.disk.accounts[k.account], ReadModel(s, k));
      if && k in s.published && s.published[k] in s.objects
         && s.objects[s.published[k]].lifecycle == a.lifecycle && s.objects[s.published[k]].revision == a.revision
      then m == s.objects[s.published[k]]
      else if k in s.disk.models && s.disk.models[k].lifecycle == a.lifecycle && s.disk.models[k].revision == a.revision
      then var row := s.disk.models[k];
           m == ModelRuntime(k, a.lifecycle, a.revision, row.version, row.cooldownUntil, row.failures, 0, 0, false, row.reason, row.lastFailureAt, row.failureWindowAt)
      else m == ModelRuntime(k, a.lifecycle, a.revision, 0, 0, 0, 0, 0, false, NoReason, 0, 0)
  {
  }

  /** Reloading deletes a model's row exactly when its account is there, and the row is of another lifecycle or
  revision, or has cooled down and is of a model the account no longer lists; it changes no other row. */
  lemma RowIsPrunedIff(s: State, now: int, k: Key)
    requires k in s.disk.models
    ensures var (d, row) := (Reload(s, now).disk, s.disk.models[k]);
      && d.accounts == s.disk.accounts && d.models.Keys <= s.disk.models.Keys && (k in d.models ==> d.models[k] == row)
      && (k !in d.models <==>
            && k.account in s.disk.accounts
            && var a := s.disk.accounts[k.account];
               row.lifecycle != a.lifecycle || row.revision != a.revision || (k.model !in a.catalog && row.cooldownUntil <= now))
  {
  }

  // ---- Leases ----

  /** Cooling down, or failed and not yet tried alone. */
  predicate HeldBack(cooldownUntil: int, failures: int, inFlight: int, now: int) {
    now < cooldownUntil || (0 < cooldownUntil && 0 < failures && 0 < inFlight)
  }

  /** A lease is given exactly when the account is known, has room and does not wait, and, for a model, the model
  does not wait and either is published or fewer than a thousand are. */
  lemma LeaseIsGivenIff(s: State, id: string, model: string, now: int)
    ensures LeaseAdmission(s, id, model, now) == Ok <==>
      && id in s.disk.accounts && id in s.health
      && var a := s.health[id];
         && a.inFlight < a.maxConcurrency && !HeldBack(a.cooldownUntil, a.failures, a.inFlight, now)
         && (model != "" ==>
              var (k, m) := (Key(id, model), ReadModel(s, Key(id, model)));
              !HeldBack(m.cooldownUntil, m.failures, m.inFlight, now) && (k in s.published || |s.published| < 1000))
    ensures LeaseAdmission(s, id, model, now) == NotFound <==> id !in s.disk.accounts || id !in s.health
    ensures LeaseAdmission(s, id, model, now).Cooling? ==>
      && id in s.disk.accounts && id in s.health
      && var wait := LeaseAdmission(s, id, model, now).retryAfter;
         && 0 < wait
         && (wait == s.health[id].cooldownUntil - now || (model != "" && wait == ReadModel(s, Key(id, model)).cooldownUntil - now))
  {
    hide ReadModel;
  }

  // ---- Failures ----

  /** The time a provider asks for, or else that of the policy, between a second and an hour. */
  lemma DelayIsAsked(hint: Option<int>, p: Policy)
    ensures var asked := if hint.Some? then hint.value else p.rateLimitCooldown;
      Delay(hint, p) == if asked < 1 then 1 else if 3600 < asked then 3600 else asked
  {
  }

  predicate Later(a: int, b: int, c: int) {
    a == if b < c then c else b
  }

  /** A model limit is one more failure, up to sixteen, or the first for a new reason, and cools the model until
  the time asked for unless it cools longer already. */
  lemma ModelLimitIs(m: ModelRuntime, r: Report, next: int, p: Policy)
    requires r.result.ModelLimited?
    ensures var n := ModelFailure(m, r, next, p);
      && Later(n.cooldownUntil, m.cooldownUntil, r.at / 1000 + Delay(r.hint, p))
      && n == m.(failures := n.failures, failureWindowAt := n.failureWindowAt, reason := RateLimited, lastFailureAt := r.at,
                 lastFailureSequence := next, cooldownUntil := n.cooldownUntil)
      && (if m.reason == RateLimited
          then n.failures == (if m.failures < 16 then m.failures + 1 else 16) && n.failureWindowAt == m.failureWindowAt
          else n.failures == 1 && n.failureWindowAt == r.at)
  {
    hide Delay;
  }

  /** How long a streak of `failures` transient failures cools a model: the policy's time, doubled for each
  failure beyond the threshold up to four times, between a second and five minutes. */
  predicate StreakWaits(p: Policy, failures: int, wait: int) {
    var beyond := if failures - p.transientThreshold < 4 then failures - p.transientThreshold else 4;
    var time := p.transientCooldown * (if beyond <= 0 then 1 else if beyond == 1 then 2 else if beyond == 2 then 4 else if beyond == 3 then 8 else 16);
    wait == if time < 1 then 1 else if 300 < time then 300 else time
  }

  /** A transient failure goes on with a streak of its kind, within the window of its first one and with the
  clock going on, and starts a new one otherwise; from the threshold on it cools the model. */
  lemma TransientFailureIs(m: ModelRuntime, r: Report, next: int, p: Policy, wait: int)
    requires r.result.Transient? && StreakWaits(p, ModelFailure(m, r, next, p).failures, wait)
    ensures var n := ModelFailure(m, r, next, p);
      var on := m.reason == UpstreamError && m.lastFailureAt <= r.at && r.at - m.failureWindowAt < p.transientWindow;
      && n == m.(failures := n.failures, failureWindowAt := n.failureWindowAt, reason := UpstreamError, lastFailureAt := r.at,
                 lastFailureSequence := next, cooldownUntil := n.cooldownUntil)
      && n.failures == (if !on then 1 else if m.failures < 16 then m.failures + 1 else 16)
      && n.failureWindowAt == (if on then m.failureWindowAt else r.at)
      && if n.failures < p.transientThreshold then n.cooldownUntil == m.cooldownUntil
         else Later(n.cooldownUntil, m.cooldownUntil, r.at / 1000 + wait)
  {
    DoubledIs(p.transientCooldown, Min(4, ModelFailure(m, r, next, p).failures - p.transientThreshold));
    hide Doubled;
  }

  lemma DoubledIs(n: int, times: int)
    requires times <= 4
    ensures Doubled(n, times) == n * if times <= 0 then 1 else if times == 1 then 2 else if times == 2 then 4 else if times == 3 then 8 else 16
    decreases if times < 0 then 0 else times
  {
    if 0 < times {
      DoubledIs(2 * n, times - 1);
    }
  }

  /** The account's failures, after a result of a request of its revision: one more, up to sixteen, cooling at
  least until the time asked for; or none, by a success after the cooldown that is newer than the last one. */
  lemma AccountResultIs(a: Runtime, l: Lease, r: Report, next: int, p: Policy)
    ensures var b := AccountVerdict(a, l, r, next, p);
      if a.revision == l.revision && r.result.AccountLimited? then
        && Later(b.cooldownUntil, a.cooldownUntil, r.at / 1000 + Delay(r.hint, p))
        && b == a.(failures := if a.failures < 16 then a.failures + 1 else 16, lastFailureSequence := next, cooldownUntil := b.cooldownUntil)
      else if a.revision == l.revision && r.result.Completed? && a.cooldownUntil <= r.at / 1000 && a.lastFailureSequence < l.sequence then
        b == a.(failures := 0, cooldownUntil := 0, lastFailureSequence := 0)
      else b == a
  {
    hide Delay;
  }

  // ---- Writing ----

  /** An account's row takes cooldown, failures and revision from memory; nothing else of it, and no other row,
  changes. */
  lemma AccountIsSaved(d: Disk, id: string, a: Runtime, saved: Saved)
    ensures var e := SaveAccount(d, id, a, saved);
      if saved.Lost? || id !in d.accounts then e == d
      else e == Disk(d.accounts[id := AccountRow(d.accounts[id].lifecycle, a.revision, d.accounts[id].maxConcurrency, a.cooldownUntil,
                                                 a.failures, d.accounts[id].catalog)], d.models)
  {
  }

  /** A model's row is written only in the account's present lifecycle and revision, under the next version. */
  lemma ModelIsSaved(d: Disk, m: ModelRuntime)
    ensures var e := SaveModel(d, m);
      if && m.key.account in d.accounts
         && d.accounts[m.key.account].lifecycle == m.lifecycle && d.accounts[m.key.account].revision == m.revision
      then e == Disk(d.accounts, d.models[m.key := ModelRow(m.lifecycle, m.revision, if m.key in d.models then d.models[m.key].version + 1 else 1,
                                          m.cooldownUntil, m.failures, m.reason, m.lastFailureAt, m.failureWindowAt)])
      else e == d
  {
  }

  /** A model's row is deleted only when it is of the very lifecycle, revision and version that memory has, and
  that is the account's present one. */
  lemma ModelIsDeletedIff(d: Disk, m: ModelRuntime)
    ensures var e := DeleteModel(d, m);
      if && m.key in d.models && d.models[m.key].version == m.version
         && d.models[m.key].lifecycle == m.lifecycle && d.models[m.key].revision == m.revision
         && m.key.account in d.accounts
         && d.accounts[m.key.account].lifecycle == m.lifecycle && d.accounts[m.key.account].revision == m.revision
      then e == Disk(d.accounts, d.models - {m.key})
      else e == d
  {
  }

  /** A resume clears the account, in memory and in its row, under the next revision, and deletes the rows of all
  its models. */
  lemma ResumeClears(s: State, id: string, at: int)
    requires id in s.disk.accounts
    ensures var (u, t) := (Reload(s, at / 1000), ResumeOf(s, id, at, Stored));
      && id in u.health && id in t.health
      && t.health[id] == Runtime(u.health[id].maxConcurrency, u.health[id].inFlight, 0, 0, 0, u.health[id].revision + 1)
      && t.disk.accounts == s.disk.accounts[id := s.disk.accounts[id].(cooldownUntil := 0, failures := 0, revision := u.health[id].revision + 1)]
      && (forall k :: k in t.disk.models <==> k in u.disk.models && k.account != id)
      && (forall k <- t.disk.models :: t.disk.models[k] == u.disk.models[k])
  {
    assert Reload(s, at / 1000).disk.accounts == s.disk.accounts;
    assert id in Reload(s, at / 1000).health;
    hide Reload;
  }
}
