/** Token refresh: which credential a request gets, when the provider is asked for a new one, and whose
account it stays. */
module Refresh {

  import opened Common

  /** What identity tokens tell of a member; either part may be unknown. */
  datatype Member = Member(user: string, subject: string)

  datatype Credential = Credential(
    kind: string, account: string, member: Member, token: int, rejected: bool, expires: int, device: string, project: bool)

  /** The account's row. */
  datatype Row = Row(inService: bool, enabled: bool, reauthorize: bool, credential: Credential)

  /** Refresh attempts that failed in a row, when the next is due, and whether the old credential may
  serve meanwhile. */
  datatype Deferred = Deferred(failures: nat, retryAt: int, fallback: bool)

  datatype State = State(row: Row, deferred: Option<Deferred>)

  /** What the provider answers when it is asked. */
  datatype Answer = Rotated(credential: Credential, valid: bool) | Reauthorize | Cancelled | Unavailable(retryAfter: int) | Silent

  /** The circumstances of one call: its times before and after the provider's answer, that answer, the
  fate of its writes, and the device it would invent. */
  datatype Env = Env(now: int, later: int, answer: Answer, device: string, named: Saved, marked: Saved, stored: Saved)

  datatype Reason = Disabled | NeedsReauthorization | Storage | Wait(retryAfter: int) | Interrupted | Refused

  datatype Result = Granted(credential: Credential) | Denied(reason: Reason)

  // ---- Identity ----

  predicate SameIdentity(a: Credential, b: Credential) {
    && a.kind == b.kind && a.account == b.account
    && (a.kind == "codex" ==>
      && (a.member.user != "" ==> b.member.user != "")
      && (a.member.user != "" && b.member.user != "" ==> a.member.user == b.member.user)
      && (a.member.subject != "" && b.member.subject != "" ==> a.member.subject == b.member.subject)
      && ((a.member.user != "" && b.member.user != "") || (a.member.subject != "" && b.member.subject != "") || a.member == b.member))
  }

  /** A rotated credential is accepted as the same person's, of one kind and account: by their user, if it was
  known, with a subject that does not contradict; or else by their subject; or else if still nothing is known. */
  lemma SameIdentityIff(a: Credential, b: Credential)
    ensures SameIdentity(a, b) <==>
      && a.kind == b.kind && a.account == b.account
      && (a.kind == "codex" ==>
          if a.member.user != "" then b.member.user == a.member.user && (a.member.subject == "" || b.member.subject == "" || a.member.subject == b.member.subject)
          else if a.member.subject != "" then b.member.subject == a.member.subject
          else b.member == Member("", ""))
  {
  }

  /** Along a chain of credentials, each accepted after the one before. */
  predicate Chained(cs: seq<Credential>) {
    forall i :: 0 <= i < |cs| - 1 ==> SameIdentity(cs[i], cs[i + 1])
  }

  /** Whom a credential belongs to: the user if known, or else the subject. */
  predicate SamePerson(a: Credential, b: Credential) {
    && a.kind == b.kind && a.account == b.account
    && (a.kind == "codex" ==>
        if a.member.user != "" then b.member.user == a.member.user
        else if b.member.user == "" then b.member.subject == a.member.subject
        else a.member.subject != "")
  }

  /** Between two credentials of a chain, the user became known through the subject they both have. */
  predicate BecameKnown(cs: seq<Credential>, i: int, j: int, k: int) {
    && 0 <= i <= k < j < |cs| && cs[k].member.user == "" && cs[k + 1].member.user == cs[j].member.user
    && cs[k].member.subject == cs[i].member.subject == cs[k + 1].member.subject && cs[k].member.subject != ""
  }

  /** However often tokens rotate, the account stays one person's: the workspace never changes, a known
  user never changes or gets lost, an unknown user keeps their subject, and a user becomes known only
  through the subject they had. */
  lemma {:induction false} ChainsKeepThePerson(cs: seq<Credential>, i: nat, j: nat)
    requires Chained(cs) && i <= j < |cs|
    ensures SamePerson(cs[i], cs[j])
    ensures cs[i].kind == "codex" && cs[i].member.user == "" && cs[j].member.user != "" ==> exists k :: BecameKnown(cs, i, j, k)
    decreases j - i
  {
    if i < j {
      ChainsKeepThePerson(cs, i, j - 1);
      assert SameIdentity(cs[j - 1], cs[j - 1 + 1]);
      if cs[i].kind == "codex" && cs[i].member.user == "" && cs[j].member.user != "" {
        if cs[j - 1].member.user == "" {
          assert BecameKnown(cs, i, j, j - 1);
        } else {
          var k :| BecameKnown(cs, i, j - 1, k);
          assert BecameKnown(cs, i, j, k);
        }
      }
    }
  }

  /** Comparing only the ends of a chain would refuse people whose subject was lost and came back changed
  after their user was known. */
  lemma SameIdentityIsNotTransitive()
    ensures exists a, b, c :: SameIdentity(a, b) && SameIdentity(b, c) && !SameIdentity(a, c) && SamePerson(a, c)
  {
    var a := Credential("codex", "w", Member("u", "s"), 1, false, 0, "", false);
    var b := a.(member := Member("u", ""));
    var c := a.(member := Member("u", "t"));
    assert SameIdentity(a, b) && SameIdentity(b, c) && !SameIdentity(a, c) && SamePerson(a, c);
  }

  // ---- One call ----

  const MARGIN := 120
  const ANTIGRAVITY_MARGIN := 960
  const FALLBACK_MARGIN := 30

  function Validity(kind: string): int {
    if kind == "antigravity" then ANTIGRAVITY_MARGIN else MARGIN
  }

  predicate Serves(c: Credential, now: int) {
    !(c.kind == "antigravity" && !c.project) && !c.rejected && now + Validity(c.kind) < c.expires
  }

  /** Half a minute after a first failure, twice that after each further one up to five minutes, and
  longer when the provider asks, up to an hour. */
  function Backoff(failures: nat, asked: int): int {
    Max(Min(300, Doubled(30, failures)), Min(3600, Max(0, asked)))
  }

  lemma DoubledGrows(n: int, times: nat)
    requires 0 <= n
    ensures n <= Doubled(n, times)
    decreases times
  {
    if times > 0 {
      DoubledGrows(2 * n, times - 1);
    }
  }

  lemma BackoffIsBounded(failures: nat, asked: int)
    ensures 30 <= Backoff(failures, asked) <= 3600
  {
    DoubledGrows(30, failures);
  }

  function Failures(s: State): nat {
    if s.deferred.Some? then s.deferred.value.failures else 0
  }

  function Defer(s: State, asked: int, now: int, fallback: bool): State {
    var f := Failures(s);
    s.(deferred := Some(Deferred(if f < 4 then f + 1 else 4, now + Backoff(f, asked), fallback)))
  }

  /** The old credential serves while the provider is unavailable, if it is still valid. */
  function Fallback(c: Credential, d: Deferred, now: int): Result {
    if d.fallback && c.kind == "codex" && !c.rejected && now + FALLBACK_MARGIN < c.expires then Granted(c)
    else Denied(Wait(Max(1, d.retryAt - now)))
  }

  function Persisted(s: State, c: Credential, saved: Saved): State {
    if saved.Lost? then s else s.(row := s.row.(credential := c))
  }

  function WithDevice(c: Credential, device: string): Credential {
    if c.kind == "claude" && device != "" then c.(device := device) else c
  }

  /** A credential that needs a device is given one. */
  function Named(c: Credential, device: string): Credential {
    if c.kind == "claude" && c.device == "" then c.(device := device) else c
  }

  /** A token that was refused is marked, unless it is no longer the current one. */
  function Marked(c: Credential, rejected: Option<int>): Credential {
    if rejected == Some(c.token) then c.(rejected := true) else c
  }

  predicate Acceptable(prior: Credential, c: Credential, valid: bool, now: int) {
    SameIdentity(prior, c) && valid && now + Validity(prior.kind) < c.expires && (prior.rejected ==> c.token != prior.token)
  }

  /** The provider's turn, for a credential that needs it. The flag says whether it was asked. */
  function Ask(s: State, c: Credential, e: Env): (State, Result, bool) {
    if s.deferred.Some? && e.now < s.deferred.value.retryAt then (s, Fallback(c, s.deferred.value, e.now), false)
    else
      match e.answer
      case Silent => (s, Denied(Refused), false)
      case Cancelled => (s, Denied(Interrupted), true)
      case Reauthorize =>
        var t := if e.stored.Lost? then s else s.(row := s.row.(reauthorize := true));
        if e.stored.Stored? then (t.(deferred := None), Denied(NeedsReauthorization), true) else (t, Denied(Storage), true)
      case Unavailable(asked) =>
        var t := Defer(s, asked, e.later, true);
        (t, Fallback(c, t.deferred.value, e.later), true)
      case Rotated(r, valid) =>
        var u := WithDevice(r, c.device);
        if !Acceptable(c, u, valid, e.later) then (Defer(s, 0, e.later, false), Denied(Refused), true)
        else
          var n := u.(rejected := false);
          if e.stored.Stored? then
            (s.(row := s.row.(credential := n, reauthorize := false), deferred := None), Granted(n), true)
          else
            var t := if e.stored.Lost? then s else s.(row := s.row.(credential := n, reauthorize := false));
            (Defer(t, 0, e.later, false), Denied(Storage), true)
  }

  function Corrected(s: State, rejected: Option<int>, e: Env): (State, bool) {
    var c := s.row.credential;
    var n := Named(c, e.device);
    var t := if n == c then s else Persisted(s, n, e.named);
    if n != c && !e.named.Stored? then (t, false)
    else
      var m := Marked(n, rejected);
      if m == n then (t, true) else (Persisted(t, m, e.marked), e.marked.Stored?)
  }

  function Prepare(s: State, rejected: Option<int>, e: Env): (State, Result, bool) {
    if !s.row.inService || !s.row.enabled then (s, Denied(Disabled), false)
    else if s.row.reauthorize then (s, Denied(NeedsReauthorization), false)
    else
      var (t, corrected) := Corrected(s, rejected, e);
      var c := t.row.credential;
      if !corrected then (t, Denied(Storage), false)
      else if c.kind == "openai" then
        if c.rejected then
          (if e.stored.Lost? then t else t.(row := t.row.(reauthorize := true)), Denied(if e.stored.Stored? then NeedsReauthorization else Storage), false)
        else (t, Granted(c), false)
      else if Serves(c, e.now) then (t, Granted(c), false)
      else Ask(t, c, e)
  }

  // ---- What a call answers ----

  /** How long before its end a credential is no longer used. */
  predicate Lasts(c: Credential, now: int) {
    if c.kind == "antigravity" then now + 960 < c.expires else now + 120 < c.expires
  }

  /** Nothing has to be corrected first: a device is known where one is needed, and the token is not the one
  that was refused. */
  predicate Ready(s: State, rejected: Option<int>) {
    && s.row.inService && s.row.enabled && !s.row.reauthorize
    && (s.row.credential.kind == "claude" ==> s.row.credential.device != "")
    && rejected != Some(s.row.credential.token)
  }

  /** It may be used as it is. */
  predicate Usable(c: Credential, now: int) {
    && !c.rejected
    && (c.kind == "openai" || (Lasts(c, now) && (c.kind == "antigravity" ==> c.project)))
  }

  lemma ClosedRowsAreRefused(s: State, rejected: Option<int>, e: Env)
    ensures var (t, result, asked) := Prepare(s, rejected, e);
      && (!s.row.inService || !s.row.enabled ==> t == s && result == Denied(Disabled) && !asked)
      && (s.row.inService && s.row.enabled && s.row.reauthorize ==> t == s && result == Denied(NeedsReauthorization) && !asked)
  {
  }

  /** A credential that is fresh is handed out as it is, and the provider is not asked. */
  lemma FreshIsGranted(s: State, rejected: Option<int>, e: Env)
    requires Ready(s, rejected) && Usable(s.row.credential, e.now)
    ensures Prepare(s, rejected, e) == (s, Granted(s.row.credential), false)
  {
  }

  /** While a next attempt is not due, only a codex credential that was not refused and has half a minute left
  serves, after a failure that allows it; any other call is told to wait, at least a second. */
  lemma DeferredIsAnswered(s: State, rejected: Option<int>, e: Env)
    requires Ready(s, rejected) && s.row.credential.kind != "openai" && !Usable(s.row.credential, e.now)
    requires s.deferred.Some? && e.now < s.deferred.value.retryAt
    ensures var (t, result, asked) := Prepare(s, rejected, e);
      var (c, d) := (s.row.credential, s.deferred.value);
      && t == s && !asked
      && result == if d.fallback && c.kind == "codex" && !c.rejected && e.now + 30 < c.expires then Granted(c)
                   else Denied(Wait(if d.retryAt - e.now < 1 then 1 else d.retryAt - e.now))
  {
  }

  /** When the provider cannot be reached, the next attempt waits, and the old credential serves meanwhile
  under the same condition. */
  lemma UnavailableDefers(s: State, rejected: Option<int>, e: Env)
    requires Ready(s, rejected) && s.row.credential.kind != "openai" && !Usable(s.row.credential, e.now)
    requires (s.deferred.Some? ==> s.deferred.value.retryAt <= e.now) && e.answer.Unavailable?
    ensures var (t, result, asked) := Prepare(s, rejected, e);
      var (c, f) := (s.row.credential, if s.deferred.Some? then s.deferred.value.failures else 0);
      && asked && t.row == s.row
      && t.deferred == Some(Deferred(if f < 4 then f + 1 else 4, e.later + Pause(f, e.answer.retryAfter), true))
      && result == if c.kind == "codex" && !c.rejected && e.later + 30 < c.expires then Granted(c) else Denied(Wait(Pause(f, e.answer.retryAfter)))
  {
    BackoffIsPause(Failures(s), e.answer.retryAfter);
    BackoffIsBounded(Failures(s), e.answer.retryAfter);
    hide Backoff, Pause;
  }

  /** Half a minute, one, two and four minutes, then five; or as long as the provider asks, up to an hour. */
  function Pause(failures: nat, asked: int): int {
    var own := if failures < 4 then [30, 60, 120, 240][failures] else 300;
    var theirs := if asked < 3600 then asked else 3600;
    if own < theirs then theirs else own
  }

  lemma BackoffIsPause(failures: nat, asked: int)
    ensures Backoff(failures, asked) == Pause(failures, asked)
  {
    if 4 <= failures {
      DoubledGrows(480, failures - 4);
      assert Doubled(30, failures) == Doubled(60, failures - 1) == Doubled(120, failures - 2) == Doubled(240, failures - 3) == Doubled(480, failures - 4);
    } else {
      assert Doubled(30, failures) == [30, 60, 120, 240][failures] by {
        assert Doubled(30, 0) == 30 && Doubled(30, 1) == Doubled(60, 0) && Doubled(30, 2) == Doubled(60, 1) == Doubled(120, 0);
        assert Doubled(30, 3) == Doubled(60, 2) == Doubled(120, 1) == Doubled(240, 0);
      }
    }
  }

  /** A rotated credential is accepted when it is the same person's, valid, lasting, and not the token that was
  refused; a device that was known stays. It is stored and handed out without the mark of the refused one;
  otherwise the next attempt waits, and nothing serves meanwhile. */
  lemma RotationIsAcceptedIff(s: State, rejected: Option<int>, e: Env)
    requires Ready(s, rejected) && s.row.credential.kind != "openai" && !Usable(s.row.credential, e.now)
    requires (s.deferred.Some? ==> s.deferred.value.retryAt <= e.now) && e.answer.Rotated?
    ensures var (t, result, asked) := Prepare(s, rejected, e);
      var (c, r) := (s.row.credential, e.answer.credential);
      var u := if c.kind == "claude" then r.(device := if r.kind == "claude" then c.device else r.device) else r;
      var accepted := SameIdentity(c, u) && e.answer.valid && Lasts(u, e.later) && (c.rejected ==> u.token != c.token);
      var f := if s.deferred.Some? then s.deferred.value.failures else 0;
      && asked
      && (accepted && e.stored.Stored? ==>
            result == Granted(u.(rejected := false)) && t == State(s.row.(credential := u.(rejected := false), reauthorize := false), None))
      && (accepted && e.stored.Landed? ==> result == Denied(Storage) && t.row.credential == u.(rejected := false))
      && (accepted && e.stored.Lost? ==> result == Denied(Storage) && t.row == s.row)
      && (!accepted ==> result == Denied(Refused) && t.row == s.row)
      && (!(accepted && e.stored.Stored?) ==> t.deferred == Some(Deferred(if f < 4 then f + 1 else 4, e.later + Pause(f, 0), false)))
  {
    BackoffIsPause(Failures(s), 0);
    hide Backoff, Pause;
  }

  /** Before anything else a missing device is added, and the token that was refused is marked. */
  lemma CorrectedRow(s: State, rejected: Option<int>, e: Env)
    ensures var (t, corrected) := Corrected(s, rejected, e);
      var c := s.row.credential;
      var n := if c.kind == "claude" && c.device == "" then c.(device := e.device) else c;
      && t.deferred == s.deferred
      && (corrected ==> t.row.credential == if rejected == Some(c.token) then n.(rejected := true) else n)
      && (!corrected ==> (n != c && !e.named.Stored?) || (rejected == Some(c.token) && !n.rejected && !e.marked.Stored?))
  {
  }

  // ---- What every call keeps ----

  /** A credential is handed out only as it is stored, never once its token was refused, and never one
  about to expire. */
  lemma GrantedIsStored(s: State, rejected: Option<int>, e: Env)
    requires e.now <= e.later
    ensures var (t, result, _) := Prepare(s, rejected, e);
      result.Granted? ==> (
        && result.credential == t.row.credential && !result.credential.rejected
        && (rejected == Some(s.row.credential.token) ==> result.credential.token != s.row.credential.token)
        && (result.credential.kind != "openai" ==> e.now + 30 < result.credential.expires))
  {
    CorrectedKeepsToken(s, rejected, e);
    var t := Corrected(s, rejected, e).0;
    AskedGrantIsStored(t, e);
    hide Corrected, Ask;
  }

  lemma CorrectedKeepsToken(s: State, rejected: Option<int>, e: Env)
    ensures var (t, corrected) := Corrected(s, rejected, e);
      && t.row.credential.token == s.row.credential.token
      && (corrected && rejected == Some(s.row.credential.token) ==> t.row.credential.rejected)
  {
  }

  lemma AskedGrantIsStored(s: State, e: Env)
    requires e.now <= e.later
    ensures var (t, result, _) := Ask(s, s.row.credential, e);
      result.Granted? ==> (
        && result.credential == t.row.credential && !result.credential.rejected
        && (s.row.credential.rejected ==> result.credential.token != s.row.credential.token)
        && e.now + 30 < result.credential.expires)
  {
    hide Backoff, SameIdentity;
  }

  /** Before a deferred attempt is due the provider is not asked. */
  lemma NotAskedBeforeDue(s: State, rejected: Option<int>, e: Env)
    requires s.deferred.Some? && e.now < s.deferred.value.retryAt
    ensures var (t, _, asked) := Prepare(s, rejected, e); !asked && t.deferred == s.deferred
  {
  }

  predicate SameNames(a: Credential, b: Credential) {
    a.kind == b.kind && a.account == b.account && a.member == b.member
  }

  lemma CorrectedIsTheSame(s: State, rejected: Option<int>, e: Env)
    ensures SameNames(s.row.credential, Corrected(s, rejected, e).0.row.credential)
  {
  }

  lemma AskKeepsIdentity(s: State, c: Credential, e: Env)
    requires c == s.row.credential
    ensures SameIdentity(c, Ask(s, c, e).0.row.credential)
  {
    hide Serves, Backoff, Fallback;
  }

  lemma SameThenIdentity(a: Credential, b: Credential, c: Credential)
    requires SameNames(a, b) && SameIdentity(b, c)
    ensures SameIdentity(a, c)
  {
  }

  /** Every step of the stored credential keeps its identity. */
  lemma StoredKeepsIdentity(s: State, rejected: Option<int>, e: Env)
    ensures SameIdentity(s.row.credential, Prepare(s, rejected, e).0.row.credential)
  {
    var (t, _) := Corrected(s, rejected, e);
    CorrectedIsTheSame(s, rejected, e);
    AskKeepsIdentity(t, t.row.credential, e);
    hide Corrected, Ask, Serves;
    SameThenIdentity(s.row.credential, t.row.credential, Ask(t, t.row.credential, e).0.row.credential);
  }

  lemma CorrectedKeepsRefusal(s: State, rejected: Option<int>, e: Env)
    ensures var c := Corrected(s, rejected, e).0.row.credential; c.token == s.row.credential.token && (s.row.credential.rejected ==> c.rejected)
  {
  }

  lemma AskKeepsRefusal(s: State, c: Credential, e: Env)
    requires c == s.row.credential && c.rejected
    ensures var n := Ask(s, c, e).0.row.credential; n.rejected || n.token != c.token
  {
    hide SameIdentity, Backoff, Fallback;
  }

  /** A token that was refused stays marked until another one is stored. */
  lemma RefusedStaysRefused(s: State, rejected: Option<int>, e: Env)
    requires s.row.credential.rejected
    ensures var c := Prepare(s, rejected, e).0.row.credential; c.rejected || c.token != s.row.credential.token
  {
    var (t, _) := Corrected(s, rejected, e);
    CorrectedKeepsRefusal(s, rejected, e);
    AskKeepsRefusal(t, t.row.credential, e);
    hide Corrected, Ask;
  }

  /** `t` waits for a delay after `at` that grows with the failures before it. */
  predicate Waits(failures: nat, t: State, at: int) {
    && t.deferred.Some? && t.deferred.value.failures == Min(4, failures + 1)
    && var delay := t.deferred.value.retryAt - at;
       30 <= delay <= 3600 && Min(300, Doubled(30, failures)) <= delay
  }

  lemma AskDefers(s: State, c: Credential, e: Env)
    ensures var (t, result, asked) := Ask(s, c, e);
      asked && (e.answer.Rotated? || e.answer.Unavailable?) ==> Waits(Failures(s), t, e.later) || (t.deferred.None? && result.Granted?)
  {
    BackoffIsBounded(Failures(s), if e.answer.Unavailable? then e.answer.retryAfter else 0);
    hide Doubled, Fallback, Acceptable, WithDevice;
  }

  lemma CorrectedKeepsDeferral(s: State, rejected: Option<int>, e: Env)
    ensures Corrected(s, rejected, e).0.deferred == s.deferred
  {
  }

  /** Once asked, the provider either gives a credential that is stored and handed out, or is not asked
  again before a growing delay of half a minute to an hour; only a cancelled call or a demand to
  authorize anew does neither. */
  lemma AskedOnceOrDeferred(s: State, rejected: Option<int>, e: Env)
    ensures var (t, result, asked) := Prepare(s, rejected, e);
      asked && (e.answer.Rotated? || e.answer.Unavailable?) ==> Waits(Failures(s), t, e.later) || (t.deferred.None? && result.Granted?)
  {
    var (t, _) := Corrected(s, rejected, e);
    CorrectedKeepsDeferral(s, rejected, e);
    AskDefers(t, t.row.credential, e);
    hide Corrected, Ask, Waits, Serves;
  }

  // ---- Runs ----

  /** A call for a credential, or a new authorization by an administrator, who may only renew the same
  identity and starts afresh. */
  datatype Event = Call(rejected: Option<int>, env: Env) | Renew(credential: Credential)

  function Step(s: State, e: Event): State {
    match e
    case Call(rejected, env) => Prepare(s, rejected, env).0
    case Renew(c) =>
      if SameIdentity(s.row.credential, c) then State(s.row.(credential := c, reauthorize := false), None) else s
  }

  /** The moment of the provider's answer, if the provider was asked. */
  predicate Asks(s: State, e: Event) {
    e.Call? && Prepare(s, e.rejected, e.env).2
  }

  function States(s: State, es: seq<Event>): (ss: seq<State>)
    ensures |ss| == |es| + 1 && ss[0] == s
    decreases |es|
  {
    [s] + if es == [] then [] else States(Step(s, es[0]), es[1..])
  }

  function Credentials(s: State, es: seq<Event>): (cs: seq<Credential>)
    ensures |cs| == |es| + 1 && cs[0] == s.row.credential
    decreases |es|
  {
    [s.row.credential] + if es == [] then [] else Credentials(Step(s, es[0]), es[1..])
  }

  lemma {:induction false} CredentialsAreChained(s: State, es: seq<Event>)
    ensures Chained(Credentials(s, es))
    decreases |es|
  {
    var cs := Credentials(s, es);
    if es != [] {
      CredentialsAreChained(Step(s, es[0]), es[1..]);
      if es[0].Call? {
        StoredKeepsIdentity(s, es[0].rejected, es[0].env);
      }
      var rest := Credentials(Step(s, es[0]), es[1..]);
      assert SameIdentity(cs[0], cs[1]);
      forall i | 0 <= i < |cs| - 1 ensures SameIdentity(cs[i], cs[i + 1]) {
        if i > 0 {
          assert cs[i] == rest[i - 1] && cs[i + 1] == rest[i - 1 + 1];
        }
      }
    }
  }

  /** Whatever calls, failures and renewals an account sees, its stored credential stays one person's. */
  lemma AccountsStayOnePersons(s: State, es: seq<Event>, i: nat, j: nat)
    requires i <= j <= |es|
    ensures SamePerson(Credentials(s, es)[i], Credentials(s, es)[j])
  {
    CredentialsAreChained(s, es);
    ChainsKeepThePerson(Credentials(s, es), i, j);
  }

  /** A deferral holds along a run: until it is due, no call asks the provider, so two questions with a
  failure between them are at least the delay apart. */
  lemma {:induction false} DeferralHolds(s: State, es: seq<Event>, i: nat)
    requires s.deferred.Some? && i < |es|
    requires forall j :: 0 <= j <= i ==> es[j].Call? && es[j].env.now < s.deferred.value.retryAt
    ensures !Asks(States(s, es)[i], es[i]) && States(s, es)[i].deferred == s.deferred
    decreases |es|
  {
    assert es[0].Call? && es[0].env.now < s.deferred.value.retryAt;
    NotAskedBeforeDue(s, es[0].rejected, es[0].env);
    if i > 0 {
      assert es[1..][i - 1] == es[i];
      forall j | 0 <= j <= i - 1 ensures es[1..][j].Call? && es[1..][j].env.now < s.deferred.value.retryAt {
        assert es[1..][j] == es[j + 1];
      }
      DeferralHolds(Step(s, es[0]), es[1..], i - 1);
    }
  }

  // ---- The account's owner ----

  class Owner {
    var row: Row
    var deferred: Option<Deferred>

    function Current(): State
      reads this
    {
      State(row, deferred)
    }

    method Persist(c: Credential, saved: Saved) returns (ok: bool)
      modifies this`row
      ensures Current() == Persisted(old(Current()), c, saved) && ok == saved.Stored?
    {
      if !saved.Lost? {
        row := row.(credential := c);
      }
      return saved.Stored?;
    }

    method DeferRefresh(asked: int, now: int, fallback: bool)
      modifies this`deferred
      ensures Current() == Defer(old(Current()), asked, now, fallback)
    {
      var failures := if deferred.Some? then deferred.value.failures else 0;
      var delay := Min(300, Doubled(30, failures));
      delay := Max(delay, Min(3600, Max(0, asked)));
      deferred := Some(Deferred(if failures < 4 then failures + 1 else 4, now + delay, fallback));
    }

    /** Gives the missing device and the mark of a refused token their place in the stored credential. */
    method Correct(rejected: Option<int>, e: Env) returns (ok: bool)
      modifies this`row
      ensures (Current(), ok) == Corrected(old(Current()), rejected, e)
    {
      var c := row.credential;
      if c.kind == "claude" && c.device == "" && e.device != "" {
        ok := Persist(c.(device := e.device), e.named);
        if !ok {
          return;
        }
      }
      ok := true;
      c := row.credential;
      if rejected == Some(c.token) && !c.rejected {
        ok := Persist(c.(rejected := true), e.marked);
      }
    }

    method AskProvider(c: Credential, e: Env) returns (result: Result, asked: bool)
      modifies this
      ensures (Current(), result, asked) == Ask(old(Current()), c, e)
    {
      if deferred.Some? && e.now < deferred.value.retryAt {
        return Fallback(c, deferred.value, e.now), false;
      }
      match e.answer {
        case Silent => return Denied(Refused), false;
        case Cancelled => return Denied(Interrupted), true;
        case Reauthorize =>
          if !e.stored.Lost? {
            row := row.(reauthorize := true);
          }
          if !e.stored.Stored? {
            return Denied(Storage), true;
          }
          deferred := None;
          return Denied(NeedsReauthorization), true;
        case Unavailable(after) =>
          DeferRefresh(after, e.later, true);
          return Fallback(c, deferred.value, e.later), true;
        case Rotated(r, valid) =>
          var u := WithDevice(r, c.device);
          if !Acceptable(c, u, valid, e.later) {
            DeferRefresh(0, e.later, false);
            return Denied(Refused), true;
          }
          u := u.(rejected := false);
          if !e.stored.Lost? {
            row := row.(credential := u, reauthorize := false);
          }
          if !e.stored.Stored? {
            DeferRefresh(0, e.later, false);
            return Denied(Storage), true;
          }
          deferred := None;
          return Granted(u), true;
      }
    }

    method PrepareCredential(rejected: Option<int>, e: Env) returns (result: Result, asked: bool)
      modifies this
      ensures (Current(), result, asked) == Prepare(old(Current()), rejected, e)
    {
      hide Ask, Corrected;
      if !row.inService || !row.enabled {
        return Denied(Disabled), false;
      }
      if row.reauthorize {
        return Denied(NeedsReauthorization), false;
      }
      var ok := Correct(rejected, e);
      if !ok {
        return Denied(Storage), false;
      }
      var c := row.credential;
      if c.kind == "openai" {
        if c.rejected {
          if !e.stored.Lost? {
            row := row.(reauthorize := true);
          }
          return Denied(if e.stored.Stored? then NeedsReauthorization else Storage), false;
        }
        return Granted(c), false;
      }
      if Serves(c, e.now) {
        return Granted(c), false;
      }
      result, asked := AskProvider(c, e);
    }
  }
}
