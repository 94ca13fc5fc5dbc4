/** Which accounts a request may use, which of them are tried first, and the observer that reports the
same answer without taking part. */
module Routing {

  import opened Common
  import opened LeaseState

  // ---- Policy ----

  datatype Preference = Protocol | SubscriptionFirst | ApiFirst

  /** A permitted model, split into the provider it is limited to, if any, and its native name. */
  datatype Rule = Rule(scope: string, native: string)

  datatype ModelPolicy = ModelPolicy(preference: Preference, allowApiFallback: bool, hasSubscriptions: bool, restricted: bool, rules: seq<Rule>)

  const API := "openai"

  predicate Subscription(provider: string) {
    provider == "codex" || provider == "claude" || provider == "antigravity" || provider == "xai"
  }

  predicate AllowsProvider(p: ModelPolicy, provider: string) {
    !(provider == API && p.hasSubscriptions && p.preference == SubscriptionFirst && !p.allowApiFallback)
  }

  predicate Allows(p: ModelPolicy, provider: string, native: string) {
    !p.restricted || exists i :: 0 <= i < |p.rules| && p.rules[i].native == native && (provider == "" || p.rules[i].scope == "" || provider == p.rules[i].scope)
  }

  predicate AllowsResource(p: ModelPolicy, provider: string, model: string) {
    AllowsProvider(p, provider) &&
    (!p.restricted || exists i :: 0 <= i < |p.rules| && p.rules[i].native == model && (p.rules[i].scope == "" || p.rules[i].scope == provider))
  }

  function Rank(p: ModelPolicy, provider: string, preferred: string): (r: int)
    ensures 0 <= r <= 3
  {
    (if (p.preference == SubscriptionFirst && provider == API) || (p.preference == ApiFirst && Subscription(provider)) then 2 else 0)
    + (if provider != preferred then 1 else 0)
  }

  // ---- Accounts of a pool ----

  datatype Catalog = Catalog(usable: bool, current: bool, models: set<string>)

  datatype Quota = Quota(exhausted: bool, retryAt: int, weight: nat)

  datatype Row = Row(id: string, provider: string, enabled: bool, reauthorize: bool, catalog: Catalog, quota: Quota)

  datatype Kind = Responses | Compact | Messages | Gemini

  /** What a selection is asked: the pool's members, the providers in service, the allowances that
  refuse, and the account of a parent conversation, if any. */
  datatype Request = Request(
    kind: Kind, provider: string, model: string, pool: set<string>, providers: set<string>,
    policy: ModelPolicy, unfunded: set<string>, parent: string)

  function LastOpen(model: string): (i: int)
    ensures -1 <= i < |model|
    ensures i >= 0 ==> model[i] == '('
    ensures forall j :: i < j < |model| ==> model[j] != '('
  {
    if model == "" then -1
    else if model[|model| - 1] == '(' then |model| - 1
    else LastOpen(model[..|model| - 1])
  }

  /** A model's name in catalogues: without the effort some clients append in parentheses. */
  function CatalogName(model: string): string {
    var i := LastOpen(model);
    if 0 < i && model[|model| - 1] == ')' then model[..i] else model
  }

  predicate Contains(models: set<string>, model: string) {
    model in models || CatalogName(model) in models
  }

  predicate Supports(c: Catalog, model: string) {
    c.usable && Contains(c.models, model)
  }

  /** A catalogue of an old source proves what it contains, not what it lacks. */
  predicate Known(c: Catalog, model: string) {
    c.usable && (Supports(c, model) || c.current)
  }

  // ---- One account ----

  /** What is decided of one account; Vanished is a model look-up that found no such account. */
  datatype Verdict =
    | Ineligible
    | Unlisted(known: bool)
    | Full
    | CoolsFor(wait: int, model: string)
    | Spent(wait: int)
    | Unfunded
    | Missing
    | Vanished
    | Admitted

  predicate Eligible(q: Request, row: Row) {
    && row.provider in q.providers && AllowsProvider(q.policy, row.provider) && row.id in q.pool
    && row.enabled && !row.reauthorize && (q.provider == "" || row.provider == q.provider)
    && (q.kind == Compact ==> row.provider == "codex")
    && (q.model != "" ==> AllowsResource(q.policy, row.provider, q.model))
  }

  /** What a model's state says; a request for no model meets no model limit. */
  function ModelAnswer(s: State, id: string, model: string, now: int): Admission {
    var name := CatalogName(model);
    if name == "" then Ok
    else if id !in s.disk.accounts then NotFound
    else ModelAdmission(ReadModel(s, Key(id, name)), now)
  }

  /** The checks in the order selection makes them. */
  function Judge(s: State, q: Request, row: Row, now: int): Verdict {
    if !Eligible(q, row) then Ineligible
    else if q.model != "" && !Supports(row.catalog, q.model) then Unlisted(Known(row.catalog, q.model))
    else
      var account := AccountAdmission(s, row.id, now);
      if account.Busy? then Full
      else if account.Cooling? then CoolsFor(account.retryAfter, "")
      else if account.NotFound? then Missing
      else if row.quota.exhausted then Spent(Max(1, row.quota.retryAt - now))
      else
        var model := ModelAnswer(s, row.id, q.model, now);
        if model.Busy? then Full
        else if model.Cooling? then CoolsFor(model.retryAfter, CatalogName(q.model))
        else if model.NotFound? then Vanished
        else if row.id in q.unfunded then Unfunded
        else Admitted
  }

  function Preferred(kind: Kind): string {
    match kind
    case Messages => "claude"
    case Gemini => "antigravity"
    case _ => "codex"
  }

  /** The parent conversation's account goes before every tier. */
  function RowRank(q: Request, row: Row): (r: int)
    ensures -1 <= r <= 3
  {
    if row.id == q.parent then -1 else Rank(q.policy, row.provider, Preferred(q.kind))
  }

  // ---- What decides of one account ----

  /** The model's name without an effort in parentheses at its end, if something comes before them. */
  lemma {:induction false} CatalogNameDropsEffort(model: string, name: string, effort: string)
    requires '(' !in effort && name != ""
    ensures CatalogName(name + "(" + effort + ")") == name
    ensures (forall n, e :: model == n + "(" + e + ")" && '(' !in e ==> n == "") ==> CatalogName(model) == model
  {
    var full := name + "(" + effort + ")";
    LastOpenIs(full, |name|);
    var i := LastOpen(model);
    if 0 < i && model[|model| - 1] == ')' {
      var n, e := model[..i], model[i + 1..|model| - 1];
      assert model == n + "(" + e + ")";
      assert '(' !in e && n != "";
    }
  }

  lemma {:induction false} LastOpenIs(model: string, i: nat)
    requires i < |model| && model[i] == '(' && forall j :: i < j < |model| ==> model[j] != '('
    ensures LastOpen(model) == i
  {
    var k := LastOpen(model);
    assert k >= 0 by { OpenIsFound(model, i); }
  }

  lemma {:induction false} OpenIsFound(model: string, i: nat)
    requires i < |model| && model[i] == '('
    ensures 0 <= LastOpen(model)
  {
    if model[|model| - 1] != '(' {
      assert model[..|model| - 1][i] == '(';
      OpenIsFound(model[..|model| - 1], i);
    }
  }

  /** The policy lets `provider` serve `model`: it is not an interface account that subscriptions rule out, and
  where models are restricted a rule names this one, for this provider or for any. */
  predicate Permits(p: ModelPolicy, provider: string, model: string) {
    && (provider == "openai" && p.hasSubscriptions && p.preference == SubscriptionFirst ==> p.allowApiFallback)
    && (model != "" && p.restricted ==> Rule("", model) in p.rules || Rule(provider, model) in p.rules)
  }

  predicate MayServe(q: Request, row: Row) {
    && row.id in q.pool && row.provider in q.providers && row.enabled && !row.reauthorize
    && (q.provider != "" ==> row.provider == q.provider) && (q.kind == Compact ==> row.provider == "codex")
    && Permits(q.policy, row.provider, q.model)
  }

  predicate Lists(c: Catalog, model: string) {
    c.usable && (model in c.models || CatalogName(model) in c.models)
  }

  /** Each verdict on an account has one cause, in this order: it may not serve the request, does not list its
  model, is held, has spent its quota, its model is held, or its allowance refuses. */
  lemma VerdictIff(s: State, q: Request, row: Row, now: int)
    ensures var v := Judge(s, q, row, now);
      var account := AccountAdmission(s, row.id, now);
      var model := ModelAnswer(s, row.id, q.model, now);
      var listed := MayServe(q, row) && (q.model != "" ==> Lists(row.catalog, q.model));
      var free := listed && account == Ok && !row.quota.exhausted;
      && (v == Ineligible <==> !MayServe(q, row))
      && (v.Unlisted? <==> MayServe(q, row) && q.model != "" && !Lists(row.catalog, q.model))
      && (v.Unlisted? ==> (v.known <==> row.catalog.usable && row.catalog.current))
      && (v == Full <==> (listed && account == Busy) || (free && model == Busy))
      && (v.CoolsFor? <==> (listed && account.Cooling?) || (free && model.Cooling?))
      && (v.CoolsFor? ==> if account.Cooling? then v == CoolsFor(account.retryAfter, "") else v == CoolsFor(model.retryAfter, CatalogName(q.model)))
      && (v.Spent? <==> listed && account == Ok && row.quota.exhausted)
      && (v.Spent? ==> v.wait == if row.quota.retryAt - now < 1 then 1 else row.quota.retryAt - now)
      && (v == Unfunded <==> free && model == Ok && row.id in q.unfunded)
      && (v == Admitted <==> free && model == Ok && row.id !in q.unfunded)
  {
    PermitsIff(q.policy, row.provider, q.model);
    hide CatalogName, AccountAdmission, ModelAnswer, AllowsProvider, AllowsResource, Permits;
  }

  lemma PermitsIff(p: ModelPolicy, provider: string, model: string)
    ensures Permits(p, provider, model) <==> AllowsProvider(p, provider) && (model != "" ==> AllowsResource(p, provider, model))
  {
    if i :| 0 <= i < |p.rules| && p.rules[i].native == model && (p.rules[i].scope == "" || p.rules[i].scope == provider) {
      assert p.rules[i] in p.rules && (p.rules[i] == Rule("", model) || p.rules[i] == Rule(provider, model));
    }
    if Rule("", model) in p.rules {
      var i :| 0 <= i < |p.rules| && p.rules[i] == Rule("", model);
    }
    if Rule(provider, model) in p.rules {
      var i :| 0 <= i < |p.rules| && p.rules[i] == Rule(provider, model);
    }
  }

  /** A request is refused before any account is looked at iff models are restricted and no rule names its model,
  for its provider, for any, or, where it names no provider, for some. */
  lemma RefusedIff(q: Request)
    ensures Refused(q) <==>
      && q.model != "" && q.policy.restricted
      && forall r <- q.policy.rules :: r.native == q.model ==> q.provider != "" && r.scope != "" && r.scope != q.provider
  {
    assert forall i :: 0 <= i < |q.policy.rules| ==> q.policy.rules[i] in q.policy.rules;
  }

  // ---- The pool ----

  const NO_RANK := 4

  predicate IsAdmitted(s: State, q: Request, row: Row, now: int) {
    Judge(s, q, row, now) == Admitted
  }

  /** The accounts admitted at one rank, in the pool's order. */
  function Tier(s: State, q: Request, rows: seq<Row>, now: int, rank: int): seq<string> {
    if rows == [] then []
    else
      var rest := Tier(s, q, rows[..|rows| - 1], now, rank);
      var last := rows[|rows| - 1];
      if IsAdmitted(s, q, last, now) && RowRank(q, last) == rank then rest + [last.id] else rest
  }

  /** `best` is the least rank of an admitted account, or beyond every rank if there is none. */
  predicate IsBest(s: State, q: Request, rows: seq<Row>, now: int, best: int) {
    && (forall i :: 0 <= i < |rows| && IsAdmitted(s, q, rows[i], now) ==> best <= RowRank(q, rows[i]))
    && (best == NO_RANK || exists i :: 0 <= i < |rows| && IsAdmitted(s, q, rows[i], now) && RowRank(q, rows[i]) == best)
    && best <= NO_RANK
  }

  lemma {:induction false} TierMembers(s: State, q: Request, rows: seq<Row>, now: int, rank: int, id: string)
    ensures id in Tier(s, q, rows, now, rank) <==>
      exists i :: 0 <= i < |rows| && rows[i].id == id && IsAdmitted(s, q, rows[i], now) && RowRank(q, rows[i]) == rank
  {
    if rows != [] {
      var front := rows[..|rows| - 1];
      TierMembers(s, q, front, now, rank, id);
      if i :| 0 <= i < |rows| && rows[i].id == id && IsAdmitted(s, q, rows[i], now) && RowRank(q, rows[i]) == rank {
        assert i < |front| ==> front[i] == rows[i];
      }
      if i :| 0 <= i < |front| && front[i].id == id && IsAdmitted(s, q, front[i], now) && RowRank(q, front[i]) == rank {
        assert rows[i] == front[i];
      }
    }
  }

  lemma NoTierBelow(s: State, q: Request, rows: seq<Row>, now: int, best: int, rank: int)
    requires IsBest(s, q, rows, now, best) && rank < best
    ensures Tier(s, q, rows, now, rank) == []
  {
    if Tier(s, q, rows, now, rank) != [] {
      var id := Tier(s, q, rows, now, rank)[0];
      TierMembers(s, q, rows, now, rank, id);
    }
  }

  /** The tier that is tried is empty only when no account at all is admitted. */
  lemma BestTierIsEmptyOnlyIfNoneAdmitted(s: State, q: Request, rows: seq<Row>, now: int, best: int)
    requires IsBest(s, q, rows, now, best)
    ensures Tier(s, q, rows, now, best) == [] <==> forall i :: 0 <= i < |rows| ==> !IsAdmitted(s, q, rows[i], now)
  {
    if Tier(s, q, rows, now, best) == [] {
      forall i | 0 <= i < |rows| ensures !IsAdmitted(s, q, rows[i], now) {
        if IsAdmitted(s, q, rows[i], now) {
          assert best <= RowRank(q, rows[i]) < NO_RANK;
          var j :| 0 <= j < |rows| && IsAdmitted(s, q, rows[j], now) && RowRank(q, rows[j]) == best;
          TierMembers(s, q, rows, now, best, rows[j].id);
        }
      }
    } else {
      TierMembers(s, q, rows, now, best, Tier(s, q, rows, now, best)[0]);
    }
  }

  // ---- Preference ----

  /** The provider whose native protocol the request speaks. */
  predicate Native(kind: Kind, provider: string) {
    match kind
    case Messages => provider == "claude"
    case Gemini => provider == "antigravity"
    case Responses => provider == "codex"
    case Compact => provider == "codex"
  }

  /** The policy puts the provider off while another will do. */
  predicate Deferred(p: ModelPolicy, provider: string) {
    match p.preference
    case Protocol => false
    case SubscriptionFirst => provider == "openai"
    case ApiFirst => provider == "codex" || provider == "claude" || provider == "antigravity" || provider == "xai"
  }

  /** Account `a` is tried before `b`: the parent conversation's first, then those the policy does not put off,
  then those that speak the protocol natively. */
  predicate GoesBefore(q: Request, a: Row, b: Row) {
    if a.id == q.parent || b.id == q.parent then b.id != q.parent
    else if Deferred(q.policy, a.provider) != Deferred(q.policy, b.provider) then Deferred(q.policy, b.provider)
    else Native(q.kind, a.provider) && !Native(q.kind, b.provider)
  }

  lemma RankOrders(q: Request, a: Row, b: Row)
    ensures RowRank(q, a) < RowRank(q, b) <==> GoesBefore(q, a, b)
  {
  }

  /** An admitted account that no admitted account goes before. */
  predicate Foremost(s: State, q: Request, rows: seq<Row>, now: int, i: int)
    requires 0 <= i < |rows|
  {
    IsAdmitted(s, q, rows[i], now) && forall j :: 0 <= j < |rows| && IsAdmitted(s, q, rows[j], now) ==> !GoesBefore(q, rows[j], rows[i])
  }

  /** The tier that is tried holds exactly the foremost accounts. */
  lemma {:induction false} TierIsForemost(s: State, q: Request, rows: seq<Row>, now: int, best: int, id: string)
    requires IsBest(s, q, rows, now, best)
    ensures id in Tier(s, q, rows, now, best) <==> exists i :: 0 <= i < |rows| && rows[i].id == id && Foremost(s, q, rows, now, i)
  {
    TierMembers(s, q, rows, now, best, id);
    hide IsAdmitted, RowRank, GoesBefore, Tier;
    forall i, j | 0 <= i < |rows| && 0 <= j < |rows| ensures RowRank(q, rows[j]) < RowRank(q, rows[i]) <==> GoesBefore(q, rows[j], rows[i]) {
      RankOrders(q, rows[j], rows[i]);
    }
    if i :| 0 <= i < |rows| && rows[i].id == id && Foremost(s, q, rows, now, i) {
      assert RowRank(q, rows[i]) < NO_RANK;
      var j :| 0 <= j < |rows| && IsAdmitted(s, q, rows[j], now) && RowRank(q, rows[j]) == best;
      assert !GoesBefore(q, rows[j], rows[i]);
    }
    if i :| 0 <= i < |rows| && rows[i].id == id && IsAdmitted(s, q, rows[i], now) && RowRank(q, rows[i]) == best {
      assert Foremost(s, q, rows, now, i);
    }
  }

  // ---- Refusals ----

  datatype Refusal = NoRefusal | ModelNotAllowed | NoAllowance | AccountBusy | AccountCooling(wait: int, model: string) | QuotaExhausted(wait: int)
                   | CatalogUnknown | ModelUnavailable | NoAccount | LookupFailed

  /** The verdicts on a pool's accounts, in order. */
  function Judgments(s: State, q: Request, rows: seq<Row>, now: int): (vs: seq<Verdict>)
    ensures |vs| == |rows| && forall i :: 0 <= i < |rows| ==> vs[i] == Judge(s, q, rows[i], now)
  {
    seq(|rows|, i requires 0 <= i < |rows| => Judge(s, q, rows[i], now))
  }

  predicate SomeCools(vs: seq<Verdict>) { exists i :: 0 <= i < |vs| && vs[i].CoolsFor? }

  predicate SomeSpent(vs: seq<Verdict>) { exists i :: 0 <= i < |vs| && vs[i].Spent? }

  predicate SomeEligible(vs: seq<Verdict>) { exists i :: 0 <= i < |vs| && vs[i] != Ineligible }

  predicate ShortestCooling(vs: seq<Verdict>, wait: int, model: string) {
    CoolsFor(wait, model) in vs && forall i :: 0 <= i < |vs| && vs[i].CoolsFor? ==> wait <= vs[i].wait
  }

  predicate ShortestSpent(vs: seq<Verdict>, wait: int) {
    Spent(wait) in vs && forall i :: 0 <= i < |vs| && vs[i].Spent? ==> wait <= vs[i].wait
  }

  /** The reason given when no account is admitted: the first that applies, with the shortest wait. */
  predicate Explains(vs: seq<Verdict>, model: string, r: Refusal) {
    if Unfunded in vs then r == NoAllowance
    else if Full in vs then r == AccountBusy
    else if SomeCools(vs) then r.AccountCooling? && ShortestCooling(vs, r.wait, r.model)
    else if SomeSpent(vs) then r.QuotaExhausted? && ShortestSpent(vs, r.wait)
    else if Unlisted(false) in vs then r == CatalogUnknown
    else if SomeEligible(vs) && model != "" then r == ModelUnavailable
    else r == NoAccount
  }

  predicate Waits(v: Verdict) {
    (v.CoolsFor? ==> 0 < v.wait) && (v.Spent? ==> 0 < v.wait)
  }

  lemma WaitsArePositive(s: State, q: Request, row: Row, now: int)
    ensures Waits(Judge(s, q, row, now))
  {
  }

  /** What one pass remembers of the accounts that were not admitted; a wait of zero means none. */
  datatype Notes = Notes(busy: bool, unknown: bool, eligible: bool, unfunded: bool, cooling: int, coolingModel: string, spent: int)

  predicate Recalls(vs: seq<Verdict>, n: Notes) {
    && n.busy == (Full in vs) && n.unknown == (Unlisted(false) in vs) && n.unfunded == (Unfunded in vs) && n.eligible == SomeEligible(vs)
    && (if n.cooling == 0 then !SomeCools(vs) else 0 < n.cooling && ShortestCooling(vs, n.cooling, n.coolingModel))
    && (if n.spent == 0 then !SomeSpent(vs) else 0 < n.spent && ShortestSpent(vs, n.spent))
  }

  method Note(ghost vs: seq<Verdict>, n: Notes, v: Verdict) returns (after: Notes)
    requires Recalls(vs, n) && Waits(v)
    ensures Recalls(vs + [v], after)
  {
    after := n;
    match v {
      case Ineligible =>
      case Unlisted(known) => after := n.(eligible := true, unknown := n.unknown || !known);
      case Full => after := n.(eligible := true, busy := true);
      case CoolsFor(wait, model) =>
        after := if n.cooling == 0 || wait < n.cooling then n.(eligible := true, cooling := wait, coolingModel := model) else n.(eligible := true);
      case Spent(wait) =>
        after := if n.spent == 0 || wait < n.spent then n.(eligible := true, spent := wait) else n.(eligible := true);
      case Unfunded => after := n.(eligible := true, unfunded := true);
      case _ => after := n.(eligible := true);
    }
    OneMore(vs, v);
    StillShortest(vs, v, n);
    hide SomeEligible, SomeCools, SomeSpent, ShortestCooling, ShortestSpent;
  }

  /** The shortest wait is the earlier one or the new one, whichever is less. */
  lemma StillShortest(vs: seq<Verdict>, v: Verdict, n: Notes)
    requires Recalls(vs, n)
    ensures n.cooling != 0 && !(v.CoolsFor? && v.wait < n.cooling) ==> ShortestCooling(vs + [v], n.cooling, n.coolingModel)
    ensures v.CoolsFor? && (n.cooling == 0 || v.wait < n.cooling) ==> ShortestCooling(vs + [v], v.wait, v.model)
    ensures n.spent != 0 && !(v.Spent? && v.wait < n.spent) ==> ShortestSpent(vs + [v], n.spent)
    ensures v.Spent? && (n.spent == 0 || v.wait < n.spent) ==> ShortestSpent(vs + [v], v.wait)
  {
  }

  lemma OneMore(vs: seq<Verdict>, v: Verdict)
    ensures SomeEligible(vs + [v]) <==> SomeEligible(vs) || v != Ineligible
    ensures SomeCools(vs + [v]) <==> SomeCools(vs) || v.CoolsFor?
    ensures SomeSpent(vs + [v]) <==> SomeSpent(vs) || v.Spent?
  {
    var ws := vs + [v];
    assert v == ws[|vs|];
    assert forall i :: 0 <= i < |vs| ==> ws[i] == vs[i];
  }

  predicate Refused(q: Request) {
    q.model != "" && !Allows(q.policy, q.provider, q.model)
  }

  /** The best tier of the accounts so far, with one more account. */
  lemma TierGrows(s: State, q: Request, rows: seq<Row>, row: Row, now: int, best: int)
    requires IsBest(s, q, rows, now, best)
    ensures var all := rows + [row];
      var rank := RowRank(q, row);
      if !IsAdmitted(s, q, row, now) || best < rank then
        IsBest(s, q, all, now, best) && Tier(s, q, all, now, best) == Tier(s, q, rows, now, best)
      else if rank == best then
        IsBest(s, q, all, now, best) && Tier(s, q, all, now, best) == Tier(s, q, rows, now, best) + [row.id]
      else
        IsBest(s, q, all, now, rank) && Tier(s, q, all, now, rank) == [row.id]
  {
    var all := rows + [row];
    assert all[..|rows|] == rows && all[|rows|] == row;
    assert forall i :: 0 <= i < |rows| ==> all[i] == rows[i];
    if RowRank(q, row) < best {
      NoTierBelow(s, q, rows, now, best, RowRank(q, row));
    }
    hide Judge, RowRank;
  }

  method Conclude(ghost vs: seq<Verdict>, n: Notes, model: string) returns (r: Refusal)
    requires Recalls(vs, n)
    ensures r != LookupFailed && r != NoRefusal && Explains(vs, model, r)
  {
    r := if n.unfunded then NoAllowance else if n.busy then AccountBusy
      else if n.cooling > 0 then AccountCooling(n.cooling, n.coolingModel)
      else if n.spent > 0 then QuotaExhausted(n.spent) else if n.unknown then CatalogUnknown
      else if n.eligible && model != "" then ModelUnavailable else NoAccount;
  }

  /** One pass over the pool keeps the accounts of the best rank met so far; a failed look-up ends it. */
  method Candidates(s: State, q: Request, rows: seq<Row>, now: int) returns (candidates: seq<string>, best: int, refusal: Refusal)
    ensures Refused(q) ==> candidates == [] && refusal == ModelNotAllowed
    ensures !Refused(q) && Vanished in Judgments(s, q, rows, now) ==> candidates == [] && refusal == LookupFailed
    ensures !Refused(q) && Vanished !in Judgments(s, q, rows, now) ==>
      forall id :: id in candidates <==> exists i :: 0 <= i < |rows| && rows[i].id == id && Foremost(s, q, rows, now, i)
    ensures !Refused(q) && Vanished !in Judgments(s, q, rows, now) ==> IsBest(s, q, rows, now, best) && candidates == Tier(s, q, rows, now, best)
    ensures !Refused(q) && Vanished !in Judgments(s, q, rows, now) ==> if candidates != [] then refusal == NoRefusal else Explains(Judgments(s, q, rows, now), q.model, refusal)
  {
    candidates, best, refusal := [], NO_RANK, NoRefusal;
    if q.model != "" && !Allows(q.policy, q.provider, q.model) {
      return [], best, ModelNotAllowed;
    }
    ghost var vs := Judgments(s, q, rows, now);
    var notes := Notes(false, false, false, false, 0, "", 0);
    for i := 0 to |rows|
      invariant IsBest(s, q, rows[..i], now, best) && candidates == Tier(s, q, rows[..i], now, best)
      invariant Recalls(vs[..i], notes) && Vanished !in vs[..i]
    {
      hide Judge, Judgments, Eligible, IsBest, Tier, Recalls, RowRank;
      var v := Judge(s, q, rows[i], now);
      if v == Vanished {
        assert vs[i] == Vanished;
        return [], best, LookupFailed;
      }
      WaitsArePositive(s, q, rows[i], now);
      notes := Note(vs[..i], notes, v);
      TierGrows(s, q, rows[..i], rows[i], now, best);
      assert rows[..i] + [rows[i]] == rows[..i + 1];
      assert vs[..i] + [v] == vs[..i + 1];
      if v == Admitted {
        var rank := RowRank(q, rows[i]);
        if rank < best {
          candidates, best := [], rank;
        }
        if rank == best {
          candidates := candidates + [rows[i].id];
        }
      }
    }
    hide Judge, Judgments, Eligible, IsBest, Tier, Recalls, RowRank;
    assert rows[..|rows|] == rows;
    assert vs[..|rows|] == vs;
    forall id ensures id in candidates <==> exists i :: 0 <= i < |rows| && rows[i].id == id && Foremost(s, q, rows, now, i) {
      TierIsForemost(s, q, rows, now, best, id);
    }
    if candidates == [] {
      refusal := Conclude(vs, notes, q.model);
    }
  }
}
