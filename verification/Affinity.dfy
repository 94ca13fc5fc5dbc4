/** Conversations stay with their account: bindings of sessions to accounts, and what every run of
selections keeps of them. */
module Affinity {

  import opened Common

  const DAY := 86400
  const TOUCH_MARGIN := 1800
  const MAX_BINDINGS := 4096
  const AUTO := "auto"

  /** A conversation of one member in one pool. */
  datatype Session = Session(user: int, pool: int, hash: string)

  /** Bindings are kept by provider, or under one common scope for automatic routing. */
  datatype Slot = Slot(session: Session, scope: string)

  datatype Binding = Binding(account: string, model: string, expires: int, rebound: bool)

  type Table = map<Slot, Binding>

  datatype Mode = Pinned | Portable | Continuation

  /** A request; without a session it is scheduled afresh and bound to nothing. */
  datatype Ask = Ask(session: Option<Session>, scope: string, model: string, mode: Mode)

  /** What holds of the pool's accounts when the request is served: those its policy lets it use, those
  enabled and authorized, those whose catalogue is known or lists the model, those every remaining check
  admits, and the account scheduling would choose. */
  datatype Facts = Facts(usable: set<string>, awake: set<string>, known: set<string>, supported: set<string>, admitted: set<string>, choice: Option<string>)

  datatype Reason = Unavailable | Conflict | UnknownCatalog | NotAdmitted | TooMany

  datatype Outcome = Chosen(account: string) | Refused(reason: Reason)

  /** Scheduling chooses only accounts that pass the same checks. */
  predicate Valid(q: Ask, f: Facts) {
    && f.supported <= f.known
    && (f.choice.Some? ==> f.choice.value in f.usable * f.awake * f.admitted && (q.model != "" ==> f.choice.value in f.supported))
  }

  // ---- The table ----

  predicate Live(t: Table, k: Slot, now: int) {
    k in t && now < t[k].expires
  }

  function Pruned(t: Table, now: int): Table {
    map k | k in t && now < t[k].expires :: t[k]
  }

  /** A new binding, unless the table is full of live ones. */
  function Remembered(t: Table, k: Slot, b: Binding, now: int): Option<Table>
    requires !Live(t, k, now)
  {
    if MAX_BINDINGS <= |Pruned(t, now)| then None else Some(Pruned(t, now)[k := b])
  }

  /** Refreshes a binding of which enough time has passed, or whose model changed. */
  function Touched(t: Table, k: Slot, model: string, now: int): Table {
    if k in t && (t[k].expires < now + DAY - TOUCH_MARGIN || t[k].model != model) then
      t[k := t[k].(expires := now + DAY, model := model)]
    else t
  }

  datatype Lookup = Unbound | Bound(scope: string) | Ambiguous

  function LiveScopes(t: Table, session: Session, now: int): set<string> {
    set k | k in t && k.session == session && now < t[k].expires :: k.scope
  }

  /** The request's own binding, or for automatic routing the only one there is. */
  function Find(t: Table, session: Session, scope: string, now: int): (l: Lookup)
    ensures l.Bound? ==> Live(t, Slot(session, l.scope), now)
    ensures l.Bound? && l.scope != scope ==> !Live(t, Slot(session, scope), now)
    ensures l.Unbound? ==> !Live(t, Slot(session, scope), now)
  {
    if Live(t, Slot(session, scope), now) then Bound(scope)
    else if scope == AUTO && LiveScopes(t, session, now) != {} then
      if |LiveScopes(t, session, now)| != 1 then Ambiguous else Bound(TheOnly(LiveScopes(t, session, now)))
    else Unbound
  }

  function TheOnly(scopes: set<string>): (scope: string)
    requires |scopes| == 1
    ensures scope in scopes
  {
    OnlyOne(scopes);
    var scope :| scope in scopes;
    scope
  }

  lemma OnlyOne(scopes: set<string>)
    requires |scopes| == 1
    ensures forall x, y :: x in scopes && y in scopes ==> x == y
    ensures exists x :: x in scopes
  {
    forall x, y | x in scopes && y in scopes ensures x == y {
      assert |scopes - {x}| == 0;
    }
    assert (forall x :: x !in scopes) ==> scopes == {};
  }

  // ---- Selection ----

  /** Why a bound conversation cannot go on where it is; it may go on elsewhere only if it asks for
  another model, brings its whole history, and its account is known not to have the model. */
  datatype Standing = Stays | Moves | Stops(reason: Reason)

  function Stand(b: Binding, q: Ask, f: Facts): Standing {
    if b.account !in f.usable then Stops(Unavailable)
    else if q.model != "" && b.account in f.awake && q.mode.Continuation? && b.rebound && b.model != "" && q.model != b.model then Stops(Conflict)
    else if q.model != "" && b.account in f.awake && b.account !in f.known then Stops(UnknownCatalog)
    else if q.model != "" && b.account in f.awake && b.account !in f.supported then
      if q.mode != Portable || b.model == "" || b.model == q.model then Stops(Conflict) else Moves
    else if b.account !in f.awake || b.account !in f.admitted then Stops(NotAdmitted)
    else Stays
  }

  function StayModel(b: Binding, q: Ask): string {
    if q.model == "" then b.model else q.model
  }

  function Stay(t: Table, k: Slot, q: Ask, now: int): (Table, Outcome)
    requires q.session.Some? && k.session == q.session.value && Live(t, k, now)
    requires k.scope != q.scope ==> !Live(t, Slot(k.session, q.scope), now)
  {
    var b := t[k];
    var model := StayModel(b, q);
    if k.scope == q.scope then (Touched(t, k, model, now), Chosen(b.account))
    else
      var u := Remembered(t, Slot(k.session, q.scope), Binding(b.account, model, now + DAY, b.rebound), now);
      if u.None? then (t, Refused(TooMany)) else (Touched(u.value, k, model, now), Chosen(b.account))
  }

  /** A scheduled choice, with the binding it replaces, if any. */
  function Schedule(t: Table, replaced: Option<Slot>, q: Ask, f: Facts, now: int): (Table, Outcome)
    requires replaced.Some? ==> q.session.Some? && replaced.value.session == q.session.value && Live(t, replaced.value, now)
    requires q.session.Some? && (replaced.None? || replaced.value.scope != q.scope) ==> !Live(t, Slot(q.session.value, q.scope), now)
  {
    if f.choice.None? then (t, Refused(NotAdmitted))
    else if q.session.None? then (t, Chosen(f.choice.value))
    else
      var k := Slot(q.session.value, q.scope);
      var id := f.choice.value;
      if replaced.Some? && replaced.value.scope == q.scope then
        (t[k := Binding(id, q.model, now + DAY, t[k].rebound || t[k].account != id)], Chosen(id))
      else
        var u := Remembered(t, k, Binding(id, q.model, now + DAY, replaced.Some?), now);
        if u.None? then (t, Refused(TooMany)) else (u.value, Chosen(id))
  }

  function Select(t: Table, q: Ask, f: Facts, now: int): (Table, Outcome) {
    if q.session.None? then Schedule(t, None, q, f, now)
    else
      var lookup := Find(t, q.session.value, q.scope, now);
      match lookup
      case Ambiguous => (t, Refused(Unavailable))
      case Unbound => Schedule(t, None, q, f, now)
      case Bound(scope) =>
        var k := Slot(q.session.value, scope);
        var standing := Stand(t[k], q, f);
        if standing.Stops? then (t, Refused(standing.reason))
        else if standing.Moves? then Schedule(t, Some(k), q, f, now)
        else Stay(t, k, q, now)
  }

  // ---- What becomes of a bound conversation ----

  /** A continuation names another model than the one its conversation was moved to. */
  predicate NamesAnother(b: Binding, q: Ask) {
    q.mode == Continuation && b.rebound && b.model != "" && q.model != "" && q.model != b.model
  }

  /** The request names a model that the bound account, enabled and with a known catalogue, does not list. */
  predicate Lacks(b: Binding, q: Ask, f: Facts) {
    q.model != "" && b.account in f.awake * f.known && b.account !in f.supported
  }

  /** A bound conversation goes on with its account exactly when that may be used, is enabled and passes every
  check, and lists the model that is named; it moves exactly when a request with its whole history names a
  model, other than the last one, that the account is known not to have; and each refusal has one cause. */
  lemma StandingIff(b: Binding, q: Ask, f: Facts)
    requires f.supported <= f.known
    ensures Stand(b, q, f) == Stays <==>
      b.account in f.usable * f.awake * f.admitted && (q.model != "" ==> b.account in f.supported) && !NamesAnother(b, q)
    ensures Stand(b, q, f) == Moves <==>
      b.account in f.usable && Lacks(b, q, f) && q.mode == Portable && b.model != "" && b.model != q.model
    ensures Stand(b, q, f) == Stops(Unavailable) <==> b.account !in f.usable
    ensures Stand(b, q, f) == Stops(UnknownCatalog) <==>
      b.account in f.usable * f.awake && b.account !in f.known && q.model != "" && !NamesAnother(b, q)
    ensures Stand(b, q, f) == Stops(Conflict) <==>
      && b.account in f.usable * f.awake
      && (NamesAnother(b, q) || (Lacks(b, q, f) && !(q.mode == Portable && b.model != "" && b.model != q.model)))
    ensures Stand(b, q, f) == Stops(NotAdmitted) <==>
      && b.account in f.usable
      && (b.account !in f.awake || (b.account !in f.admitted && (q.model != "" ==> b.account in f.supported) && !NamesAnother(b, q)))
  {
  }

  /** A conversation that goes on under its own scope is answered by its account, and keeps its binding: under
  the model last named, and for another day once less than a day less half an hour is left of it, or the
  model changes. */
  lemma StayingRenews(t: Table, k: Slot, q: Ask, f: Facts, now: int)
    requires Live(t, k, now) && For(q, k) && Stand(t[k], q, f) == Stays
    ensures var (u, answer) := Select(t, q, f, now);
      var model := if q.model != "" then q.model else t[k].model;
      && answer == Chosen(t[k].account)
      && u == if t[k].expires < now + 84600 || t[k].model != model then t[k := Binding(t[k].account, model, now + 86400, t[k].rebound)] else t
  {
  }

  /** A conversation not bound yet is bound to the account scheduling chooses, for a day; the bindings that have
  expired go, and it is refused exactly when 4096 others are unexpired. */
  lemma SchedulingBinds(t: Table, k: Slot, q: Ask, f: Facts, now: int)
    requires For(q, k) && Find(t, k.session, k.scope, now) == Unbound && f.choice.Some?
    ensures var (u, answer) := Select(t, q, f, now);
      var live := map j | j in t && now < t[j].expires :: t[j];
      if 4096 <= |live| then u == t && answer == Refused(TooMany)
      else u == live[k := Binding(f.choice.value, q.model, now + 86400, false)] && answer == Chosen(f.choice.value)
  {
  }

  /** A conversation that moves is bound to the account scheduling chooses, for a day, and remembers that it moved. */
  lemma MovingBinds(t: Table, k: Slot, q: Ask, f: Facts, now: int)
    requires Live(t, k, now) && For(q, k) && Stand(t[k], q, f) == Moves && Valid(q, f)
    ensures var (u, answer) := Select(t, q, f, now);
      if f.choice.None? then u == t && answer == Refused(NotAdmitted)
      else u == t[k := Binding(f.choice.value, q.model, now + 86400, true)] && answer == Chosen(f.choice.value)
  {
  }

  /** Automatic routing that finds its conversation bound under another scope answers alike, and keeps a binding of
  its own beside that one, while fewer than 4096 are unexpired. */
  lemma AutomaticRoutingAdopts(t: Table, k: Slot, q: Ask, f: Facts, now: int)
    requires q.session == Some(k.session) && k.scope != q.scope && Find(t, k.session, q.scope, now) == Bound(k.scope) && Valid(q, f)
    ensures var (u, answer) := Select(t, q, f, now);
      var live := map j | j in t && now < t[j].expires :: t[j];
      var own := Slot(k.session, q.scope);
      var model := if q.model != "" then q.model else t[k].model;
      var renewed := if t[k].expires < now + 84600 || t[k].model != model then Binding(t[k].account, model, now + 86400, t[k].rebound) else t[k];
      && (Stand(t[k], q, f) == Stays ==>
            if 4096 <= |live| then u == t && answer == Refused(TooMany)
            else answer == Chosen(t[k].account) && u == live[own := Binding(t[k].account, model, now + 86400, t[k].rebound)][k := renewed])
      && (Stand(t[k], q, f) == Moves && f.choice.Some? ==>
            if 4096 <= |live| then u == t && answer == Refused(TooMany)
            else answer == Chosen(f.choice.value) && u == live[own := Binding(f.choice.value, q.model, now + 86400, true)])
  {
  }

  /** A request finds its own unexpired binding; for automatic routing, or else the only unexpired one of its
  conversation. */
  lemma {:induction false} FindsIff(t: Table, session: Session, scope: string, now: int)
    ensures var l := Find(t, session, scope, now);
      var own := Slot(session, scope);
      if own in t && now < t[own].expires then l == Bound(scope)
      else
        && (l == Unbound <==> scope != "auto" || forall k :: k in t && k.session == session ==> t[k].expires <= now)
        && (l == Ambiguous <==> scope == "auto" && TwoUnexpired(t, session, now))
  {
    var scopes := LiveScopes(t, session, now);
    if |scopes| == 1 {
      OnlyOne(scopes);
    }
    if scopes != {} && |scopes| != 1 {
      TwoOfMany(scopes);
      var a, b :| a in scopes && b in scopes && a != b;
      assert Slot(session, a) in t && Slot(session, b) in t;
    }
    assert forall k :: k in t && k.session == session && now < t[k].expires ==> k.scope in scopes;
    assert forall j: Slot, k: Slot :: j.session == k.session && j.scope == k.scope ==> j == k;
  }

  predicate TwoUnexpired(t: Table, session: Session, now: int) {
    exists j, k :: j in t && k in t && j != k && j.session == k.session == session && now < t[j].expires && now < t[k].expires
  }

  lemma TwoOfMany(scopes: set<string>)
    requires scopes != {} && |scopes| != 1
    ensures exists a, b :: a in scopes && b in scopes && a != b
  {
    SomeMember(scopes);
    var a :| a in scopes;
    assert scopes - {a} == {} ==> scopes == {a};
    SomeMember(scopes - {a});
  }

  // ---- One selection ----

  predicate For(q: Ask, k: Slot) {
    q.session == Some(k.session) && q.scope == k.scope
  }

  /** The one way a live binding changes its account. */
  predicate MovesBinding(t: Table, k: Slot, q: Ask, f: Facts) {
    For(q, k) && k in t && Stand(t[k], q, f) == Moves && f.choice.Some?
  }

  lemma LiveStays(t: Table, k: Slot, q: Ask, f: Facts, now: int)
    requires Live(t, k, now) && Valid(q, f)
    ensures var u := Select(t, q, f, now).0;
      k in u && (u[k].account != t[k].account <==> MovesBinding(t, k, q, f))
  {
  }

  /** A selection for a bound conversation answers with its account, unless it moves it. */
  lemma BoundAnswer(t: Table, k: Slot, q: Ask, f: Facts, now: int)
    requires Live(t, k, now) && For(q, k)
    ensures var (u, answer) := Select(t, q, f, now);
      answer.Chosen? && !MovesBinding(t, k, q, f) ==> answer.account == t[k].account && k in u && now + DAY - TOUCH_MARGIN <= u[k].expires
  {
  }

  /** No binding outlasts a day after the last selection. */
  predicate Within(t: Table, now: int) {
    forall k <- t :: t[k].expires <= now + DAY
  }

  lemma SelectWithin(t: Table, q: Ask, f: Facts, last: int, now: int)
    requires Within(t, last) && last <= now
    ensures Within(Select(t, q, f, now).0, now)
  {
  }

  lemma ExpiryGrows(t: Table, k: Slot, q: Ask, f: Facts, last: int, now: int)
    requires Live(t, k, now) && Within(t, last) && last <= now
    ensures var u := Select(t, q, f, now).0; k in u && t[k].expires <= u[k].expires
  {
  }

  lemma SelectKeepsCapacity(t: Table, q: Ask, f: Facts, now: int)
    requires |t| <= 4096
    ensures |Select(t, q, f, now).0| <= 4096
  {
  }

  // ---- Runs ----

  datatype Turn = Turn(ask: Ask, facts: Facts, now: int)

  predicate Timely(es: seq<Turn>, from: int) {
    es == [] || (from <= es[0].now && Valid(es[0].ask, es[0].facts) && Timely(es[1..], es[0].now))
  }

  /** The answers of a run, in order. */
  function Answers(t: Table, es: seq<Turn>): (r: seq<Outcome>)
    ensures |r| == |es|
    decreases |es|
  {
    if es == [] then [] else
      var (u, answer) := Select(t, es[0].ask, es[0].facts, es[0].now);
      [answer] + Answers(u, es[1..])
  }

  /** The conversation is answered often enough that its binding does not lapse: every turn comes
  within a day, less half an hour, of the last answer it got. */
  predicate KeptUp(t: Table, es: seq<Turn>, k: Slot, last: int)
    decreases |es|
  {
    es == [] || (
      && es[0].now < last + DAY - TOUCH_MARGIN
      && var (u, answer) := Select(t, es[0].ask, es[0].facts, es[0].now);
         KeptUp(u, es[1..], k, if For(es[0].ask, k) && answer.Chosen? then es[0].now else last))
  }

  /** A turn that cannot move the conversation from `account`. */
  predicate Fixed(e: Turn, k: Slot, account: string) {
    For(e.ask, k) ==> e.ask.mode != Portable || account in e.facts.supported || account !in e.facts.known || e.ask.model == ""
  }

  /** A conversation that is kept up is answered by one account for as long as it goes on, whatever
  other members and conversations do: refusals happen, answers elsewhere do not. */
  lemma {:induction false} ConversationsStay(t: Table, es: seq<Turn>, k: Slot, last: int, from: int, i: nat)
    requires k in t && last + DAY - TOUCH_MARGIN <= t[k].expires && Within(t, from) && Timely(es, from)
    requires KeptUp(t, es, k, last) && (forall e <- es :: Fixed(e, k, t[k].account))
    requires i < |es| && For(es[i].ask, k) && Answers(t, es)[i].Chosen?
    ensures Answers(t, es)[i].account == t[k].account
    decreases |es|
  {
    var e := es[0];
    var (u, answer) := Select(t, e.ask, e.facts, e.now);
    assert Fixed(e, k, t[k].account);
    assert !MovesBinding(t, k, e.ask, e.facts);
    LiveStays(t, k, e.ask, e.facts, e.now);
    SelectWithin(t, e.ask, e.facts, from, e.now);
    ExpiryGrows(t, k, e.ask, e.facts, from, e.now);
    if For(e.ask, k) {
      BoundAnswer(t, k, e.ask, e.facts, e.now);
    }
    hide Select, Valid;
    if i > 0 {
      ConversationsStay(u, es[1..], k, if For(e.ask, k) && answer.Chosen? then e.now else last, e.now, i - 1);
    }
  }

  /** The conversation's own turns come while it is bound; nothing is asked of any other turn. */
  predicate BoundAtTurns(t: Table, es: seq<Turn>, k: Slot)
    decreases |es|
  {
    es == [] || (
      && (For(es[0].ask, k) ==> Live(t, k, es[0].now))
      && BoundAtTurns(Select(t, es[0].ask, es[0].facts, es[0].now).0, es[1..], k))
  }

  /** A lapsed binding comes back to life only at a turn of its own conversation. */
  lemma LapsedStays(t: Table, k: Slot, q: Ask, f: Facts, now: int)
    requires !Live(t, k, now) && !For(q, k)
    ensures var u := Select(t, q, f, now).0; !Live(u, k, now)
  {
  }

  lemma {:induction false} LapsedHasNoTurns(t: Table, es: seq<Turn>, k: Slot, from: int, i: nat)
    requires !Live(t, k, from) && Timely(es, from) && BoundAtTurns(t, es, k) && i < |es|
    ensures !For(es[i].ask, k)
    decreases |es|
  {
    var e := es[0];
    if i > 0 {
      LapsedStays(t, k, e.ask, e.facts, e.now);
      hide Select, Valid;
      LapsedHasNoTurns(Select(t, e.ask, e.facts, e.now).0, es[1..], k, e.now, i - 1);
    }
  }

  /** While its binding is unexpired at each of its own turns, whenever others come, a conversation is
  answered by one account. */
  lemma {:induction false} BoundConversationsStay(t: Table, es: seq<Turn>, k: Slot, from: int, i: nat)
    requires k in t && Timely(es, from) && BoundAtTurns(t, es, k) && (forall e <- es :: Fixed(e, k, t[k].account))
    requires i < |es| && For(es[i].ask, k) && Answers(t, es)[i].Chosen?
    ensures Answers(t, es)[i].account == t[k].account
    decreases |es|
  {
    var e := es[0];
    var (u, answer) := Select(t, e.ask, e.facts, e.now);
    assert Fixed(e, k, t[k].account);
    if Live(t, k, e.now) {
      assert !MovesBinding(t, k, e.ask, e.facts);
      LiveStays(t, k, e.ask, e.facts, e.now);
      if For(e.ask, k) {
        BoundAnswer(t, k, e.ask, e.facts, e.now);
      }
      hide Select, Valid;
      if i > 0 {
        BoundConversationsStay(u, es[1..], k, e.now, i - 1);
      }
    } else {
      LapsedHasNoTurns(t, es, k, e.now, i);
      assert false;
    }
  }

  /** After a move, opaque state of the earlier account is not brought to the new one: a continuation
  that names another model than the one moved to is refused. */
  lemma MovedConversationRefusesOldState(t: Table, k: Slot, q: Ask, f: Facts, now: int, later: Ask, g: Facts, at: int)
    requires Live(t, k, now) && Valid(q, f) && MovesBinding(t, k, q, f)
    requires For(later, k) && later.mode == Continuation && later.model != "" && later.model != q.model
    requires var u := Select(t, q, f, now).0; Live(u, k, at) && u[k].account in g.awake
    ensures var u := Select(t, q, f, now).0;
      Select(u, later, g, at) == (u, Refused(if u[k].account in g.usable then Conflict else Unavailable))
  {
  }

  // ---- The bindings ----

  class Bindings {
    var table: Table

    /** The request's own binding among a conversation's live ones, or the only one if routing is
    automatic. */
    method FindBinding(session: Session, scope: string, now: int) returns (found: Lookup)
      ensures found == Find(table, session, scope, now)
    {
      var k := Slot(session, scope);
      if k in table && now < table[k].expires {
        return Bound(scope);
      }
      if scope != AUTO {
        return Unbound;
      }
      var scopes := LiveScopes(table, session, now);
      if scopes == {} {
        return Unbound;
      }
      return if |scopes| != 1 then Ambiguous else Bound(TheOnly(scopes));
    }

    method Remember(k: Slot, b: Binding, now: int) returns (ok: bool)
      requires !Live(table, k, now)
      modifies this
      ensures var u := Remembered(old(table), k, b, now); ok == u.Some? && table == if u.Some? then u.value else old(table)
    {
      var kept := Pruned(table, now);
      if MAX_BINDINGS <= |kept| {
        return false;
      }
      table := kept[k := b];
      return true;
    }

    method Choose(q: Ask, f: Facts, now: int) returns (answer: Outcome)
      modifies this
      ensures (table, answer) == Select(old(table), q, f, now)
    {
      var replaced := None;
      if q.session.Some? {
        var session := q.session.value;
        var found := FindBinding(session, q.scope, now);
        if found.Ambiguous? {
          return Refused(Unavailable);
        }
        if found.Bound? {
          var k := Slot(session, found.scope);
          var b := table[k];
          var standing := Stand(b, q, f);
          if standing.Stops? {
            return Refused(standing.reason);
          }
          if standing.Stays? {
            var model := if q.model == "" then b.model else q.model;
            if found.scope != q.scope {
              var ok := Remember(Slot(session, q.scope), Binding(b.account, model, now + DAY, b.rebound), now);
              if !ok {
                return Refused(TooMany);
              }
            }
            table := Touched(table, k, model, now);
            return Chosen(b.account);
          }
          replaced := Some(k);
        }
      }
      if f.choice.None? {
        return Refused(NotAdmitted);
      }
      var id := f.choice.value;
      if q.session.Some? {
        var k := Slot(q.session.value, q.scope);
        if replaced.Some? && replaced.value.scope == q.scope {
          table := table[k := Binding(id, q.model, now + DAY, table[k].rebound || table[k].account != id)];
        } else {
          var ok := Remember(k, Binding(id, q.model, now + DAY, replaced.Some?), now);
          if !ok {
            return Refused(TooMany);
          }
        }
      }
      return Chosen(id);
    }
  }
}
