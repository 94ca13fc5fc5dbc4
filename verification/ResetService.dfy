/** The reset service: the next scheduled occurrence, and the service's operations, each of which makes
steps of the durable protocol. */
module ResetService {

  import opened Common
  import opened CivilDates
  import opened Calendar
  import opened ResetDays
  import opened Redemption

  // ---- Schedules ----

  datatype Frequency = Once | Daily | Weekly

  datatype Config = Config(scheduled: bool, exhausted: bool, frequency: Frequency, minute: int, weekday: int, date: Option<int>, limit: int)

  const DAYS_AHEAD := 15

  /** The civil epoch was a Thursday. */
  function Weekday(day: int): int { (day + 4) % 7 }

  /** What the library proposes: the noon of a date, moved on by some days, and the instant of the configured
  minute of a date. */
  datatype Proposals = Proposals(noon: (int, int) -> int, clock: int -> int)

  /** The date that stands for the one `offset` days after `date`: that of the noon proposed for it. */
  function DateAfter(z: Zone, ps: Proposals, date: int, offset: int): int {
    z.Day(ps.noon(date, offset))
  }

  /** The instant proposed for a minute of a civil date shows that date and minute. */
  predicate Exists(z: Zone, clock: int -> int, day: int, minute: int) {
    z.Day(clock(day)) == day && z.Local(clock(day)) % DAY / 60 == minute
  }

  predicate Suits(z: Zone, c: Config, clock: int -> int, after: int, day: int) {
    Exists(z, clock, day, c.minute) && after < clock(day) && (c.frequency == Weekly ==> Weekday(day) == c.weekday)
  }

  /** The day `offset` days ahead is the first suitable one of those ahead. */
  predicate FirstSuitable(z: Zone, c: Config, ps: Proposals, after: int, offset: int) {
    && 0 <= offset < 15 && Suits(z, c, ps.clock, after, DateAfter(z, ps, z.Day(after), offset))
    && forall e :: 0 <= e < offset ==> !Suits(z, c, ps.clock, after, DateAfter(z, ps, z.Day(after), e))
  }

  /** The epoch was a Thursday, and every week has seven days. */
  lemma WeekdaysFollow(day: int)
    ensures Weekday(0) == 4 && 0 <= Weekday(day) < 7
    ensures Weekday(day + 1) == if Weekday(day) == 6 then 0 else Weekday(day) + 1
  {
  }

  /** A date is suitable when the instant proposed for it lies in its configured minute, and ahead; on the
  weekday asked for, if one is. */
  lemma SuitsIff(z: Zone, c: Config, clock: int -> int, after: int, day: int)
    requires 0 <= c.minute < 1440
    ensures Suits(z, c, clock, after, day) <==>
      && 86400 * day + 60 * c.minute <= z.Local(clock(day)) < 86400 * day + 60 * c.minute + 60
      && after < clock(day) && (c.frequency == Weekly ==> (day + 4) % 7 == c.weekday)
  {
    MinuteOf(z.Local(clock(day)), day, c.minute);
  }

  lemma MinuteOf(local: int, day: int, minute: int)
    requires 0 <= minute < 1440
    ensures local / DAY == day && local % DAY / 60 == minute <==> 86400 * day + 60 * minute <= local < 86400 * day + 60 * minute + 60
  {
    assert local == DAY * (local / DAY) + local % DAY;
  }

  /** The next occurrence: on the one date asked for, or, where the zone skips it, on the date its noon is
  moved to; or on the first suitable date within the days ahead. A date on which the minute does not exist
  has none. */
  method NextOccurrence(z: Zone, c: Config, ps: Proposals, after: int) returns (next: Option<int>)
    ensures next.Some? ==> c.scheduled && after < next.value
    ensures c.scheduled && c.frequency == Once && c.date.Some? ==>
      var date := DateAfter(z, ps, c.date.value, 0);
      next == if Suits(z, c, ps.clock, after, date) then Some(ps.clock(date)) else None
    ensures c.scheduled && c.frequency != Once && next.Some? ==>
      exists d :: FirstSuitable(z, c, ps, after, d) && next.value == ps.clock(DateAfter(z, ps, z.Day(after), d))
    ensures c.scheduled && c.frequency != Once && next.None? ==>
      forall d :: 0 <= d < 15 ==> !Suits(z, c, ps.clock, after, DateAfter(z, ps, z.Day(after), d))
  {
    if !c.scheduled || (c.frequency == Once && c.date.None?) {
      return None;
    }
    var date := if c.frequency == Once then c.date.value else z.Day(after);
    for offset := 0 to DAYS_AHEAD
      invariant forall e :: 0 <= e < offset ==> !Suits(z, c, ps.clock, after, DateAfter(z, ps, date, e))
      invariant c.frequency == Once ==> offset == 0
    {
      var day := z.Day(ps.noon(date, offset));
      var candidate := ps.clock(day);
      assert day == DateAfter(z, ps, date, offset);
      if !Exists(z, ps.clock, day, c.minute) {
        if c.frequency == Once {
          return None;
        }
      } else {
        if after < candidate && (c.frequency != Weekly || Weekday(day) == c.weekday) {
          assert c.frequency != Once ==> FirstSuitable(z, c, ps, after, offset);
          return Some(candidate);
        }
        if c.frequency == Once {
          return None;
        }
      }
    }
    return None;
  }

  /** Where the noons that are proposed lie on their dates, an occurrence of a daily or weekly schedule is on
  the first suitable date there is, and one of a single date on that date. */
  lemma {:induction false} OccurrencesKeepTheirDates(z: Zone, c: Config, ps: Proposals, after: int, offset: int)
    requires forall date, e :: 0 <= e < 15 ==> DateAfter(z, ps, date, e) == date + e
    ensures FirstSuitable(z, c, ps, after, offset) <==>
            && 0 <= offset < 15 && Suits(z, c, ps.clock, after, z.Day(after) + offset)
            && forall d :: z.Day(after) <= d < z.Day(after) + offset ==> !Suits(z, c, ps.clock, after, d)
  {
    hide Suits;
    var today := z.Day(after);
    if FirstSuitable(z, c, ps, after, offset) {
      forall d | today <= d < today + offset ensures !Suits(z, c, ps.clock, after, d) {
        assert DateAfter(z, ps, today, d - today) == d;
      }
    } else if 0 <= offset < 15 && Suits(z, c, ps.clock, after, today + offset) {
      assert DateAfter(z, ps, today, offset) == today + offset;
      var e :| 0 <= e < offset && Suits(z, c, ps.clock, after, DateAfter(z, ps, today, e));
      assert DateAfter(z, ps, today, e) == today + e;
    }
  }

  // ---- The service ----

  /** The cards of an account: not listed, none that may be spent, or the one to spend first. */
  datatype Cards = NotListed | NoneEligible | First(id: string)

  /** What the provider reports of an account: how recent it is, whether its quota blocks, its credits and
  its cards. */
  datatype Observation = Failed | Stale | Seen(blocked: bool, credits: Option<int>, cards: Cards)

  /** What a run has decided before it asks the provider about the account: nothing more to do, a run
  to record as skipped, or an inspection of the account as it was then. */
  datatype Plan = Nothing | Record(trigger: Trigger, occurrence: Option<int>, reason: string)
                | Inspect(trigger: Trigger, occurrence: Option<int>, revision: int, models: int)

  const LATE := 300

  /** The occurrence a check looks at: the stored one, or the one proposed when the zone has changed. */
  function NextAfter(a: Account, rezoned: bool, proposal: int): int {
    if rezoned then proposal else a.next
  }

  predicate IsDue(a: Account, rezoned: bool, proposal: int, now: int) {
    a.scheduled && 0 < NextAfter(a, rezoned, proposal) <= now
  }

  /** The plan where nothing is pending: a due occurrence more than five minutes late is missed; any other, an
  exhaustion check and a manual run look at the account, unless it is disabled or must authorize anew. */
  predicate Decides(a: Account, exhausted: bool, check: bool, rezoned: bool, proposal: int, now: int, plan: Plan) {
    var due := check && IsDue(a, rezoned, proposal, now);
    var at := NextAfter(a, rezoned, proposal);
    var trigger := if due then Scheduled else if check then Exhausted else Manual;
    var occurrence := if due then Some(at) else None;
    var looks := if due then now - at <= 300 else !check || exhausted;
    && (plan == Record(trigger, occurrence, "missed") <==> due && 300 < now - at)
    && (plan == Record(trigger, occurrence, "disabled") <==> looks && !a.enabled)
    && (plan == Record(trigger, occurrence, "reauthorize") <==> looks && a.enabled && a.reauthorize)
    && (plan == Inspect(trigger, occurrence, a.revision, a.models) <==> looks && a.enabled && !a.reauthorize)
    && (plan == Nothing <==> check && !due && !exhausted)
  }

  /** Why an inspected account is not redeemed: the first objection. */
  function Objection(a: Account, plan: Plan, seen: Observation): (reason: Option<string>)
    requires plan.Inspect?
    ensures reason.None? ==> seen.Seen? && seen.cards.First? && seen.credits.Some? && 0 < seen.credits.value
    ensures reason.None? ==> (plan.trigger == Exhausted ==> seen.blocked)
    ensures reason.None? ==> a.enabled && !a.reauthorize && a.models == plan.models && a.revision == plan.revision
  {
    match seen
    case Failed => Some("usage_unavailable")
    case Stale => Some("quota_unknown")
    case Seen(blocked, credits, cards) =>
      if plan.trigger == Exhausted && !blocked then Some("quota_available")
      else if credits.None? then Some("quota_unknown")
      else if credits.value <= 0 then Some("no_credit")
      else if cards.NotListed? then Some("cards_unavailable")
      else if cards.NoneEligible? then Some("no_eligible_credit")
      else if !a.enabled || a.reauthorize || a.models != plan.models || a.revision != plan.revision then Some("account_changed")
      else None
  }

  /** Each objection has one cause, and the first of them is given. */
  lemma ObjectionIff(a: Account, plan: Plan, seen: Observation)
    requires plan.Inspect?
    ensures var o := Objection(a, plan, seen);
      var spare := seen.Seen? && plan.trigger == Exhausted && !seen.blocked;
      var counted := seen.Seen? && !spare && seen.credits.Some?;
      var funded := counted && 1 <= seen.credits.value;
      var changed := !a.enabled || a.reauthorize || a.models != plan.models || a.revision != plan.revision;
      && (o == Some("usage_unavailable") <==> seen == Failed)
      && (o == Some("quota_unknown") <==> seen == Stale || (seen.Seen? && !spare && seen.credits.None?))
      && (o == Some("quota_available") <==> spare)
      && (o == Some("no_credit") <==> counted && seen.credits.value < 1)
      && (o == Some("cards_unavailable") <==> funded && seen.cards == NotListed)
      && (o == Some("no_eligible_credit") <==> funded && seen.cards == NoneEligible)
      && (o == Some("account_changed") <==> funded && seen.cards.First? && changed)
      && (o == None <==> funded && seen.cards.First? && !changed)
  {
  }

  /** The last run was recorded for the same cause with the same reason. */
  predicate Repeats(runs: seq<Run>, trigger: Trigger, reason: string) {
    runs != [] && runs[|runs| - 1].trigger == trigger && runs[|runs| - 1].reason == reason
  }

  ghost function SkipUnlessRepeated(runs: seq<Run>, key: Key, plan: Plan, reason: string): seq<Event>
    requires plan.Inspect?
  {
    if plan.trigger == Exhausted && Repeats(runs, plan.trigger, reason) then []
    else [Event.Skip(key, plan.trigger, plan.occurrence, reason)]
  }

  class Service {
    var account: Account
    var exhausted: bool
    var runs: seq<Run>
    var sent: set<(Key, string)>
    ghost var decided: map<Key, bool>
    ghost var issued: map<Key, Run>
    ghost var claimed: seq<int>
    ghost var clock: int

    ghost function Current(): State
      reads this
    {
      State(account, runs, sent, decided, issued, claimed, clock)
    }

    method FindPending() returns (found: bool, key: Key, card: string)
      ensures found == HasPending(runs)
      ensures found ==> key == PendingRun(runs).key && card == PendingRun(runs).card
    {
      for i := 0 to |runs|
        invariant forall j :: 0 <= j < i ==> runs[j].outcome != Pending
      {
        if runs[i].outcome == Pending {
          FirstPending(runs, i);
          return true, runs[i].key, runs[i].card;
        }
      }
      return false, 0, "";
    }

    /** The first part of a run: the schedule is brought to the present zone and a due occurrence is
    claimed before anything else happens to it. */
    method Begin(ghost z: Almanac, now: int, check: bool, rezoned: bool, proposal: int) returns (plan: Plan, ghost es: seq<Event>)
      requires now == clock && (proposal == 0 || now < proposal)
      requires claimed == [] || claimed[|claimed| - 1] <= now
      modifies this`account, this`claimed
      ensures CanRun(z, old(Current()), es) && Current() == RunAll(z, old(Current()), es)
      ensures HasPending(runs) ==> es == []
      ensures !HasPending(runs) ==> Decides(old(account), exhausted, check, rezoned, proposal, now, plan)
      ensures plan == Nothing <==> HasPending(runs) || (check && !IsDue(old(account), rezoned, proposal, now) && !exhausted)
      ensures claimed == old(claimed) + if !HasPending(runs) && check && IsDue(old(account), rezoned, proposal, now) then [NextAfter(old(account), rezoned, proposal)] else []
      ensures account == if !HasPending(runs) && check && (rezoned || IsDue(old(account), rezoned, proposal, now)) then old(account).(next := proposal) else old(account)
    {
      es := [];
      var pending, _, _ := FindPending();
      if pending {
        return Nothing, es;
      }
      var trigger, occurrence := Manual, None;
      if check {
        if rezoned {
          es := [Advance(account.revision, account.next, now, proposal, false)];
          RunAppends(z, Current(), [], es[0]);
          account := account.(next := proposal);
        }
        if account.scheduled && 0 < account.next <= now {
          trigger, occurrence := Scheduled, Some(account.next);
          RunAppends(z, old(Current()), es, Advance(account.revision, account.next, now, proposal, true));
          es := es + [Advance(account.revision, account.next, now, proposal, true)];
          claimed := claimed + [account.next];
          account := account.(next := proposal);
          if LATE < now - occurrence.value {
            return Record(trigger, occurrence, "missed"), es;
          }
        } else if exhausted {
          trigger := Exhausted;
        } else {
          return Nothing, es;
        }
      }
      if !account.enabled {
        return Record(trigger, occurrence, "disabled"), es;
      }
      if account.reauthorize {
        return Record(trigger, occurrence, "reauthorize"), es;
      }
      return Inspect(trigger, occurrence, account.revision, account.models), es;
    }

    /** Records a run that spends nothing; an observation of exhaustion that repeats the last run is not
    recorded again. */
    method Skip(ghost z: Almanac, key: Key, trigger: Trigger, occurrence: Option<int>, reason: string, now: int) returns (ghost es: seq<Event>)
      requires now == clock && Fresh(Current(), key)
      modifies this`runs
      ensures CanRun(z, old(Current()), es) && Current() == RunAll(z, old(Current()), es)
      ensures es == if trigger == Exhausted && Repeats(old(runs), trigger, reason) then [] else [Event.Skip(key, trigger, occurrence, reason)]
    {
      if trigger == Exhausted {
        if 0 < |runs| {
          var last := runs[|runs| - 1];
          if last.trigger == trigger && last.reason == reason {
            return [];
          }
        }
      }
      var known := HasRowFor(occurrence);
      if !known {
        runs := runs + [Run(key, trigger, occurrence, Skipped, reason, now, "")];
      }
      es := [Event.Skip(key, trigger, occurrence, reason)];
      RunAppends(z, old(Current()), [], es[0]);
    }

    method HasRowFor(occurrence: Option<int>) returns (known: bool)
      ensures known == HasOccurrence(runs, occurrence)
    {
      known := false;
      if occurrence.Some? {
        for i := 0 to |runs|
          invariant known == exists j :: 0 <= j < i && runs[j].occurrence == occurrence
        {
          known := known || runs[i].occurrence == occurrence;
        }
      }
    }

    /** The stored rows between the bounds of a day, read as the query does. */
    method CountUsage(start: int, end: int) returns (used: nat)
      ensures used == Usage(Span(start, end), runs)
    {
      used := 0;
      for i := 0 to |runs|
        invariant used == Usage(Span(start, end), runs[..i])
      {
        assert runs[..i + 1][..i] == runs[..i];
        if runs[i].outcome != Skipped && start <= runs[i].startedAt < end {
          used := used + 1;
        }
      }
      assert runs[..|runs|] == runs;
    }

    /** The second part, once the account has been inspected: a reservation, committed before anything is
    asked of the provider, or a recorded skip. */
    method Complete(z: Almanac, plan: Plan, seen: Observation, key: Key, now: int) returns (reserved: bool, ghost e: seq<Event>)
      requires plan.Inspect? && now == clock && Fresh(Current(), key)
      modifies this`runs, this`sent, this`issued
      ensures CanRun(z, old(Current()), e) && Current() == RunAll(z, old(Current()), e)
      ensures var o := Objection(account, plan, seen);
        && (reserved ==> o.None? && e == [Reserve(key, plan.trigger, seen.cards.id, plan.occurrence, plan.revision, plan.models)] && CanReserve(z, old(Current()), e[0]))
        && (o.Some? ==> !reserved && e == SkipUnlessRepeated(old(runs), key, plan, o.value))
        && (o.None? && !reserved && !HasPending(old(runs)) && !HasOccurrence(old(runs), plan.occurrence) ==>
              account.limit <= Usage(z.Today(now), old(runs)) && e == SkipUnlessRepeated(old(runs), key, plan, "daily_limit"))
    {
      e := [];
      reserved := false;
      var o := Objection(account, plan, seen);
      if o.Some? {
        e := Skip(z, key, plan.trigger, plan.occurrence, o.value, now);
        return;
      }
      var pending, _, _ := FindPending();
      if pending {
        return;
      }
      var start, end := DayBounds(z.zone, z.noons(now));
      var used := CountUsage(start, end);
      if account.limit <= used {
        e := Skip(z, key, plan.trigger, plan.occurrence, "daily_limit", now);
        return;
      }
      var known := HasRowFor(plan.occurrence);
      if known {
        return;
      }
      e := [Reserve(key, plan.trigger, seen.cards.id, plan.occurrence, plan.revision, plan.models)];
      assert CanReserve(z, Current(), e[0]);
      var r := Run(key, plan.trigger, plan.occurrence, Pending, UNCONFIRMED, now, seen.cards.id);
      runs := runs + [r];
      issued := issued[key := r];
      sent := sent + {(key, seen.cards.id)};
      reserved := true;
    }

    /** A retry sends the pending run's own key and card. */
    method Retry() returns (found: bool, key: Key, card: string)
      modifies this`sent
      ensures forall z: Almanac :: Current() == Step(z, old(Current()), Replay)
      ensures found == HasPending(runs) && (found ==> (key, card) in sent)
    {
      found, key, card := FindPending();
      if found {
        sent := sent + {(key, card)};
      }
    }

    /** Records an answer on the run that waits for it; a run already finished keeps its outcome. */
    method Consume(key: Key, answer: Answer)
      modifies this`runs
      ensures forall z: Almanac :: Current() == Step(z, old(Current()), Settle(key, answer))
    {
      var outcome := OutcomeOf(answer);
      var after: seq<Run> := [];
      for i := 0 to |runs|
        invariant runs == old(runs) && after == FinishAll(runs, key, answer)[..i]
      {
        var r := runs[i];
        if r.key == key && r.outcome == Pending {
          r := r.(outcome := outcome, reason := ReasonOf(answer), card := if outcome == Pending then r.card else "");
        }
        assert FinishAll(runs, key, answer)[..i + 1] == FinishAll(runs, key, answer)[..i] + [Finished(runs[i], key, answer)];
        after := after + [r];
      }
      assert FinishAll(runs, key, answer)[..|runs|] == FinishAll(runs, key, answer);
      runs := after;
    }

    /** New settings, with the next occurrence they give, under a new revision. */
    method Save(scheduled: bool, exhausted: bool, limit: int, next: int, now: int) returns (saved: bool)
      requires now == clock && (next == 0 || now < next)
      modifies this`account, this`exhausted
      ensures saved == (1 <= limit <= 100)
      ensures saved ==> CanStep(old(Current()), Event.Save(scheduled, limit, next)) && forall z: Almanac :: Current() == Step(z, old(Current()), Event.Save(scheduled, limit, next))
      ensures !saved ==> Current() == old(Current())
    {
      if limit < 1 || 100 < limit {
        return false;
      }
      account := account.(scheduled := scheduled, limit := limit, next := next, revision := account.revision + 1);
      this.exhausted := exhausted;
      return true;
    }
  }

  lemma {:induction false} FirstPending(runs: seq<Run>, i: nat)
    requires i < |runs| && runs[i].outcome == Pending && forall j :: 0 <= j < i ==> runs[j].outcome != Pending
    ensures PendingRun(runs) == runs[i]
  {
    if i > 0 {
      FirstPending(runs[1..], i - 1);
    }
  }
}
