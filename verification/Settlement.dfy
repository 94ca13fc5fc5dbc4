/** Recording a finished request: one transaction charges the ledger, keeps the request record and
adds the statistics; a failed one is retried, even when its commit had in fact succeeded. */
module Settlement {
  import opened Common
  import opened Sums
  import opened Allowances
  import opened Ledger
  import opened LedgerSteps
  import opened EntryLifecycle
  import opened Calendar
  import Bounds = BudgetBounds

  /** A finished request. Only a tracked one has a ledger entry and is retried. */
  datatype Observation = Observation(id: string, user: int, tracked: bool, done: Completion, at: int)

  /** What the database holds: the ledger, the requests on record, and how often the statistics
  counted each. */
  datatype Disk = Disk(book: Book, records: set<string>, counted: multiset<string>)

  ghost predicate ValidDisk(d: Disk) {
    ValidBook(d.book)
  }

  /** The database after the whole transaction, if nothing in it fails. */
  ghost function Written(d: Disk, o: Observation): Disk
    requires ValidDisk(d)
  {
    if o.tracked && o.id in d.records then d
    else Disk(if o.tracked then FinishBook(d.book, o.id, o.done, o.at, false) else d.book,
              d.records + {o.id}, d.counted + multiset{o.id})
  }

  /** A tracked request can be charged unless its entry is gone or its charge is refused. */
  ghost predicate Chargeable(d: Disk, o: Observation)
    requires ValidDisk(d)
  {
    o.tracked && o.id !in d.records ==>
      && HasId(d.book.entries, o.id)
      && (Outcome(d.book, o.id, o.done, o.at, false).Saved? || Outcome(d.book, o.id, o.done, o.at, false).Unchanged?)
  }

  ghost function Persisted(d: Disk, o: Observation, c: Saved): (after: Disk)
    requires ValidDisk(d)
    ensures ValidDisk(after)
  {
    FinishKeepsValid(d.book, o.id, o.done, o.at, false);
    if Chargeable(d, o) && !c.Lost? then Written(d, o) else d
  }

  ghost predicate Succeeds(d: Disk, o: Observation, c: Saved)
    requires ValidDisk(d)
  {
    Chargeable(d, o) && c.Stored?
  }

  // ---- The recorder ----

  class Recorder {
    var store: Store
    var records: set<string>
    var counted: multiset<string>
    var failed: seq<Observation>

    constructor (s: Store)
      ensures store == s && records == {} && counted == multiset{} && failed == []
    {
      store, records, counted, failed := s, {}, multiset{}, [];
    }

    ghost function Tables(): Disk
      reads this, store
    {
      Disk(store.Tables(), records, counted)
    }

    method Persist(o: Observation, c: Saved) returns (ok: bool)
      requires ValidDisk(Tables())
      modifies this`records, this`counted, store
      ensures ValidDisk(Tables()) && Tables() == Persisted(old(Tables()), o, c)
      ensures ok <==> Succeeds(old(Tables()), o, c)
    {
      if o.tracked && o.id in records {
        return c.Stored?;
      }
      if o.tracked {
        if !HasId(store.entries, o.id) {
          return false;
        }
        var before := store.entries;
        var f := store.Finish(o.id, o.done, o.at, false);
        if !f.Saved? && !f.Unchanged? {
          assert store.entries == before;
          return false;
        }
        if c.Lost? {
          store.entries := before;
          return false;
        }
      } else if c.Lost? {
        return false;
      }
      records := records + {o.id};
      counted := counted + multiset{o.id};
      return c.Stored?;
    }
  
    /** A request ends once; a tracked one that could not be recorded waits for a retry. */
    method Finish(o: Observation, c: Saved)
      requires ValidDisk(Tables())
      modifies this`records, this`counted, this`failed, store
      ensures ValidDisk(Tables()) && Tables() == Persisted(old(Tables()), o, c)
      ensures failed == old(failed) + if o.tracked && !Succeeds(old(Tables()), o, c) then [o] else []
    {
      var ok := Persist(o, c);
      if !ok && o.tracked {
        failed := failed + [o];
      }
    }

    /** Tries every waiting request again and keeps those that fail. */
    method RetryFailed(cs: seq<Saved>) returns (ok: bool)
      requires ValidDisk(Tables()) && |cs| == |failed|
      modifies this`records, this`counted, this`failed, store
      ensures ValidDisk(Tables()) && (Tables(), failed) == Retried(old(Tables()), old(failed), cs)
      ensures ok <==> failed == []
    {
      hide Persisted, Succeeds, ValidDisk;
      var waiting := failed;
      ghost var start := Tables();
      var remaining := [];
      assert waiting[0..] == waiting && cs[0..] == cs;
      for i := 0 to |waiting|
        invariant ValidDisk(Tables())
        invariant Retried(start, waiting, cs).0 == Retried(Tables(), waiting[i..], cs[i..]).0
        invariant Retried(start, waiting, cs).1 == remaining + Retried(Tables(), waiting[i..], cs[i..]).1
      {
        ghost var now := Tables();
        assert waiting[i..][1..] == waiting[i + 1..] && cs[i..][1..] == cs[i + 1..];
        var done := Persist(waiting[i], cs[i]);
        ghost var rest := Retried(Tables(), waiting[i + 1..], cs[i + 1..]).1;
        assert Retried(now, waiting[i..], cs[i..]).1 == (if done then [] else [waiting[i]]) + rest;
        assert remaining + ([waiting[i]] + rest) == (remaining + [waiting[i]]) + rest;
        if !done {
          remaining := remaining + [waiting[i]];
        }
      }
      assert waiting[|waiting|..] == [] && remaining + [] == remaining;
      failed := remaining;
      return remaining == [];
    }

    /** Before a request is admitted, what waits is tried again; a member one of whose requests still
    waits is refused. */
    method Prepare(user: int, cs: seq<Saved>) returns (ok: bool)
      requires ValidDisk(Tables()) && |cs| == |failed|
      modifies this`records, this`counted, this`failed, store
      ensures ValidDisk(Tables()) && (Tables(), failed) == Retried(old(Tables()), old(failed), cs)
      ensures ok <==> !Blocked(failed, user)
    {
      ok := RetryFailed(cs);
      if !ok {
        for i := 0 to |failed|
          invariant (Tables(), failed) == Retried(old(Tables()), old(failed), cs) && ValidDisk(Tables())
          invariant forall j :: 0 <= j < i ==> failed[j].user != user
        {
          if failed[i].user == user {
            assert failed[i] in failed;
            return false;
          }
        }
        ok := true;
      }
    }
  }

  predicate Blocked(failed: seq<Observation>, user: int) {
    exists o <- failed :: o.user == user
  }

  ghost function Retried(d: Disk, waiting: seq<Observation>, cs: seq<Saved>): (r: (Disk, seq<Observation>))
    requires ValidDisk(d) && |cs| == |waiting|
    ensures ValidDisk(r.0)
    decreases |waiting|
  {
    if waiting == [] then (d, [])
    else
      var (after, rest) := Retried(Persisted(d, waiting[0], cs[0]), waiting[1..], cs[1..]);
      (after, (if Succeeds(d, waiting[0], cs[0]) then [] else [waiting[0]]) + rest)
  }

  // ---- Runs ----

  /** The recorder between two transactions. `ended`, `tracked` and `lost` only keep account: which
  requests have ended, which of them were tracked, and which no process will try to record any more. */
  datatype State = State(disk: Disk, failed: seq<Observation>, ended: set<string>, tracked: set<string>, lost: set<string>)

  datatype Event =
    | End(o: Observation, commit: Saved)
    | Retry(commits: seq<Saved>)
    | Ledger(change: Bounds.Event)
    | PruneRecords(ids: set<string>)
    | Crash

  ghost function Start(book: Book): State {
    State(Disk(book, {}, multiset{}), [], {}, {}, {})
  }

  function Ids(os: seq<Observation>): set<string> {
    set o <- os :: o.id
  }

  /** What the process can do next: a request ends once and its identifier is not admitted again, and
  only the recorder finishes an entry that was not finished by an administrator. */
  ghost predicate Possible(s: State, ev: Event) {
    match ev
    case End(o, _) => o.id !in s.ended
    case Retry(cs) => |cs| == |s.failed|
    case Ledger(change) => (change.Begin? ==> change.request.id !in s.ended) && (change.Finish? ==> change.manual)
    case PruneRecords(ids) => true
    case Crash => true
  }

  ghost function Step(z: Zone, s: State, ev: Event): (after: State)
    requires z.Valid() && ValidDisk(s.disk) && Possible(s, ev)
    ensures ValidDisk(after.disk)
  {
    match ev
    case End(o, c) =>
      var ok := Succeeds(s.disk, o, c);
      State(Persisted(s.disk, o, c), s.failed + if o.tracked && !ok then [o] else [], s.ended + {o.id},
            s.tracked + (if o.tracked then {o.id} else {}), s.lost + if o.tracked || ok then {} else {o.id})
    case Retry(cs) =>
      var (disk, rest) := Retried(s.disk, s.failed, cs);
      s.(disk := disk, failed := rest)
    case Ledger(change) => s.(disk := s.disk.(book := Bounds.Apply(z, s.disk.book, change)))
    case PruneRecords(ids) => s.(disk := s.disk.(records := s.disk.records - ids))
    case Crash => s.(failed := [], lost := s.lost + Ids(s.failed))
  }

  ghost predicate AllPossible(z: Zone, s: State, evs: seq<Event>)
    requires z.Valid() && ValidDisk(s.disk)
    decreases |evs|
  {
    evs == [] || (Possible(s, evs[0]) && AllPossible(z, Step(z, s, evs[0]), evs[1..]))
  }

  ghost function Run(z: Zone, s: State, evs: seq<Event>): (after: State)
    requires z.Valid() && ValidDisk(s.disk) && AllPossible(z, s, evs)
    ensures ValidDisk(after.disk)
    decreases |evs|
  {
    if evs == [] then s else Run(z, Step(z, s, evs[0]), evs[1..])
  }

  predicate DistinctWaiting(os: seq<Observation>) {
    forall i, j :: 0 <= i < j < |os| ==> os[i].id != os[j].id
  }

  // ---- One transaction ----

  ghost predicate Closed(entries: seq<Entry>, id: string) {
    forall e <- entries :: e.id == id ==> !e.state.Active?
  }

  /** Recording one request leaves every other alone, and counts its own at most once more. */
  lemma PersistTouchesOne(d: Disk, o: Observation, c: Saved)
    requires ValidDisk(d)
    ensures var after := Persisted(d, o, c);
            && (forall id :: id != o.id ==> after.counted[id] == d.counted[id])
            && d.counted[o.id] <= after.counted[o.id] <= d.counted[o.id] + 1
            && (forall id :: id != o.id ==> (id in after.records <==> id in d.records))
            && d.records <= after.records <= d.records + {o.id}
            && after.book.revisions == d.book.revisions
  {
  }

  lemma PersistKeepsEntries(d: Disk, o: Observation, c: Saved)
    requires ValidDisk(d)
    ensures var (before, after) := (d.book.entries, Persisted(d, o, c).book.entries);
            && (forall e <- before :: e.id != o.id ==> e in after)
            && (forall e <- after :: e.id != o.id ==> e in before)
            && (HasId(before, o.id) <==> HasId(after, o.id))
  {
    var before := d.book.entries;
    var after := Persisted(d, o, c).book.entries;
    if after != before {
      var i := IndexOf(before, o.id);
      var f := Outcome(d.book, o.id, o.done, o.at, false).entry;
      assert before[i] in before;
      FinishIsSound(before[i], d.book.revisions[before[i].revision].config, o.done, o.at, false);
      assert after == before[i := f] && after[i] in after && f.id == o.id;
      forall e <- before | e.id != o.id ensures e in after {
        var j :| 0 <= j < |before| && before[j] == e;
        assert after[j] == e;
      }
    }
  }

  /** The charge and the count commit together: a tracked request is only counted in a transaction
  that leaves its ledger entry finished, and no transaction opens one again. */
  lemma {:induction false} CountingCharges(d: Disk, o: Observation, c: Saved)
    requires ValidDisk(d) && o.tracked
    requires Persisted(d, o, c).counted[o.id] != d.counted[o.id] || Closed(d.book.entries, o.id)
    ensures Closed(Persisted(d, o, c).book.entries, o.id)
  {
    var after := Persisted(d, o, c).book.entries;
    if HasId(d.book.entries, o.id) {
      var i := IndexOf(d.book.entries, o.id);
      var before := d.book.entries[i];
      assert before in d.book.entries;
      if Outcome(d.book, o.id, o.done, o.at, false).Saved? {
        FinishIsSound(before, d.book.revisions[before.revision].config, o.done, o.at, false);
      }
      assert after[i].id == o.id && !after[i].state.Active?;
      forall e <- after | e.id == o.id ensures !e.state.Active? {
        OneEntryPerId(after, e, after[i]);
      }
    } else {
      PersistKeepsEntries(d, o, c);
    }
  }

  /** What a retry does when the charge is already made: it counts the request again exactly when its
  record is gone while its entry is kept. The ledger is charged once either way. */
  lemma {:induction false} RetryCountsAgainIffRecordGone(d: Disk, o: Observation, c: Saved)
    requires ValidDisk(d) && o.tracked && Closed(d.book.entries, o.id)
    ensures Persisted(d, o, c).book == d.book
    ensures Persisted(d, o, c).counted[o.id] ==
            d.counted[o.id] + if o.id !in d.records && HasId(d.book.entries, o.id) && !c.Lost? then 1 else 0
  {
    if HasId(d.book.entries, o.id) {
      assert d.book.entries[IndexOf(d.book.entries, o.id)] in d.book.entries;
    }
  }

  /** A finished request whose counts cannot be charged leaves the database as it was. */
  lemma {:induction false} UncountableIsRefused(d: Disk, o: Observation, c: Saved, e: Entry)
    requires ValidDisk(d) && o.tracked && o.id !in d.records
    requires e in d.book.entries && e.id == o.id && e.state.Active?
    requires !ValidCounts(o.done.input, o.done.output, o.done.cached)
    ensures Persisted(d, o, c) == d && !Succeeds(d, o, c)
  {
    AdmittedSettlesIffCountable(d.book, e, o.done, o.at);
  }

  // ---- Retrying what waits ----

  lemma TailWaits(os: seq<Observation>)
    requires os != [] && DistinctWaiting(os)
    ensures DistinctWaiting(os[1..]) && os[0].id !in Ids(os[1..])
    ensures forall x <- os[1..] :: x in os && x.id != os[0].id
    ensures Ids(os) == {os[0].id} + Ids(os[1..])
  {
    forall x <- os[1..] ensures x in os && x.id != os[0].id {
      var i :| 0 <= i < |os[1..]| && os[1..][i] == x;
      assert os[i + 1] == x;
    }
    assert os == [os[0]] + os[1..];
  }

  /** What is left waiting was waiting before, in the same order, and only it was touched. */
  lemma {:induction false} RetryTouchesWaiting(d: Disk, os: seq<Observation>, cs: seq<Saved>)
    requires ValidDisk(d) && |cs| == |os| && DistinctWaiting(os)
    ensures var (after, rest) := Retried(d, os, cs);
            && DistinctWaiting(rest) && (forall o <- rest :: o in os)
            && (forall id :: id !in Ids(os) ==> after.counted[id] == d.counted[id])
            && (forall id :: id !in Ids(os) ==> (id in after.records <==> id in d.records))
            && (forall id :: d.counted[id] <= after.counted[id])
            && after.records <= d.records + Ids(os)
            && (forall e <- d.book.entries :: e.id !in Ids(os) ==> e in after.book.entries)
            && (forall e <- after.book.entries :: e.id !in Ids(os) ==> e in d.book.entries)
    decreases |os|
  {
    hide Persisted, Succeeds, ValidDisk, HasId, Ids;
    if os != [] {
      var o := os[0];
      var next := Persisted(d, o, cs[0]);
      TailWaits(os);
      PersistTouchesOne(d, o, cs[0]);
      PersistKeepsEntries(d, o, cs[0]);
      RetryTouchesWaiting(next, os[1..], cs[1..]);
    }
  }

  /** Which of the waiting requests a retry counts, when their charges are already made. */
  lemma {:induction false} RetryCounts(d: Disk, os: seq<Observation>, cs: seq<Saved>, i: nat)
    requires ValidDisk(d) && |cs| == |os| && DistinctWaiting(os) && i < |os|
    requires os[i].tracked && Closed(d.book.entries, os[i].id)
    ensures var id := os[i].id;
            Retried(d, os, cs).0.counted[id] ==
            d.counted[id] + if id !in d.records && HasId(d.book.entries, id) && !cs[i].Lost? then 1 else 0
    decreases |os|
  {
    hide Persisted, Succeeds, ValidDisk, Ids;
    var o := os[0];
    var next := Persisted(d, o, cs[0]);
    TailWaits(os);
    if i == 0 {
      RetryCountsAgainIffRecordGone(d, o, cs[0]);
      RetryTouchesWaiting(next, os[1..], cs[1..]);
    } else {
      assert os[1..][i - 1] == os[i];
      PersistTouchesOne(d, o, cs[0]);
      PersistKeepsEntries(d, o, cs[0]);
      RetryCounts(next, os[1..], cs[1..], i - 1);
    }
  }

  lemma {:induction false} RetryCharges(d: Disk, os: seq<Observation>, cs: seq<Saved>, id: string)
    requires ValidDisk(d) && |cs| == |os| && forall o <- os :: o.tracked
    requires Retried(d, os, cs).0.counted[id] != d.counted[id] || Closed(d.book.entries, id)
    ensures Closed(Retried(d, os, cs).0.book.entries, id)
    decreases |os|
  {
    hide Persisted, Succeeds, ValidDisk;
    if os != [] {
      assert os[0] in os;
      PersistTouchesOne(d, os[0], cs[0]);
      PersistKeepsEntries(d, os[0], cs[0]);
      if os[0].id == id && (Persisted(d, os[0], cs[0]).counted[id] != d.counted[id] || Closed(d.book.entries, id)) {
        CountingCharges(d, os[0], cs[0]);
      }
      RetryCharges(Persisted(d, os[0], cs[0]), os[1..], cs[1..], id);
    }
  }

  lemma {:induction false} RetryKeepsUncountable(d: Disk, os: seq<Observation>, cs: seq<Saved>, o: Observation, e: Entry)
    requires ValidDisk(d) && |cs| == |os| && DistinctWaiting(os) && o in os
    requires o.tracked && o.id !in d.records && !ValidCounts(o.done.input, o.done.output, o.done.cached)
    requires e in d.book.entries && e.id == o.id && e.state.Active?
    ensures var (after, rest) := Retried(d, os, cs);
            o in rest && o.id !in after.records && e in after.book.entries
    decreases |os|
  {
    hide Persisted, Succeeds, ValidDisk, Ids;
    TailWaits(os);
    if os[0] == o {
      UncountableIsRefused(d, o, cs[0], e);
      RetryTouchesWaiting(d, os[1..], cs[1..]);
    } else {
      assert os == [os[0]] + os[1..] && o in os[1..];
      PersistTouchesOne(d, os[0], cs[0]);
      PersistKeepsEntries(d, os[0], cs[0]);
      RetryKeepsUncountable(Persisted(d, os[0], cs[0]), os[1..], cs[1..], o, e);
    }
  }

  // ---- What every run keeps ----

  /** Requests wait once each, and whatever was counted or recorded has ended. */
  ghost predicate Orderly(s: State) {
    && DistinctWaiting(s.failed) && s.tracked <= s.ended && s.disk.records <= s.ended
    && (forall o <- s.failed :: o.tracked && o.id in s.tracked)
    && (forall id :: 0 < s.disk.counted[id] ==> id in s.ended)
  }

  /** No request is in the statistics while its ledger entry is still open. */
  ghost predicate Charged(s: State) {
    forall id <- s.tracked :: 0 < s.disk.counted[id] ==> Closed(s.disk.book.entries, id)
  }

  lemma {:induction false} StepIsOrderly(z: Zone, s: State, ev: Event)
    requires z.Valid() && ValidDisk(s.disk) && Orderly(s) && Possible(s, ev)
    ensures Orderly(Step(z, s, ev))
  {
    hide Persisted, Succeeds, ValidDisk;
    match ev
    case End(o, c) => PersistTouchesOne(s.disk, o, c);
    case Retry(cs) => RetryTouchesWaiting(s.disk, s.failed, cs);
    case Ledger(change) =>
    case PruneRecords(ids) =>
    case Crash =>
  }

  lemma {:induction false} LedgerKeepsClosed(z: Zone, b: Book, change: Bounds.Event, id: string)
    requires z.Valid() && ValidBook(b) && Closed(b.entries, id)
    requires change.Begin? ==> change.request.id != id
    ensures Closed(Bounds.Apply(z, b, change).entries, id)
  {
    forall later <- Bounds.Apply(z, b, change).entries | later.id == id ensures !later.state.Active? {
      if e :| e in b.entries && e.id == id {
        StepFollows(z, b, change, e, later);
      } else {
        StepAddsOnlyAdmitted(z, b, change, id);
      }
    }
  }

  lemma {:induction false} StepIsCharged(z: Zone, s: State, ev: Event)
    requires z.Valid() && ValidDisk(s.disk) && Orderly(s) && Charged(s) && Possible(s, ev)
    ensures Charged(Step(z, s, ev))
  {
    hide Persisted, Succeeds, Bounds.Apply;
    var after := Step(z, s, ev);
    forall id <- after.tracked | 0 < after.disk.counted[id] ensures Closed(after.disk.book.entries, id) {
      match ev
      case End(o, c) =>
        PersistTouchesOne(s.disk, o, c);
        PersistKeepsEntries(s.disk, o, c);
        if o.id == id {
          CountingCharges(s.disk, o, c);
        }
      case Retry(cs) => RetryCharges(s.disk, s.failed, cs, id);
      case Ledger(change) => LedgerKeepsClosed(z, s.disk.book, change, id);
      case PruneRecords(ids) =>
      case Crash =>
    }
  }

  lemma {:induction false} RunIsCharged(z: Zone, s: State, evs: seq<Event>)
    requires z.Valid() && ValidDisk(s.disk) && Orderly(s) && Charged(s) && AllPossible(z, s, evs)
    ensures Orderly(Run(z, s, evs)) && Charged(Run(z, s, evs))
    decreases |evs|
  {
    hide Orderly, Charged, Step, Possible, ValidDisk;
    if evs != [] {
      StepIsOrderly(z, s, evs[0]);
      StepIsCharged(z, s, evs[0]);
      RunIsCharged(z, Step(z, s, evs[0]), evs[1..]);
    }
  }

  /** Over every run, what is in the statistics is charged. */
  lemma {:induction false} CountedIsCharged(z: Zone, book: Book, evs: seq<Event>, id: string)
    requires z.Valid() && ValidBook(book) && AllPossible(z, Start(book), evs)
    ensures var end := Run(z, Start(book), evs);
            id in end.tracked && 0 < end.disk.counted[id] ==> Closed(end.disk.book.entries, id)
  {
    RunIsCharged(z, Start(book), evs);
  }

  // ---- Counting twice ----

  /** A retry finds the request waiting although it was counted, its record gone and its entry kept. */
  ghost predicate CountsAgain(s: State, ev: Event, id: string)
    requires Possible(s, ev)
  {
    && ev.Retry? && id !in s.disk.records && HasId(s.disk.book.entries, id)
    && exists i :: 0 <= i < |s.failed| && s.failed[i].id == id && !ev.commits[i].Lost?
  }

  /** The steps that count a request again, of all steps after any run. */
  lemma {:induction false} CountedAgainIff(z: Zone, book: Book, evs: seq<Event>, ev: Event, id: string)
    requires z.Valid() && ValidBook(book) && AllPossible(z, Start(book), evs)
    requires Possible(Run(z, Start(book), evs), ev) && 0 < Run(z, Start(book), evs).disk.counted[id]
    ensures var s := Run(z, Start(book), evs);
            s.disk.counted[id] < Step(z, s, ev).disk.counted[id] <==> CountsAgain(s, ev, id)
  {
    var s := Run(z, Start(book), evs);
    RunIsCharged(z, Start(book), evs);
    hide Run, Persisted, Succeeds, ValidDisk, HasId;
    if ev.End? {
      PersistTouchesOne(s.disk, ev.o, ev.commit);
    } else if ev.Retry? {
      if i :| 0 <= i < |s.failed| && s.failed[i].id == id {
        assert s.failed[i] in s.failed;
        RetryCounts(s.disk, s.failed, ev.commits, i);
      } else {
        RetryTouchesWaiting(s.disk, s.failed, ev.commits);
      }
    }
  }

  lemma RetryOne(d: Disk, o: Observation, c: Saved)
    requires ValidDisk(d)
    ensures Retried(d, [o], [c]) == (Persisted(d, o, c), if Succeeds(d, o, c) then [] else [o])
  {
    hide Persisted, Succeeds;
    assert [o][1..] == [] && [c][1..] == [];
    assert Retried(Persisted(d, o, c), [o][1..], [c][1..]) == (Persisted(d, o, c), []);
    var left := if Succeeds(d, o, c) then [] else [o];
    assert Retried(d, [o], [c]).1 == left + [] == left;
  }

  lemma RunBegins(z: Zone, s: State, ev: Event, rest: seq<Event>)
    requires z.Valid() && ValidDisk(s.disk) && Possible(s, ev) && AllPossible(z, Step(z, s, ev), rest)
    ensures AllPossible(z, s, [ev] + rest) && Run(z, s, [ev] + rest) == Run(z, Step(z, s, ev), rest)
  {
    hide Step, Possible;
    assert ([ev] + rest)[1..] == rest;
  }

  lemma ThreeSteps(z: Zone, s: State, first: Event, second: Event, third: Event)
    requires z.Valid() && ValidDisk(s.disk) && Possible(s, first) && Possible(Step(z, s, first), second)
    requires Possible(Step(z, Step(z, s, first), second), third)
    ensures AllPossible(z, s, [first, second, third])
    ensures Run(z, s, [first, second, third]) == Step(z, Step(z, Step(z, s, first), second), third)
  {
    hide Step, Possible, ValidDisk;
    var t := Step(z, s, first);
    var u := Step(z, t, second);
    RunBegins(z, u, third, []);
    RunBegins(z, t, second, [third]);
    RunBegins(z, s, first, [second, third]);
    assert [third] + [] == [third] && [second] + [third] == [second, third] && [first] + [second, third] == [first, second, third];
  }

  /** Such a run exists from every ledger: the commit lands though it reports a failure, retention
  deletes the record, and the retry succeeds. */
  lemma {:induction false} PrunedRecordIsCountedTwice(z: Zone, book: Book, o: Observation, e: Entry)
    requires z.Valid() && ValidBook(book) && o.tracked && ValidCounts(o.done.input, o.done.output, o.done.cached)
    requires e in book.entries && e.id == o.id && e.state.Active?
    ensures var evs := [End(o, Landed), PruneRecords({o.id}), Retry([Stored])];
            && AllPossible(z, Start(book), evs)
            && Run(z, Start(book), evs).disk.counted[o.id] == 2
            && Run(z, Start(book), evs).failed == []
  {
    var evs := [End(o, Landed), PruneRecords({o.id}), Retry([Stored])];
    AdmittedSettlesIffCountable(book, e, o.done, o.at);
    var s := Start(book);
    assert Chargeable(s.disk, o);
    var t := Step(z, s, evs[0]);
    assert t.disk == Written(s.disk, o) && t.failed == [o] && t.disk.counted[o.id] == 1;
    PersistKeepsEntries(s.disk, o, Landed);
    CountingCharges(s.disk, o, Landed);
    var u := Step(z, t, evs[1]);
    assert u.failed == [o] && u.disk.book == t.disk.book && u.disk.counted[o.id] == 1 && o.id !in u.disk.records;
    RetryCountsAgainIffRecordGone(u.disk, o, Stored);
    var w := Step(z, u, evs[2]);
    RetryOne(u.disk, o, Stored);
    ThreeSteps(z, s, evs[0], evs[1], evs[2]);
  }

  // ---- A request that can never be charged ----

  /** The request waits, and its entry is open, with counts that settlement refuses. */
  ghost predicate Stuck(s: State, o: Observation, e: Entry) {
    && o in s.failed && o.id in s.ended && o.tracked && o.id !in s.disk.records
    && !ValidCounts(o.done.input, o.done.output, o.done.cached)
    && e in s.disk.book.entries && e.id == o.id && e.state.Active?
  }

  /** Neither the process nor its recovery of open entries starts again. */
  predicate NoRestart(evs: seq<Event>) {
    forall ev <- evs :: !ev.Crash? && (ev.Ledger? ==> !ev.change.Recover?)
  }

  lemma {:induction false} LedgerKeepsOpen(z: Zone, b: Book, change: Bounds.Event, e: Entry)
    requires z.Valid() && ValidBook(b) && e in b.entries && e.state.Active?
    requires !change.Recover? && (change.Finish? ==> change.manual)
    ensures e in Bounds.Apply(z, b, change).entries
  {
    match change
    case Begin(q, permitted, now) =>
    case Finish(id, done, at, manual) =>
      if HasId(b.entries, id) && Outcome(b, id, done, at, true).Saved? {
        var i := IndexOf(b.entries, id);
        assert b.entries[i] in b.entries;
        FinishIsSound(b.entries[i], b.revisions[b.entries[i].revision].config, done, at, true);
        var j :| 0 <= j < |b.entries| && b.entries[j] == e;
        assert Bounds.Apply(z, b, change).entries[j] == e;
      }
    case Prune(before, batch) => FilterKeeps(b.entries, Kept(before, batch), e);
    case Append(r) =>
    case DeletePending(at, now) =>
  }

  lemma {:induction false} StepKeepsStuck(z: Zone, s: State, ev: Event, o: Observation, e: Entry)
    requires z.Valid() && ValidDisk(s.disk) && Orderly(s) && Stuck(s, o, e) && Possible(s, ev)
    requires !ev.Crash? && (ev.Ledger? ==> !ev.change.Recover?)
    ensures Stuck(Step(z, s, ev), o, e)
  {
    hide Persisted, Succeeds, Bounds.Apply;
    match ev
    case End(other, c) =>
      PersistTouchesOne(s.disk, other, c);
      PersistKeepsEntries(s.disk, other, c);
    case Retry(cs) => RetryKeepsUncountable(s.disk, s.failed, cs, o, e);
    case Ledger(change) => LedgerKeepsOpen(z, s.disk.book, change, e);
    case PruneRecords(ids) =>
  }

  lemma {:induction false} RunKeepsStuck(z: Zone, s: State, evs: seq<Event>, o: Observation, e: Entry)
    requires z.Valid() && ValidDisk(s.disk) && Orderly(s) && Stuck(s, o, e) && AllPossible(z, s, evs) && NoRestart(evs)
    ensures Stuck(Run(z, s, evs), o, e)
    decreases |evs|
  {
    hide Orderly, Stuck, Step, Possible, ValidDisk;
    if evs != [] {
      assert evs[0] in evs;
      StepIsOrderly(z, s, evs[0]);
      StepKeepsStuck(z, s, evs[0], o, e);
      RunKeepsStuck(z, Step(z, s, evs[0]), evs[1..], o, e);
    }
  }

  /** A request that ends with counts settlement refuses stays open, uncounted for, and keeps its
  member from any further request, through everything but a restart of the process. */
  lemma {:induction false} UncountableBlocksItsMember(z: Zone, book: Book, evs: seq<Event>, o: Observation, c: Saved, rest: seq<Event>, e: Entry)
    requires z.Valid() && ValidBook(book) && AllPossible(z, Start(book), evs)
    requires var s := Run(z, Start(book), evs);
             && Possible(s, End(o, c)) && AllPossible(z, Step(z, s, End(o, c)), rest) && NoRestart(rest)
             && e in s.disk.book.entries
    requires o.tracked && !ValidCounts(o.done.input, o.done.output, o.done.cached) && e.id == o.id && e.state.Active?
    ensures var end := Run(z, Step(z, Run(z, Start(book), evs), End(o, c)), rest);
            o in end.failed && Blocked(end.failed, o.user) && e in end.disk.book.entries && o.id !in end.disk.records
  {
    var s := Run(z, Start(book), evs);
    RunIsCharged(z, Start(book), evs);
    hide Run, Persisted, Succeeds;
    UncountableIsRefused(s.disk, o, c, e);
    StepIsOrderly(z, s, End(o, c));
    RunKeepsStuck(z, Step(z, s, End(o, c)), rest, o, e);
  }

  // ---- An entry nobody tracks ----

  /** The admission of the entry landed but reported failure: it is open, and no request that is tracked
  under its identifier waits. */
  predicate Untracked(s: State, e: Entry) {
    e in s.disk.book.entries && e.state.Active? && e.id !in Ids(s.failed)
  }

  /** No tracked request of that identifier ends, and recovery of open entries does not start again. */
  predicate NobodyEnds(evs: seq<Event>, id: string) {
    forall ev <- evs :: (ev.End? && ev.o.tracked ==> ev.o.id != id) && (ev.Ledger? ==> !ev.change.Recover?)
  }

  lemma {:induction false} StepKeepsUntracked(z: Zone, s: State, ev: Event, e: Entry)
    requires z.Valid() && ValidDisk(s.disk) && Orderly(s) && Untracked(s, e) && Possible(s, ev) && NobodyEnds([ev], e.id)
    ensures Untracked(Step(z, s, ev), e)
  {
    assert ev in [ev];
    match ev
    case End(o, c) =>
      if o.tracked {
        PersistKeepsEntries(s.disk, o, c);
        hide Persisted, Succeeds;
      }
    case Retry(cs) =>
      RetryTouchesWaiting(s.disk, s.failed, cs);
      hide Retried;
    case Ledger(change) => LedgerKeepsOpen(z, s.disk.book, change, e);
    case PruneRecords(ids) =>
    case Crash =>
  }

  lemma {:induction false} RunKeepsUntracked(z: Zone, s: State, evs: seq<Event>, e: Entry)
    requires z.Valid() && ValidDisk(s.disk) && Orderly(s) && Untracked(s, e) && AllPossible(z, s, evs) && NobodyEnds(evs, e.id)
    ensures Untracked(Run(z, s, evs), e)
    decreases |evs|
  {
    hide Orderly, Untracked, Step, Possible, ValidDisk;
    if evs != [] {
      assert evs[0] in evs;
      StepIsOrderly(z, s, evs[0]);
      StepKeepsUntracked(z, s, evs[0], e);
      RunKeepsUntracked(z, Step(z, s, evs[0]), evs[1..], e);
    }
  }

  function Others(id: string): Entry -> bool {
    (e: Entry) => e.id != id
  }

  /** An entry whose admission landed but reported failure, and that nobody tracks, stays open through every
  run without recovery: in every window that covers it, it keeps one of its member's slots to itself. */
  lemma {:induction false} UntrackedEntryKeepsASlot(z: Zone, s: State, evs: seq<Event>, e: Entry, scope: Scope)
    requires z.Valid() && ValidDisk(s.disk) && Orderly(s) && Untracked(s, e) && AllPossible(z, s, evs) && NobodyEnds(evs, e.id)
    requires scope.Covers(e)
    ensures var b := Run(z, s, evs).disk.book;
            && e in b.entries
            && ActiveCount(b, scope) == 1 + ActiveCount(b.(entries := Filter(b.entries, Others(e.id))), scope)
  {
    RunKeepsUntracked(z, s, evs, e);
    var b := Run(z, s, evs).disk.book;
    hide Run, AllPossible;
    var i :| 0 <= i < |b.entries| && b.entries[i] == e;
    forall j | 0 <= j < |b.entries| && j != i ensures Others(e.id)(b.entries[j]) {
      assert !(i < j && b.entries[i].id == b.entries[j].id) && !(j < i && b.entries[j].id == b.entries[i].id);
    }
    SumWithout(b.entries, i, Others(e.id), OneIn(scope));
  }

  // ---- Counting once ----

  /** Retention does not delete the record of a request that still waits for a retry. */
  ghost predicate SparesWaiting(s: State, ev: Event) {
    ev.PruneRecords? ==> ev.ids !! Ids(s.failed)
  }

  ghost predicate AllSpareWaiting(z: Zone, s: State, evs: seq<Event>)
    requires z.Valid() && ValidDisk(s.disk) && AllPossible(z, s, evs)
    decreases |evs|
  {
    evs == [] || (SparesWaiting(s, evs[0]) && AllSpareWaiting(z, Step(z, s, evs[0]), evs[1..]))
  }

  /** Nothing is counted twice, and whatever is on record was counted. */
  ghost predicate RecordedOnce(d: Disk, ended: set<string>) {
    && (forall id :: d.counted[id] <= 1 && (d.counted[id] == 1 ==> id in ended))
    && (forall id <- d.records :: d.counted[id] == 1)
  }

  /** A waiting request was not counted yet, unless its record shows that it was. */
  ghost predicate Waiting(d: Disk, ended: set<string>, os: seq<Observation>) {
    && DistinctWaiting(os)
    && forall o <- os :: o.tracked && o.id in ended && (d.counted[o.id] == 1 ==> o.id in d.records)
  }

  ghost predicate Accounted(d: Disk, os: seq<Observation>, ended: set<string>, lost: set<string>) {
    forall id <- ended :: d.counted[id] == 1 || id in Ids(os) || id in lost
  }

  ghost predicate Sound(s: State) {
    && ValidDisk(s.disk)
    && RecordedOnce(s.disk, s.ended) && Waiting(s.disk, s.ended, s.failed)
    && Accounted(s.disk, s.failed, s.ended, s.lost)
  }

  /** Recording a request that was not counted yet, or whose record is kept, never counts it twice,
  touches no other request, and counts it for good when it succeeds. */
  lemma {:induction false} PersistRecordsOnce(d: Disk, o: Observation, c: Saved, ended: set<string>)
    requires ValidDisk(d) && RecordedOnce(d, ended)
    requires d.counted[o.id] == 1 ==> o.tracked && o.id in d.records
    ensures var after := Persisted(d, o, c);
            && RecordedOnce(after, ended + {o.id})
            && (forall id :: id != o.id ==> after.counted[id] == d.counted[id] && (id in after.records <==> id in d.records))
            && (after.counted[o.id] == 1 ==> o.id in after.records)
            && (Succeeds(d, o, c) ==> after.counted[o.id] == 1)
  {
  }

  lemma {:induction false} RetryRecordsOnce(d: Disk, os: seq<Observation>, cs: seq<Saved>, ended: set<string>)
    requires ValidDisk(d) && RecordedOnce(d, ended) && Waiting(d, ended, os) && |cs| == |os|
    ensures var (after, rest) := Retried(d, os, cs);
            && RecordedOnce(after, ended) && Waiting(after, ended, rest)
            && (forall o <- rest :: o in os)
            && (forall o <- os :: o in rest || after.counted[o.id] == 1)
            && (forall id :: id !in Ids(os) ==> after.counted[id] == d.counted[id] && (id in after.records <==> id in d.records))
    decreases |os|
  {
    hide Persisted, Succeeds, ValidDisk;
    if os != [] {
      var o := os[0];
      var next := Persisted(d, o, cs[0]);
      PersistRecordsOnce(d, o, cs[0], ended);
      assert ended + {o.id} == ended;
      TailStillWaits(d, next, ended, os);
      RetryRecordsOnce(next, os[1..], cs[1..], ended);
      var (after, rest) := Retried(next, os[1..], cs[1..]);
      assert o.id !in Ids(os[1..]);
      KeepsDistinct(os[1..], rest, o);
    }
  }

  lemma TailStillWaits(d: Disk, next: Disk, ended: set<string>, os: seq<Observation>)
    requires os != [] && Waiting(d, ended, os)
    requires forall id :: id != os[0].id ==> next.counted[id] == d.counted[id] && (id in next.records <==> id in d.records)
    ensures Waiting(next, ended, os[1..]) && forall x <- os[1..] :: x in os && x.id != os[0].id
  {
    TailWaits(os);
  }

  lemma KeepsDistinct(os: seq<Observation>, rest: seq<Observation>, o: Observation)
    requires DistinctWaiting(rest) && (forall x <- rest :: x in os) && forall x <- os :: x.id != o.id
    ensures DistinctWaiting([o] + rest)
  {
  }

  lemma {:induction false} StepIsSound(z: Zone, s: State, ev: Event)
    requires z.Valid() && Sound(s) && Possible(s, ev) && SparesWaiting(s, ev)
    ensures Sound(Step(z, s, ev))
  {
    match ev
    case End(o, c) =>
      PersistRecordsOnce(s.disk, o, c, s.ended);
    case Retry(cs) =>
      RetryRecordsOnce(s.disk, s.failed, cs, s.ended);
    case Ledger(change) =>
    case PruneRecords(ids) =>
      assert forall o <- s.failed :: o.id in Ids(s.failed);
    case Crash =>
  }

  lemma {:induction false} RunIsSound(z: Zone, s: State, evs: seq<Event>)
    requires z.Valid() && Sound(s) && AllPossible(z, s, evs) && AllSpareWaiting(z, s, evs)
    ensures Sound(Run(z, s, evs))
    decreases |evs|
  {
    hide RecordedOnce, Waiting, Accounted, Step, Possible, SparesWaiting;
    if evs != [] {
      StepIsSound(z, s, evs[0]);
      RunIsSound(z, Step(z, s, evs[0]), evs[1..]);
    }
  }

  /** Whatever commits, fails, is retried or crashes: while retention spares what waits, a request is
  never counted twice, one that ended was counted exactly once unless it still waits or its process
  died first, and a tracked one is only counted with its charge made. */
  lemma {:induction false} CountedExactlyOnce(z: Zone, book: Book, evs: seq<Event>, id: string)
    requires z.Valid() && ValidBook(book) && AllPossible(z, Start(book), evs) && AllSpareWaiting(z, Start(book), evs)
    ensures var end := Run(z, Start(book), evs);
            && end.disk.counted[id] <= 1
            && (id in end.ended && id !in Ids(end.failed) && id !in end.lost ==> end.disk.counted[id] == 1)
            && (id in end.tracked && end.disk.counted[id] == 1 ==> Closed(end.disk.book.entries, id))
  {
    RunIsSound(z, Start(book), evs);
    CountedIsCharged(z, book, evs, id);
  }
}
