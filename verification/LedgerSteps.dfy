/** Everything that changes a scheme's ledger, one transaction at a time. */
module LedgerSteps {
  import opened Sums
  import opened Calendar
  import opened Allowances
  import opened Ledger
  import opened Admission

  // ---- The transactions, as functions on the tables ----

  predicate HasId(entries: seq<Entry>, id: string) {
    exists e <- entries :: e.id == id
  }

  /** The window in force that ends last; the first of them on a tie. */
  function Longest(ws: seq<Window>): (w: Window)
    requires ws != []
    ensures w in ws && forall other <- ws :: other.end <= w.end
  {
    if |ws| == 1 then ws[0]
    else
      var best := Longest(ws[..|ws| - 1]);
      assert forall w <- ws :: w in ws[..|ws| - 1] || w == ws[|ws| - 1];
      if best.end < ws[|ws| - 1].end then ws[|ws| - 1] else best
  }

  datatype Request = Request(id: string, user: int, account: string, model: string)

  ghost function NewEntry(z: Zone, r: Revision, q: Request, now: int): Entry
    requires z.Valid() && Accepted(r.config)
  {
    var w := Longest(WindowsAt(z, r, now));
    Entry(q.id, r.id, q.user, q.account, q.model, EntryUnit(r.config), w.start, w.end, now, 0,
          Active, 0, 0, 0, 0, false)
  }

  /** Whether a request starts under revision `r`. */
  ghost predicate Starts(z: Zone, b: Book, r: Revision, q: Request, permitted: bool, now: int)
    requires z.Valid() && ValidBook(b)
    ensures Starts(z, b, r, q, permitted, now) ==> Accepted(r.config)
  {
    && InForce(b, r, now) && !HasId(b.entries, q.id)
    && CheckVerdict(z, b, r, q.user, permitted, q.model, now).Admitted?
  }

  ghost function BeginBook(z: Zone, b: Book, q: Request, permitted: bool, now: int): Book
    requires z.Valid() && ValidBook(b)
  {
    if r :| Starts(z, b, r, q, permitted, now) then b.(entries := b.entries + [NewEntry(z, r, q, now)]) else b
  }

  lemma OneInForce(b: Book, r: Revision, s: Revision, now: int)
    requires InForce(b, r, now) && InForce(b, s, now)
    ensures r == s
  {
    assert !Supersedes(b.revisions[s.id], r) && !Supersedes(b.revisions[r.id], s);
  }

  function IndexOf(entries: seq<Entry>, id: string): (i: nat)
    ensures i <= |entries| && (i < |entries| ==> entries[i].id == id)
    ensures forall j :: 0 <= j < i ==> entries[j].id != id
  {
    if entries == [] || entries[0].id == id then 0 else 1 + IndexOf(entries[1..], id)
  }

  function Outcome(b: Book, id: string, done: Completion, now: int, manual: bool): Finished
    requires HasId(b.entries, id) && forall e <- b.entries :: e.revision in b.revisions
  {
    var e := b.entries[IndexOf(b.entries, id)];
    FinishEntry(e, b.revisions[e.revision].config, done, now, manual)
  }

  ghost function FinishBook(b: Book, id: string, done: Completion, now: int, manual: bool): Book
    requires ValidBook(b)
  {
    if HasId(b.entries, id) && Outcome(b, id, done, now, manual).Saved?
    then b.(entries := b.entries[IndexOf(b.entries, id) := Outcome(b, id, done, now, manual).entry])
    else b
  }

  function Recovered(e: Entry): Entry {
    if e.state.Active? then e.(state := Pending) else e
  }

  function RecoverBook(b: Book): Book {
    b.(entries := seq(|b.entries|, i requires 0 <= i < |b.entries| => Recovered(b.entries[i])))
  }

  function Kept(before: int, batch: set<string>): Entry -> bool {
    (e: Entry) => !(e.state.Settled? && e.resetAt < before && e.id in batch)
  }

  /** Retention deletes a batch of settled entries whose longest window closed before `before`. */
  function PruneBook(b: Book, before: int, batch: set<string>): Book {
    b.(entries := Filter(b.entries, Kept(before, batch)))
  }

  ghost function AppendBook(b: Book, r: Revision): Book {
    if r.id !in b.revisions && Accepted(r.config) && r.anchor <= r.effectiveAt
    then b.(revisions := b.revisions[r.id := r]) else b
  }

  predicate Deletable(b: Book, id: int, at: int, now: int) {
    && id in b.revisions && b.revisions[id].effectiveAt == at && now < at
    && forall e <- b.entries :: e.revision != id
  }

  /** Replaced drafts go; a revision that some entry was admitted under stays. */
  function DeletePendingBook(b: Book, at: int, now: int): Book {
    b.(revisions := map id | id in b.revisions && !Deletable(b, id, at, now) :: b.revisions[id])
  }

  // ---- Integrity is kept ----

  lemma NewEntryIsValid(z: Zone, b: Book, r: Revision, q: Request, permitted: bool, now: int)
    requires z.Valid() && ValidBook(b) && Starts(z, b, r, q, permitted, now)
    ensures ValidEntry(NewEntry(z, r, q, now), b.revisions)
    ensures NewEntry(z, r, q, now).id == q.id && !HasId(b.entries, q.id)
  {
    hide Judge, WindowsAt, Longest, MemberLimit;
    var m := ShareOf(r.config.members, q.user)[0];
    assert m in r.config.members && ValidMemberLimit(r.config, m);
  }

  lemma {:induction false} BeginKeepsValid(z: Zone, b: Book, q: Request, permitted: bool, now: int)
    requires z.Valid() && ValidBook(b)
    ensures ValidBook(BeginBook(z, b, q, permitted, now))
  {
    hide Starts, NewEntry, ValidEntry, Accepted;
    if r :| Starts(z, b, r, q, permitted, now) && BeginBook(z, b, q, permitted, now) == b.(entries := b.entries + [NewEntry(z, r, q, now)]) {
      NewEntryIsValid(z, b, r, q, permitted, now);
      var e := NewEntry(z, r, q, now);
      assert forall x <- b.entries + [e] :: x in b.entries || x == e;
    }
  }

  lemma {:induction false} FinishKeepsValid(b: Book, id: string, done: Completion, now: int, manual: bool)
    requires ValidBook(b)
    ensures ValidBook(FinishBook(b, id, done, now, manual))
  {
    if HasId(b.entries, id) && Outcome(b, id, done, now, manual).Saved? {
      var i := IndexOf(b.entries, id);
      var e := b.entries[i];
      var e' := Outcome(b, id, done, now, manual).entry;
      assert ValidEntry(e, b.revisions);
      FinishIsSound(e, b.revisions[e.revision].config, done, now, manual);
      assert forall x <- b.entries[i := e'] :: x in b.entries || x == e';
    }
  }

  /** What finishing may change, and what it never does. */
  lemma FinishIsSound(e: Entry, c: Config, done: Completion, now: int, manual: bool)
    requires FinishEntry(e, c, done, now, manual).Saved? && Accepted(c)
    ensures var f := FinishEntry(e, c, done, now, manual).entry;
            && f == e.(finishedAt := f.finishedAt, state := f.state, input := f.input, output := f.output,
                       cached := f.cached, cost := f.cost, manual := f.manual)
            && !f.state.Active? && 0 <= f.cost && (f.state.Pending? ==> f.cost == 0)
            && (if manual then e.state.Pending? else e.state.Active?) && f.manual == manual
  {
    var rate := RateFor(c.rates, e.model);
    if e.unit.Amount? && rate != [] {
      StoredRatesCharge(rate[0], done.input, done.output, done.cached);
    }
  }

  lemma {:induction false} FilterKeepsDistinct(entries: seq<Entry>, keep: Entry -> bool)
    requires DistinctIds(entries)
    ensures DistinctIds(Filter(entries, keep))
  {
    if entries != [] {
      FilterKeepsDistinct(entries[1..], keep);
      var rest := Filter(entries[1..], keep);
      forall e <- rest ensures e.id != entries[0].id {
        var j :| 0 <= j < |entries[1..]| && entries[1..][j] == e;
        assert entries[j + 1] == e;
      }
    }
  }

  lemma RecoverKeepsValid(b: Book)
    requires ValidBook(b)
    ensures ValidBook(RecoverBook(b))
  {
    var recovered := RecoverBook(b).entries;
    forall e <- recovered ensures ValidEntry(e, b.revisions) {
      var i :| 0 <= i < |recovered| && recovered[i] == e;
      assert ValidEntry(b.entries[i], b.revisions);
    }
  }

  lemma PruneKeepsValid(b: Book, before: int, batch: set<string>)
    requires ValidBook(b)
    ensures ValidBook(PruneBook(b, before, batch))
  {
    FilterKeepsDistinct(b.entries, Kept(before, batch));
  }

  lemma AppendKeepsValid(b: Book, r: Revision)
    requires ValidBook(b)
    ensures ValidBook(AppendBook(b, r))
  {
    forall e <- b.entries ensures ValidEntry(e, AppendBook(b, r).revisions) {
      assert ValidEntry(e, b.revisions);
    }
  }

  lemma DeleteKeepsValid(b: Book, at: int, now: int)
    requires ValidBook(b)
    ensures ValidBook(DeletePendingBook(b, at, now))
  {
    forall e <- b.entries ensures ValidEntry(e, DeletePendingBook(b, at, now).revisions) {
      assert ValidEntry(e, b.revisions);
    }
  }

  // ---- The store ----

  class Store {
    var entries: seq<Entry>
    var revisions: map<int, Revision>

    ghost function Tables(): Book
      reads this
    {
      Book(entries, revisions)
    }

    constructor ()
      ensures Tables() == Book([], map[])
    {
      entries, revisions := [], map[];
    }

    /** The revision in force, if any: the latest effective one, the last written on a tie. */
    method Current(now: int) returns (found: seq<Revision>)
      requires ValidBook(Tables())
      ensures |found| <= 1
      ensures found != [] ==> InForce(Tables(), found[0], now)
      ensures found != [] ==> forall id <- revisions :: revisions[id].effectiveAt <= now ==>
                revisions[id].effectiveAt < found[0].effectiveAt || (revisions[id].effectiveAt == found[0].effectiveAt && id <= found[0].id)
      ensures found == [] ==> forall r :: !InForce(Tables(), r, now)
    {
      found := [];
      var left: set<int> := revisions.Keys;
      while left != {}
        invariant left <= revisions.Keys && |found| <= 1
        invariant found != [] ==> && found[0].id in revisions && revisions[found[0].id] == found[0]
                                  && found[0].effectiveAt <= now
        invariant forall id :: id in revisions && id !in left && revisions[id].effectiveAt <= now ==>
                    found != [] && !Supersedes(revisions[id], found[0])
        decreases left
      {
        assert (forall id :: id !in left) ==> left == {};
        var id: int :| id in left;
        var r := revisions[id];
        if r.effectiveAt <= now && (found == [] || Supersedes(r, found[0])) {
          found := [r];
        }
        left := left - {id};
      }
    }

    /** The span an entry is retained for. */
    method RetainedWindow(ws: seq<Window>) returns (w: Window)
      requires ws != []
      ensures w == Longest(ws)
    {
      w := ws[0];
      for i := 1 to |ws|
        invariant w == Longest(ws[..i])
      {
        assert ws[..i + 1][..i] == ws[..i];
        if w.end < ws[i].end {
          w := ws[i];
        }
      }
      assert ws[..|ws|] == ws;
    }

    lemma BeginUnder(z: Zone, b: Book, r: Revision, q: Request, permitted: bool, now: int)
      requires z.Valid() && ValidBook(b) && InForce(b, r, now)
      ensures BeginBook(z, b, q, permitted, now) ==
              if Starts(z, b, r, q, permitted, now) then b.(entries := b.entries + [NewEntry(z, r, q, now)]) else b
    {
      forall s | Starts(z, b, s, q, permitted, now) ensures s == r {
        OneInForce(b, r, s, now);
      }
    }

    method Begin(z: Zone, q: Request, permitted: bool, now: int) returns (v: Verdict)
      requires z.Valid() && z.DatesAdvance() && ValidBook(Tables())
      modifies this
      ensures ValidBook(Tables()) && Tables() == BeginBook(z, old(Tables()), q, permitted, now)
      ensures v.Admitted? ==> HasId(entries, q.id)
      ensures forall r :: InForce(old(Tables()), r, now) ==> v == CheckVerdict(z, old(Tables()), r, q.user, permitted, q.model, now)
      ensures (forall r :: !InForce(old(Tables()), r, now)) ==> v == Unavailable
    {
      ghost var before := Tables();
      BeginKeepsValid(z, before, q, permitted, now);
      var found := Current(now);
      if found == [] {
        return Unavailable;
      }
      var r := found[0];
      BeginUnder(z, before, r, q, permitted, now);
      hide ValidBook, Accepted, InForce, CheckVerdict, WindowsAt, Longest, BeginBook;
      v := Check(z, Book(entries, revisions), r, q.user, permitted, q.model, now);
      if v.Admitted? && !HasId(entries, q.id) {
        var ws := EffectiveWindows(z, r, now);
        var w := RetainedWindow(ws);
        var e := Entry(q.id, r.id, q.user, q.account, q.model, EntryUnit(r.config), w.start, w.end, now, 0,
                       Active, 0, 0, 0, 0, false);
        entries := entries + [e];
        assert e in entries;
      }
    }

    method Finish(id: string, done: Completion, now: int, manual: bool) returns (f: Finished)
      requires ValidBook(Tables()) && HasId(entries, id)
      modifies this
      ensures ValidBook(Tables()) && Tables() == FinishBook(old(Tables()), id, done, now, manual)
      ensures f == Outcome(old(Tables()), id, done, now, manual)
    {
      FinishKeepsValid(Tables(), id, done, now, manual);
      var i := IndexOf(entries, id);
      var e := entries[i];
      f := FinishEntry(e, revisions[e.revision].config, done, now, manual);
      if f.Saved? {
        entries := entries[i := f.entry];
      }
    }

    /** An administrator's correction of a pending request. */
    method Settle(id: string, done: Completion, now: int) returns (f: Finished)
      requires ValidBook(Tables())
      modifies this
      ensures var known := done.(known := true, dispatched := true);
              ValidBook(Tables()) && Tables() == FinishBook(old(Tables()), id, known, now, true)
      ensures f.Saved? ==> f.entry.state.Settled? && f.entry.manual
    {
      if !HasId(entries, id) {
        return BadSettlement;
      }
      f := Finish(id, done.(known := true, dispatched := true), now, true);
    }

    method Recover()
      requires ValidBook(Tables())
      modifies this
      ensures ValidBook(Tables()) && Tables() == RecoverBook(old(Tables()))
      ensures revisions == old(revisions) && |entries| == |old(entries)|
      ensures forall i :: 0 <= i < |entries| ==>
                entries[i] == if old(entries)[i].state == Active then old(entries)[i].(state := Pending) else old(entries)[i]
    {
      RecoverKeepsValid(Tables());
      var rows := entries;
      entries := seq(|rows|, i requires 0 <= i < |rows| => Recovered(rows[i]));
      assert Tables() == RecoverBook(old(Tables()));
    }

    method Prune(before: int, batch: set<string>)
      requires ValidBook(Tables())
      modifies this
      ensures ValidBook(Tables()) && Tables() == PruneBook(old(Tables()), before, batch)
      ensures revisions == old(revisions)
      ensures forall e :: e in entries <==> e in old(entries) && !(e.state == Settled && e.resetAt < before && e.id in batch)
    {
      PruneKeepsValid(Tables(), before, batch);
      forall e | e in entries && Kept(before, batch)(e) ensures e in Filter(entries, Kept(before, batch)) {
        FilterKeeps(entries, Kept(before, batch), e);
      }
      entries := Filter(entries, Kept(before, batch));
    }

    method AppendRevision(r: Revision)
      requires ValidBook(Tables()) && r.id !in revisions && Accepted(r.config) && r.anchor <= r.effectiveAt
      modifies this
      ensures ValidBook(Tables()) && Tables() == AppendBook(old(Tables()), r)
    {
      AppendKeepsValid(Tables(), r);
      revisions := revisions[r.id := r];
    }

    method DeletePending(at: int, now: int)
      requires ValidBook(Tables())
      modifies this
      ensures ValidBook(Tables()) && Tables() == DeletePendingBook(old(Tables()), at, now)
    {
      ghost var before := Tables();
      var rows := entries;
      var referenced := set i | 0 <= i < |rows| :: rows[i].revision;
      var all := revisions;
      revisions := map id | id in all && !(all[id].effectiveAt == at && now < at && id !in referenced) :: all[id];
      assert forall id :: id in all ==> (id !in referenced <==> forall e <- rows :: e.revision != id);
      assert revisions == DeletePendingBook(before, at, now).revisions;
      DeleteKeepsValid(before, at, now);
    }
  }
}
