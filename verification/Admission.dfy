/** Admission over one cached read of the ledger.

`Accounting` reads the active entries of all windows once and filters them per window; admission
and the balance report run on it. Both are proved to equal the window-by-window rules. */
module Admission {
  import opened Sums
  import opened Calendar
  import opened Allowances
  import opened Ledger

  datatype Read<T> = Rows(value: T) | TooMany

  datatype Reserved = Reserved(active: int, held: int)

  datatype Shared = Shared(used: int, held: int, room: int)

  datatype MemberState = MemberState(limit: int, unlimited: bool, used: int, active: int, held: int, room: int, limited: bool)

  class Accounting {
    const book: Book
    const config: Config
    const windows: seq<Window>
    var active: map<int, seq<Entry>>
    var captured: map<int, Config>
    var groups: map<Window, Shared>

    constructor (b: Book, r: Revision, ws: seq<Window>)
      requires ValidBook(b) && Accepted(r.config)
      requires r.id in b.revisions && b.revisions[r.id] == r
      ensures Valid() && book == b && config == r.config && windows == ws
    {
      book, config, windows := b, r.config, ws;
      active, captured, groups := map[], map[r.id := r.config], map[];
    }

    /** Every cached answer is the answer the tables would give now. */
    ghost predicate Valid()
      reads this
    {
      && ValidBook(book) && Accepted(config)
      && (forall id <- captured :: id in book.revisions && captured[id] == book.revisions[id].config)
      && (forall m <- config.members ::
            WideUser(config, m) in active && (exists w <- windows :: ReadsWindow(config, m, w)) ==>
            active[WideUser(config, m)] == ActiveRows(book, WideScope(config, m, windows))
            && !TooManyRows(book, config, m, windows))
      && (forall w <- groups :: groups[w] == SharedOf(book, config, w))
    }

    method Entries(m: Share) returns (rows: Read<seq<Entry>>)
      requires Valid() && m in config.members
      requires exists w <- windows :: ReadsWindow(config, m, w)
      modifies this`active
      ensures Valid()
      ensures rows.TooMany? <==> TooManyRows(book, config, m, windows)
      ensures rows.Rows? ==> rows.value == ActiveRows(book, WideScope(config, m, windows))
    {
      var scope := WideUser(config, m);
      if scope in active {
        return Rows(active[scope]);
      }
      var from, to, found := 0, 0, false;
      for i := |windows| downto 0
        invariant found <==> exists w <- windows[i..] :: ReadsWindow(config, m, w)
        invariant found ==> from == Earliest(config, m, windows[i..]) && to == Latest(config, m, windows[i..])
      {
        var w := windows[i];
        assert windows[i..][0] == w && windows[i..][1..] == windows[i + 1..];
        if ReadsWindow(config, m, w) {
          if found {
            from := if w.start < from then w.start else from;
            to := if to < w.end then w.end else to;
          } else {
            from, to, found := w.start, w.end, true;
          }
        }
      }
      assert windows[0..] == windows;
      var read := ActiveRows(book, Scope(EntryUnit(config), scope, from, to));
      if ROW_LIMIT < |read| {
        return TooMany;
      }
      forall other <- config.members | WideUser(config, other) == scope
        ensures ReadsSame(config, m, other, windows)
      {
        SameWideUserReadsSame(config, m, other, windows);
      }
      active := active[scope := read];
      return Rows(read);
    }

    method Capture(revision: int) returns (c: Config)
      requires Valid() && revision in book.revisions
      modifies this`captured
      ensures Valid() && c == book.revisions[revision].config
    {
      if revision in captured {
        return captured[revision];
      }
      c := book.revisions[revision].config;
      captured := captured[revision := c];
    }

    /** Counts the rows that fall in one window, and adds up what they captured there. */
    method Tally(rows: seq<Entry>, user: int, w: Window) returns (t: Reserved)
      requires Valid()
      requires forall row <- rows :: row.unit == EntryUnit(config) && row.state.Active? && row.revision in book.revisions
      modifies this`captured
      ensures Valid()
      ensures t.active == Sum(rows, OneIn(ScopeOf(config, user, w)))
      ensures t.held == Sum(rows, HeldIn(ScopeOf(config, user, w), book.revisions, w))
    {
      hide Accounting.Valid, ReservedFor;
      var s := ScopeOf(config, user, w);
      var active, held := 0, 0;
      for i := 0 to |rows|
        invariant Valid()
        invariant active == Sum(rows[..i], OneIn(s))
        invariant held == Sum(rows[..i], HeldIn(s, book.revisions, w))
      {
        var row := rows[i];
        assert rows[..i + 1] == rows[..i] + [row];
        SumAppend(rows[..i], [row], OneIn(s));
        SumAppend(rows[..i], [row], HeldIn(s, book.revisions, w));
        if w.start <= row.startedAt < w.end && (user == EVERYONE || row.user == user) {
          active := active + 1;
          var admitted := Capture(row.revision);
          held := held + ReservedFor(admitted, row.user, w);
        }
      }
      assert rows[..|rows|] == rows;
      t := Reserved(active, held);
    }

    /** Requests of `user`, or of everyone, running in `w`, and what they hold there. */
    method Reservations(user: int, m: Share, w: Window) returns (read: Read<Reserved>)
      requires Valid() && m in config.members && w in windows && ReadsWindow(config, m, w)
      requires config.mode.RatioMode? || user == m.user
      modifies this`active, this`captured
      ensures Valid()
      ensures read.TooMany? <==> TooManyRows(book, config, m, windows)
      ensures read.Rows? ==> read.value == Reserved(ActiveCount(book, ScopeOf(config, user, w)),
                                                    Held(book, ScopeOf(config, user, w), w))
    {
      var rows := Entries(m);
      if rows.TooMany? {
        return TooMany;
      }
      ActiveRowsAreKnown(book, WideScope(config, m, windows));
      WideReadServesWindow(book, config, m, windows, user, w);
      hide Accounting.Valid, ActiveRows, TooManyRows, WideScope;
      var t := Tally(rows.value, user, w);
      return Rows(t);
    }

    method Member(m: Share, w: Window) returns (read: Read<MemberState>)
      requires Valid() && m in config.members && w in windows
      modifies this`active, this`captured
      ensures Valid()
      ensures read.TooMany? <==> ReadsWindow(config, m, w) && TooManyRows(book, config, m, windows)
      ensures read.Rows? ==>
                && read.value.limit == MemberLimit(config, m, w)
                && read.value.unlimited == Unlimited(config, read.value.limit)
                && read.value.used == Used(book, ScopeOf(config, m.user, w))
                && (read.value.limited <==> MemberTight(book, config, m, w))
      ensures read.Rows? ==>
                var s := ScopeOf(config, m.user, w);
                if read.value.unlimited then read.value.active == read.value.held == read.value.room == 0
                else && read.value.active == ActiveCount(book, s) && read.value.held == Held(book, s, w)
                     && read.value.room == Room(read.value.limit, read.value.used, read.value.held)
    {
      var used := Used(book, ScopeOf(config, m.user, w));
      var limit := MemberLimit(config, m, w);
      if Unlimited(config, limit) {
        return Rows(MemberState(limit, true, used, 0, 0, 0, false));
      }
      var reserved := Reservations(m.user, m, w);
      if reserved.TooMany? {
        return TooMany;
      }
      var Reserved(active, held) := reserved.value;
      var room := Room(limit, used, held);
      return Rows(MemberState(limit, false, used, active, held, room,
                              MAX_OUTSTANDING <= active || room < Reservation(limit)));
    }

    method Group(m: Share, w: Window) returns (read: Read<Shared>)
      requires Valid() && m in config.members && w in windows && config.mode.RatioMode?
      modifies this
      ensures Valid()
      ensures read.TooMany? ==> TooManyRows(book, config, m, windows)
      ensures read.Rows? ==> read.value == SharedOf(book, config, w)
    {
      if w in groups {
        return Rows(groups[w]);
      }
      var reserved := Reservations(EVERYONE, m, w);
      if reserved.TooMany? {
        return TooMany;
      }
      var used := Used(book, ScopeOf(config, EVERYONE, w));
      var shared := Shared(used, reserved.value.held, Room(WindowTotal(config, w), used, reserved.value.held));
      groups := groups[w := shared];
      return Rows(shared);
    }
  }

  function SharedOf(b: Book, c: Config, w: Window): Shared {
    var s := ScopeOf(c, EVERYONE, w);
    Shared(Used(b, s), Held(b, s, w), Room(WindowTotal(c, w), Used(b, s), Held(b, s, w)))
  }

  /** Two members are served by the same wide read. */
  ghost predicate ReadsSame(c: Config, a: Share, b: Share, ws: seq<Window>) {
    && (forall w <- ws :: ReadsWindow(c, a, w) <==> ReadsWindow(c, b, w))
    && ((exists w <- ws :: ReadsWindow(c, a, w)) ==> WideScope(c, a, ws) == WideScope(c, b, ws))
  }

  lemma {:induction false} SameWideUserReadsSame(c: Config, a: Share, b: Share, ws: seq<Window>)
    requires Accepted(c) && a in c.members && b in c.members && WideUser(c, a) == WideUser(c, b)
    ensures ReadsSame(c, a, b, ws)
  {
    if c.mode.RatioMode? {
      SharedSpan(c, a, b, ws);
    } else {
      OneSharePerUser(c.members, a, b);
    }
  }

  lemma OneSharePerUser(members: seq<Share>, a: Share, b: Share)
    requires DistinctUsers(members) && a in members && b in members && a.user == b.user
    ensures a == b
  {
    var i :| 0 <= i < |members| && members[i] == a;
    var j :| 0 <= j < |members| && members[j] == b;
    assert !(i < j) && !(j < i);
  }

  lemma {:induction false} SharedSpan(c: Config, a: Share, b: Share, ws: seq<Window>)
    requires c.mode.RatioMode?
    ensures ws != [] ==> (exists w <- ws :: ReadsWindow(c, a, w)) && (exists w <- ws :: ReadsWindow(c, b, w))
                         && Earliest(c, a, ws) == Earliest(c, b, ws) && Latest(c, a, ws) == Latest(c, b, ws)
  {
    if ws != [] {
      assert ReadsWindow(c, a, ws[0]) && ReadsWindow(c, b, ws[0]);
      SharedSpan(c, a, b, ws[1..]);
    }
  }

  lemma ActiveRowsAreKnown(b: Book, s: Scope)
    requires ValidBook(b)
    ensures forall row <- ActiveRows(b, s) :: row.unit == s.unit && row.state.Active? && row.revision in b.revisions
  {
    forall row <- ActiveRows(b, s) ensures row.unit == s.unit && row.state.Active? && row.revision in b.revisions {
      assert ActiveIn(s)(row) && ValidEntry(row, b.revisions);
    }
  }

  /** The wide read, filtered to one window, counts and holds exactly what a read of that window
  alone would. */
  lemma {:induction false} WideReadServesWindow(b: Book, c: Config, m: Share, ws: seq<Window>, user: int, w: Window)
    requires w in ws && ReadsWindow(c, m, w)
    requires c.mode.RatioMode? || user == m.user
    ensures var rows := ActiveRows(b, WideScope(c, m, ws));
            && Sum(rows, OneIn(ScopeOf(c, user, w))) == ActiveCount(b, ScopeOf(c, user, w))
            && Sum(rows, HeldIn(ScopeOf(c, user, w), b.revisions, w)) == Held(b, ScopeOf(c, user, w), w)
  {
    var wide := WideScope(c, m, ws);
    SumFilter(b.entries, ActiveIn(wide), OneIn(ScopeOf(c, user, w)));
    SumFilter(b.entries, ActiveIn(wide), HeldIn(ScopeOf(c, user, w), b.revisions, w));
  }

  // ---- Admission and the report ----

  datatype Weighed = SpentWindow | Usable(tight: bool)

  /** One window of an admission check. */
  method WeighWindow(a: Accounting, m: Share, w: Window) returns (step: Read<Weighed>)
    requires a.Valid() && m in a.config.members && w in a.windows
    modifies a
    ensures a.Valid()
    ensures step.TooMany? <==> ReadsWindow(a.config, m, w) && TooManyRows(a.book, a.config, m, a.windows)
    ensures step.Rows? ==> (step.value.SpentWindow? <==> Exhausted(a.book, a.config, m, w))
    ensures step.Rows? && step.value.Usable? ==> (step.value.tight <==> Tight(a.book, a.config, m, w))
  {
    var read := a.Member(m, w);
    if read.TooMany? {
      return TooMany;
    }
    var state := read.value;
    if !state.unlimited && state.limit <= state.used {
      return Rows(SpentWindow);
    }
    var tight := false;
    if a.config.mode.RatioMode? {
      var shared := a.Group(m, w);
      if shared.TooMany? {
        return TooMany;
      }
      if WindowTotal(a.config, w) <= shared.value.used {
        return Rows(SpentWindow);
      }
      tight := shared.value.room < Reservation(state.limit);
    }
    return Rows(Usable(tight || state.limited));
  }

  method JudgeMember(a: Accounting, m: Share) returns (v: Verdict)
    requires a.Valid() && m in a.config.members
    modifies a
    ensures v == Judge(a.book, a.config, m, a.windows)
  {
    hide Accounting.Valid, Exhausted, Tight, TooManyRows, ReadsWindow;
    var riskLimited := false;
    for i := 0 to |a.windows|
      invariant a.Valid()
      invariant forall w <- a.windows[..i] :: !Exhausted(a.book, a.config, m, w)
      invariant forall w <- a.windows[..i] :: ReadsWindow(a.config, m, w) ==> !TooManyRows(a.book, a.config, m, a.windows)
      invariant riskLimited <==> exists w <- a.windows[..i] :: Tight(a.book, a.config, m, w)
    {
      var w := a.windows[i];
      assert a.windows[..i + 1] == a.windows[..i] + [w];
      var step := WeighWindow(a, m, w);
      if step.TooMany? {
        return RiskLimited;
      }
      if step.value.SpentWindow? {
        SpentMeansQuota(a.book, a.config, m, a.windows, w);
        return QuotaSpent;
      }
      riskLimited := riskLimited || step.value.tight;
    }
    assert a.windows[..|a.windows|] == a.windows;
    NoReadNoTrouble(a.book, a.config, m, a.windows);
    return if riskLimited then RiskLimited else Admitted;
  }

  lemma SpentMeansQuota(b: Book, c: Config, m: Share, ws: seq<Window>, w: Window)
    requires w in ws && Exhausted(b, c, m, w) && !(ReadsWindow(c, m, w) && TooManyRows(b, c, m, ws))
    ensures Judge(b, c, m, ws) == QuotaSpent
  {
  }

  lemma NoReadNoTrouble(b: Book, c: Config, m: Share, ws: seq<Window>)
    requires forall w <- ws :: ReadsWindow(c, m, w) ==> !TooManyRows(b, c, m, ws)
    ensures !TooManyRows(b, c, m, ws)
  {
  }

  /** Decides whether a request of `user` may start now. */
  method Check(z: Zone, b: Book, r: Revision, user: int, permitted: bool, model: string, now: int) returns (v: Verdict)
    requires z.Valid() && z.DatesAdvance()
    requires ValidBook(b) && InForce(b, r, now)
    ensures v == CheckVerdict(z, b, r, user, permitted, model, now)
  {
    var c := r.config;
    if !permitted {
      return Unavailable;
    }
    var found := ShareOf(c.members, user);
    if found == [] {
      return Unavailable;
    }
    if EntryUnit(c).Amount? && RateFor(c.rates, model) == [] {
      return Unpriced;
    }
    var ws := EffectiveWindows(z, r, now);
    var accounting := new Accounting(b, r, ws);
    hide WindowsAt, Judge, Accounting.Valid;
    v := JudgeMember(accounting, found[0]);
  }

  datatype Label = Open | NoLimit | Spent | AtRisk

  ghost function LabelOf(b: Book, c: Config, m: Share, w: Window): Label {
    if Exhausted(b, c, m, w) then Spent
    else if Unlimited(c, MemberLimit(c, m, w)) then NoLimit
    else if Tight(b, c, m, w) then AtRisk
    else Open
  }

  method LabelWindow(a: Accounting, m: Share, w: Window) returns (read: Read<Label>)
    requires a.Valid() && m in a.config.members && w in a.windows
    modifies a
    ensures a.Valid()
    ensures read.TooMany? <==> ReadsWindow(a.config, m, w) && TooManyRows(a.book, a.config, m, a.windows)
    ensures read.Rows? ==> read.value == LabelOf(a.book, a.config, m, w)
  {
    var member := a.Member(m, w);
    if member.TooMany? {
      return TooMany;
    }
    var state := member.value;
    var shown := Open;
    if state.unlimited {
      shown := NoLimit;
    } else if state.limit <= state.used {
      shown := Spent;
    } else if state.limited {
      shown := AtRisk;
    }
    if a.config.mode.RatioMode? {
      var shared := a.Group(m, w);
      if shared.TooMany? {
        return TooMany;
      }
      if WindowTotal(a.config, w) <= shared.value.used {
        shown := Spent;
      } else if shown.Open? && shared.value.room < Reservation(state.limit) {
        shown := AtRisk;
      }
    }
    return Rows(shown);
  }

  ghost predicate LabelsOf(b: Book, c: Config, m: Share, ws: seq<Window>, labels: seq<Label>) {
    |labels| == |ws| && forall i :: 0 <= i < |ws| ==> labels[i] == LabelOf(b, c, m, ws[i])
  }

  /** The admission label reported for each window of a member. */
  method Labels(a: Accounting, m: Share) returns (read: Read<seq<Label>>)
    requires a.Valid() && m in a.config.members
    modifies a
    ensures read.TooMany? <==> TooManyRows(a.book, a.config, m, a.windows)
    ensures read.Rows? ==> LabelsOf(a.book, a.config, m, a.windows, read.value)
  {
    hide Accounting.Valid, LabelOf, TooManyRows, ReadsWindow;
    var labels := [];
    for i := 0 to |a.windows|
      invariant a.Valid()
      invariant |labels| == i && forall j :: 0 <= j < i ==> labels[j] == LabelOf(a.book, a.config, m, a.windows[j])
      invariant forall w <- a.windows[..i] :: ReadsWindow(a.config, m, w) ==> !TooManyRows(a.book, a.config, m, a.windows)
    {
      assert a.windows[..i + 1] == a.windows[..i] + [a.windows[i]];
      var shown := LabelWindow(a, m, a.windows[i]);
      if shown.TooMany? {
        return TooMany;
      }
      labels := labels + [shown.value];
    }
    assert a.windows[..|a.windows|] == a.windows;
    NoReadNoTrouble(a.book, a.config, m, a.windows);
    return Rows(labels);
  }

  /** The labels a member sees decide the next admission: any spent window refuses it for quota,
  otherwise any window at risk refuses it for risk, otherwise it is admitted. */
  lemma {:induction false} LabelsDecideAdmission(b: Book, c: Config, m: Share, ws: seq<Window>)
    requires !TooManyRows(b, c, m, ws)
    ensures Judge(b, c, m, ws) ==
            if exists w <- ws :: LabelOf(b, c, m, w).Spent? then QuotaSpent
            else if exists w <- ws :: LabelOf(b, c, m, w).AtRisk? then RiskLimited
            else Admitted
  {
    hide Exhausted, TooManyRows, MemberTight, MemberLimit;
    if w :| w in ws && LabelOf(b, c, m, w).Spent? {
      assert Exhausted(b, c, m, w);
    } else {
      forall w <- ws ensures !Exhausted(b, c, m, w) && (Tight(b, c, m, w) <==> LabelOf(b, c, m, w).AtRisk?) {
        assert !LabelOf(b, c, m, w).Spent?;
        if Unlimited(c, MemberLimit(c, m, w)) { UnlimitedIsNeverTight(b, c, m, w); }
      }
    }
  }

  lemma UnlimitedIsNeverTight(b: Book, c: Config, m: Share, w: Window)
    requires Unlimited(c, MemberLimit(c, m, w))
    ensures !Tight(b, c, m, w)
  {
  }
}
