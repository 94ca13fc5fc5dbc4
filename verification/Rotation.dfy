/** Rotation among the candidates of a tier: one cursor a tier, equal turns, or turns in proportion to
remaining quota. */
module Rotation {

  // ---- Tickets ----

  function Total(w: seq<nat>): nat {
    if w == [] then 0 else w[0] + Total(w[1..])
  }

  function Before(w: seq<nat>, i: nat): nat
    requires i <= |w|
  {
    Total(w[..i])
  }

  /** The candidate whose share of the tickets holds `ticket`. */
  function Choice(w: seq<nat>, ticket: nat): (i: nat)
    requires ticket < Total(w)
    ensures i < |w|
  {
    if ticket < w[0] then 0 else 1 + Choice(w[1..], ticket - w[0])
  }

  lemma {:induction false} ChoiceIsShare(w: seq<nat>, ticket: nat, i: nat)
    requires ticket < Total(w) && i < |w|
    ensures Choice(w, ticket) == i <==> Before(w, i) <= ticket < Before(w, i) + w[i]
  {
    if i == 0 {
      assert w[..0] == [];
    } else {
      assert w[..i][1..] == w[1..][..i - 1];
      assert Before(w, i) == w[0] + Before(w[1..], i - 1);
      if w[0] <= ticket {
        ChoiceIsShare(w[1..], ticket - w[0], i - 1);
      }
    }
  }

  lemma {:induction false} ShareWithinTotal(w: seq<nat>, i: nat)
    requires i < |w|
    ensures Before(w, i) + w[i] <= Total(w)
  {
    if i == 0 {
      assert w[..0] == [];
    } else {
      ShareWithinTotal(w[1..], i - 1);
      assert w[..i][1..] == w[1..][..i - 1];
    }
  }

  // ---- Arithmetic of the cursor ----

  lemma {:induction false} ModAdds(y: nat, t: nat, times: nat)
    requires 0 < t
    ensures (y + times * t) % t == y % t
  {
    if times > 0 {
      ModAdds(y, t, times - 1);
      ModAddsOne(y + (times - 1) * t, t);
      assert y + times * t == (y + (times - 1) * t) + t;
    }
  }

  lemma ModAddsOne(y: nat, t: nat)
    requires 0 < t
    ensures (y + t) % t == y % t
  {
    var d, m := y / t, y % t;
    assert y + t == (d + 1) * t + m;
    ModIs(y + t, t, d + 1, m);
  }

  lemma ModIs(x: nat, t: nat, d: nat, m: nat)
    requires 0 < t && m < t && x == d * t + m
    ensures x % t == m
  {
    var e, n := x / t, x % t;
    assert x == e * t + n;
    Quotients(d, m, e, n, t);
  }

  lemma Quotients(d: nat, m: nat, e: nat, n: nat, t: nat)
    requires m < t && n < t && d * t + m == e * t + n
    ensures d == e && m == n
  {
    if d < e {
      Multiples(d, e, t);
    } else if e < d {
      Multiples(e, d, t);
    }
  }

  lemma {:induction false} Multiples(d: nat, e: nat, t: nat)
    requires d < e
    ensures d * t + t <= e * t
    decreases e
  {
    if d + 1 < e {
      Multiples(d, e - 1, t);
      assert e * t == (e - 1) * t + t;
    } else {
      assert e * t == d * t + t;
    }
  }

  lemma ModShift(x: nat, j: nat, t: nat)
    requires 0 < t
    ensures (x % t + j) % t == (x + j) % t
  {
    ModAdds(x % t + j, t, x / t);
    assert x == x % t + (x / t) * t;
    assert x + j == (x % t + j) + (x / t) * t;
  }

  // ---- Consecutive choices ----

  /** `n` consecutive choices from a cursor. */
  function Choices(w: seq<nat>, cursor: nat, n: nat): (chosen: seq<nat>)
    requires 0 < Total(w)
    ensures |chosen| == n
    decreases n
  {
    if n == 0 then [] else [Choice(w, cursor % Total(w))] + Choices(w, (cursor + 1) % Total(w), n - 1)
  }

  lemma {:induction false} ChoicesAt(w: seq<nat>, cursor: nat, n: nat, j: nat)
    requires 0 < Total(w) && j < n
    ensures Choices(w, cursor, n)[j] == Choice(w, (cursor + j) % Total(w))
    decreases n
  {
    if j > 0 {
      ChoicesAt(w, (cursor + 1) % Total(w), n - 1, j - 1);
      ModShift(cursor + 1, j - 1, Total(w));
    }
  }

  function Turns(chosen: seq<nat>, i: nat): nat {
    if chosen == [] then 0 else Turns(chosen[..|chosen| - 1], i) + (if chosen[|chosen| - 1] == i then 1 else 0)
  }

  /** How many of the `n` tickets from `from` on fall to candidate `i`. */
  function Hits(w: seq<nat>, from: nat, n: nat, i: nat): nat
    requires 0 < Total(w)
  {
    if n == 0 then 0
    else Hits(w, from, n - 1, i) + (if Choice(w, (from + n - 1) % Total(w)) == i then 1 else 0)
  }

  lemma {:induction false} TurnsAreHits(w: seq<nat>, cursor: nat, n: nat, k: nat, i: nat)
    requires 0 < Total(w) && k <= n
    ensures Turns(Choices(w, cursor, n)[..k], i) == Hits(w, cursor, k, i)
  {
    if k > 0 {
      var chosen := Choices(w, cursor, n);
      TurnsAreHits(w, cursor, n, k - 1, i);
      ChoicesAt(w, cursor, n, k - 1);
      assert chosen[..k][..k - 1] == chosen[..k - 1];
    }
  }

  lemma {:induction false} HitsFromFirst(w: seq<nat>, from: nat, n: nat, i: nat)
    requires 0 < Total(w) && 0 < n
    ensures Hits(w, from, n, i) == (if Choice(w, from % Total(w)) == i then 1 else 0) + Hits(w, from + 1, n - 1, i)
  {
    if n > 1 {
      HitsFromFirst(w, from, n - 1, i);
    }
  }

  /** A full round has the same hits wherever it starts. */
  lemma {:induction false} RoundStartsAnywhere(w: seq<nat>, from: nat, i: nat)
    requires 0 < Total(w)
    ensures Hits(w, from, Total(w), i) == Hits(w, 0, Total(w), i)
  {
    if from > 0 {
      var t := Total(w);
      RoundStartsAnywhere(w, from - 1, i);
      HitsFromFirst(w, from - 1, t, i);
      ModAddsOne(from - 1, t);
      assert from + t - 1 == (from - 1) + t;
    }
  }

  lemma {:induction false} HitsOfFirstRound(w: seq<nat>, n: nat, i: nat)
    requires 0 < Total(w) && n <= Total(w) && i < |w|
    ensures Hits(w, 0, n, i) == if n <= Before(w, i) then 0 else if Before(w, i) + w[i] <= n then w[i] else n - Before(w, i)
  {
    if n > 0 {
      HitsOfFirstRound(w, n - 1, i);
      ModIs(n - 1, Total(w), 0, n - 1);
      ChoiceIsShare(w, n - 1, i);
    }
  }

  /** Any `Total(w)` consecutive choices, from any cursor, choose each candidate exactly as often as
  its weight. */
  lemma WeightedRotationIsFair(w: seq<nat>, cursor: nat, i: nat)
    requires 0 < Total(w) && i < |w|
    ensures Turns(Choices(w, cursor, Total(w)), i) == w[i]
  {
    var t := Total(w);
    var chosen := Choices(w, cursor, t);
    assert chosen[..t] == chosen;
    TurnsAreHits(w, cursor, t, t, i);
    RoundStartsAnywhere(w, cursor, i);
    HitsOfFirstRound(w, t, i);
    ShareWithinTotal(w, i);
  }

  // ---- Equal turns ----

  function Ones(n: nat): (w: seq<nat>)
    ensures |w| == n && forall i :: 0 <= i < n ==> w[i] == 1
  {
    seq(n, _ => 1)
  }

  lemma {:induction false} OnesTotal(n: nat)
    ensures Total(Ones(n)) == n
  {
    if n > 0 {
      OnesTotal(n - 1);
      assert Ones(n)[1..] == Ones(n - 1);
    }
  }

  lemma {:induction false} OnesChoice(n: nat, ticket: nat)
    requires ticket < n
    ensures Total(Ones(n)) == n && Choice(Ones(n), ticket) == ticket
  {
    OnesTotal(n);
    if ticket > 0 {
      OnesChoice(n - 1, ticket - 1);
      assert Ones(n)[1..] == Ones(n - 1);
    }
  }

  /** Any `n` consecutive plain choices choose each of `n` candidates once, from any cursor. */
  lemma PlainRotationIsFair(n: nat, cursor: nat, i: nat)
    requires i < n
    ensures Total(Ones(n)) == n && Turns(Choices(Ones(n), cursor, n), i) == 1
  {
    OnesTotal(n);
    WeightedRotationIsFair(Ones(n), cursor, i);
  }

  // ---- The cursors ----

  /** A candidate's provider and the weight of its remaining quota; zero means it is not known. */
  datatype Candidate = Candidate(id: string, provider: string, weight: nat)

  predicate Comparable(candidates: seq<Candidate>) {
    forall i :: 0 <= i < |candidates| ==> candidates[i].provider == candidates[0].provider && 0 < candidates[i].weight
  }

  function WeightsOf(candidates: seq<Candidate>): (w: seq<nat>)
    ensures |w| == |candidates| && forall i :: 0 <= i < |w| ==> w[i] == candidates[i].weight
  {
    seq(|candidates|, i requires 0 <= i < |candidates| => candidates[i].weight)
  }

  /** The weights of a tier: those of quota when they are wanted and comparable, or equal ones. */
  function Weights(candidates: seq<Candidate>, weighted: bool): (w: seq<nat>)
    ensures |w| == |candidates|
  {
    if weighted && 1 < |candidates| && Comparable(candidates) then WeightsOf(candidates) else Ones(|candidates|)
  }

  lemma {:induction false} WeightsArePositive(w: seq<nat>)
    requires w != [] && forall i :: 0 <= i < |w| ==> 0 < w[i]
    ensures |w| <= Total(w)
  {
    if |w| > 1 {
      WeightsArePositive(w[1..]);
    }
  }

  lemma SomeTickets(candidates: seq<Candidate>, weighted: bool)
    requires candidates != []
    ensures 0 < Total(Weights(candidates, weighted))
  {
    WeightsArePositive(Weights(candidates, weighted));
  }

  class Rotations {
    var next: map<string, nat>

    function Cursor(key: string): nat
      reads this
    {
      if key in next then next[key] else 0
    }

    /** Sums the weights; a candidate of another provider or of unknown quota spoils them all. */
    method Weigh(candidates: seq<Candidate>) returns (weights: seq<nat>, total: nat)
      requires candidates != []
      ensures if Comparable(candidates) then weights == WeightsOf(candidates) && total == Total(weights) && 0 < total else total == 0
    {
      weights, total := [], 0;
      for i := 0 to |candidates|
        invariant weights == WeightsOf(candidates)[..i] && total == Total(weights)
        invariant forall j :: 0 <= j < i ==> candidates[j].provider == candidates[0].provider && 0 < candidates[j].weight
      {
        if candidates[i].provider != candidates[0].provider || candidates[i].weight == 0 {
          return weights, 0;
        }
        TotalAppends(weights, candidates[i].weight);
        weights := weights + [candidates[i].weight];
        total := total + candidates[i].weight;
      }
      WeightsArePositive(weights);
    }

    /** The tier's next candidate; its cursor moves on by one ticket. */
    method Pick(key: string, candidates: seq<Candidate>, weighted: bool) returns (id: string)
      requires candidates != []
      modifies this
      ensures var (w, cursor) := (Weights(candidates, weighted), if key in old(next) then old(next)[key] else 0);
        && 0 < Total(w)
        && id == candidates[Choice(w, cursor % Total(w))].id
        && next == old(next)[key := (cursor + 1) % Total(w)]
    {
      SomeTickets(candidates, weighted);
      var n := |candidates|;
      var cursor := Cursor(key);
      var chosen := cursor % n;
      var period := n;
      OnesTotal(n);
      OnesChoice(n, cursor % n);
      if weighted && 1 < n {
        var weights, total := Weigh(candidates);
        if 0 < total {
          period := total;
          var ticket := cursor % total;
          chosen := Take(weights, ticket);
        }
      }
      id := candidates[chosen].id;
      next := next[key := (cursor + 1) % period];
    }

    method Take(weights: seq<nat>, ticket: nat) returns (i: nat)
      requires ticket < Total(weights)
      ensures i == Choice(weights, ticket)
    {
      i := 0;
      var left: nat := ticket;
      assert weights[0..] == weights;
      while weights[i] <= left
        invariant i < |weights| && left < Total(weights[i..])
        invariant Choice(weights, ticket) == i + Choice(weights[i..], left)
        decreases |weights| - i
      {
        assert weights[i..][1..] == weights[i + 1..];
        left := left - weights[i];
        i := i + 1;
        assert weights[i..] != [];
      }
    }
  }

  lemma {:induction false} TotalAppends(w: seq<nat>, x: nat)
    ensures Total(w + [x]) == Total(w) + x
  {
    if w == [] {
      assert [x][1..] == [];
    } else {
      TotalAppends(w[1..], x);
      assert (w + [x])[1..] == w[1..] + [x];
    }
  }
}
