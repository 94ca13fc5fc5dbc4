/** Sums of a weight over a sequence of rows. */
module Sums {

  function Sum<T>(rows: seq<T>, weight: T -> int): int {
    if rows == [] then 0 else weight(rows[0]) + Sum(rows[1..], weight)
  }

  lemma {:induction false} SumAppend<T>(a: seq<T>, b: seq<T>, weight: T -> int)
    ensures Sum(a + b, weight) == Sum(a, weight) + Sum(b, weight)
  {
    if a == [] {
      assert a + b == b;
    } else {
      assert (a + b)[1..] == a[1..] + b;
      SumAppend(a[1..], b, weight);
    }
  }

  lemma {:induction false} SumUpdate<T>(rows: seq<T>, i: nat, row: T, weight: T -> int)
    requires i < |rows|
    ensures Sum(rows[i := row], weight) == Sum(rows, weight) - weight(rows[i]) + weight(row)
  {
    if i == 0 {
      assert rows[i := row][1..] == rows[1..];
    } else {
      assert rows[i := row][1..] == rows[1..][i - 1 := row];
      SumUpdate(rows[1..], i - 1, row, weight);
    }
  }

  lemma {:induction false} SumMonotone<T>(rows: seq<T>, small: T -> int, large: T -> int)
    requires forall r <- rows :: small(r) <= large(r)
    ensures Sum(rows, small) <= Sum(rows, large)
  {
    if rows != [] {
      SumMonotone(rows[1..], small, large);
    }
  }

  lemma {:induction false} SumEqual<T>(rows: seq<T>, a: T -> int, b: T -> int)
    requires forall r <- rows :: a(r) == b(r)
    ensures Sum(rows, a) == Sum(rows, b)
  {
    SumMonotone(rows, a, b);
    SumMonotone(rows, b, a);
  }

  lemma {:induction false} SumSplit<T>(rows: seq<T>, whole: T -> int, a: T -> int, b: T -> int)
    requires forall r <- rows :: whole(r) == a(r) + b(r)
    ensures Sum(rows, whole) == Sum(rows, a) + Sum(rows, b)
  {
    if rows != [] {
      SumSplit(rows[1..], whole, a, b);
    }
  }

  function Filter<T>(rows: seq<T>, keep: T -> bool): (kept: seq<T>)
    ensures forall r <- kept :: r in rows && keep(r)
  {
    if rows == [] then []
    else (if keep(rows[0]) then [rows[0]] else []) + Filter(rows[1..], keep)
  }

  lemma {:induction false} FilterKeeps<T>(rows: seq<T>, keep: T -> bool, row: T)
    requires row in rows && keep(row)
    ensures row in Filter(rows, keep)
  {
    if rows[0] != row {
      FilterKeeps(rows[1..], keep, row);
    }
  }

  /** Dropping rows that weigh nothing does not change a sum. */
  lemma {:induction false} SumFilter<T>(rows: seq<T>, keep: T -> bool, weight: T -> int)
    requires forall r <- rows :: keep(r) || weight(r) == 0
    ensures Sum(Filter(rows, keep), weight) == Sum(rows, weight)
  {
    if rows != [] {
      var head := if keep(rows[0]) then [rows[0]] else [];
      SumAppend(head, Filter(rows[1..], keep), weight);
      SumFilter(rows[1..], keep, weight);
    }
  }

  /** One row's weight, and that of the others. */
  lemma {:induction false} SumWithout<T>(rows: seq<T>, i: nat, others: T -> bool, weight: T -> int)
    requires i < |rows| && !others(rows[i]) && forall j :: 0 <= j < |rows| && j != i ==> others(rows[j])
    ensures Sum(rows, weight) == weight(rows[i]) + Sum(Filter(rows, others), weight)
  {
    var head := if others(rows[0]) then [rows[0]] else [];
    SumAppend(head, Filter(rows[1..], others), weight);
    if i == 0 {
      KeepsAll(rows[1..], others);
    } else {
      SumWithout(rows[1..], i - 1, others, weight);
    }
  }

  lemma {:induction false} KeepsAll<T>(rows: seq<T>, keep: T -> bool)
    requires forall r <- rows :: keep(r)
    ensures Filter(rows, keep) == rows
  {
    if rows != [] {
      KeepsAll(rows[1..], keep);
    }
  }

  /** Dropping rows can only lower a sum of non-negative weights. */
  lemma {:induction false} SumFilterLowers<T>(rows: seq<T>, keep: T -> bool, weight: T -> int)
    requires forall r <- rows :: 0 <= weight(r)
    ensures Sum(Filter(rows, keep), weight) <= Sum(rows, weight)
  {
    if rows != [] {
      var head := if keep(rows[0]) then [rows[0]] else [];
      SumAppend(head, Filter(rows[1..], keep), weight);
      SumFilterLowers(rows[1..], keep, weight);
    }
  }

  lemma {:induction false} SumNotNegative<T>(rows: seq<T>, weight: T -> int)
    requires forall r <- rows :: 0 <= weight(r)
    ensures 0 <= Sum(rows, weight)
  {
    if rows != [] {
      SumNotNegative(rows[1..], weight);
    }
  }

  /** Rows that each weigh no more than their counterpart. */
  lemma {:induction false} SumPointwise<T>(small: seq<T>, large: seq<T>, weight: T -> int)
    requires |small| == |large|
    requires forall i :: 0 <= i < |small| ==> weight(small[i]) <= weight(large[i])
    ensures Sum(small, weight) <= Sum(large, weight)
  {
    if small != [] {
      SumPointwise(small[1..], large[1..], weight);
    }
  }
}
