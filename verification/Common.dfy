/** Small definitions the other modules share. */
module Common {

  datatype Option<T> = None | Some(value: T)

  /** The fate of a write: stored, stored although it reported a failure, or lost. */
  datatype Saved = Stored | Landed | Lost

  function Max(a: int, b: int): int { if a < b then b else a }

  function Min(a: int, b: int): int { if a < b then a else b }

  function Doubled(n: int, times: int): int
    decreases times
  {
    if times <= 0 then n else Doubled(2 * n, times - 1)
  }

  lemma SomeMember<T>(items: set<T>)
    requires items != {}
    ensures exists x :: x in items
  {
    assert (forall x :: x !in items) ==> items == {};
  }

  lemma SubsetFits<T>(a: set<T>, b: set<T>)
    requires a <= b
    ensures |a| <= |b|
  {
    assert b == a + (b - a);
  }
}
