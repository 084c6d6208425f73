/** What several modules share: optional values, and the integers JavaScript represents exactly. */
module Common {

  datatype Option<T> = None | Some(value: T)

  const MAX_SAFE_INTEGER := 9007199254740991

  /** A non-negative safe integer. */
  predicate IsCount(n: int) { 0 <= n <= MAX_SAFE_INTEGER }

  function Max(a: int, b: int): int { if a >= b then a else b }

  function Min(a: nat, b: nat): nat { if a <= b then a else b }

  lemma SomeInt(s: set<int>)
    requires s != {}
    ensures exists d :: d in s
  {
    if forall d :: d !in s {
      assert false;
    }
  }
}
