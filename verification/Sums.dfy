/** Sums over finite sets, in whatever order a query visits them. */
module Sums {

  ghost function Pick<K(!new)>(s: set<K>): (k: K)
    requires s != {}
    ensures k in s
  {
    var k :| k in s; k
  }

  ghost function Sum<K(!new)>(s: set<K>, f: K -> nat): nat {
    if s == {} then 0 else var k := Pick(s); f(k) + Sum(s - {k}, f)
  }

  lemma {:induction false} SumTake<K(!new)>(s: set<K>, k: K, f: K -> nat)
    requires k in s
    ensures Sum(s, f) == f(k) + Sum(s - {k}, f)
    decreases |s|
  {
    var first := Pick(s);
    if first != k {
      SumTake(s - {first}, k, f);
      SumTake(s - {k}, first, f);
      assert s - {first} - {k} == s - {k} - {first};
    }
  }

  lemma {:induction false} SumSame<K(!new)>(s: set<K>, f: K -> nat, g: K -> nat)
    requires forall k :: k in s ==> f(k) == g(k)
    ensures Sum(s, f) == Sum(s, g)
    decreases |s|
  {
    if s != {} {
      SumSame(s - {Pick(s)}, f, g);
    }
  }

  lemma SumAdd<K(!new)>(s: set<K>, k: K, f: K -> nat)
    requires k !in s
    ensures Sum(s + {k}, f) == Sum(s, f) + f(k)
  {
    SumTake(s + {k}, k, f);
    assert s + {k} - {k} == s;
  }

  /** Two functions that differ at one element have sums that differ by as much. */
  lemma SumChange<K(!new)>(s: set<K>, k: K, f: K -> nat, g: K -> nat)
    requires k in s && forall j :: j in s && j != k ==> f(j) == g(j)
    ensures Sum(s, g) + f(k) == Sum(s, f) + g(k)
  {
    SumTake(s, k, f);
    SumTake(s, k, g);
    SumSame(s - {k}, f, g);
  }

  lemma {:induction false} SumZero<K(!new)>(s: set<K>, f: K -> nat)
    requires forall k :: k in s ==> f(k) == 0
    ensures Sum(s, f) == 0
    decreases |s|
  {
    if s != {} {
      SumZero(s - {Pick(s)}, f);
    }
  }

  lemma {:induction false} SumAtMost<K(!new)>(s: set<K>, f: K -> nat, g: K -> nat)
    requires forall k :: k in s ==> f(k) <= g(k)
    ensures Sum(s, f) <= Sum(s, g)
    decreases |s|
  {
    if s != {} {
      var k := Pick(s);
      SumAtMost(s - {k}, f, g);
    }
  }
}
