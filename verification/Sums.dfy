/** Sums over the flows of a table, by id. */
module Sums {

  /** The sum over ids 1 to n. */
  function SumTo(m: map<nat, int>, n: nat): int {
    if n == 0 then 0 else SumTo(m, n - 1) + if n in m then m[n] else 0
  }

  lemma {:induction false} SumUpdate(m: map<nat, int>, m': map<nat, int>, id: nat, n: nat)
    requires 0 < id
    requires forall i :: i != id ==> (i in m <==> i in m') && (i in m ==> m[i] == m'[i])
    ensures SumTo(m', n) == SumTo(m, n)
              + if id <= n then (if id in m' then m'[id] else 0) - (if id in m then m[id] else 0) else 0
  {
    if n > 0 {
      SumUpdate(m, m', id, n - 1);
    }
  }

  lemma {:induction false} SumBelow(m: map<nat, int>, m': map<nat, int>, n: nat)
    requires forall i :: i in m ==> i in m' && m[i] <= m'[i]
    requires forall i :: i in m' ==> 0 <= m'[i]
    ensures SumTo(m, n) <= SumTo(m', n)
  {
    if n > 0 {
      SumBelow(m, m', n - 1);
    }
  }

  lemma SumStep(m: map<nat, int>, n: nat)
    requires n > 0
    ensures SumTo(m, n) == SumTo(m, n - 1) + if n in m then m[n] else 0
  {
  }

  /** Ids beyond the last one in the table add nothing. */
  lemma {:induction false} SumExtend(m: map<nat, int>, n: nat, last: nat)
    requires n <= last && forall id :: id in m ==> id <= n
    ensures SumTo(m, last) == SumTo(m, n)
  {
    if n < last {
      SumExtend(m, n, last - 1);
    }
  }

  lemma {:induction false} SumNothing(n: nat)
    ensures SumTo(map[], n) == 0
  {
    if n > 0 {
      SumNothing(n - 1);
    }
  }
}
