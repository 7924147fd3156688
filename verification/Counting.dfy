/** Counters: sums over finite maps of them, and how often something holds along a sequence. */
module Counting {

  ghost function Sum<K>(counts: map<K, int>): int
    decreases |counts|
  {
    if counts == map[] then 0
    else
      var k :| k in counts;
      counts[k] + Sum(counts - {k})
  }

  /** The sum does not depend on which key is taken first. */
  lemma {:induction false} SumSplit<K>(counts: map<K, int>, k: K)
    requires k in counts
    ensures Sum(counts) == counts[k] + Sum(counts - {k})
    decreases |counts|
  {
    var first :| first in counts && Sum(counts) == counts[first] + Sum(counts - {first});
    if first != k {
      SumSplit(counts - {first}, k);
      SumSplit(counts - {k}, first);
      assert counts - {first} - {k} == counts - {k} - {first};
    }
  }

  lemma SumUpdate<K>(counts: map<K, int>, k: K, v: int)
    ensures Sum(counts[k := v]) == Sum(counts) - (if k in counts then counts[k] else 0) + v
  {
    SumSplit(counts[k := v], k);
    if k in counts {
      SumSplit(counts, k);
      assert counts[k := v] - {k} == counts - {k};
    } else {
      assert counts[k := v] - {k} == counts;
    }
  }

  function Count<K>(counts: map<K, int>, k: K): int {
    if k in counts then counts[k] else 0
  }

  function Bump<K>(counts: map<K, int>, k: K): map<K, int> {
    counts[k := Count(counts, k) + 1]
  }

  /** How many members of `s` satisfy `p`. */
  function Tally<T>(s: seq<T>, p: T -> bool): nat {
    if s == [] then 0 else Tally(s[..|s| - 1], p) + if p(s[|s| - 1]) then 1 else 0
  }

  lemma TallySnoc<T>(s: seq<T>, last: T, p: T -> bool)
    ensures Tally(s + [last], p) == Tally(s, p) + if p(last) then 1 else 0
  {
  }

  lemma RemoveSize<K, V>(m: map<K, V>, gone: set<K>)
    requires gone <= m.Keys
    ensures |m - gone| == |m| - |gone|
  {
  }

  lemma DropSize<K, V>(m: map<K, V>, k: K)
    ensures |m - {k}| == if k in m then |m| - 1 else |m|
  {
  }
}
