/** Counts by key, as the replay summary and the error policy keep them. */
module Counting {
  import opened Types

  ghost function Total<K>(counts: map<K, U64>): nat {
    if counts == map[] then 0
    else
      var k :| k in counts;
      counts[k] + Total(counts - {k})
  }

  lemma {:induction false} TotalRemove<K>(counts: map<K, U64>, k: K)
    requires k in counts
    ensures Total(counts) == counts[k] + Total(counts - {k})
    decreases |counts|
  {
    var c :| c in counts && Total(counts) == counts[c] + Total(counts - {c});
    if c != k {
      TotalRemove(counts - {c}, k);
      TotalRemove(counts - {k}, c);
      assert counts - {c} - {k} == counts - {k} - {c};
    }
  }

  function Count<K(==)>(counts: map<K, U64>, k: K): U64 {
    if k in counts then counts[k] else 0
  }

  function Bump<K(==)>(counts: map<K, U64>, k: K): map<K, U64>
    requires Count(counts, k) < U64_MAX
  {
    counts[k := Count(counts, k) + 1]
  }

  lemma TotalBump<K>(counts: map<K, U64>, k: K)
    requires Count(counts, k) < U64_MAX
    ensures Total(Bump(counts, k)) == Total(counts) + 1
  {
    var bumped := Bump(counts, k);
    TotalRemove(bumped, k);
    if k in counts {
      TotalRemove(counts, k);
      assert bumped - {k} == counts - {k};
    } else {
      assert bumped - {k} == counts;
    }
  }

  /** count_total: the sum of all counts, or nothing when it does not fit. */
  method CountTotal<K(==)>(counts: map<K, U64>) returns (total: Option<U64>)
    ensures total == if Total(counts) <= U64_MAX then Some(Total(counts)) else None
  {
    var sum: U64 := 0;
    var rest := counts;
    while rest != map[]
      invariant sum + Total(rest) == Total(counts)
      decreases |rest|
    {
      var k :| k in rest;
      TotalRemove(rest, k);
      var next := CheckedAdd(sum, rest[k]);
      if next.None? {
        return None;
      }
      sum := next.value;
      rest := rest - {k};
    }
    total := Some(sum);
  }
}
