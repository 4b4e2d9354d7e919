/** Finite maps of counts: status codes and latency buckets with their totals. */
module CountMaps {

  type Counts = map<int, nat>

  /** A member of a non-empty set. */
  ghost function Member<K(!new)>(s: set<K>): (k: K)
    requires s != {}
    ensures k in s
  {
    var k :| k in s;
    k
  }

  function At(m: Counts, k: int): nat {
    if k in m then m[k] else 0
  }

  /** Maps with the same keys and the same values are equal. */
  lemma SameMap(a: Counts, b: Counts)
    requires a.Keys == b.Keys
    requires forall k :: k in a ==> a[k] == b[k]
    ensures a == b
  {
    assert forall k :: k in a.Keys ==> k in b.Keys && a[k] == b[k];
  }

  /** The sum of all counts. */
  ghost function Total(m: Counts): nat
    decreases |m|
  {
    if m.Keys == {} then 0 else
      var k := Member(m.Keys);
      m[k] + Total(m - {k})
  }

  /** Any key may be split off first. */
  lemma {:induction false} TotalSplit(m: Counts, k: int)
    requires k in m
    ensures Total(m) == m[k] + Total(m - {k})
    decreases |m|
  {
    var j := Member(m.Keys);
    if j != k {
      TotalSplit(m - {j}, k);
      TotalSplit(m - {k}, j);
      SameMap(m - {j} - {k}, m - {k} - {j});
    }
  }

  /** Writing one key moves the total by the change at that key. */
  lemma TotalUpdate(m: Counts, k: int, v: nat)
    ensures Total(m[k := v]) == Total(m) - At(m, k) + v
  {
    TotalSplit(m[k := v], k);
    SameMap(m[k := v] - {k}, m - {k});
    if k in m {
      TotalSplit(m, k);
    } else {
      SameMap(m - {k}, m);
    }
  }

  /** Count-wise addition. */
  function Plus(a: Counts, b: Counts): Counts {
    map k | k in a.Keys + b.Keys :: At(a, k) + At(b, k)
  }

  lemma PlusCommutes(a: Counts, b: Counts)
    ensures Plus(a, b) == Plus(b, a)
  {
    SameMap(Plus(a, b), Plus(b, a));
  }

  lemma PlusAssociates(a: Counts, b: Counts, c: Counts)
    ensures Plus(Plus(a, b), c) == Plus(a, Plus(b, c))
  {
    var l, r := Plus(Plus(a, b), c), Plus(a, Plus(b, c));
    assert l.Keys == r.Keys;
    forall k | k in l ensures l[k] == r[k] {
      assert l[k] == At(Plus(a, b), k) + At(c, k);
      assert r[k] == At(a, k) + At(Plus(b, c), k);
    }
    SameMap(l, r);
  }

  lemma PlusNothing(a: Counts)
    ensures Plus(map[], a) == a == Plus(a, map[])
  {
    SameMap(Plus(map[], a), a);
    SameMap(Plus(a, map[]), a);
  }

  lemma PlusPeel(a: Counts, b: Counts, k: int)
    requires k in b
    ensures Plus(a, b) == Plus(a, b - {k})[k := At(a, k) + b[k]]
    ensures At(Plus(a, b - {k}), k) == At(a, k)
  {
    SameMap(Plus(a, b), Plus(a, b - {k})[k := At(a, k) + b[k]]);
  }

  lemma TotalOfNothing()
    ensures Total(map[]) == 0
  {
  }

  lemma {:induction false} TotalPlus(a: Counts, b: Counts)
    ensures Total(Plus(a, b)) == Total(a) + Total(b)
    decreases |b|
  {
    hide Plus, Total, At;
    if b.Keys == {} {
      assert b == map[];
      PlusNothing(a);
      TotalOfNothing();
    } else {
      var k := Member(b.Keys);
      TotalPlus(a, b - {k});
      TotalSplit(b, k);
      PlusPeel(a, b, k);
      TotalUpdate(Plus(a, b - {k}), k, At(a, k) + b[k]);
    }
  }

  /** Adds up the counts one key at a time. */
  method Tally(m: Counts) returns (total: nat)
    ensures total == Total(m)
  {
    total := 0;
    var rest := m;
    while rest.Keys != {}
      invariant total + Total(rest) == Total(m)
      decreases |rest|
    {
      ghost var some := Member(rest.Keys);
      var k :| k in rest.Keys;
      TotalSplit(rest, k);
      total := total + rest[k];
      rest := rest - {k};
    }
  }
}
