/** How many elements sets have, for counting the pages of a table. */
module Sets {
  /** How many elements of a are not in k. */
  ghost function Lack<T>(a: set<T>, k: set<T>): nat { |a - k| }

  /** A one-to-one map has as many values as keys. */
  lemma {:induction false} MapSizes<K, V>(m: map<K, V>)
    requires forall k, l :: k in m && l in m && m[k] == m[l] ==> k == l
    ensures |m.Values| == |m|
    decreases |m|
  {
    if m.Keys == {} {
      assert m.Values == {};
    } else {
      var k :| k in m;
      var rest := m - {k};
      MapSizes(rest);
      assert rest.Keys == m.Keys - {k};
      assert m.Values == rest.Values + {m[k]} && m[k] !in rest.Values by {
        assert forall l :: l in m && l != k ==> l in rest && rest[l] == m[l];
      }
    }
  }

  lemma SetSizes<T>(a: set<T>, b: set<T>)
    ensures |a + b| == |a| + |b - a|
  {
    assert a + b == a + (b - a);
  }

  lemma {:induction false} SubsetSize<T>(a: set<T>, b: set<T>)
    requires a <= b
    ensures |a| <= |b|
  {
    assert b == a + (b - a);
  }

  lemma LackNone<T>(k: set<T>)
    ensures Lack({}, k) == 0
  {
    assert {} - k == {};
  }

  lemma {:induction false} LessSizes<T>(a: set<T>, k: set<T>, x: set<T>, l: set<T>)
    requires l == k + a
    ensures Lack(a + x, k) == Lack(a, k) + Lack(x, l) && Lack(x, l) <= |x|
  {
    assert (a + x) - k == (a - k) + (x - l);
    SubsetSize(x - l, x);
  }
}
