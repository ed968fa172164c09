/** Shared vocabulary: Option, ascending sequences, and sums over finite maps. */
module Common {

  datatype Option<+T> = None | Some(value: T)

  function Max(a: int, b: int): int { if a < b then b else a }

  function Min(a: int, b: int): int { if a < b then a else b }

  /** Strictly increasing: the form every candidate list takes (sorted, no duplicates). */
  ghost predicate Ascending(s: seq<int>) {
    forall i, j :: 0 <= i < j < |s| ==> s[i] < s[j]
  }

  ghost function Pick<K>(m: map<K, real>): (k: K)
    requires m != map[]
    ensures k in m
  {
    var k :| k in m; k
  }

  /** The sum of a map's values. */
  ghost function Sum<K>(m: map<K, real>): real {
    if m == map[] then 0.0 else m[Pick(m)] + Sum(m - {Pick(m)})
  }

  /** A hash field read as a number: absent counts as zero. */
  function Get<K>(m: map<K, real>, k: K): real {
    if k in m then m[k] else 0.0
  }

  lemma {:induction false} SumRemove<K>(m: map<K, real>, k: K)
    requires k in m
    ensures Sum(m) == m[k] + Sum(m - {k})
    decreases |m|
  {
    var c := Pick(m);
    if c != k {
      assert |m - {c}| < |m| && |m - {k}| < |m| by {
        assert (m - {c}).Keys == m.Keys - {c} && (m - {k}).Keys == m.Keys - {k};
      }
      SumRemove(m - {c}, k);
      SumRemove(m - {k}, c);
      assert m - {c} - {k} == m - {k} - {c};
    }
  }

  lemma SumUpdate<K>(m: map<K, real>, k: K, v: real)
    ensures Sum(m[k := v]) == Sum(m) - Get(m, k) + v
  {
    SumRemove(m[k := v], k);
    assert m[k := v] - {k} == m - {k};
    if k in m {
      SumRemove(m, k);
    } else {
      assert m - {k} == m;
    }
  }

  lemma SumDelete<K>(m: map<K, real>, k: K)
    ensures Sum(m - {k}) == Sum(m) - Get(m, k)
  {
    if k in m {
      SumRemove(m, k);
    } else {
      assert m - {k} == m;
    }
  }

  lemma {:induction false} SumNonNegative<K>(m: map<K, real>)
    requires forall k :: k in m ==> m[k] >= 0.0
    ensures Sum(m) >= 0.0
    decreases |m|
  {
    if m != map[] {
      var c := Pick(m);
      assert |m - {c}| < |m| by { assert (m - {c}).Keys == m.Keys - {c}; }
      SumNonNegative(m - {c});
    }
  }

  lemma {:induction false} SumAdd<K>(a: map<K, real>, b: map<K, real>, c: map<K, real>)
    requires a.Keys == b.Keys == c.Keys
    requires forall k :: k in a ==> a[k] == b[k] + c[k]
    ensures Sum(a) == Sum(b) + Sum(c)
    decreases |a|
  {
    if a == map[] {
      assert b == map[] && c == map[];
    } else {
      var k := Pick(a);
      assert k in b.Keys && k in c.Keys;
      SumRemove(b, k);
      SumRemove(c, k);
      assert (a - {k}).Keys == a.Keys - {k};
      SumAdd(a - {k}, b - {k}, c - {k});
    }
  }

  /** Scaling every value scales the sum. */
  lemma {:induction false} SumScale<K>(m: map<K, real>, scaled: map<K, real>, t: real)
    requires scaled.Keys == m.Keys
    requires forall k :: k in m ==> Scales(t, m[k], scaled[k])
    ensures Scales(t, Sum(m), Sum(scaled))
    decreases |m|
  {
    if m == map[] {
      assert scaled == map[];
    } else {
      var k := Pick(m);
      var m', scaled' := m - {k}, scaled - {k};
      assert m'.Keys == m.Keys - {k};
      forall x | x in m'
        ensures Scales(t, m'[x], scaled'[x])
      {
        assert m'[x] == m[x] && scaled'[x] == scaled[x];
      }
      SumScale(m', scaled', t);
      assert k in scaled.Keys;
      SumRemove(scaled, k);
      ScalesAdd(t, m[k], scaled[k], Sum(m'), Sum(scaled'));
    }
  }

  ghost predicate Scales(t: real, x: real, y: real) {
    y == t * x
  }

  lemma ScalesAdd(t: real, x: real, tx: real, y: real, ty: real)
    requires Scales(t, x, tx) && Scales(t, y, ty)
    ensures Scales(t, x + y, tx + ty)
  {
  }

  lemma {:induction false} SumZero<K>(m: map<K, real>)
    requires forall k :: k in m ==> m[k] == 0.0
    ensures Sum(m) == 0.0
  {
    SumAdd(m, m, m);
  }

  /** A number that is not in the set. */
  lemma {:induction false} Unused(s: set<nat>) returns (b: nat)
    ensures forall x :: x in s ==> x < b
  {
    if s == {} {
      b := 0;
    } else {
      var x :| x in s;
      var rest := Unused(s - {x});
      b := if rest > x then rest else x + 1;
      assert forall y :: y in s ==> y == x || y in s - {x};
    }
  }
}
