/**
 Folds over tables.  A table is a finite map from key to row; two aggregates are taken
 over one: the XOR of a 64-bit contribution of every row, and the multiset sum of the
 names every row contributes.  Both are proved independent of the order in which the
 rows are visited, and both are related to a change of one single row.
 */
module Folds {

  datatype Option<+T> = None | Some(value: T)

  /** The table `m` after its row at `k` became `o` (None: no row). */
  function Edit<K, R>(m: map<K, R>, k: K, o: Option<R>): map<K, R> {
    if o.Some? then m[k := o.value] else m - {k}
  }

  function At<K, R>(m: map<K, R>, k: K): Option<R> {
    if k in m then Some(m[k]) else None
  }

  // ── XOR ──────────────────────────────────────────────────────────────────────

  /** The digest combiner: 64-bit exclusive or. */
  function Xor(a: bv64, b: bv64): bv64 { a ^ b }

  lemma XorAssoc(a: bv64, b: bv64, c: bv64)
    ensures Xor(Xor(a, b), c) == Xor(a, Xor(b, c))
  {
    calc {
      Xor(Xor(a, b), c);
      Xor(a ^ b, c);
      (a ^ b) ^ c;
      a ^ (b ^ c);
      Xor(a, b ^ c);
      Xor(a, Xor(b, c));
    }
  }

  lemma XorUnits(a: bv64, b: bv64)
    ensures Xor(a, b) == Xor(b, a)
    ensures Xor(a, 0) == a && Xor(0, a) == a && Xor(a, a) == 0
  {
  }

  lemma XorLaws(a: bv64, b: bv64, c: bv64)
    ensures Xor(a, b) == Xor(b, a) && Xor(Xor(a, b), c) == Xor(a, Xor(b, c))
    ensures Xor(a, 0) == a && Xor(0, a) == a && Xor(a, a) == 0
  {
    hide Xor;
    XorAssoc(a, b, c);
    XorUnits(a, b);
  }

  lemma XorSwap(a: bv64, b: bv64, c: bv64)
    ensures Xor(a, Xor(b, c)) == Xor(b, Xor(a, c))
  {
    hide Xor;
    XorLaws(a, b, c);
    XorLaws(b, a, c);
  }

  ghost function XorOver<K, R>(m: map<K, R>, f: (K, R) -> bv64): bv64
    decreases |m|
  {
    if m == map[] then 0
    else
      var k :| k in m;
      Xor(f(k, m[k]), XorOver(m - {k}, f))
  }

  ghost function XorAt<K, R>(k: K, o: Option<R>, f: (K, R) -> bv64): bv64 {
    if o.Some? then f(k, o.value) else 0
  }

  lemma XorReplace(a: bv64, b: bv64, r: bv64)
    ensures Xor(b, r) == Xor(Xor(a, r), Xor(a, b))
  {
    hide Xor;
    XorSwap(Xor(a, r), a, b);
    XorLaws(a, r, b);
    XorLaws(a, a, Xor(r, b));
    XorLaws(Xor(r, b), 0, 0);
    XorLaws(r, b, 0);
  }

  lemma XorPairs(a: bv64, b: bv64, r: bv64, s: bv64)
    ensures Xor(Xor(a, b), Xor(r, s)) == Xor(Xor(a, r), Xor(b, s))
  {
    hide Xor;
    XorLaws(a, b, Xor(r, s));
    XorSwap(b, r, s);
    XorLaws(a, r, Xor(b, s));
  }

  /** Any row may be taken out first: the fold does not depend on the visiting order. */
  lemma {:induction false} XorRemove<K, R>(m: map<K, R>, k: K, f: (K, R) -> bv64)
    requires k in m
    ensures XorOver(m, f) == Xor(f(k, m[k]), XorOver(m - {k}, f))
    decreases |m|
  {
    hide Xor;
    var j :| j in m && XorOver(m, f) == Xor(f(j, m[j]), XorOver(m - {j}, f));
    if j != k {
      XorRemove(m - {j}, k, f);
      XorRemove(m - {k}, j, f);
      assert m - {j} - {k} == m - {k} - {j};
      XorSwap(f(j, m[j]), f(k, m[k]), XorOver(m - {j} - {k}, f));
    }
  }

  /** Changing one row changes the fold by that row's two contributions. */
  lemma XorEdit<K, R>(m: map<K, R>, k: K, o: Option<R>, f: (K, R) -> bv64)
    ensures XorOver(Edit(m, k, o), f) == Xor(XorOver(m, f), Xor(XorAt(k, At(m, k), f), XorAt(k, o, f)))
  {
    hide Xor;
    var base := m - {k};
    var a, b, r := XorAt(k, At(m, k), f), XorAt(k, o, f), XorOver(base, f);
    XorUnits(r, 0);
    assert XorOver(m, f) == Xor(a, r) by {
      if k in m { XorRemove(m, k, f); } else { assert base == m; }
    }
    assert XorOver(Edit(m, k, o), f) == Xor(b, r) by {
      if o.Some? {
        XorRemove(Edit(m, k, o), k, f);
        assert Edit(m, k, o) - {k} == base;
      }
    }
    XorReplace(a, b, r);
  }

  /** If every row's `h` is the XOR of its `f` and its `g`, so are the folds. */
  lemma {:induction false} XorSplit<K, R>(m: map<K, R>, f: (K, R) -> bv64, g: (K, R) -> bv64, h: (K, R) -> bv64)
    requires forall k :: k in m ==> h(k, m[k]) == Xor(f(k, m[k]), g(k, m[k]))
    ensures XorOver(m, h) == Xor(XorOver(m, f), XorOver(m, g))
    decreases |m|
  {
    hide Xor;
    XorUnits(0, 0);
    if m != map[] {
      var k :| k in m;
      XorRemove(m, k, f);
      XorRemove(m, k, g);
      XorRemove(m, k, h);
      XorSplit(m - {k}, f, g, h);
      XorPairs(f(k, m[k]), g(k, m[k]), XorOver(m - {k}, f), XorOver(m - {k}, g));
    }
  }

  /** The fold reads nothing of a table but the keys and the contributions. */
  lemma {:induction false} XorSame<K, R, S>(m: map<K, R>, n: map<K, S>, f: (K, R) -> bv64, g: (K, S) -> bv64)
    requires m.Keys == n.Keys
    requires forall k :: k in m ==> f(k, m[k]) == g(k, n[k])
    ensures XorOver(m, f) == XorOver(n, g)
    decreases |m|
  {
    hide Xor;
    if m != map[] {
      var k :| k in m;
      XorRemove(m, k, f);
      XorRemove(n, k, g);
      assert (m - {k}).Keys == (n - {k}).Keys;
      XorSame(m - {k}, n - {k}, f, g);
    } else {
      assert n == map[];
    }
  }

  lemma {:induction false} XorZero<K, R>(m: map<K, R>, f: (K, R) -> bv64)
    requires forall k :: k in m ==> f(k, m[k]) == 0
    ensures XorOver(m, f) == 0
    decreases |m|
  {
    hide Xor;
    XorUnits(0, 0);
    if m != map[] {
      var k :| k in m;
      XorRemove(m, k, f);
      XorZero(m - {k}, f);
    }
  }

  // ── multiset sum ─────────────────────────────────────────────────────────────

  ghost function SumOver<K, R, N>(m: map<K, R>, f: (K, R) -> multiset<N>): multiset<N>
    decreases |m|
  {
    if m == map[] then multiset{}
    else
      var k :| k in m;
      f(k, m[k]) + SumOver(m - {k}, f)
  }

  ghost function SumAt<K, R, N>(k: K, o: Option<R>, f: (K, R) -> multiset<N>): multiset<N> {
    if o.Some? then f(k, o.value) else multiset{}
  }

  lemma {:induction false} SumRemove<K, R, N>(m: map<K, R>, k: K, f: (K, R) -> multiset<N>)
    requires k in m
    ensures SumOver(m, f) == f(k, m[k]) + SumOver(m - {k}, f)
    decreases |m|
  {
    var j :| j in m && SumOver(m, f) == f(j, m[j]) + SumOver(m - {j}, f);
    if j != k {
      SumRemove(m - {j}, k, f);
      SumRemove(m - {k}, j, f);
      assert m - {j} - {k} == m - {k} - {j};
    }
  }

  lemma SumEdit<K, R, N>(m: map<K, R>, k: K, o: Option<R>, f: (K, R) -> multiset<N>)
    ensures SumOver(Edit(m, k, o), f) + SumAt(k, At(m, k), f) == SumOver(m, f) + SumAt(k, o, f)
  {
    var base := m - {k};
    assert SumOver(m, f) == SumAt(k, At(m, k), f) + SumOver(base, f) by {
      if k in m { SumRemove(m, k, f); } else { assert base == m; }
    }
    assert SumOver(Edit(m, k, o), f) == SumAt(k, o, f) + SumOver(base, f) by {
      if o.Some? {
        SumRemove(Edit(m, k, o), k, f);
        assert Edit(m, k, o) - {k} == base;
      }
    }
  }

  lemma SumShift<N>(a: multiset<N>, b: multiset<N>, rest: multiset<N>, x: multiset<N>, y: multiset<N>)
    requires b + x == a + y
    ensures (b + rest) + x == (a + rest) + y && (rest + b) + x == (rest + a) + y
  {
    assert (b + rest) + x == (b + x) + rest;
    assert (rest + b) + x == (b + x) + rest;
  }

  /** When a name is contributed once by each row of `hits` and by no other row,
      its total is the number of those rows. */
  lemma {:induction false} SumCounts<K, R, N>(m: map<K, R>, f: (K, R) -> multiset<N>, n: N, hits: set<K>)
    requires hits <= m.Keys
    requires forall k :: k in m ==> f(k, m[k])[n] == if k in hits then 1 else 0
    ensures SumOver(m, f)[n] == |hits|
    decreases |m|
  {
    if m != map[] {
      var k :| k in m;
      SumRemove(m, k, f);
      SumCounts(m - {k}, f, n, hits - {k});
    }
  }

  /** A table whose rows contribute the same names sums the same. */
  lemma {:induction false} SumSame<K, R, N>(m: map<K, R>, n: map<K, R>, f: (K, R) -> multiset<N>)
    requires m.Keys == n.Keys
    requires forall k :: k in m ==> f(k, m[k]) == f(k, n[k])
    ensures SumOver(m, f) == SumOver(n, f)
    decreases |m|
  {
    if m != map[] {
      var k :| k in m;
      SumRemove(m, k, f);
      SumRemove(n, k, f);
      assert (m - {k}).Keys == (n - {k}).Keys;
      SumSame(m - {k}, n - {k}, f);
    } else {
      assert n == map[];
    }
  }

  // ── sizes ────────────────────────────────────────────────────────────────────

  lemma SubsetSize<T>(a: set<T>, b: set<T>)
    requires a <= b
    ensures |a| <= |b| && (|a| == |b| ==> a == b)
  {
    assert b == a + (b - a);
  }
}
