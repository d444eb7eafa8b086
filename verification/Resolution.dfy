/**
 How many leaves the tree has, and how trees of different resolutions relate.

 The leaf count is the power of two nearest the square root of the corpus; it is proved to
 minimise the cost of a reconcile round over every power of two.  Because a leaf is a hash
 modulo the leaf count, a finer tree folds onto any coarser one it is a multiple of.
 */
module Resolution {
  import opened Folds
  import opened Tables
  import opened Invariants
  import opened Lattice
  import opened Maintenance

  // ── the natural resolution ───────────────────────────────────────────────────

  function Pow2(k: nat): (r: nat)
    ensures r >= 1
  {
    if k == 0 then 1 else 2 * Pow2(k - 1)
  }

  lemma PowDoubles(k: nat)
    ensures Pow2(0) == 1 && Pow2(k + 1) == Pow2(k) + Pow2(k)
  {
  }

  lemma {:induction false} PowAdd(j: nat, k: nat)
    ensures Pow2(j + k) == Pow2(j) * Pow2(k)
  {
    if j > 0 { PowAdd(j - 1, k); }
  }

  lemma {:induction false} PowMonotone(j: nat, k: nat)
    requires j <= k
    ensures Pow2(j) <= Pow2(k)
    decreases k - j
  {
    if j < k { PowMonotone(j + 1, k); }
  }

  /** The whole part of log2(n). */
  function Log2(n: nat): (e: nat)
    requires n >= 1
    ensures Pow2(e) <= n < Pow2(e + 1)
  {
    if n == 1 then 0 else 1 + Log2(n / 2)
  }

  /** round(log2(n) / 2) with exact arithmetic: the half is decided upward above the tie, and to
      the even neighbour at the tie, which only an odd power of two reaches. */
  function RoundedHalfLog(n: nat): nat
    requires n >= 1
  {
    var e := Log2(n);
    var k := e / 2;
    if e % 2 == 0 then k
    else if n > Pow2(e) then k + 1
    else if k % 2 == 0 then k else k + 1
  }

  function NaturalLeaves(n: int): nat { Pow2(RoundedHalfLog(if n < 1 then 1 else n)) }

  /** A power of two has itself as its whole part. */
  lemma Between(n: nat, e: nat, j: nat)
    requires Pow2(e) <= n < Pow2(e + 1)
    ensures n == Pow2(j) ==> j == e
  {
    if j < e { PowMonotone(j + 1, e); }
    if j > e { PowMonotone(e + 1, j); }
  }

  /** The rounded exponent is the nearest one: the corpus lies between the two odd powers around it,
      and at a tie, where it is one of them, the exponent is the even one. */
  lemma RoundedBrackets(n: nat)
    requires n >= 1
    ensures var k := RoundedHalfLog(n);
            n <= Pow2(2 * k + 1) && (k > 0 ==> Pow2(2 * k - 1) <= n) &&
            (n == Pow2(2 * k + 1) || (k > 0 && n == Pow2(2 * k - 1)) ==> k % 2 == 0)
  {
    var e := Log2(n);
    var k := RoundedHalfLog(n);
    Between(n, e, 2 * k + 1);
    if k > 0 { Between(n, e, 2 * k - 1); }
    if e % 2 == 0 {
      assert e == 2 * k;
      if k > 0 { PowMonotone(2 * k - 1, 2 * k); }
    } else if k == e / 2 {
      assert n == Pow2(e) && e == 2 * k + 1;
      if k > 0 { PowMonotone(2 * k - 1, e); }
    } else {
      assert e == 2 * k - 1;
      PowMonotone(e + 1, 2 * k + 1);
    }
  }

  /** One round costs `L` to publish the tree and `n / L` to pull one leaf. */
  function RoundCost(n: nat, leaves: nat): real
    requires leaves > 0
  {
    leaves as real + n as real / leaves as real
  }

  lemma CrossMultiplied(x: real, y: real, q: real, p: real, c: real)
    requires q * x == c && p * y == c
    ensures (y + p - x - q) * (x * y) == (y - x) * (x * y - c)
  {
    var t := x * y;
    assert p * t == c * x by { assert p * t == (p * y) * x; }
    assert q * t == c * y by { assert q * t == (q * x) * y; }
    assert (y + p - x - q) * t == y * t + p * t - x * t - q * t;
    assert (y - x) * (t - c) == y * t - y * c - x * t + x * c;
  }

  lemma SameSigns(a: real, b: real)
    requires (a >= 0.0 && b >= 0.0) || (a <= 0.0 && b <= 0.0)
    ensures a * b >= 0.0
  {
  }

  lemma PositiveFactor(g: real, t: real)
    requires t > 0.0 && g * t >= 0.0
    ensures g >= 0.0
  {
  }

  lemma CostGap(n: nat, l: nat, m: nat)
    requires 0 < l && 0 < m
    requires (l <= m && n <= l * m) || (m <= l && l * m <= n)
    ensures RoundCost(n, l) <= RoundCost(n, m)
  {
    var x, y, c := l as real, m as real, n as real;
    var q, p := c / x, c / y;
    assert x * y == (l * m) as real;
    CrossMultiplied(x, y, q, p, c);
    SameSigns(y - x, x * y - c);
    assert x * y > 0.0;
    PositiveFactor(y + p - x - q, x * y);
  }

  /** No power of two is cheaper than the natural leaf count. */
  lemma NaturalLeavesIsCheapest(n: nat, j: nat)
    requires n >= 1
    ensures RoundCost(n, NaturalLeaves(n)) <= RoundCost(n, Pow2(j))
  {
    var k := RoundedHalfLog(n);
    RoundedBrackets(n);
    PowAdd(k, j);
    if j > k {
      PowMonotone(2 * k + 1, k + j);
      PowMonotone(k, j);
    } else if j < k {
      PowMonotone(k + j, 2 * k - 1);
      PowMonotone(j, k);
    }
    CostGap(n, Pow2(k), Pow2(j));
  }

  // ── folding a finer tree onto a coarser one ──────────────────────────────────

  /** The contribution of a row to leaf `i` of `m`. */
  function InLeaf<K, R>(slot: K -> nat, h: (K, R) -> bv64, m: nat, i: nat): (K, R) -> bv64
    requires m > 0
  {
    (k: K, r: R) => if slot(k) % m == i then h(k, r) else 0
  }

  /** The XOR of `f(j)` over the leaves j < m that fold onto leaf `i` of `d`. */
  ghost function FoldLeaves(f: nat -> bv64, m: nat, d: nat, i: nat): bv64
    requires d > 0
  {
    if m == 0 then 0
    else Xor(FoldLeaves(f, m - 1, d, i), if (m - 1) % d == i then f(m - 1) else 0)
  }

  function Below<K, R>(slot: K -> nat, h: (K, R) -> bv64, m: nat, d: nat, i: nat, bound: nat): (K, R) -> bv64
    requires m > 0 && d > 0
  {
    (k: K, r: R) => if slot(k) % m < bound && slot(k) % m % d == i then h(k, r) else 0
  }

  ghost function LeafOfTable<K, R>(t: map<K, R>, slot: K -> nat, h: (K, R) -> bv64, m: nat): nat -> bv64
    requires m > 0
  {
    (j: nat) => XorOver(t, InLeaf(slot, h, m, j))
  }

  lemma {:induction false} FoldBelow<K, R>(t: map<K, R>, slot: K -> nat, h: (K, R) -> bv64, m: nat, d: nat, i: nat,
                                           bound: nat)
    requires m > 0 && d > 0 && bound <= m
    ensures XorOver(t, Below(slot, h, m, d, i, bound)) == FoldLeaves(LeafOfTable(t, slot, h, m), bound, d, i)
  {
    hide Xor;
    if bound == 0 {
      XorZero(t, Below(slot, h, m, d, i, 0));
    } else {
      FoldBelow(t, slot, h, m, d, i, bound - 1);
      var front, all := Below(slot, h, m, d, i, bound - 1), Below(slot, h, m, d, i, bound);
      var last := InLeaf(slot, h, m, bound - 1);
      if (bound - 1) % d == i {
        forall k | k in t
          ensures all(k, t[k]) == Xor(front(k, t[k]), last(k, t[k]))
        {
          XorUnits(h(k, t[k]), 0);
          XorUnits(0, 0);
        }
        XorSplit(t, front, last, all);
      } else {
        XorUnits(XorOver(t, front), 0);
        XorSame(t, t, all, front);
      }
    }
  }

  lemma ModMod(s: nat, m: nat, d: nat)
    requires m > 0 && d > 0 && m % d == 0
    ensures s % m % d == s % d
  {
    var q, r, c := s / m, s % m, m / d;
    var u, w := r / d, q * c + r / d;
    Quotient(s, m);
    Quotient(m, d);
    Quotient(r, d);
    assert q * m == (q * c) * d by { assert q * (c * d) == (q * c) * d; }
    assert w * d == (q * c) * d + u * d;
    RemainderIs(s, w, d, r % d);
  }

  lemma Quotient(s: nat, d: nat)
    requires d > 0
    ensures s == s / d * d + s % d
  {
  }

  lemma AtLeastOnce(a: int, d: int)
    requires d > 0
    ensures a >= 1 ==> a * d >= d
    ensures a <= -1 ==> a * d <= -d
  {
  }

  lemma RemainderIs(s: nat, w: nat, d: nat, r: nat)
    requires d > 0 && r < d && s == w * d + r
    ensures s % d == r
  {
    var q := s / d;
    Quotient(s, d);
    assert (q - w) * d == q * d - w * d;
    AtLeastOnce(q - w, d);
  }

  /** Leaf `i` of `d` is the XOR of the leaves of `m` congruent to it, when `d` divides `m`. */
  lemma TableFolds<K, R>(t: map<K, R>, slot: K -> nat, h: (K, R) -> bv64, m: nat, d: nat, i: nat)
    requires m > 0 && d > 0 && m % d == 0
    ensures XorOver(t, InLeaf(slot, h, d, i)) == FoldLeaves(LeafOfTable(t, slot, h, m), m, d, i)
  {
    FoldBelow(t, slot, h, m, d, i, m);
    forall k | k in t
      ensures InLeaf(slot, h, d, i)(k, t[k]) == Below(slot, h, m, d, i, m)(k, t[k])
    {
      ModMod(slot(k), m, d);
    }
    XorSame(t, t, InLeaf(slot, h, d, i), Below(slot, h, m, d, i, m));
  }

  lemma {:induction false} FoldXors(f: nat -> bv64, g: nat -> bv64, h: nat -> bv64, m: nat, d: nat, i: nat)
    requires d > 0 && forall j: nat :: j < m ==> h(j) == Xor(f(j), g(j))
    ensures FoldLeaves(h, m, d, i) == Xor(FoldLeaves(f, m, d, i), FoldLeaves(g, m, d, i))
  {
    hide Xor;
    XorUnits(0, 0);
    if m > 0 {
      FoldXors(f, g, h, m - 1, d, i);
      var a, b := FoldLeaves(f, m - 1, d, i), FoldLeaves(g, m - 1, d, i);
      XorPairs(a, b, f(m - 1), g(m - 1));
      XorUnits(a, 0);
      XorUnits(b, 0);
      XorUnits(Xor(a, b), 0);
    }
  }

  function VertexHashes(e: Env): (string, VRow) -> bv64 { (id: string, r: VRow) => e.rowHash(id, r.sn) }
  function EdgeHashes(e: Env): (EdgeKey, ERow) -> bv64 { (k: EdgeKey, r: ERow) => EdgeDigest(e, k, r) }

  /** The rescan of stamped rows is the tree of the hashes, whatever the stamps were before. */
  lemma StampedRescan(e: Env, leaves: nat, d: Db, i: nat)
    requires Stamped(e, leaves, d)
    ensures Rescan(e, d, i) == Xor(XorOver(d.vertex, InLeaf(e.slot, VertexHashes(e), leaves, i)),
                                   XorOver(d.edge, InLeaf(e.edgeSlot, EdgeHashes(e), leaves, i)))
  {
    hide Xor, EdgeDigest;
    XorSame(d.vertex, d.vertex, VertexIn(e, i), InLeaf(e.slot, VertexHashes(e), leaves, i));
    XorSame(d.edge, d.edge, EdgeIn(e, i), InLeaf(e.edgeSlot, EdgeHashes(e), leaves, i));
  }

  ghost function Leaves(d: Db): nat -> bv64 { (j: nat) => Leaf(d.digests, j) }

  /** A store whose digests are the rescan, folded from `m` leaves onto a divisor `n` of `m`, has
      the digests of the resharded store. */
  lemma ReshardFolds(e: Env, m: nat, n: nat, a: Db, b: Db, i: nat)
    requires Stamped(e, m, a) && (forall j: nat :: Leaf(a.digests, j) == Rescan(e, a, j))
    requires n > 0 && m % n == 0 && Restamped(e, n, a, b) && (forall j: nat :: Leaf(b.digests, j) == Rescan(e, b, j))
    ensures Leaf(b.digests, i) == FoldLeaves(Leaves(a), m, n, i)
  {
    hide Xor, Rescan, EdgeDigest, RestampedV, RestampedE;
    RestampedStamps(e, n, a, b);
    StampedRescan(e, n, b, i);
    SameHashes(e, n, a, b, i);
    TableFolds(a.vertex, e.slot, VertexHashes(e), m, n, i);
    TableFolds(a.edge, e.edgeSlot, EdgeHashes(e), m, n, i);
    var f, g := LeafOfTable(a.vertex, e.slot, VertexHashes(e), m), LeafOfTable(a.edge, e.edgeSlot, EdgeHashes(e), m);
    forall j: nat | j < m ensures Leaves(a)(j) == Xor(f(j), g(j)) { StampedRescan(e, m, a, j); }
    FoldXors(f, g, Leaves(a), m, n, i);
  }

  lemma RestampedStamps(e: Env, n: nat, a: Db, b: Db)
    requires n > 0 && Restamped(e, n, a, b)
    ensures Stamped(e, n, b)
  {
  }

  lemma SameHashes(e: Env, n: nat, a: Db, b: Db, i: nat)
    requires n > 0 && Restamped(e, n, a, b)
    ensures XorOver(b.vertex, InLeaf(e.slot, VertexHashes(e), n, i))
        == XorOver(a.vertex, InLeaf(e.slot, VertexHashes(e), n, i))
    ensures XorOver(b.edge, InLeaf(e.edgeSlot, EdgeHashes(e), n, i))
        == XorOver(a.edge, InLeaf(e.edgeSlot, EdgeHashes(e), n, i))
  {
    hide Xor;
    XorSame(b.vertex, a.vertex, InLeaf(e.slot, VertexHashes(e), n, i), InLeaf(e.slot, VertexHashes(e), n, i));
    XorSame(b.edge, a.edge, InLeaf(e.edgeSlot, EdgeHashes(e), n, i), InLeaf(e.edgeSlot, EdgeHashes(e), n, i));
  }

  /** The XOR of all leaves. */
  ghost function Root(d: Db, leaves: nat): bv64 { FoldLeaves(Leaves(d), leaves, 1, 0) }

  lemma RootIsOneLeaf(e: Env, m: nat, a: Db)
    requires Stamped(e, m, a) && (forall j: nat :: Leaf(a.digests, j) == Rescan(e, a, j))
    ensures Root(a, m) == Xor(XorOver(a.vertex, InLeaf(e.slot, VertexHashes(e), 1, 0)),
                              XorOver(a.edge, InLeaf(e.edgeSlot, EdgeHashes(e), 1, 0)))
  {
    hide Xor, Rescan, EdgeDigest;
    TableFolds(a.vertex, e.slot, VertexHashes(e), m, 1, 0);
    TableFolds(a.edge, e.edgeSlot, EdgeHashes(e), m, 1, 0);
    var f, g := LeafOfTable(a.vertex, e.slot, VertexHashes(e), m), LeafOfTable(a.edge, e.edgeSlot, EdgeHashes(e), m);
    forall j: nat | j < m ensures Leaves(a)(j) == Xor(f(j), g(j)) { StampedRescan(e, m, a, j); }
    FoldXors(f, g, Leaves(a), m, 1, 0);
  }

  /** Any reshard, nested or not, keeps the XOR of all leaves. */
  lemma ReshardKeepsRoot(e: Env, m: nat, n: nat, a: Db, b: Db)
    requires Stamped(e, m, a) && (forall j: nat :: Leaf(a.digests, j) == Rescan(e, a, j))
    requires n > 0 && Restamped(e, n, a, b) && (forall j: nat :: Leaf(b.digests, j) == Rescan(e, b, j))
    ensures Root(b, n) == Root(a, m)
  {
    hide Xor, Rescan, RestampedV, RestampedE;
    RestampedStamps(e, n, a, b);
    RootIsOneLeaf(e, m, a);
    RootIsOneLeaf(e, n, b);
    RootSame(e, n, a, b);
  }

  lemma RootSame(e: Env, n: nat, a: Db, b: Db)
    requires n > 0 && Restamped(e, n, a, b)
    ensures XorOver(b.vertex, InLeaf(e.slot, VertexHashes(e), 1, 0))
        == XorOver(a.vertex, InLeaf(e.slot, VertexHashes(e), 1, 0))
    ensures XorOver(b.edge, InLeaf(e.edgeSlot, EdgeHashes(e), 1, 0))
        == XorOver(a.edge, InLeaf(e.edgeSlot, EdgeHashes(e), 1, 0))
  {
    hide Xor;
    XorSame(b.vertex, a.vertex, InLeaf(e.slot, VertexHashes(e), 1, 0), InLeaf(e.slot, VertexHashes(e), 1, 0));
    XorSame(b.edge, a.edge, InLeaf(e.edgeSlot, EdgeHashes(e), 1, 0), InLeaf(e.edgeSlot, EdgeHashes(e), 1, 0));
  }

  /** The leaf count ends at the natural one of the two totals; nothing moves if it was there. */
  method MaybeReshard(st: Store, batch: nat) returns (moved: bool)
    requires st.Valid() && !st.open && batch > 0
    modifies st`db, st`disk, st`hist, st`diskHist, st`leaves
    ensures st.Valid() && !st.open
    ensures st.leaves == NaturalLeaves(Count(old(st.db).counter, Counter(VertexTotal, ""))
        + Count(old(st.db).counter, Counter(EdgeTotal, "")))
    ensures moved <==> st.leaves != old(st.leaves)
    ensures Evolves(st.origin, old(st.db), old(st.hist), st.db, st.hist)
  {
    hide Ok, Evolves, NaturalLeaves;
    var n := Count(st.db.counter, Counter(VertexTotal, "")) + Count(st.db.counter, Counter(EdgeTotal, ""));
    NaturalPositive(n);
    moved := Reshard(st, NaturalLeaves(n), batch);
  }

  lemma NaturalPositive(n: int)
    ensures NaturalLeaves(n) >= 1
  {
  }
}
