/**
 Rescans: the Merkle rebuild, the counter audit, and the reshard to another number of leaves.
 */
module Maintenance {
  import opened Folds
  import opened Tables
  import opened Invariants
  import opened Steps
  import opened Keyset
  import opened Writes
  import opened Lattice

  // ── the Merkle rebuild ───────────────────────────────────────────────────────

  lemma VisitVertex(e: Env, acc: map<nat, bv64>, todo: map<string, VRow>, id: string, i: nat, total: bv64)
    requires id in todo
    requires Xor(Leaf(acc, i), XorOver(todo, VertexIn(e, i))) == total
    ensures var row := todo[id];
            Xor(Leaf(XorLeaf(acc, row.leaf, e.rowHash(id, row.sn)), i), XorOver(todo - {id}, VertexIn(e, i))) == total
  {
    hide Xor;
    XorRemove(todo, id, VertexIn(e, i));
    var h, rest := VertexIn(e, i)(id, todo[id]), XorOver(todo - {id}, VertexIn(e, i));
    XorLaws(Leaf(acc, i), h, rest);
    XorUnits(rest, 0);
  }

  lemma VisitEdge(e: Env, acc: map<nat, bv64>, todo: map<EdgeKey, ERow>, k: EdgeKey, i: nat, total: bv64)
    requires k in todo
    requires Xor(Leaf(acc, i), XorOver(todo, EdgeIn(e, i))) == total
    ensures var row := todo[k];
            Xor(Leaf(XorLeaf(acc, row.leaf, EdgeDigest(e, k, row)), i), XorOver(todo - {k}, EdgeIn(e, i))) == total
  {
    hide Xor, EdgeDigest;
    XorRemove(todo, k, EdgeIn(e, i));
    var h, rest := EdgeIn(e, i)(k, todo[k]), XorOver(todo - {k}, EdgeIn(e, i));
    XorLaws(Leaf(acc, i), h, rest);
    XorUnits(rest, 0);
  }

  /** Every row of both tables XORed into its leaf, in whatever order the scan yields them. */
  method ScanRows(e: Env, d: Db) returns (acc: map<nat, bv64>, n: nat)
    ensures forall i: nat :: Leaf(acc, i) == Rescan(e, d, i)
    ensures n == |d.vertex| + |d.edge|
  {
    hide Xor, EdgeDigest, VertexIn, EdgeIn, XorLeaf;
    acc, n := map[], 0;
    var todo := d.vertex;
    forall i: nat ensures Xor(Leaf(acc, i), XorOver(todo, VertexIn(e, i))) == XorOver(d.vertex, VertexIn(e, i)) {
      XorUnits(XorOver(d.vertex, VertexIn(e, i)), 0);
    }
    while todo != map[]
      invariant forall i: nat :: Xor(Leaf(acc, i), XorOver(todo, VertexIn(e, i))) == XorOver(d.vertex, VertexIn(e, i))
      invariant n + |todo| == |d.vertex|
      decreases |todo|
    {
      var id :| id in todo;
      forall i: nat { VisitVertex(e, acc, todo, id, i, XorOver(d.vertex, VertexIn(e, i))); }
      acc := XorLeaf(acc, todo[id].leaf, e.rowHash(id, todo[id].sn));
      todo := todo - {id};
      n := n + 1;
    }
    var left := d.edge;
    forall i: nat ensures Xor(Leaf(acc, i), XorOver(left, EdgeIn(e, i))) == Rescan(e, d, i) {
      XorUnits(Leaf(acc, i), 0);
    }
    while left != map[]
      invariant forall i: nat :: Xor(Leaf(acc, i), XorOver(left, EdgeIn(e, i))) == Rescan(e, d, i)
      invariant n + |left| == |d.vertex| + |d.edge|
      decreases |left|
    {
      hide Rescan;
      var k :| k in left;
      forall i: nat { VisitEdge(e, acc, left, k, i, Rescan(e, d, i)); }
      acc := XorLeaf(acc, left[k].leaf, EdgeDigest(e, k, left[k]));
      left := left - {k};
      n := n + 1;
    }
    forall i: nat ensures Leaf(acc, i) == Rescan(e, d, i) { XorUnits(Leaf(acc, i), 0); }
  }

  /** The tree rebuilt from the rows; what vanished rows had left in the digests is gone. */
  function Rebuilt(h: History): History { h.(orphan := map[]) }

  lemma RebuiltOk(e: Env, me: string, leaves: nat, d: Db, h: History, acc: map<nat, bv64>)
    requires Ok(e, me, leaves, d, h) && forall i: nat :: Leaf(acc, i) == Rescan(e, d, i)
    ensures Ok(e, me, leaves, d.(digests := acc), Rebuilt(h)) && Evolves(me, d, h, d.(digests := acc), Rebuilt(h))
  {
    hide SidecarAt, Census, Rescan, Xor, LoggedV, LoggedE, KeptV, KeptE, Count;
    var d1, h1 := d.(digests := acc), Rebuilt(h);
    RowsSame(e, d, d1);
    SidecarsSame(e, d, d1, h, h1);
    forall i: nat
      ensures Leaf(d1.digests, i) == Xor(Rescan(e, d1, i), Leaf(h1.orphan, i))
    {
      XorUnits(Rescan(e, d, i), 0);
    }
    RowsKept(me, d, h);
  }

  lemma RowsKept(me: string, d: Db, h: History)
    requires !h.echo ==> LoggedV(me, d.vertex, h.log) && LoggedE(me, d.edge, h.log)
    ensures KeptV(me, d.vertex, |h.log|, d.vertex) && KeptE(me, d.edge, |h.log|, d.edge)
  {
  }

  method RebuildMerkle(st: Store) returns (n: nat)
    requires st.Valid() && !st.open
    modifies st`db, st`disk, st`hist, st`diskHist, st`open, st.clock
    ensures st.Valid() && !st.open
    ensures st.db == old(st.db).(digests := st.db.digests) && st.hist == Rebuilt(old(st.hist))
    ensures Evolves(st.origin, old(st.db), old(st.hist), st.db, st.hist)
    ensures n == |st.db.vertex| + |st.db.edge|
    ensures forall i: nat :: Leaf(st.db.digests, i) == Rescan(st.env, st.db, i)
    ensures (forall i: nat :: Leaf(old(st.hist).orphan, i) == 0) ==>
              forall i: nat :: Leaf(st.db.digests, i) == Leaf(old(st.db).digests, i)
  {
    hide Ok, Evolves, Rescan, MerkleOk;
    st.Begin();
    var acc;
    acc, n := ScanRows(st.env, st.db);
    RebuiltOk(st.env, st.origin, st.leaves, st.db, st.hist, acc);
    ScanIsCurrent(st, acc);
    EvolvesTrans(st.origin, st.disk, st.diskHist, st.db, st.hist, st.db.(digests := acc), Rebuilt(st.hist));
    RowsSame(st.env, st.db, st.db.(digests := acc));
    st.db := st.db.(digests := acc);
    st.hist := Rebuilt(st.hist);
    var committed := st.Commit();
  }

  lemma ScanIsCurrent(st: Store, acc: map<nat, bv64>)
    requires st.Valid() && forall i: nat :: Leaf(acc, i) == Rescan(st.env, st.db, i)
    ensures (forall i: nat :: Leaf(st.hist.orphan, i) == 0) ==> forall i: nat :: Leaf(acc, i) == Leaf(st.db.digests, i)
  {
    hide Rescan, Evolves, Xor;
    if forall i: nat :: Leaf(st.hist.orphan, i) == 0 {
      forall i: nat ensures Leaf(acc, i) == Leaf(st.db.digests, i) { XorUnits(Rescan(st.env, st.db, i), 0); }
    }
  }

  // ── publication ──────────────────────────────────────────────────────────────

  /** The identity content of a store's rows: what a peer must hold to agree on the tree. */
  ghost predicate SameContent(a: Db, b: Db) {
    a.vertex.Keys == b.vertex.Keys && (forall id :: id in a.vertex ==> a.vertex[id].sn == b.vertex[id].sn) &&
    a.edge.Keys == b.edge.Keys &&
    (forall k :: k in a.edge ==> Canon(EdgeContent(a.edge[k])) == Canon(EdgeContent(b.edge[k])))
  }

  /** Two stores with the same (id, seq) pairs and the same edges publish the same leaves,
      whatever histories, origins or replays led there. */
  lemma SameContentSameLeaves(e: Env, leaves: nat, a: Db, h: History, b: Db, g: History)
    requires Stamped(e, leaves, a) && MerkleOk(e, a, h) && (forall i: nat :: Leaf(h.orphan, i) == 0)
    requires Stamped(e, leaves, b) && MerkleOk(e, b, g) && (forall i: nat :: Leaf(g.orphan, i) == 0)
    requires SameContent(a, b)
    ensures forall i: nat :: Leaf(a.digests, i) == Leaf(b.digests, i)
  {
    hide Xor;
    forall i: nat ensures Leaf(a.digests, i) == Leaf(b.digests, i) {
      XorSame(a.vertex, b.vertex, VertexIn(e, i), VertexIn(e, i));
      XorSame(a.edge, b.edge, EdgeIn(e, i), EdgeIn(e, i));
      XorUnits(Rescan(e, a, i), 0);
      XorUnits(Rescan(e, b, i), 0);
    }
  }

  // ── the counter audit ────────────────────────────────────────────────────────

  /** The counters a recount of the rows can judge. */
  predicate Judged(n: Counter) { Recounted(n) && !n.family.TaskStatus? }

  /** The two totals, the rows of each origin, the edges of each label, and what documents name. */
  lemma JudgedIs(n: Counter)
    ensures Judged(n) <==>
            n.family in {VertexTotal, EdgeTotal, EdgeLabel, Rows, CtOf, StateOf, Col, Missing}
  {
  }

  function CountVertex(e: Env, c: map<Counter, int>, row: VRow): map<Counter, int> {
    BumpAll(Bump(Bump(c, Counter(VertexTotal, ""), 1), Counter(Rows, row.origin), 1),
            CounterDeltas(e, None, Some(row.doc), Null, row.ct))
  }

  function CountEdge(c: map<Counter, int>, k: EdgeKey, row: ERow): map<Counter, int> {
    Bump(Bump(Bump(c, Counter(Rows, row.origin), 1), Counter(EdgeTotal, ""), 1), Counter(EdgeLabel, k.rel), 1)
  }

  lemma CountVertexNames(e: Env, c: map<Counter, int>, id: string, row: VRow, n: Counter)
    requires Judged(n)
    ensures Count(CountVertex(e, c, row), n) == Count(c, n) + VertexNames(e)(id, row)[n]
  {
    hide Bump, BumpAll, Count, CounterDeltas, DocNames, TaskNames, TaskOf, VertexNames;
    VertexNameCount(e, id, row, n);
    TaskNamesFamily(TaskOf(e, row.doc, row.ct), n);
  }

  lemma CountEdgeNames(c: map<Counter, int>, k: EdgeKey, row: ERow, n: Counter)
    ensures Count(CountEdge(c, k, row), n) == Count(c, n) + EdgeNames()(k, row)[n]
  {
    hide Bump, Count, EdgeNames;
    EdgeNameCount(k, row, n);
  }

  lemma VertexVisited(e: Env, c: map<Counter, int>, todo: map<string, VRow>, id: string, total: multiset<Counter>)
    requires id in todo
    requires forall n :: Judged(n) ==> Count(c, n) + SumOver(todo, VertexNames(e))[n] == total[n]
    ensures forall n :: Judged(n) ==>
      Count(CountVertex(e, c, todo[id]), n) + SumOver(todo - {id}, VertexNames(e))[n] == total[n]
  {
    hide VertexNames, Count, CountVertex, Judged;
    SumRemove(todo, id, VertexNames(e));
    forall n | Judged(n)
      ensures Count(CountVertex(e, c, todo[id]), n) + SumOver(todo - {id}, VertexNames(e))[n] == total[n]
    {
      CountVertexNames(e, c, id, todo[id], n);
    }
  }

  lemma EdgeVisited(c: map<Counter, int>, todo: map<EdgeKey, ERow>, k: EdgeKey, total: multiset<Counter>)
    requires k in todo
    requires forall n :: Judged(n) ==> Count(c, n) + SumOver(todo, EdgeNames())[n] == total[n]
    ensures forall n :: Judged(n) ==>
      Count(CountEdge(c, k, todo[k]), n) + SumOver(todo - {k}, EdgeNames())[n] == total[n]
  {
    hide EdgeNames, Count, CountEdge, Judged;
    SumRemove(todo, k, EdgeNames());
    forall n | Judged(n)
      ensures Count(CountEdge(c, k, todo[k]), n) + SumOver(todo - {k}, EdgeNames())[n] == total[n]
    {
      CountEdgeNames(c, k, todo[k], n);
    }
  }

  /** The recount of every row of both tables, in whatever order the scan yields them. */
  method ScanCounts(e: Env, d: Db) returns (actual: map<Counter, int>, scanned: nat)
    ensures forall n :: Judged(n) ==> Count(actual, n) == Census(e, d)[n]
    ensures scanned == |d.vertex|
  {
    hide VertexNames, EdgeNames, Count, CountVertex, CountEdge, Judged, SumOver;
    actual, scanned := map[], 0;
    EmptyCount();
    EmptySums(e);
    ghost var vertices, all := SumOver(d.vertex, VertexNames(e)), Census(e, d);
    var todo := d.vertex;
    while todo != map[]
      invariant forall n :: Judged(n) ==> Count(actual, n) + SumOver(todo, VertexNames(e))[n] == vertices[n]
      invariant scanned + |todo| == |d.vertex|
      decreases |todo|
    {
      var id :| id in todo;
      VertexVisited(e, actual, todo, id, vertices);
      actual := CountVertex(e, actual, todo[id]);
      todo := todo - {id};
      scanned := scanned + 1;
    }
    var left := d.edge;
    while left != map[]
      invariant forall n :: Judged(n) ==> Count(actual, n) + SumOver(left, EdgeNames())[n] == all[n]
      decreases |left|
    {
      var k :| k in left;
      EdgeVisited(actual, left, k, all);
      actual := CountEdge(actual, k, left[k]);
      left := left - {k};
    }
  }

  lemma EmptySums(e: Env)
    ensures SumOver(map[], VertexNames(e)) == multiset{} && SumOver(map[], EdgeNames()) == multiset{}
  {
  }

  lemma EmptyCount()
    ensures forall n :: Count(map[], n) == 0
  {
  }

  /** The audit's drift: every judged name whose stored and recounted values differ. */
  function DriftOf(stored: map<Counter, int>, actual: map<Counter, int>): map<Counter, (int, int)> {
    map n | n in stored.Keys + actual.Keys && Judged(n) && Count(stored, n) != Count(actual, n)
      :: (Count(stored, n), Count(actual, n))
  }

  /** The drift is exactly what rows removed outside the accounted write path left behind. */
  method VerifyCounters(st: Store) returns (drift: map<Counter, (int, int)>, scanned: nat)
    requires st.Valid() && !st.open
    ensures scanned == |st.db.vertex|
    ensures forall n :: n in drift <==> Judged(n) && Count(st.hist.drift, n) != 0
    ensures forall n :: n in drift ==>
              drift[n].0 == Count(st.db.counter, n) && drift[n].1 == Census(st.env, st.db)[n] &&
              drift[n].0 - drift[n].1 == Count(st.hist.drift, n)
  {
    hide MerkleOk, LedgerOk, SidecarsOk, Evolves, Census, Count;
    var actual;
    actual, scanned := ScanCounts(st.env, st.db);
    drift := DriftOf(st.db.counter, actual);
    forall n
      ensures n in drift <==> Judged(n) && Count(st.hist.drift, n) != 0
    {
      MissingCount(st.db.counter, actual, n);
    }
  }

  lemma MissingCount(a: map<Counter, int>, b: map<Counter, int>, n: Counter)
    ensures n !in a.Keys + b.Keys ==> Count(a, n) == 0 && Count(b, n) == 0
  {
  }

  const EDGE_LABELS_BUILT := Counter(Marker, "edgelabel:built")

  /** The books after a repair: what removed rows had left in the judged counters is gone. */
  function Audited(h: History): History {
    h.(drift := map n | n in h.drift && !Judged(n) :: h.drift[n])
  }

  lemma RepairOk(e: Env, me: string, leaves: nat, d: Db, h: History, d1: Db)
    requires Ok(e, me, leaves, d, h) && d1 == d.(counter := d1.counter)
    requires forall n :: Judged(n) ==> Count(d1.counter, n) == Census(e, d)[n]
    requires forall n :: !Judged(n) && n != EDGE_LABELS_BUILT ==> Count(d1.counter, n) == Count(d.counter, n)
    ensures Ok(e, me, leaves, d1, Audited(h)) && Evolves(me, d, h, d1, Audited(h))
  {
    hide MerkleOk, LedgerOk, Evolves, Census, SidecarsOk;
    SidecarsSame(e, d, d1, h, Audited(h));
    SameRowsOk(e, me, leaves, d, h, d1, Audited(h));
  }

  /** `verify_counters(repair=True)`: every drifted counter is set to its recount; the store then
      has no drift, whatever removed its rows. */
  method RepairCounters(st: Store) returns (drift: map<Counter, (int, int)>, scanned: nat)
    requires st.Valid() && !st.open
    modifies st`db, st`disk, st`hist, st`diskHist, st`open, st.clock
    ensures st.Valid() && !st.open
    ensures st.db == old(st.db).(counter := st.db.counter) && st.hist == Audited(old(st.hist))
    ensures forall n :: Judged(n) ==> Count(st.db.counter, n) == Census(st.env, st.db)[n]
    ensures forall n :: n in drift <==> Judged(n) && Count(old(st.hist).drift, n) != 0
    ensures Count(st.db.counter, EDGE_LABELS_BUILT) == 1
    ensures Evolves(st.origin, old(st.db), old(st.hist), st.db, st.hist)
  {
    hide Ok, Evolves, Census, Count;
    drift, scanned := VerifyCounters(st);
    st.Begin();
    ghost var d0, h0 := st.db, st.hist;
    WriteRecount(st, drift);
    RepairedCounts(st.env, st.origin, st.leaves, d0, h0, drift, st.db.counter);
    RowsSame(st.env, d0, st.db);
    RepairOk(st.env, st.origin, st.leaves, d0, h0, st.db);
    st.hist := Audited(st.hist);
    EvolvesTrans(st.origin, st.disk, st.diskHist, d0, h0, st.db, st.hist);
    var committed := st.Commit();
  }

  /** One upsert per drifted counter, and the certificate that the edge extents are exact. */
  method WriteRecount(st: Store, drift: map<Counter, (int, int)>)
    modifies st`db
    ensures st.db == old(st.db).(counter := st.db.counter)
    ensures forall n :: n != EDGE_LABELS_BUILT ==>
              Count(st.db.counter, n) == if n in drift then drift[n].1 else Count(old(st.db).counter, n)
    ensures Count(st.db.counter, EDGE_LABELS_BUILT) == 1
  {
    hide Count;
    var todo := drift.Keys;
    while todo != {}
      invariant todo <= drift.Keys && st.db == old(st.db).(counter := st.db.counter)
      invariant forall n :: Count(st.db.counter, n) ==
                  if n in drift && n !in todo then drift[n].1 else Count(old(st.db).counter, n)
      decreases |todo|
    {
      var n :| n in todo;
      ghost var c := st.db.counter;
      st.db := st.db.(counter := st.db.counter[n := drift[n].1]);
      SetCount(c, n, drift[n].1, st.db.counter);
      todo := todo - {n};
    }
    ghost var c := st.db.counter;
    st.db := st.db.(counter := st.db.counter[EDGE_LABELS_BUILT := 1]);
    SetCount(c, EDGE_LABELS_BUILT, 1, st.db.counter);
  }

  lemma SetCount(c: map<Counter, int>, n: Counter, v: int, c1: map<Counter, int>)
    requires c1 == c[n := v]
    ensures Count(c1, n) == v && forall m :: m != n ==> Count(c1, m) == Count(c, m)
  {
  }

  lemma RepairedCounts(e: Env, me: string, leaves: nat, d: Db, h: History, drift: map<Counter, (int, int)>,
                       c: map<Counter, int>)
    requires Ok(e, me, leaves, d, h)
    requires forall n :: n in drift <==> Judged(n) && Count(h.drift, n) != 0
    requires forall n :: n in drift ==> drift[n].1 == Census(e, d)[n]
    requires forall n :: n != EDGE_LABELS_BUILT ==>
        Count(c, n) == if n in drift then drift[n].1 else Count(d.counter, n)
    ensures forall n :: Judged(n) ==> Count(c, n) == Census(e, d)[n]
    ensures forall n :: !Judged(n) && n != EDGE_LABELS_BUILT ==> Count(c, n) == Count(d.counter, n)
  {
    hide MerkleOk, LedgerOk, SidecarsOk, Census, Count;
    forall n | Judged(n)
      ensures Count(c, n) == Census(e, d)[n]
    {
      assert Recounted(n);
      assert Count(d.counter, n) == Census(e, d)[n] + Count(h.drift, n);
    }
  }

  // ── restamping ───────────────────────────────────────────────────────────────

  function RestampedV(e: Env, v: map<string, VRow>, leaves: nat, done: set<string>): map<string, VRow>
    requires leaves > 0
  {
    map id | id in v :: if id in done then v[id].(leaf := e.slot(id) % leaves) else v[id]
  }

  function RestampedE(e: Env, g: map<EdgeKey, ERow>, leaves: nat, done: set<EdgeKey>): map<EdgeKey, ERow>
    requires leaves > 0
  {
    map k | k in g :: if k in done then g[k].(leaf := e.edgeSlot(k) % leaves) else g[k]
  }

  /** Every vertex row gets its leaf under the new modulus, page by page in id order; each page
      is its own transaction. */
  method RestampVertices(st: Store, leaves: nat, batch: nat)
    requires leaves > 0 && batch > 0 && EnvOk(st.env) && st.db == st.disk
    modifies st`db, st`disk
    ensures st.db == old(st.db).(vertex := RestampedV(st.env, old(st.db).vertex, leaves, old(st.db).vertex.Keys))
    ensures st.disk == st.db
  {
    hide StrictTotal, IsPage, RestampedV, Beyond;
    var after: Option<string> := None;
    ghost var v := st.db.vertex;
    ghost var done: set<string> := {};
    RestampedVNone(st.env, v, leaves);
    while true
      invariant st.db == old(st.db).(vertex := RestampedV(st.env, v, leaves, done)) && st.disk == st.db
      invariant done <= v.Keys
      invariant forall k :: k in v ==> (k in done <==> !Above(st.env.idBefore, after, k))
      decreases |Beyond(st.env.idBefore, v.Keys, after)|
    {
      RestampedVKeys(st.env, v, leaves, done);
      var rows := Select(st.env.idBefore, st.db.vertex.Keys, after, batch);
      if rows == [] {
        EmptyPage(st.env.idBefore, v.Keys, after, batch);
        break;
      }
      PageTakes(st.env.idBefore, v.Keys, after, batch, rows);
      PageSplits(st.env.idBefore, v.Keys, after, batch, rows);
      RestampVerticesPage(st, leaves, rows);
      ghost var page := set k | k in rows;
      RestampedVMore(st.env, v, leaves, done, page);
      done := done + page;
      st.disk := st.db;
      after := Some(rows[|rows| - 1]);
      if |rows| < batch {
        NothingBeyond(st.env.idBefore, v.Keys, after);
        break;
      }
    }
    assert done == v.Keys;
  }

  method RestampVerticesPage(st: Store, leaves: nat, rows: seq<string>)
    requires leaves > 0 && forall k :: k in rows ==> k in st.db.vertex
    modifies st`db
    ensures st.db == old(st.db).(vertex := RestampedV(st.env, old(st.db).vertex, leaves, set k | k in rows))
  {
    ghost var v := st.db.vertex;
    for i := 0 to |rows|
      invariant st.db == old(st.db).(vertex := RestampedV(st.env, v, leaves, set k | k in rows[..i]))
    {
      var k := rows[i];
      assert k in rows && rows[..i + 1] == rows[..i] + [k];
      st.db := st.db.(vertex := st.db.vertex[k := st.db.vertex[k].(leaf := st.env.slot(k) % leaves)]);
    }
    assert rows[..|rows|] == rows;
  }

  lemma RestampedVNone(e: Env, v: map<string, VRow>, leaves: nat)
    requires leaves > 0
    ensures RestampedV(e, v, leaves, {}) == v
  {
  }

  lemma RestampedVKeys(e: Env, v: map<string, VRow>, leaves: nat, done: set<string>)
    requires leaves > 0
    ensures RestampedV(e, v, leaves, done).Keys == v.Keys
  {
  }

  lemma RestampedVMore(e: Env, v: map<string, VRow>, leaves: nat, done: set<string>, page: set<string>)
    requires leaves > 0
    ensures RestampedV(e, RestampedV(e, v, leaves, done), leaves, page) == RestampedV(e, v, leaves, done + page)
  {
  }

  lemma PageSplits<K(!new)>(lt: (K, K) -> bool, keys: set<K>, after: Option<K>, n: nat, page: seq<K>)
    requires StrictTotal(lt) && IsPage(lt, keys, after, n, page) && page != []
    ensures forall k :: k in keys ==> (Above(lt, after, k) <==> k in page || Above(lt, Some(page[|page| - 1]), k))
    ensures forall k :: k in page ==> k in keys && Above(lt, after, k) && !Above(lt, Some(page[|page| - 1]), k)
  {
    forall k | k in keys
      ensures Above(lt, after, k) <==> k in page || Above(lt, Some(page[|page| - 1]), k)
      ensures k in page ==> !Above(lt, Some(page[|page| - 1]), k)
    {
      PageAdvances(lt, keys, after, n, page, k);
    }
  }

  method RestampEdges(st: Store, leaves: nat, batch: nat)
    requires leaves > 0 && batch > 0 && EnvOk(st.env) && st.db == st.disk
    modifies st`db, st`disk
    ensures st.db == old(st.db).(edge := RestampedE(st.env, old(st.db).edge, leaves, old(st.db).edge.Keys))
    ensures st.disk == st.db
  {
    hide StrictTotal, IsPage, RestampedE, Beyond;
    var after: Option<EdgeKey> := None;
    ghost var v := st.db.edge;
    ghost var done: set<EdgeKey> := {};
    RestampedENone(st.env, v, leaves);
    while true
      invariant st.db == old(st.db).(edge := RestampedE(st.env, v, leaves, done)) && st.disk == st.db
      invariant done <= v.Keys
      invariant forall k :: k in v ==> (k in done <==> !Above(st.env.keyBefore, after, k))
      decreases |Beyond(st.env.keyBefore, v.Keys, after)|
    {
      RestampedEKeys(st.env, v, leaves, done);
      var rows := Select(st.env.keyBefore, st.db.edge.Keys, after, batch);
      if rows == [] {
        EmptyPage(st.env.keyBefore, v.Keys, after, batch);
        break;
      }
      PageTakes(st.env.keyBefore, v.Keys, after, batch, rows);
      PageSplits(st.env.keyBefore, v.Keys, after, batch, rows);
      RestampEdgesPage(st, leaves, rows);
      ghost var page := set k | k in rows;
      RestampedEMore(st.env, v, leaves, done, page);
      done := done + page;
      st.disk := st.db;
      after := Some(rows[|rows| - 1]);
      if |rows| < batch {
        NothingBeyond(st.env.keyBefore, v.Keys, after);
        break;
      }
    }
    assert done == v.Keys;
  }

  method RestampEdgesPage(st: Store, leaves: nat, rows: seq<EdgeKey>)
    requires leaves > 0 && forall k :: k in rows ==> k in st.db.edge
    modifies st`db
    ensures st.db == old(st.db).(edge := RestampedE(st.env, old(st.db).edge, leaves, set k | k in rows))
  {
    ghost var v := st.db.edge;
    for i := 0 to |rows|
      invariant st.db == old(st.db).(edge := RestampedE(st.env, v, leaves, set k | k in rows[..i]))
    {
      var k := rows[i];
      assert k in rows && rows[..i + 1] == rows[..i] + [k];
      st.db := st.db.(edge := st.db.edge[k := st.db.edge[k].(leaf := st.env.edgeSlot(k) % leaves)]);
    }
    assert rows[..|rows|] == rows;
  }

  lemma RestampedENone(e: Env, v: map<EdgeKey, ERow>, leaves: nat)
    requires leaves > 0
    ensures RestampedE(e, v, leaves, {}) == v
  {
  }

  lemma RestampedEKeys(e: Env, v: map<EdgeKey, ERow>, leaves: nat, done: set<EdgeKey>)
    requires leaves > 0
    ensures RestampedE(e, v, leaves, done).Keys == v.Keys
  {
  }

  lemma RestampedEMore(e: Env, v: map<EdgeKey, ERow>, leaves: nat, done: set<EdgeKey>, page: set<EdgeKey>)
    requires leaves > 0
    ensures RestampedE(e, RestampedE(e, v, leaves, done), leaves, page) == RestampedE(e, v, leaves, done + page)
  {
  }

  /** Only the leaf stamps of the rows moved. */
  ghost predicate Restamped(e: Env, leaves: nat, d0: Db, d1: Db)
    requires leaves > 0
  {
    d1 == d0.(vertex := RestampedV(e, d0.vertex, leaves, d0.vertex.Keys),
              edge := RestampedE(e, d0.edge, leaves, d0.edge.Keys),
              digests := d1.digests)
  }

  lemma RestampedCensus(e: Env, leaves: nat, d0: Db, d1: Db)
    requires leaves > 0 && Restamped(e, leaves, d0, d1)
    ensures Census(e, d1) == Census(e, d0)
  {
    hide DocNames, TaskNames, TaskOf;
    SumSame(d0.vertex, d1.vertex, VertexNames(e));
    SumSame(d0.edge, d1.edge, EdgeNames());
  }

  lemma RestampedSidecars(e: Env, leaves: nat, d0: Db, d1: Db, h: History, h1: History)
    requires leaves > 0 && Restamped(e, leaves, d0, d1) && SidecarsOk(e, d0, h)
    requires h1.lostIds == h.lostIds && h1.stray == h.stray
    ensures SidecarsOk(e, d1, h1)
  {
    hide TaskOf, PostingsOf;
    forall id ensures SidecarAt(e, d1, h1.lostIds, id) && StrayAt(d1, h1, id) {
      assert SidecarAt(e, d0, h.lostIds, id) && StrayAt(d0, h, id);
    }
  }

  lemma RestampedLedger(e: Env, me: string, leaves: nat, d0: Db, d1: Db, h: History)
    requires leaves > 0 && Restamped(e, leaves, d0, d1)
    requires !h.echo ==> LoggedV(me, d0.vertex, h.log) && LoggedE(me, d0.edge, h.log)
    ensures !h.echo ==> LoggedV(me, d1.vertex, h.log) && LoggedE(me, d1.edge, h.log)
    ensures KeptV(me, d0.vertex, |h.log|, d1.vertex) && KeptE(me, d0.edge, |h.log|, d1.edge)
  {
  }

  lemma RestampedOk(e: Env, me: string, m: nat, leaves: nat, d0: Db, d1: Db, h: History)
    requires leaves > 0 && Ok(e, me, m, d0, h) && Restamped(e, leaves, d0, d1)
    requires forall i: nat :: Leaf(d1.digests, i) == Rescan(e, d1, i)
    ensures Ok(e, me, leaves, d1, Rebuilt(h)) && Evolves(me, d0, h, d1, Rebuilt(h))
  {
    hide SidecarAt, Census, Rescan, Xor, Count, LoggedV, LoggedE, KeptV, KeptE;
    RestampedCensus(e, leaves, d0, d1);
    RestampedSidecars(e, leaves, d0, d1, h, Rebuilt(h));
    RestampedLedger(e, me, leaves, d0, d1, h);
    forall i: nat
      ensures Leaf(d1.digests, i) == Xor(Rescan(e, d1, i), Leaf(Rebuilt(h).orphan, i))
    {
      XorUnits(Rescan(e, d1, i), 0);
    }
  }

  /** Re-stamp both tables, adopt the new modulus, rebuild the digests.  No other writer runs
      between the pages. */
  method Reshard(st: Store, target: nat, batch: nat) returns (moved: bool)
    requires st.Valid() && !st.open && target > 0 && batch > 0
    modifies st`db, st`disk, st`hist, st`diskHist, st`leaves
    ensures st.Valid() && !st.open && st.leaves == target
    ensures moved <==> old(st.leaves) != target
    ensures !moved ==> st.db == old(st.db) && st.hist == old(st.hist)
    ensures moved ==> Restamped(st.env, target, old(st.db), st.db) && st.hist == Rebuilt(old(st.hist))
    ensures moved ==> forall i: nat :: Leaf(st.db.digests, i) == Rescan(st.env, st.db, i)
    ensures Evolves(st.origin, old(st.db), old(st.hist), st.db, st.hist)
  {
    hide Ok, Evolves, Rescan, RestampedV, RestampedE, StrictTotal;
    EvolvesRefl(st.origin, st.db, st.hist);
    if target == st.leaves { return false; }
    ghost var d0, h0, m := st.db, st.hist, st.leaves;
    RestampVertices(st, target, batch);
    RestampEdges(st, target, batch);
    st.leaves := target;
    var acc, n := ScanRows(st.env, st.db);
    RowsSame(st.env, st.db, st.db.(digests := acc));
    st.db := st.db.(digests := acc);
    RestampedOk(st.env, st.origin, m, target, d0, st.db, h0);
    st.hist := Rebuilt(st.hist);
    st.disk, st.diskHist := st.db, st.hist;
    EvolvesRefl(st.origin, st.db, st.hist);
    moved := true;
  }
}
