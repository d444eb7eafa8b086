/**
 What every reachable database satisfies, and how a change of one row keeps it.

 The history is what a reader of the tables cannot see: who took each value of the local
 clock, how many local rows vanished outside the write path, and what those vanished rows
 left behind in the counters and in the leaf digests.
 */
module Invariants {
  import opened Folds
  import opened Tables

  datatype RowKey = VKey(id: string) | EKey(key: EdgeKey)

  datatype History = History(
    log: seq<RowKey>,             // log[s - 1] is the row that was given local seq s
    lost: nat,                    // local rows removed outside the accounted write path
    drift: map<Counter, int>,     // what removed rows left behind in the counters
    orphan: map<nat, bv64>,       // what removed rows left behind in the leaf digests
    lostIds: set<string>,         // vertices ever removed outside the write path
    stray: map<string, TaskRow>,  // task rows that vanished vertices left behind
    echo: bool)                   // a consumed row has claimed the local origin

  const NEW_HISTORY := History([], 0, map[], map[], {}, map[], false)

  // ── the invariants ───────────────────────────────────────────────────────────

  ghost predicate Stamped(e: Env, leaves: nat, d: Db) {
    leaves > 0 &&
    (forall id :: id in d.vertex ==> d.vertex[id].leaf == e.slot(id) % leaves) &&
    (forall k :: k in d.edge ==> d.edge[k].leaf == e.edgeSlot(k) % leaves)
  }

  ghost predicate Shaped(d: Db) {
    (forall id :: id in d.vertex ==>
      id != "" && d.vertex[id].origin != "" && d.vertex[id].ct == Get(d.vertex[id].doc, ContentType)) &&
    (forall k :: k in d.edge ==> d.edge[k].origin != "")
  }

  /** The incremental digests are the rescan, up to what vanished rows left behind. */
  ghost predicate MerkleOk(e: Env, d: Db, h: History) {
    forall i: nat :: Leaf(d.digests, i) == Xor(Rescan(e, d, i), Leaf(h.orphan, i))
  }

  predicate Recounted(n: Counter) {
    !n.family.Vacated? && !n.family.Conflict? && !n.family.Marker?
  }

  /** The incremental counters are the recount, up to what vanished rows left behind. */
  ghost predicate CountersOk(e: Env, d: Db, h: History) {
    forall n :: Recounted(n) ==> Count(d.counter, n) == Census(e, d)[n] + Count(h.drift, n)
  }

  /** Each live local row holds the seq the log gave it, and every seq is live, vacated or lost. */
  ghost predicate LedgerOk(e: Env, me: string, d: Db, h: History) {
    !h.echo ==> LoggedV(me, d.vertex, h.log) && LoggedE(me, d.edge, h.log) && Balanced(e, me, d, h)
  }

  /** The log gave each live local row the seq it carries. */
  ghost predicate LoggedV(me: string, vertex: map<string, VRow>, log: seq<RowKey>) {
    forall id :: id in vertex && vertex[id].origin == me ==>
      1 <= vertex[id].sn <= |log| && log[vertex[id].sn - 1] == VKey(id)
  }

  ghost predicate LoggedE(me: string, edge: map<EdgeKey, ERow>, log: seq<RowKey>) {
    forall k :: k in edge && edge[k].origin == me ==>
      1 <= edge[k].sn <= |log| && log[edge[k].sn - 1] == EKey(k)
  }

  ghost predicate Balanced(e: Env, me: string, d: Db, h: History) {
    Count(d.counter, Counter(Vacated, me)) + Census(e, d)[Counter(Rows, me)] + h.lost == |h.log|
  }

  /** The task row is the projection of the document; so are the postings.  A vertex that
      vanished may have left its task row and its postings behind. */
  ghost predicate SidecarAt(e: Env, d: Db, lostIds: set<string>, id: string) {
    var row := At(d.vertex, id);
    (id !in lostIds || row.Some? ==>
       At(d.task, id) == if row.Some? then TaskOf(e, row.value.doc, row.value.ct) else None) &&
    (id !in lostIds ==>
       Group(d.listkey, id) == if row.Some? then PostingsOf(e, row.value.doc, row.value.ct) else multiset{})
  }

  ghost predicate SidecarsOk(e: Env, d: Db, h: History) {
    (forall id :: SidecarAt(e, d, h.lostIds, id)) && (forall id :: StrayAt(d, h, id))
  }

  /** An artifact without a row has the task row that its last row left behind when it vanished,
      and none otherwise. */
  predicate StrayAt(d: Db, h: History, id: string) {
    id !in d.vertex ==> At(d.task, id) == At(h.stray, id)
  }

  ghost predicate Ok(e: Env, me: string, leaves: nat, d: Db, h: History) {
    me != "" && Stamped(e, leaves, d) && Shaped(d) && MerkleOk(e, d, h) && CountersOk(e, d, h) &&
    LedgerOk(e, me, d, h) && SidecarsOk(e, d, h) && LocalOnly(me, d)
  }

  /** No origin but the own one is ever marked as allocating here. */
  predicate LocalOnly(me: string, d: Db) { forall o :: o in d.seqs && d.seqs[o].isLocal ==> o == me }

  /** The durable mark is the length of the log. */
  ghost predicate MarkOk(me: string, d: Db, h: History) {
    !h.echo ==>
      if me in d.seqs then d.seqs[me] == SeqRow(|h.log|, true) else h.log == []
  }

  /** Nothing but row counts was ever left behind: no vertex vanished, every digest and every
      other counter is exact. */
  ghost predicate Whole(h: History) {
    h.lostIds == {} && (forall i: nat :: Leaf(h.orphan, i) == 0) &&
    (forall n: Counter :: !n.family.Rows? ==> Count(h.drift, n) == 0)
  }

  // ── how the store may move ───────────────────────────────────────────────────

  predicate SameEdge(a: ERow, b: ERow) { a.(leaf := 0) == b.(leaf := 0) }

  ghost predicate KeptV(me: string, v0: map<string, VRow>, mark: nat, v1: map<string, VRow>) {
    forall id :: id in v1 && v1[id].origin == me ==>
      v1[id].sn > mark || (id in v0 && v0[id].origin == me && v0[id].sn == v1[id].sn)
  }

  ghost predicate KeptE(me: string, e0: map<EdgeKey, ERow>, mark: nat, e1: map<EdgeKey, ERow>) {
    forall k :: k in e1 && e1[k].origin == me ==>
      e1[k].sn > mark || (k in e0 && SameEdge(e0[k], e1[k]))
  }

  /** From one state to a later one: the log only grows, and a local row that is there later
      either was there before at the same version or took a value the log did not have yet. */
  ghost predicate Evolves(me: string, d0: Db, h0: History, d1: Db, h1: History) {
    (h0.echo ==> h1.echo) &&
    (!h1.echo ==>
      h0.log <= h1.log && KeptV(me, d0.vertex, |h0.log|, d1.vertex) && KeptE(me, d0.edge, |h0.log|, d1.edge))
  }

  lemma EvolvesTrans(me: string, d0: Db, h0: History, d1: Db, h1: History, d2: Db, h2: History)
    requires Evolves(me, d0, h0, d1, h1) && Evolves(me, d1, h1, d2, h2)
    ensures Evolves(me, d0, h0, d2, h2)
  {
  }

  /** A write leaves no loss behind: only the log and, when a row claims the local origin, the
      echo flag may move. */
  predicate SameLosses(h0: History, h1: History, foreign: bool) {
    h1 == h0.(log := h1.log, echo := h1.echo) && (foreign ==> h1.echo == h0.echo)
  }

  lemma SameLossesRefl(h: History, foreign: bool)
    ensures SameLosses(h, h, foreign)
  {
  }

  lemma SameLossesTrans(h0: History, h1: History, h2: History, foreign: bool, foreign1: bool)
    requires SameLosses(h0, h1, foreign) && SameLosses(h1, h2, foreign1) && (foreign ==> foreign1)
    ensures SameLosses(h0, h2, foreign)
  {
  }

  // ── one vertex row changes ───────────────────────────────────────────────────

  lemma VertexEdit(e: Env, d0: Db, d1: Db, id: string, o: Option<VRow>)
    requires d1.vertex == Edit(d0.vertex, id, o) && d1.edge == d0.edge
    ensures Census(e, d1) + SumAt(id, At(d0.vertex, id), VertexNames(e))
         == Census(e, d0) + SumAt(id, o, VertexNames(e))
  {
    hide VertexNames, EdgeNames;
    SumEdit(d0.vertex, id, o, VertexNames(e));
    SumShift(SumOver(d0.vertex, VertexNames(e)), SumOver(d1.vertex, VertexNames(e)), SumOver(d0.edge, EdgeNames()),
             SumAt(id, At(d0.vertex, id), VertexNames(e)), SumAt(id, o, VertexNames(e)));
  }

  lemma EdgeEdit(e: Env, d0: Db, d1: Db, k: EdgeKey, o: Option<ERow>)
    requires d1.edge == Edit(d0.edge, k, o) && d1.vertex == d0.vertex
    ensures Census(e, d1) + SumAt(k, At(d0.edge, k), EdgeNames())
         == Census(e, d0) + SumAt(k, o, EdgeNames())
  {
    hide VertexNames, EdgeNames;
    SumEdit(d0.edge, k, o, EdgeNames());
    SumShift(SumOver(d0.edge, EdgeNames()), SumOver(d1.edge, EdgeNames()), SumOver(d0.vertex, VertexNames(e)),
             SumAt(k, At(d0.edge, k), EdgeNames()), SumAt(k, o, EdgeNames()));
  }

  function RowHashOf(e: Env, id: string, o: Option<VRow>): bv64 {
    if o.Some? then e.rowHash(id, o.value.sn) else 0
  }

  function EdgeHashOf(e: Env, k: EdgeKey, o: Option<ERow>): bv64 {
    if o.Some? then EdgeDigest(e, k, o.value) else 0
  }

  lemma XorPull(v: bv64, g: bv64, x: bv64, y: bv64)
    ensures Xor(Xor(v, Xor(x, y)), g) == Xor(Xor(v, g), Xor(x, y))
    ensures Xor(g, Xor(v, Xor(x, y))) == Xor(Xor(g, v), Xor(x, y))
  {
    hide Xor;
    var t := Xor(x, y);
    XorLaws(v, t, g);
    XorLaws(t, g, 0);
    XorLaws(v, g, t);
    XorLaws(g, v, t);
  }

  lemma XorThrough(s: bv64, w: bv64, x: bv64, y: bv64)
    ensures Xor(Xor(Xor(s, w), x), y) == Xor(Xor(s, Xor(x, y)), w)
  {
    hide Xor;
    XorLaws(Xor(s, w), x, y);
    XorPull(s, w, x, y);
  }

  lemma RescanVertex(e: Env, leaves: nat, d0: Db, d1: Db, id: string, o: Option<VRow>, i: nat)
    requires Stamped(e, leaves, d0)
    requires d1.vertex == Edit(d0.vertex, id, o) && d1.edge == d0.edge
    requires o.Some? ==> o.value.leaf == e.slot(id) % leaves
    ensures var x, y := RowHashOf(e, id, At(d0.vertex, id)), RowHashOf(e, id, o);
            Rescan(e, d1, i) == if i == e.slot(id) % leaves then Xor(Rescan(e, d0, i), Xor(x, y)) else Rescan(e, d0, i)
  {
    hide Xor, EdgeIn;
    var x, y := XorAt(id, At(d0.vertex, id), VertexIn(e, i)), XorAt(id, o, VertexIn(e, i));
    XorEdit(d0.vertex, id, o, VertexIn(e, i));
    XorPull(XorOver(d0.vertex, VertexIn(e, i)), XorOver(d0.edge, EdgeIn(e, i)), x, y);
    XorUnits(0, 0);
    XorUnits(Rescan(e, d0, i), 0);
  }

  /** XOR out the old identity, XOR in the new one, both at the row's own leaf. */
  lemma MerkleVertex(e: Env, leaves: nat, d0: Db, d1: Db, h: History, id: string, o: Option<VRow>)
    requires Stamped(e, leaves, d0) && MerkleOk(e, d0, h)
    requires d1.vertex == Edit(d0.vertex, id, o) && d1.edge == d0.edge
    requires o.Some? ==> o.value.leaf == e.slot(id) % leaves
    requires d1.digests == XorLeaf(XorLeaf(d0.digests, e.slot(id) % leaves, RowHashOf(e, id, At(d0.vertex, id))),
                                 e.slot(id) % leaves, RowHashOf(e, id, o))
    ensures MerkleOk(e, d1, h)
  {
    hide Xor, Rescan, Stamped;
    forall i: nat
      ensures Leaf(d1.digests, i) == Xor(Rescan(e, d1, i), Leaf(h.orphan, i))
    {
      RescanVertex(e, leaves, d0, d1, id, o, i);
      XorThrough(Rescan(e, d0, i), Leaf(h.orphan, i), RowHashOf(e, id, At(d0.vertex, id)), RowHashOf(e, id, o));
    }
  }

  lemma RescanEdge(e: Env, leaves: nat, d0: Db, d1: Db, k: EdgeKey, o: Option<ERow>, i: nat)
    requires Stamped(e, leaves, d0)
    requires d1.edge == Edit(d0.edge, k, o) && d1.vertex == d0.vertex
    requires o.Some? ==> o.value.leaf == e.edgeSlot(k) % leaves
    ensures var x, y := EdgeHashOf(e, k, At(d0.edge, k)), EdgeHashOf(e, k, o);
            Rescan(e, d1, i) == if i == e.edgeSlot(k) % leaves then Xor(Rescan(e, d0, i), Xor(x, y))
                else Rescan(e, d0, i)
  {
    hide Xor, VertexIn, EdgeDigest;
    var x, y := XorAt(k, At(d0.edge, k), EdgeIn(e, i)), XorAt(k, o, EdgeIn(e, i));
    XorEdit(d0.edge, k, o, EdgeIn(e, i));
    XorPull(XorOver(d0.edge, EdgeIn(e, i)), XorOver(d0.vertex, VertexIn(e, i)), x, y);
    XorUnits(0, 0);
    XorUnits(Rescan(e, d0, i), 0);
  }

  /** XOR out the old identity, XOR in the new one, both at the row's own leaf. */
  lemma MerkleEdge(e: Env, leaves: nat, d0: Db, d1: Db, h: History, k: EdgeKey, o: Option<ERow>)
    requires Stamped(e, leaves, d0) && MerkleOk(e, d0, h)
    requires d1.edge == Edit(d0.edge, k, o) && d1.vertex == d0.vertex
    requires o.Some? ==> o.value.leaf == e.edgeSlot(k) % leaves
    requires d1.digests == XorLeaf(XorLeaf(d0.digests, e.edgeSlot(k) % leaves, EdgeHashOf(e, k, At(d0.edge, k))),
                                 e.edgeSlot(k) % leaves, EdgeHashOf(e, k, o))
    ensures MerkleOk(e, d1, h)
  {
    hide Xor, Rescan, Stamped;
    forall i: nat
      ensures Leaf(d1.digests, i) == Xor(Rescan(e, d1, i), Leaf(h.orphan, i))
    {
      RescanEdge(e, leaves, d0, d1, k, o, i);
      XorThrough(Rescan(e, d0, i), Leaf(h.orphan, i), EdgeHashOf(e, k, At(d0.edge, k)), EdgeHashOf(e, k, o));
    }
  }

  lemma VertexRowsName(e: Env, id: string, r: VRow, o: string)
    ensures VertexNames(e)(id, r)[Counter(Rows, o)] == if r.origin == o then 1 else 0
  {
    hide DocNames, TaskNames, TaskOf;
    DocNamesFamilies(e, r.doc, r.ct, Counter(Rows, o));
    TaskNamesFamily(TaskOf(e, r.doc, r.ct), Counter(Rows, o));
  }

  predicate DocFamily(n: Counter) {
    n.family.CtOf? || n.family.StateOf? || n.family.Col? || n.family.Missing?
  }

  lemma DocNamesFamilies(e: Env, doc: Doc, ct: Value, n: Counter)
    requires !DocFamily(n)
    ensures DocNames(e, doc, ct)[n] == 0
  {
    hide MissingNames, Live;
    MissingNamesFamily(doc, CitedFrom, "cited_from", n);
    MissingNamesFamily(doc, Provenance, "provenance", n);
  }

  lemma MissingNamesFamily(doc: Doc, field: Key, name: string, n: Counter)
    requires !n.family.Missing?
    ensures MissingNames(doc, field, name)[n] == 0
  {
  }

  lemma TaskNamesFamily(t: Option<TaskRow>, n: Counter)
    requires !n.family.TaskStatus?
    ensures TaskNames(t)[n] == 0
  {
  }

  lemma EdgeRowsName(k: EdgeKey, r: ERow, o: string)
    ensures EdgeNames()(k, r)[Counter(Rows, o)] == if r.origin == o then 1 else 0
  {
  }

  /** How many local seqs a row holds: one if it is there and local. */
  function Own(me: string, origin: Option<string>): nat { if origin == Some(me) then 1 else 0 }

  function VOrigin(o: Option<VRow>): Option<string> { if o.Some? then Some(o.value.origin) else None }
  function EOrigin(o: Option<ERow>): Option<string> { if o.Some? then Some(o.value.origin) else None }

  lemma CensusVertex(e: Env, me: string, d0: Db, d1: Db, id: string, o: Option<VRow>)
    requires d1.vertex == Edit(d0.vertex, id, o) && d1.edge == d0.edge
    ensures Census(e, d1)[Counter(Rows, me)] + Own(me, VOrigin(At(d0.vertex, id)))
         == Census(e, d0)[Counter(Rows, me)] + Own(me, VOrigin(o))
  {
    hide VertexNames, EdgeNames, Census;
    VertexEdit(e, d0, d1, id, o);
    var before, n := At(d0.vertex, id), Counter(Rows, me);
    if before.Some? { VertexRowsName(e, id, before.value, me); }
    if o.Some? { VertexRowsName(e, id, o.value, me); }
    assert (Census(e, d1) + SumAt(id, before, VertexNames(e)))[n] == (Census(e, d0) + SumAt(id, o, VertexNames(e)))[n];
  }

  lemma CensusEdge(e: Env, me: string, d0: Db, d1: Db, k: EdgeKey, o: Option<ERow>)
    requires d1.edge == Edit(d0.edge, k, o) && d1.vertex == d0.vertex
    ensures Census(e, d1)[Counter(Rows, me)] + Own(me, EOrigin(At(d0.edge, k)))
         == Census(e, d0)[Counter(Rows, me)] + Own(me, EOrigin(o))
  {
    hide VertexNames, EdgeNames, Census;
    EdgeEdit(e, d0, d1, k, o);
    var before, n := At(d0.edge, k), Counter(Rows, me);
    if before.Some? { EdgeRowsName(k, before.value, me); }
    if o.Some? { EdgeRowsName(k, o.value, me); }
    assert (Census(e, d1) + SumAt(k, before, EdgeNames()))[n] == (Census(e, d0) + SumAt(k, o, EdgeNames()))[n];
  }

  /** A vertex row is written (with the next value of the log when it is local) or removed,
      and the seq of a local row it replaces is vacated or lost. */
  lemma LedgerVertex(e: Env, me: string, d0: Db, h0: History, d1: Db, h1: History, id: string, o: Option<VRow>)
    requires LedgerOk(e, me, d0, h0)
    requires d1.vertex == Edit(d0.vertex, id, o) && d1.edge == d0.edge
    requires h1.echo == h0.echo
    requires !h0.echo ==>
      && (o.Some? && o.value.origin == me ==> o.value.sn == |h0.log| + 1)
      && h1.log == h0.log + (if o.Some? && o.value.origin == me then [VKey(id)] else [])
    requires Count(d1.counter, Counter(Vacated, me)) + h1.lost
          == Count(d0.counter, Counter(Vacated, me)) + h0.lost + Own(me, VOrigin(At(d0.vertex, id)))
    ensures LedgerOk(e, me, d1, h1) && Evolves(me, d0, h0, d1, h1)
  {
    hide LoggedV, KeptV, Census;
    CensusVertex(e, me, d0, d1, id, o);
    if !h0.echo { LoggedVertex(me, d0.vertex, h0.log, id, o); }
  }

  lemma LoggedVertex(me: string, t0: map<string, VRow>, log: seq<RowKey>, id: string, o: Option<VRow>)
    requires LoggedV(me, t0, log)
    requires o.Some? && o.value.origin == me ==> o.value.sn == |log| + 1
    ensures LoggedV(me, Edit(t0, id, o), log + (if o.Some? && o.value.origin == me then [VKey(id)] else []))
    ensures KeptV(me, t0, |log|, Edit(t0, id, o))
  {
  }

  lemma LedgerEdge(e: Env, me: string, d0: Db, h0: History, d1: Db, h1: History, k: EdgeKey, o: Option<ERow>)
    requires LedgerOk(e, me, d0, h0)
    requires d1.edge == Edit(d0.edge, k, o) && d1.vertex == d0.vertex
    requires h1.echo == h0.echo
    requires !h0.echo ==>
      && (o.Some? && o.value.origin == me ==> o.value.sn == |h0.log| + 1)
      && h1.log == h0.log + (if o.Some? && o.value.origin == me then [EKey(k)] else [])
    requires Count(d1.counter, Counter(Vacated, me)) + h1.lost
          == Count(d0.counter, Counter(Vacated, me)) + h0.lost + Own(me, EOrigin(At(d0.edge, k)))
    ensures LedgerOk(e, me, d1, h1) && Evolves(me, d0, h0, d1, h1)
  {
    hide LoggedE, KeptE, Census;
    CensusEdge(e, me, d0, d1, k, o);
    if !h0.echo { LoggedEdge(me, d0.edge, h0.log, k, o); }
  }

  lemma LoggedEdge(me: string, t0: map<EdgeKey, ERow>, log: seq<RowKey>, k: EdgeKey, o: Option<ERow>)
    requires LoggedE(me, t0, log)
    requires o.Some? && o.value.origin == me ==> o.value.sn == |log| + 1
    ensures LoggedE(me, Edit(t0, k, o), log + (if o.Some? && o.value.origin == me then [EKey(k)] else []))
    ensures KeptE(me, t0, |log|, Edit(t0, k, o))
  {
  }

  /** The counters move by exactly the names of the row that came minus those of the row that went. */
  lemma CountersVertex(e: Env, d0: Db, h0: History, d1: Db, h1: History, id: string, o: Option<VRow>)
    requires CountersOk(e, d0, h0)
    requires d1.vertex == Edit(d0.vertex, id, o) && d1.edge == d0.edge
    requires forall n :: Recounted(n) ==>
      Count(d1.counter, n) - Count(h1.drift, n) == Count(d0.counter, n) - Count(h0.drift, n)
        + SumAt(id, o, VertexNames(e))[n] as int - SumAt(id, At(d0.vertex, id), VertexNames(e))[n] as int
    ensures CountersOk(e, d1, h1)
  {
    hide VertexNames, EdgeNames;
    VertexEdit(e, d0, d1, id, o);
    forall n | Recounted(n)
      ensures Count(d1.counter, n) == Census(e, d1)[n] + Count(h1.drift, n)
    {
      assert (Census(e, d1) + SumAt(id, At(d0.vertex, id), VertexNames(e)))[n]
          == (Census(e, d0) + SumAt(id, o, VertexNames(e)))[n];
    }
  }

  lemma CountersEdge(e: Env, d0: Db, h0: History, d1: Db, h1: History, k: EdgeKey, o: Option<ERow>)
    requires CountersOk(e, d0, h0)
    requires d1.edge == Edit(d0.edge, k, o) && d1.vertex == d0.vertex
    requires forall n :: Recounted(n) ==>
      Count(d1.counter, n) - Count(h1.drift, n) == Count(d0.counter, n) - Count(h0.drift, n)
        + SumAt(k, o, EdgeNames())[n] as int - SumAt(k, At(d0.edge, k), EdgeNames())[n] as int
    ensures CountersOk(e, d1, h1)
  {
    hide VertexNames, EdgeNames;
    EdgeEdit(e, d0, d1, k, o);
    forall n | Recounted(n)
      ensures Count(d1.counter, n) == Census(e, d1)[n] + Count(h1.drift, n)
    {
      assert (Census(e, d1) + SumAt(k, At(d0.edge, k), EdgeNames()))[n]
          == (Census(e, d0) + SumAt(k, o, EdgeNames()))[n];
    }
  }

  /** Only the sidecars of the changed artifact move. */
  lemma SidecarsVertex(e: Env, d0: Db, d1: Db, h: History, id: string, o: Option<VRow>)
    requires SidecarsOk(e, d0, h)
    requires d1.vertex == Edit(d0.vertex, id, o)
    requires forall j :: j != id ==> At(d1.task, j) == At(d0.task, j) && Group(d1.listkey, j) == Group(d0.listkey, j)
    requires SidecarAt(e, d1, h.lostIds, id) && StrayAt(d1, h, id)
    ensures SidecarsOk(e, d1, h)
  {
    hide TaskOf, PostingsOf;
    forall j
      ensures SidecarAt(e, d1, h.lostIds, j) && StrayAt(d1, h, j)
    {
      assert SidecarAt(e, d0, h.lostIds, j) && StrayAt(d0, h, j);
      assert j != id ==> At(d1.vertex, j) == At(d0.vertex, j);
    }
  }
}
