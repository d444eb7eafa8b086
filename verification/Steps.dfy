/**
 The row-level steps of the write path, each proved to keep every invariant.

 A step is given by the exact tables it leaves behind: the row, the counter upserts in the
 order the write path issues them, the two XORs, the sidecar and the postings.
 */
module Steps {
  import opened Folds
  import opened Tables
  import opened Invariants

  // ── a vertex row is written ──────────────────────────────────────────────────

  function TaskBefore(e: Env, prev: Option<VRow>): Option<TaskRow> {
    if prev.Some? then TaskOf(e, prev.value.doc, Get(prev.value.doc, ContentType)) else None
  }

  function BumpTask(c: map<Counter, int>, t: Option<TaskRow>, delta: int): map<Counter, int> {
    if t.Some? then Bump(c, TaskCounter(t.value.ct, t.value.status), delta) else c
  }

  function DocBefore(prev: Option<VRow>): Option<Doc> { if prev.Some? then Some(prev.value.doc) else None }
  function CtBefore(prev: Option<VRow>): Value { if prev.Some? then prev.value.ct else Null }

  /** Vacate the replaced row's seq, count the new row. */
  function TotalCounters(c: map<Counter, int>, prev: Option<VRow>, row: VRow): map<Counter, int> {
    var vacated := if prev.Some? then Vacate(c, prev.value.origin) else c;
    var rows := Bump(vacated, Counter(Rows, row.origin), 1);
    if prev.None? then Bump(rows, Counter(VertexTotal, ""), 1) else rows
  }

  function WrittenCounters(e: Env, c: map<Counter, int>, prev: Option<VRow>, row: VRow): map<Counter, int> {
    var total := TotalCounters(c, prev, row);
    var recounted := BumpAll(total, CounterDeltas(e, DocBefore(prev), Some(row.doc), CtBefore(prev), row.ct));
    var retired := BumpTask(recounted, TaskBefore(e, prev), -1);
    BumpTask(retired, TaskOf(e, row.doc, row.ct), 1)
  }

  function WrittenTask(t: map<string, TaskRow>, id: string, o: Option<TaskRow>): map<string, TaskRow> {
    Edit(t, id, o)
  }

  function Posted(l: map<string, multiset<Posting>>, id: string, ps: multiset<Posting>)
    : map<string, multiset<Posting>> {
    if ps == multiset{} then l else l[id := Group(l, id) + ps]
  }

  lemma VertexNameCount(e: Env, id: string, r: VRow, n: Counter)
    ensures VertexNames(e)(id, r)[n] ==
      (if n == Counter(VertexTotal, "") then 1 else 0) + (if n == Counter(Rows, r.origin) then 1 else 0)
      + DocNames(e, r.doc, r.ct)[n] + TaskNames(TaskOf(e, r.doc, r.ct))[n]
  {
    hide DocNames, TaskNames, TaskOf;
  }

  lemma TaskNameCount(t: Option<TaskRow>, n: Counter)
    ensures TaskNames(t)[n] == if t.Some? && n == TaskCounter(t.value.ct, t.value.status) then 1 else 0
  {
  }

  function OneIf(b: bool): nat { if b then 1 else 0 }

  lemma TotalCounts(c: map<Counter, int>, prev: Option<VRow>, row: VRow, n: Counter)
    requires prev.Some? ==> prev.value.origin != ""
    ensures !n.family.Vacated? ==>
      Count(TotalCounters(c, prev, row), n) == Count(c, n)
        + OneIf(n == Counter(Rows, row.origin)) - OneIf(prev.Some? && n == Counter(Rows, prev.value.origin))
        + OneIf(prev.None? && n == Counter(VertexTotal, ""))
    ensures n.family.Vacated? ==>
      Count(TotalCounters(c, prev, row), n) == Count(c, n) + OneIf(prev.Some? && prev.value.origin == n.arg)
  {
    hide Bump, Count;
  }

  lemma BumpTaskCount(c: map<Counter, int>, t: Option<TaskRow>, delta: int, n: Counter)
    ensures Count(BumpTask(c, t, delta), n) == Count(c, n) + TaskNames(t)[n] * delta
  {
    hide Bump, Count;
    TaskNameCount(t, n);
  }

  lemma WrittenCounts(e: Env, c: map<Counter, int>, id: string, prev: Option<VRow>, row: VRow, n: Counter)
    requires prev.Some? ==> prev.value.origin != "" && prev.value.ct == Get(prev.value.doc, ContentType)
    ensures Recounted(n) ==>
      Count(WrittenCounters(e, c, prev, row), n) == Count(c, n)
        + VertexNames(e)(id, row)[n] as int - SumAt(id, prev, VertexNames(e))[n] as int
    ensures n.family.Vacated? ==>
      Count(WrittenCounters(e, c, prev, row), n) == Count(c, n)
        + if prev.Some? && prev.value.origin == n.arg then 1 else 0
  {
    hide DocNames, TaskNames, TaskOf, VertexNames, CounterDeltas, BumpAll, BumpTask, TotalCounters, Count;
    var total := TotalCounters(c, prev, row);
    var recounted := BumpAll(total, CounterDeltas(e, DocBefore(prev), Some(row.doc), CtBefore(prev), row.ct));
    TotalCounts(c, prev, row, n);
    BumpTaskCount(recounted, TaskBefore(e, prev), -1, n);
    BumpTaskCount(BumpTask(recounted, TaskBefore(e, prev), -1), TaskOf(e, row.doc, row.ct), 1, n);
    VertexNameCount(e, id, row, n);
    TaskNameCount(TaskBefore(e, prev), n);
    if prev.Some? { VertexNameCount(e, id, prev.value, n); }
    if n.family.Vacated? {
      TaskNamesFamily(TaskOf(e, row.doc, row.ct), n);
      DocNamesFamilies(e, row.doc, row.ct, n);
      if prev.Some? {
        TaskNamesFamily(TaskBefore(e, prev), n);
        DocNamesFamilies(e, prev.value.doc, prev.value.ct, n);
      }
    }
  }

  /** The tables after a vertex row was written, statement by statement. */
  function WrittenDb(e: Env, d: Db, id: string, row: VRow): Db {
    var prev := At(d.vertex, id);
    var cleared := if prev.Some? then d.listkey - {id} else d.listkey;
    Db(d.vertex[id := row], d.edge, d.seqs,
       WrittenCounters(e, d.counter, prev, row),
       XorLeaf(XorLeaf(d.digests, row.leaf, RowHashOf(e, id, prev)), row.leaf, e.rowHash(id, row.sn)),
       WrittenTask(d.task, id, TaskOf(e, row.doc, row.ct)),
       Posted(cleared, id, PostingsOf(e, row.doc, row.ct)))
  }

  function Appended(me: string, h: History, k: RowKey, origin: string): History {
    if origin == me then h.(log := h.log + [k]) else h
  }

  lemma WriteMerkle(e: Env, leaves: nat, d: Db, h: History, h1: History, id: string, row: VRow)
    requires Stamped(e, leaves, d) && MerkleOk(e, d, h) && h1.orphan == h.orphan
    requires row.leaf == e.slot(id) % leaves
    ensures MerkleOk(e, WrittenDb(e, d, id, row), h1)
  {
    hide WrittenCounters, Rescan, TaskOf, PostingsOf, Xor, XorLeaf, Leaf;
    MerkleVertex(e, leaves, d, WrittenDb(e, d, id, row), h, id, Some(row));
  }

  lemma WriteCounters(e: Env, d: Db, h: History, h1: History, id: string, row: VRow)
    requires Shaped(d) && CountersOk(e, d, h) && h1.drift == h.drift
    ensures CountersOk(e, WrittenDb(e, d, id, row), h1)
  {
    hide WrittenCounters, VertexNames, EdgeNames, Census, TaskOf, PostingsOf, XorLeaf, Count;
    var d1, prev := WrittenDb(e, d, id, row), At(d.vertex, id);
    forall n ensures Recounted(n) ==>
      Count(d1.counter, n) - Count(h1.drift, n) == Count(d.counter, n) - Count(h.drift, n)
        + SumAt(id, Some(row), VertexNames(e))[n] as int - SumAt(id, prev, VertexNames(e))[n] as int
    {
      WrittenCounts(e, d.counter, id, prev, row, n);
    }
    CountersVertex(e, d, h, d1, h1, id, Some(row));
  }

  lemma WriteLedger(e: Env, me: string, d: Db, h: History, id: string, row: VRow)
    requires Shaped(d) && LedgerOk(e, me, d, h)
    requires !h.echo && row.origin == me ==> row.sn == |h.log| + 1
    ensures LedgerOk(e, me, WrittenDb(e, d, id, row), Appended(me, h, VKey(id), row.origin))
    ensures Evolves(me, d, h, WrittenDb(e, d, id, row), Appended(me, h, VKey(id), row.origin))
  {
    hide WrittenCounters, VertexNames, LedgerOk, Evolves, Census, TaskOf, PostingsOf, XorLeaf, Count;
    WrittenCounts(e, d.counter, id, At(d.vertex, id), row, Counter(Vacated, me));
    LedgerVertex(e, me, d, h, WrittenDb(e, d, id, row), Appended(me, h, VKey(id), row.origin), id, Some(row));
  }

  lemma WriteSidecars(e: Env, d: Db, h: History, h1: History, id: string, row: VRow)
    requires SidecarsOk(e, d, h) && h1.lostIds == h.lostIds && h1.stray == h.stray
    ensures SidecarsOk(e, WrittenDb(e, d, id, row), h1)
  {
    hide WrittenCounters, TaskOf, PostingsOf, XorLeaf;
    var d1 := WrittenDb(e, d, id, row);
    assert SidecarAt(e, d, h.lostIds, id);
    assert SidecarAt(e, d1, h.lostIds, id);
    forall j ensures StrayAt(d, h1, j) { assert StrayAt(d, h, j); }
    SidecarsVertex(e, d, d1, h1, id, Some(row));
  }

  lemma WriteVertexStep(e: Env, me: string, leaves: nat, d: Db, h: History, id: string, row: VRow)
    requires Ok(e, me, leaves, d, h)
    requires id != "" && row.origin != "" && row.ct == Get(row.doc, ContentType)
    requires row.leaf == e.slot(id) % leaves
    requires !h.echo && row.origin == me ==> row.sn == |h.log| + 1
    ensures Ok(e, me, leaves, WrittenDb(e, d, id, row), Appended(me, h, VKey(id), row.origin))
    ensures Evolves(me, d, h, WrittenDb(e, d, id, row), Appended(me, h, VKey(id), row.origin))
  {
    hide MerkleOk, CountersOk, LedgerOk, SidecarsOk, Evolves, WrittenCounters, TaskOf, PostingsOf, XorLeaf;
    var h1 := Appended(me, h, VKey(id), row.origin);
    WriteMerkle(e, leaves, d, h, h1, id, row);
    WriteCounters(e, d, h, h1, id, row);
    WriteLedger(e, me, d, h, id, row);
    WriteSidecars(e, d, h, h1, id, row);
  }

  // ── a vertex row is removed ──────────────────────────────────────────────────

  function RemovedCounters(e: Env, c: map<Counter, int>, prev: VRow, accounted: bool): map<Counter, int> {
    var total := Bump(c, Counter(VertexTotal, ""), -1);
    var vacated := if accounted then Vacate(total, prev.origin) else total;
    var recounted := BumpAll(vacated, CounterDeltas(e, Some(prev.doc), None, prev.ct, Null));
    BumpTask(recounted, TaskBefore(e, Some(prev)), -1)
  }

  function RemovedDb(e: Env, d: Db, id: string, accounted: bool): Db
    requires id in d.vertex
  {
    var prev := d.vertex[id];
    Db(d.vertex - {id}, d.edge, d.seqs,
       RemovedCounters(e, d.counter, prev, accounted),
       XorLeaf(d.digests, prev.leaf, e.rowHash(id, prev.sn)),
       d.task - {id}, d.listkey - {id})
  }

  /** An unaccounted removal leaves its `rows:<origin>` count behind, and a local seq without a row;
      any removal takes the task row of the artifact with it. */
  function RemovedHistory(me: string, h: History, id: string, prev: VRow, accounted: bool): History {
    var cleared := h.(stray := h.stray - {id});
    if accounted then cleared
    else cleared.(drift := Bump(h.drift, Counter(Rows, prev.origin), 1), lost := h.lost + Own(me, Some(prev.origin)))
  }

  lemma RemovedCounts(e: Env, c: map<Counter, int>, id: string, prev: VRow, accounted: bool, n: Counter)
    requires prev.origin != "" && prev.ct == Get(prev.doc, ContentType)
    ensures Recounted(n) ==>
      Count(RemovedCounters(e, c, prev, accounted), n) == Count(c, n)
        - VertexNames(e)(id, prev)[n] as int + OneIf(!accounted && n == Counter(Rows, prev.origin))
    ensures n.family.Vacated? ==>
      Count(RemovedCounters(e, c, prev, accounted), n) == Count(c, n) + OneIf(accounted && prev.origin == n.arg)
  {
    hide DocNames, TaskNames, TaskOf, VertexNames, CounterDeltas, BumpAll, BumpTask, Bump, Count;
    var total := Bump(c, Counter(VertexTotal, ""), -1);
    var vacated := if accounted then Vacate(total, prev.origin) else total;
    var recounted := BumpAll(vacated, CounterDeltas(e, Some(prev.doc), None, prev.ct, Null));
    BumpTaskCount(recounted, TaskBefore(e, Some(prev)), -1, n);
    VertexNameCount(e, id, prev, n);
    if n.family.Vacated? {
      TaskNamesFamily(TaskBefore(e, Some(prev)), n);
      DocNamesFamilies(e, prev.doc, prev.ct, n);
    }
  }

  lemma RemoveMerkle(e: Env, me: string, leaves: nat, d: Db, h: History, id: string, accounted: bool)
    requires Stamped(e, leaves, d) && MerkleOk(e, d, h) && id in d.vertex
    ensures MerkleOk(e, RemovedDb(e, d, id, accounted), RemovedHistory(me, h, id, d.vertex[id], accounted))
  {
    hide RemovedCounters, Rescan, Xor, Leaf;
    var d1 := RemovedDb(e, d, id, accounted);
    assert d1.vertex == Edit(d.vertex, id, None);
    MerkleVertex(e, leaves, d, d1, RemovedHistory(me, h, id, d.vertex[id], accounted), id, None);
  }

  lemma RemoveCounters(e: Env, me: string, d: Db, h: History, id: string, accounted: bool)
    requires Shaped(d) && CountersOk(e, d, h) && id in d.vertex
    ensures CountersOk(e, RemovedDb(e, d, id, accounted), RemovedHistory(me, h, id, d.vertex[id], accounted))
  {
    hide RemovedCounters, VertexNames, EdgeNames, Census, XorLeaf, Count, Bump;
    var prev := d.vertex[id];
    var d1, h1 := RemovedDb(e, d, id, accounted), RemovedHistory(me, h, id, prev, accounted);
    assert d1.vertex == Edit(d.vertex, id, None);
    forall n ensures Recounted(n) ==>
      Count(d1.counter, n) - Count(h1.drift, n) == Count(d.counter, n) - Count(h.drift, n)
        + SumAt(id, None, VertexNames(e))[n] as int - SumAt(id, At(d.vertex, id), VertexNames(e))[n] as int
    {
      RemovedCounts(e, d.counter, id, prev, accounted, n);
    }
    CountersVertex(e, d, h, d1, h1, id, None);
  }

  lemma RemoveLedger(e: Env, me: string, d: Db, h: History, id: string, accounted: bool)
    requires Shaped(d) && LedgerOk(e, me, d, h) && id in d.vertex
    ensures LedgerOk(e, me, RemovedDb(e, d, id, accounted), RemovedHistory(me, h, id, d.vertex[id], accounted))
    ensures Evolves(me, d, h, RemovedDb(e, d, id, accounted), RemovedHistory(me, h, id, d.vertex[id], accounted))
  {
    hide RemovedCounters, VertexNames, LedgerOk, Evolves, Census, XorLeaf, Count;
    var prev := d.vertex[id];
    var d1 := RemovedDb(e, d, id, accounted);
    assert d1.vertex == Edit(d.vertex, id, None);
    RemovedCounts(e, d.counter, id, prev, accounted, Counter(Vacated, me));
    LedgerVertex(e, me, d, h, d1, RemovedHistory(me, h, id, prev, accounted), id, None);
  }

  lemma RemoveSidecars(e: Env, me: string, d: Db, h: History, id: string, accounted: bool)
    requires SidecarsOk(e, d, h) && id in d.vertex
    ensures SidecarsOk(e, RemovedDb(e, d, id, accounted), RemovedHistory(me, h, id, d.vertex[id], accounted))
  {
    hide RemovedCounters, TaskOf, PostingsOf, XorLeaf;
    var d1 := RemovedDb(e, d, id, accounted);
    assert d1.vertex == Edit(d.vertex, id, None);
    var h1 := RemovedHistory(me, h, id, d.vertex[id], accounted);
    assert SidecarAt(e, d1, h.lostIds, id);
    forall j ensures SidecarAt(e, d, h1.lostIds, j) && StrayAt(d, h1, j) {
      assert SidecarAt(e, d, h.lostIds, j) && StrayAt(d, h, j);
    }
    SidecarsVertex(e, d, d1, h1, id, None);
  }

  lemma RemoveVertexStep(e: Env, me: string, leaves: nat, d: Db, h: History, id: string, accounted: bool)
    requires Ok(e, me, leaves, d, h) && id in d.vertex
    ensures Ok(e, me, leaves, RemovedDb(e, d, id, accounted), RemovedHistory(me, h, id, d.vertex[id], accounted))
    ensures Evolves(me, d, h, RemovedDb(e, d, id, accounted), RemovedHistory(me, h, id, d.vertex[id], accounted))
  {
    hide MerkleOk, CountersOk, LedgerOk, SidecarsOk, Evolves, RemovedHistory, RemovedCounters, XorLeaf;
    RemoveMerkle(e, me, leaves, d, h, id, accounted);
    RemoveCounters(e, me, d, h, id, accounted);
    RemoveLedger(e, me, d, h, id, accounted);
    RemoveSidecars(e, me, d, h, id, accounted);
  }

  // ── an edge row is written ───────────────────────────────────────────────────

  function WrittenEdgeCounters(c: map<Counter, int>, k: EdgeKey, prior: Option<ERow>, row: ERow): map<Counter, int> {
    var kept := if prior.None? then Bump(Bump(c, Counter(EdgeTotal, ""), 1), Counter(EdgeLabel, k.rel), 1)
                else Vacate(c, prior.value.origin);
    Bump(kept, Counter(Rows, row.origin), 1)
  }

  function WrittenEdgeDb(e: Env, d: Db, k: EdgeKey, row: ERow): Db {
    var prior := At(d.edge, k);
    d.(edge := d.edge[k := row],
       digests := XorLeaf(XorLeaf(d.digests, row.leaf, EdgeHashOf(e, k, prior)), row.leaf, EdgeDigest(e, k, row)),
       counter := WrittenEdgeCounters(d.counter, k, prior, row))
  }

  lemma EdgeNameCount(k: EdgeKey, r: ERow, n: Counter)
    ensures EdgeNames()(k, r)[n] ==
      OneIf(n == Counter(EdgeTotal, "")) + OneIf(n == Counter(EdgeLabel, k.rel)) + OneIf(n == Counter(Rows, r.origin))
  {
  }

  lemma WrittenEdgeCounts(c: map<Counter, int>, k: EdgeKey, prior: Option<ERow>, row: ERow, n: Counter)
    requires prior.Some? ==> prior.value.origin != ""
    ensures Recounted(n) ==>
      Count(WrittenEdgeCounters(c, k, prior, row), n) == Count(c, n)
        + EdgeNames()(k, row)[n] as int - SumAt(k, prior, EdgeNames())[n] as int
    ensures n.family.Vacated? ==>
      Count(WrittenEdgeCounters(c, k, prior, row), n) == Count(c, n) + OneIf(prior.Some? && prior.value.origin == n.arg)
  {
    hide EdgeNames, Bump, Count;
    EdgeNameCount(k, row, n);
    if prior.Some? { EdgeNameCount(k, prior.value, n); }
  }

  lemma EdgeCountersOk(e: Env, d: Db, h: History, h1: History, k: EdgeKey, row: ERow)
    requires Shaped(d) && CountersOk(e, d, h) && h1.drift == h.drift
    ensures CountersOk(e, WrittenEdgeDb(e, d, k, row), h1)
  {
    hide WrittenEdgeCounters, VertexNames, EdgeNames, Census, XorLeaf, Count;
    var d1, prior := WrittenEdgeDb(e, d, k, row), At(d.edge, k);
    forall n ensures Recounted(n) ==>
      Count(d1.counter, n) - Count(h1.drift, n) == Count(d.counter, n) - Count(h.drift, n)
        + SumAt(k, Some(row), EdgeNames())[n] as int - SumAt(k, prior, EdgeNames())[n] as int
    {
      WrittenEdgeCounts(d.counter, k, prior, row, n);
    }
    CountersEdge(e, d, h, d1, h1, k, Some(row));
  }

  lemma WriteEdgeStep(e: Env, me: string, leaves: nat, d: Db, h: History, k: EdgeKey, row: ERow)
    requires Ok(e, me, leaves, d, h)
    requires row.origin != "" && row.leaf == e.edgeSlot(k) % leaves
    requires !h.echo && row.origin == me ==> row.sn == |h.log| + 1
    ensures Ok(e, me, leaves, WrittenEdgeDb(e, d, k, row), Appended(me, h, EKey(k), row.origin))
    ensures Evolves(me, d, h, WrittenEdgeDb(e, d, k, row), Appended(me, h, EKey(k), row.origin))
  {
    hide MerkleOk, CountersOk, LedgerOk, Evolves, SidecarsOk, WrittenEdgeCounters, XorLeaf, Count, EdgeDigest;
    var d1, h1 := WrittenEdgeDb(e, d, k, row), Appended(me, h, EKey(k), row.origin);
    MerkleEdge(e, leaves, d, d1, h1, k, Some(row)) by { assert MerkleOk(e, d, h1) by { MerkleOrphan(e, d, h, h1); } }
    EdgeCountersOk(e, d, h, h1, k, row);
    WrittenEdgeCounts(d.counter, k, At(d.edge, k), row, Counter(Vacated, me));
    LedgerEdge(e, me, d, h, d1, h1, k, Some(row));
    SidecarsSame(e, d, d1, h, h1);
  }

  lemma MerkleOrphan(e: Env, d: Db, h: History, h1: History)
    requires MerkleOk(e, d, h) && h1.orphan == h.orphan
    ensures MerkleOk(e, d, h1)
  {
  }

  lemma SidecarsSame(e: Env, d: Db, d1: Db, h: History, h1: History)
    requires SidecarsOk(e, d, h) && h1.lostIds == h.lostIds && h1.stray == h.stray
    requires d1.vertex == d.vertex && d1.task == d.task && d1.listkey == d.listkey
    ensures SidecarsOk(e, d1, h1)
  {
    hide TaskOf, PostingsOf;
    forall id
      ensures SidecarAt(e, d1, h1.lostIds, id) && StrayAt(d1, h1, id)
    {
      assert SidecarAt(e, d, h.lostIds, id) && StrayAt(d, h, id);
    }
  }

  // ── an edge row is retired ───────────────────────────────────────────────────

  function RetiredEdgeCounters(c: map<Counter, int>, k: EdgeKey, prev: ERow): map<Counter, int> {
    Vacate(Bump(Bump(c, Counter(EdgeTotal, ""), -1), Counter(EdgeLabel, k.rel), -1), prev.origin)
  }

  function RetiredEdgeDb(e: Env, leaves: nat, d: Db, k: EdgeKey): Db
    requires k in d.edge && leaves > 0
  {
    var prev := d.edge[k];
    d.(edge := d.edge - {k},
       digests := XorLeaf(d.digests, e.edgeSlot(k) % leaves, EdgeDigest(e, k, prev)),
       counter := RetiredEdgeCounters(d.counter, k, prev))
  }

  lemma RetiredEdgeCounts(c: map<Counter, int>, k: EdgeKey, prev: ERow, n: Counter)
    requires prev.origin != ""
    ensures Recounted(n) ==> Count(RetiredEdgeCounters(c, k, prev), n) == Count(c, n) - EdgeNames()(k, prev)[n] as int
    ensures n.family.Vacated? ==> Count(RetiredEdgeCounters(c, k, prev), n) == Count(c, n) + OneIf(prev.origin == n.arg)
  {
    hide EdgeNames, Bump, Count;
    EdgeNameCount(k, prev, n);
  }

  lemma RetireEdgeStep(e: Env, me: string, leaves: nat, d: Db, h: History, k: EdgeKey)
    requires Ok(e, me, leaves, d, h) && k in d.edge
    ensures Ok(e, me, leaves, RetiredEdgeDb(e, leaves, d, k), h)
    ensures Evolves(me, d, h, RetiredEdgeDb(e, leaves, d, k), h)
  {
    hide MerkleOk, CountersOk, LedgerOk, Evolves, SidecarAt, RetiredEdgeCounters, XorLeaf, Count, EdgeDigest;
    var d1, prev := RetiredEdgeDb(e, leaves, d, k), d.edge[k];
    assert d1.edge == Edit(d.edge, k, None);
    assert d1.digests == XorLeaf(d1.digests, e.edgeSlot(k) % leaves,
        0) by { XorLeafZero(d1.digests, e.edgeSlot(k) % leaves); }
    MerkleEdge(e, leaves, d, d1, h, k, None);
    RetireCounters(e, leaves, d, h, k);
    RetiredEdgeCounts(d.counter, k, prev, Counter(Vacated, me));
    LedgerEdge(e, me, d, h, d1, h, k, None);
    SidecarsSame(e, d, d1, h, h);
  }

  lemma XorLeafZero(l: map<nat, bv64>, leaf: nat)
    ensures XorLeaf(l, leaf, 0) == l
  {
  }

  lemma RetireCounters(e: Env, leaves: nat, d: Db, h: History, k: EdgeKey)
    requires Shaped(d) && CountersOk(e, d, h) && k in d.edge && leaves > 0
    ensures CountersOk(e, RetiredEdgeDb(e, leaves, d, k), h)
  {
    hide RetiredEdgeCounters, VertexNames, EdgeNames, Census, XorLeaf, Count, EdgeDigest;
    var d1, prev := RetiredEdgeDb(e, leaves, d, k), d.edge[k];
    assert d1.edge == Edit(d.edge, k, None);
    forall n ensures Recounted(n) ==>
      Count(d1.counter, n) - Count(h.drift, n) == Count(d.counter, n) - Count(h.drift, n)
        + SumAt(k, None, EdgeNames())[n] as int - SumAt(k, At(d.edge, k), EdgeNames())[n] as int
    {
      RetiredEdgeCounts(d.counter, k, prev, n);
    }
    CountersEdge(e, d, h, d1, h, k, None);
  }

  // ── a document is patched in place, at the version it has ────────────────────

  lemma PatchStep(e: Env, me: string, leaves: nat, d: Db, h: History, d1: Db, id: string, doc: Doc)
    requires Ok(e, me, leaves, d, h) && id in d.vertex
    requires d1.vertex == d.vertex[id := d.vertex[id].(doc := doc)]
    requires d1.edge == d.edge && d1.digests == d.digests && d1.seqs == d.seqs
    requires Get(doc, ContentType) == Get(d.vertex[id].doc, ContentType)
    requires forall n :: Recounted(n) ==>
      Count(d1.counter, n) == Count(d.counter, n)
        + VertexNames(e)(id, d1.vertex[id])[n] as int - VertexNames(e)(id, d.vertex[id])[n] as int
    requires Count(d1.counter, Counter(Vacated, me)) == Count(d.counter, Counter(Vacated, me))
    requires forall j :: j != id ==> At(d1.task, j) == At(d.task, j) && Group(d1.listkey, j) == Group(d.listkey, j)
    requires SidecarAt(e, d1, h.lostIds, id)
    ensures Ok(e, me, leaves, d1, h) && Evolves(me, d, h, d1, h)
  {
    hide MerkleOk, CountersOk, SidecarsOk, SidecarAt, Census, VertexNames, EdgeNames, Count;
    var row := d1.vertex[id];
    PatchMerkle(e, leaves, d, h, d1, id, doc);
    CountersVertex(e, d, h, d1, h, id, Some(row));
    CensusVertex(e, me, d, d1, id, Some(row));
    SidecarsVertex(e, d, d1, h, id, Some(row));
  }

  lemma PatchMerkle(e: Env, leaves: nat, d: Db, h: History, d1: Db, id: string, doc: Doc)
    requires Stamped(e, leaves, d) && MerkleOk(e, d, h) && id in d.vertex
    requires d1.vertex == d.vertex[id := d.vertex[id].(doc := doc)]
    requires d1.edge == d.edge && d1.digests == d.digests
    ensures MerkleOk(e, d1, h)
  {
    hide Xor, Rescan;
    forall i: nat
      ensures Rescan(e, d1, i) == Rescan(e, d, i)
    {
      RescanVertex(e, leaves, d, d1, id, Some(d1.vertex[id]), i);
      XorUnits(e.rowHash(id, d.vertex[id].sn), 0);
      XorUnits(Rescan(e, d, i), 0);
    }
  }

  // ── a row vanishes outside the write path ────────────────────────────────────

  function AddNames(c: map<Counter, int>, names: multiset<Counter>): (r: map<Counter, int>)
    ensures forall n :: Count(r, n) == Count(c, n) + names[n]
  {
    var touched := set n | n in names;
    map n | n in c.Keys + touched :: Count(c, n) + names[n]
  }

  function LostVertexHistory(e: Env, me: string, h: History, id: string, row: VRow): History {
    h.(lost := h.lost + Own(me, Some(row.origin)),
       drift := AddNames(h.drift, VertexNames(e)(id, row)),
       orphan := XorLeaf(h.orphan, row.leaf, e.rowHash(id, row.sn)),
       lostIds := h.lostIds + {id},
       stray := Edit(h.stray, id, TaskOf(e, row.doc, row.ct)))
  }

  function LostEdgeHistory(e: Env, me: string, h: History, k: EdgeKey, row: ERow): History {
    h.(lost := h.lost + Own(me, Some(row.origin)),
       drift := AddNames(h.drift, EdgeNames()(k, row)),
       orphan := XorLeaf(h.orphan, row.leaf, EdgeDigest(e, k, row)))
  }

  lemma XorCancel(s: bv64, w: bv64, x: bv64)
    ensures Xor(Xor(s, Xor(x, 0)), Xor(w, x)) == Xor(s, w)
  {
    hide Xor;
    XorUnits(x, 0);
    XorUnits(w, x);
    XorPairs(s, x, x, w);
    XorPairs(s, x, w, x);
    XorUnits(Xor(s, w), 0);
  }

  lemma LoseVertexStep(e: Env, me: string, leaves: nat, d: Db, h: History, id: string)
    requires Ok(e, me, leaves, d, h) && id in d.vertex
    ensures var d1, h1 := d.(vertex := d.vertex - {id}), LostVertexHistory(e, me, h, id, d.vertex[id]);
            Ok(e, me, leaves, d1, h1) && Evolves(me, d, h, d1, h1)
  {
    hide MerkleOk, CountersOk, LedgerOk, SidecarsOk, Evolves, SidecarAt, VertexNames, EdgeNames, TaskOf, XorLeaf, Count;
    var d1, h1 := d.(vertex := d.vertex - {id}), LostVertexHistory(e, me, h, id, d.vertex[id]);
    assert d1.vertex == Edit(d.vertex, id, None);
    LoseVertexMerkle(e, me, leaves, d, h, id);
    CountersVertex(e, d, h, d1, h1, id, None);
    LedgerVertex(e, me, d, h, d1, h1, id, None);
    LoseVertexSidecars(e, me, d, h, id);
  }

  lemma LoseVertexSidecars(e: Env, me: string, d: Db, h: History, id: string)
    requires SidecarsOk(e, d, h) && id in d.vertex
    ensures SidecarsOk(e, d.(vertex := d.vertex - {id}), LostVertexHistory(e, me, h, id, d.vertex[id]))
  {
    hide TaskOf, PostingsOf, AddNames, VertexNames, XorLeaf;
    var d1, h1 := d.(vertex := d.vertex - {id}), LostVertexHistory(e, me, h, id, d.vertex[id]);
    assert SidecarAt(e, d, h.lostIds, id);
    forall j
      ensures SidecarAt(e, d1, h1.lostIds, j) && StrayAt(d1, h1, j)
    {
      assert SidecarAt(e, d, h.lostIds, j) && StrayAt(d, h, j);
    }
  }

  lemma LoseVertexMerkle(e: Env, me: string, leaves: nat, d: Db, h: History, id: string)
    requires Stamped(e, leaves, d) && MerkleOk(e, d, h) && id in d.vertex
    ensures MerkleOk(e, d.(vertex := d.vertex - {id}), LostVertexHistory(e, me, h, id, d.vertex[id]))
  {
    hide Xor, Rescan, AddNames, VertexNames;
    var d1, x := d.(vertex := d.vertex - {id}), e.rowHash(id, d.vertex[id].sn);
    assert d1.vertex == Edit(d.vertex, id, None);
    forall i: nat
      ensures Leaf(d1.digests, i) == Xor(Rescan(e, d1, i),
          Leaf(LostVertexHistory(e, me, h, id, d.vertex[id]).orphan, i))
    {
      RescanVertex(e, leaves, d, d1, id, None, i);
      XorCancel(Rescan(e, d, i), Leaf(h.orphan, i), x);
    }
  }

  lemma LoseEdgeStep(e: Env, me: string, leaves: nat, d: Db, h: History, k: EdgeKey)
    requires Ok(e, me, leaves, d, h) && k in d.edge
    ensures var d1, h1 := d.(edge := d.edge - {k}), LostEdgeHistory(e, me, h, k, d.edge[k]);
            Ok(e, me, leaves, d1, h1) && Evolves(me, d, h, d1, h1)
  {
    hide MerkleOk, CountersOk, LedgerOk, Evolves, SidecarAt, VertexNames, EdgeNames, XorLeaf, Count, EdgeDigest;
    var d1, h1 := d.(edge := d.edge - {k}), LostEdgeHistory(e, me, h, k, d.edge[k]);
    assert d1.edge == Edit(d.edge, k, None);
    LoseEdgeMerkle(e, me, leaves, d, h, k);
    CountersEdge(e, d, h, d1, h1, k, None);
    LedgerEdge(e, me, d, h, d1, h1, k, None);
    SidecarsSame(e, d, d1, h, h1);
  }

  lemma LoseEdgeMerkle(e: Env, me: string, leaves: nat, d: Db, h: History, k: EdgeKey)
    requires Stamped(e, leaves, d) && MerkleOk(e, d, h) && k in d.edge
    ensures MerkleOk(e, d.(edge := d.edge - {k}), LostEdgeHistory(e, me, h, k, d.edge[k]))
  {
    hide Xor, Rescan, AddNames, EdgeNames, EdgeDigest;
    var d1, x := d.(edge := d.edge - {k}), EdgeDigest(e, k, d.edge[k]);
    assert d1.edge == Edit(d.edge, k, None);
    forall i: nat
      ensures Leaf(d1.digests, i) == Xor(Rescan(e, d1, i), Leaf(LostEdgeHistory(e, me, h, k, d.edge[k]).orphan, i))
    {
      RescanEdge(e, leaves, d, d1, k, None, i);
      XorCancel(Rescan(e, d, i), Leaf(h.orphan, i), x);
    }
  }

  // ── the rows stay, the books move consistently ───────────────────────────────

  lemma RowsSame(e: Env, d: Db, d1: Db)
    requires d1.vertex == d.vertex && d1.edge == d.edge
    ensures Census(e, d1) == Census(e, d)
    ensures forall i: nat :: Rescan(e, d1, i) == Rescan(e, d, i)
  {
    hide VertexNames, EdgeNames, Xor;
  }

  lemma SameRowsOk(e: Env, me: string, leaves: nat, d: Db, h: History, d1: Db, h1: History)
    requires Ok(e, me, leaves, d, h)
    requires d1.vertex == d.vertex && d1.edge == d.edge && d1.digests == d.digests
    requires LocalOnly(me, d1)
    requires h1.log == h.log && h1.lost == h.lost && h1.orphan == h.orphan && (h.echo ==> h1.echo)
    requires forall n :: Recounted(n) ==>
        Count(d1.counter, n) - Count(h1.drift, n) == Count(d.counter, n) - Count(h.drift, n)
    requires Count(d1.counter, Counter(Vacated, me)) == Count(d.counter, Counter(Vacated, me))
    requires SidecarsOk(e, d1, h1)
    ensures Ok(e, me, leaves, d1, h1) && Evolves(me, d, h, d1, h1)
  {
    hide SidecarAt, Census, Rescan, Count;
    RowsSame(e, d, d1);
  }
}
