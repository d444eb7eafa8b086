/**
 What each counter counts: the size of a set of rows told from the keys of their documents.
 */
module Audit {
  import opened Folds
  import opened Tables
  import opened Invariants
  import opened Steps
  import opened Writes
  import opened Documents

  // ── sets of rows ─────────────────────────────────────────────────────────────

  /** The key is absent, or what it holds is empty. */
  predicate Lacks(doc: Doc, k: Key) { Get(doc, k) in {Null, Str(""), Int(0), List([])} }

  predicate InLiveState(doc: Doc) { Get(doc, StateKey) in {Str("live"), Str("committed")} }

  /** The rows whose document holds something under `k` that reads `s` as text. */
  function Reading(e: Env, d: Db, k: Key, s: string): set<string> {
    set id | id in d.vertex && !Lacks(d.vertex[id].doc, k) && e.text(Get(d.vertex[id].doc, k)) == s
  }

  /** The live ones among the rows whose text under `k` is `s` without a suffix. */
  function LiveReading(e: Env, d: Db, k: Key, suffix: string, s: string): set<string> {
    set id | id in d.vertex && !Lacks(d.vertex[id].doc, k) && InLiveState(d.vertex[id].doc) &&
             e.text(Get(d.vertex[id].doc, k)) + suffix == s
  }

  function Lacking(d: Db, k: Key): set<string> { set id | id in d.vertex && Lacks(d.vertex[id].doc, k) }

  function LiveLacking(d: Db, k: Key): set<string> {
    set id | id in d.vertex && Lacks(d.vertex[id].doc, k) && InLiveState(d.vertex[id].doc)
  }

  // ── one row's part ───────────────────────────────────────────────────────────

  lemma LacksIs(doc: Doc, k: Key)
    ensures Lacks(doc, k) <==> !Truthy(Get(doc, k))
    ensures InLiveState(doc) <==> Live(doc)
  {
    TruthIs(Get(doc, k));
  }

  lemma CtPart(e: Env, doc: Doc, ct: Value, t: string)
    requires ct == Get(doc, ContentType)
    ensures DocNames(e, doc, ct)[Counter(CtOf, t)] == OneIf(!Lacks(doc, ContentType) &&
        e.text(Get(doc, ContentType)) == t)
  {
    hide MissingNames;
    LacksIs(doc, ContentType);
    MissingNamesFamily(doc, CitedFrom, "cited_from", Counter(CtOf, t));
    MissingNamesFamily(doc, Provenance, "provenance", Counter(CtOf, t));
  }

  lemma StatePart(e: Env, doc: Doc, ct: Value, s: string)
    ensures DocNames(e, doc, ct)[Counter(StateOf, s)] == OneIf(!Lacks(doc, StateKey) && e.text(Get(doc, StateKey)) == s)
  {
    hide MissingNames;
    LacksIs(doc, StateKey);
    MissingNamesFamily(doc, CitedFrom, "cited_from", Counter(StateOf, s));
    MissingNamesFamily(doc, Provenance, "provenance", Counter(StateOf, s));
  }

  lemma ColPart(e: Env, doc: Doc, ct: Value, c: string)
    ensures DocNames(e, doc, ct)[Counter(Col, c)] ==
            OneIf(!Lacks(doc, CollectionId) && e.text(Get(doc, CollectionId)) == c) +
            OneIf(!Lacks(doc, CollectionId) && InLiveState(doc) && e.text(Get(doc, CollectionId)) + ":committed" == c)
  {
    hide MissingNames;
    LacksIs(doc, CollectionId);
    MissingNamesFamily(doc, CitedFrom, "cited_from", Counter(Col, c));
    MissingNamesFamily(doc, Provenance, "provenance", Counter(Col, c));
  }

  lemma MissingPart(e: Env, doc: Doc, ct: Value, name: string)
    ensures DocNames(e, doc, ct)[Counter(Missing, name)] ==
            FieldPart(doc, CitedFrom, "cited_from", name) + FieldPart(doc, Provenance, "provenance", name)
  {
    hide MissingNames;
    FieldPartIs(doc, CitedFrom, "cited_from", name);
    FieldPartIs(doc, Provenance, "provenance", name);
  }

  function FieldPart(doc: Doc, k: Key, field: string, name: string): nat {
    OneIf(Lacks(doc, k) && name == field) + OneIf(Lacks(doc, k) && InLiveState(doc) && name == field + ":committed")
  }

  lemma FieldPartIs(doc: Doc, k: Key, field: string, name: string)
    ensures MissingNames(doc, k, field)[Counter(Missing, name)] == FieldPart(doc, k, field, name)
  {
    LacksIs(doc, k);
  }

  // ── the counters ─────────────────────────────────────────────────────────────

  /** A name only documents contribute, once by each row of `hits`, is due as often as there are such rows. */
  lemma DueOften(e: Env, d: Db, n: Counter, hits: set<string>)
    requires DocFamily(n) && hits <= d.vertex.Keys
    requires forall id :: id in d.vertex ==> DocNames(e, d.vertex[id].doc, d.vertex[id].ct)[n] == OneIf(id in hits)
    ensures Census(e, d)[n] == |hits|
  {
    hide DocNames, VertexNames, EdgeNames, TaskOf, TaskNames;
    forall id | id in d.vertex ensures VertexNames(e)(id, d.vertex[id])[n] == if id in hits then 1 else 0 {
      VertexNameCount(e, id, d.vertex[id], n);
      TaskNamesFamily(TaskOf(e, d.vertex[id].doc, d.vertex[id].ct), n);
    }
    forall k | k in d.edge ensures EdgeNames()(k, d.edge[k])[n] == 0 { EdgeNameCount(k, d.edge[k], n); }
    SumCounts(d.vertex, VertexNames(e), n, hits);
    SumCounts(d.edge, EdgeNames(), n, {});
  }

  lemma TypeCensus(e: Env, d: Db, t: string)
    requires Shaped(d)
    ensures Census(e, d)[Counter(CtOf, t)] == |Reading(e, d, ContentType, t)|
  {
    hide DocNames, Lacks, Census;
    forall id | id in d.vertex { CtPart(e, d.vertex[id].doc, d.vertex[id].ct, t); }
    DueOften(e, d, Counter(CtOf, t), Reading(e, d, ContentType, t));
  }

  lemma StateCensus(e: Env, d: Db, s: string)
    ensures Census(e, d)[Counter(StateOf, s)] == |Reading(e, d, StateKey, s)|
  {
    hide DocNames, Lacks, Census;
    forall id | id in d.vertex { StatePart(e, d.vertex[id].doc, d.vertex[id].ct, s); }
    DueOften(e, d, Counter(StateOf, s), Reading(e, d, StateKey, s));
  }

  /** A collection's counter and its `:committed` one, which another collection's id may join to. */
  lemma CollectionCensus(e: Env, d: Db, c: string)
    ensures Census(e, d)[Counter(Col, c)] ==
            |Reading(e, d, CollectionId, c)| + |LiveReading(e, d, CollectionId, ":committed", c)|
  {
    hide DocNames, Lacks, InLiveState, Census;
    var a, b := Reading(e, d, CollectionId, c), LiveReading(e, d, CollectionId, ":committed", c);
    forall id | id in a ensures id !in b { assert |e.text(Get(d.vertex[id].doc, CollectionId)) + ":committed"| > |c|; }
    forall id | id in d.vertex { ColPart(e, d.vertex[id].doc, d.vertex[id].ct, c); }
    DueOften(e, d, Counter(Col, c), a + b);
    assert a !! b;
  }

  lemma ProvenanceCensus(e: Env, d: Db)
    ensures Census(e, d)[Counter(Missing, "cited_from")] == |Lacking(d, CitedFrom)|
    ensures Census(e, d)[Counter(Missing, "cited_from:committed")] == |LiveLacking(d, CitedFrom)|
    ensures Census(e, d)[Counter(Missing, "provenance")] == |Lacking(d, Provenance)|
    ensures Census(e, d)[Counter(Missing, "provenance:committed")] == |LiveLacking(d, Provenance)|
  {
    hide DocNames, Lacks, InLiveState, Census;
    forall id | id in d.vertex ensures ProvenanceParts(e, d.vertex[id].doc, d.vertex[id].ct) {
      ProvenancePartsAre(e, d.vertex[id].doc, d.vertex[id].ct);
    }
    DueOften(e, d, Counter(Missing, "cited_from"), Lacking(d, CitedFrom));
    DueOften(e, d, Counter(Missing, "cited_from:committed"), LiveLacking(d, CitedFrom));
    DueOften(e, d, Counter(Missing, "provenance"), Lacking(d, Provenance));
    DueOften(e, d, Counter(Missing, "provenance:committed"), LiveLacking(d, Provenance));
  }

  /** A document is counted under each of the four names once or not at all. */
  predicate ProvenanceParts(e: Env, doc: Doc, ct: Value) {
    DocNames(e, doc, ct)[Counter(Missing, "cited_from")] == OneIf(Lacks(doc, CitedFrom)) &&
    DocNames(e, doc, ct)[Counter(Missing, "cited_from:committed")]
        == OneIf(Lacks(doc, CitedFrom) && InLiveState(doc)) &&
    DocNames(e, doc, ct)[Counter(Missing, "provenance")] == OneIf(Lacks(doc, Provenance)) &&
    DocNames(e, doc, ct)[Counter(Missing, "provenance:committed")] == OneIf(Lacks(doc, Provenance) && InLiveState(doc))
  }

  lemma ProvenancePartsAre(e: Env, doc: Doc, ct: Value)
    ensures ProvenanceParts(e, doc, ct)
  {
    hide DocNames, FieldPart, Lacks, InLiveState;
    FieldPartsAre(doc);
    MissingPart(e, doc, ct, "cited_from");
    MissingPart(e, doc, ct, "cited_from:committed");
    MissingPart(e, doc, ct, "provenance");
    MissingPart(e, doc, ct, "provenance:committed");
  }

  /** Each of the four names is counted by its own field alone. */
  predicate FieldParts(doc: Doc) {
    FieldPart(doc, CitedFrom, "cited_from", "cited_from") == OneIf(Lacks(doc, CitedFrom)) &&
    FieldPart(doc, CitedFrom, "cited_from", "cited_from:committed")
        == OneIf(Lacks(doc, CitedFrom) && InLiveState(doc)) &&
    FieldPart(doc, Provenance, "provenance", "provenance") == OneIf(Lacks(doc, Provenance)) &&
    FieldPart(doc, Provenance, "provenance", "provenance:committed")
        == OneIf(Lacks(doc, Provenance) && InLiveState(doc)) &&
    FieldPart(doc, Provenance, "provenance", "cited_from") == 0 &&
    FieldPart(doc, Provenance, "provenance", "cited_from:committed") == 0 &&
    FieldPart(doc, CitedFrom, "cited_from", "provenance") == 0 &&
    FieldPart(doc, CitedFrom, "cited_from", "provenance:committed") == 0
  }

  lemma FieldPartsAre(doc: Doc)
    ensures FieldParts(doc)
  {
    hide Lacks, InLiveState;
    var c, p, cc, pc := "cited_from", "provenance", "cited_from:committed", "provenance:committed";
    assert c[0] != p[0] && cc[0] != p[0] && pc[0] != c[0];
    assert c + ":committed" == cc && p + ":committed" == pc;
    assert |c| != |cc| && |p| != |pc|;
  }

  lemma TotalsCensus(e: Env, d: Db)
    ensures Census(e, d)[Counter(VertexTotal, "")] == |d.vertex.Keys|
    ensures Census(e, d)[Counter(EdgeTotal, "")] == |d.edge.Keys|
    ensures forall l :: Census(e, d)[Counter(EdgeLabel, l)] == |set k | k in d.edge && k.rel == l|
  {
    hide VertexNames, EdgeNames, TaskOf, DocNames, TaskNames, Census;
    VertexTotalCensus(e, d);
    forall l { EdgeCensus(e, d, Counter(EdgeLabel, l), set k | k in d.edge && k.rel == l); }
    EdgeCensus(e, d, Counter(EdgeTotal, ""), d.edge.Keys);
  }

  lemma VertexTotalCensus(e: Env, d: Db)
    ensures Census(e, d)[Counter(VertexTotal, "")] == |d.vertex.Keys|
  {
    hide VertexNames, EdgeNames, TaskOf, DocNames, TaskNames;
    var n := Counter(VertexTotal, "");
    forall id | id in d.vertex ensures VertexNames(e)(id, d.vertex[id])[n] == if id in d.vertex.Keys then 1 else 0 {
      VertexNameCount(e, id, d.vertex[id], n);
      DocNamesFamilies(e, d.vertex[id].doc, d.vertex[id].ct, n);
      TaskNamesFamily(TaskOf(e, d.vertex[id].doc, d.vertex[id].ct), n);
    }
    forall k | k in d.edge ensures EdgeNames()(k, d.edge[k])[n] == 0 { EdgeNameCount(k, d.edge[k], n); }
    SumCounts(d.vertex, VertexNames(e), n, d.vertex.Keys);
    SumCounts(d.edge, EdgeNames(), n, {});
  }

  lemma EdgeCensus(e: Env, d: Db, n: Counter, hits: set<EdgeKey>)
    requires (n.family.EdgeTotal? || n.family.EdgeLabel?) && hits <= d.edge.Keys
    requires forall k :: k in d.edge ==>
        OneIf(k in hits) == OneIf(n == Counter(EdgeTotal, "") || n == Counter(EdgeLabel, k.rel))
    ensures Census(e, d)[n] == |hits|
  {
    hide VertexNames, EdgeNames, TaskOf, DocNames, TaskNames;
    forall id | id in d.vertex ensures VertexNames(e)(id, d.vertex[id])[n] == 0 {
      VertexNameCount(e, id, d.vertex[id], n);
      DocNamesFamilies(e, d.vertex[id].doc, d.vertex[id].ct, n);
      TaskNamesFamily(TaskOf(e, d.vertex[id].doc, d.vertex[id].ct), n);
    }
    forall k | k in d.edge ensures EdgeNames()(k, d.edge[k])[n] == if k in hits then 1 else 0 {
      EdgeNameCount(k, d.edge[k], n);
    }
    SumCounts(d.vertex, VertexNames(e), n, {});
    SumCounts(d.edge, EdgeNames(), n, hits);
  }

  /** A store in which nothing vanished: every counter is the number of rows it is named for. */
  lemma CountersAreRows(e: Env, me: string, leaves: nat, d: Db, h: History)
    requires Ok(e, me, leaves, d, h) && Whole(h)
    ensures Count(d.counter, Counter(VertexTotal, "")) == |d.vertex.Keys|
    ensures Count(d.counter, Counter(EdgeTotal, "")) == |d.edge.Keys|
    ensures forall l :: Count(d.counter, Counter(EdgeLabel, l)) == |set k | k in d.edge && k.rel == l|
    ensures forall t :: Count(d.counter, Counter(CtOf, t)) == |Reading(e, d, ContentType, t)|
    ensures forall s :: Count(d.counter, Counter(StateOf, s)) == |Reading(e, d, StateKey, s)|
    ensures forall c :: Count(d.counter, Counter(Col, c)) ==
                        |Reading(e, d, CollectionId, c)| + |LiveReading(e, d, CollectionId, ":committed", c)|
    ensures Count(d.counter, Counter(Missing, "cited_from")) == |Lacking(d, CitedFrom)|
    ensures Count(d.counter, Counter(Missing, "cited_from:committed")) == |LiveLacking(d, CitedFrom)|
    ensures Count(d.counter, Counter(Missing, "provenance")) == |Lacking(d, Provenance)|
    ensures Count(d.counter, Counter(Missing, "provenance:committed")) == |LiveLacking(d, Provenance)|
  {
    hide MerkleOk, LedgerOk, SidecarsOk, Stamped, Census, Reading, LiveReading, Lacking, LiveLacking, Leaf, Count;
    TotalsCensus(e, d);
    ProvenanceCensus(e, d);
    forall t { TypeCensus(e, d, t); }
    forall s { StateCensus(e, d, s); }
    forall c { CollectionCensus(e, d, c); }
  }

  // ── the other derived tables ─────────────────────────────────────────────────

  /** The task table of a store, row by row: an artifact that lost no row to a vanishing has a task
      exactly when its document has a status and a type, and the task reads the document's keys. */
  lemma TasksReadDocuments(e: Env, me: string, leaves: nat, d: Db, h: History, id: string)
    requires Ok(e, me, leaves, d, h) && (id in d.vertex || id !in h.lostIds)
    ensures id in d.task <==>
        id in d.vertex && !Lacks(d.vertex[id].doc, Status) && !Lacks(d.vertex[id].doc, ContentType)
    ensures id in d.task ==>
              var t, doc := d.task[id], d.vertex[id].doc;
              t.ct == e.text(Get(doc, ContentType)) && t.status == e.text(Get(doc, Status)) &&
              t.priority == (if Lacks(doc, Priority) then Int(0) else Get(doc, Priority)) &&
              t.operator == Get(doc, Operator) && t.taskKey == Get(doc, TaskKey) &&
              t.claimedBy == Get(doc, ClaimedBy) && t.claimedAt == Get(doc, ClaimedAt) &&
              t.nextRetryAt == Get(doc, NextRetryAt) && t.completedAt == Get(doc, CompletedAt)
  {
    hide MerkleOk, CountersOk, LedgerOk, PostingsOf, Stamped;
    assert SidecarAt(e, d, h.lostIds, id) && StrayAt(d, h, id);
    if id in d.vertex {
      LacksIs(d.vertex[id].doc, Status);
      LacksIs(d.vertex[id].doc, ContentType);
      LacksIs(d.vertex[id].doc, Priority);
    }
  }

  /** The digests of an empty store are 0; a vertex row more is the hash of its id and seq more, in
      the leaf it is stamped with; an edge row more the hash of its key and its content. */
  lemma DigestOfVertex(e: Env, d: Db, id: string, row: VRow, i: nat)
    requires id !in d.vertex
    ensures Rescan(e, EMPTY_DB, i) == 0
    ensures Rescan(e, d.(vertex := d.vertex[id := row]), i) ==
            if row.leaf == i then Xor(Rescan(e, d, i), e.rowHash(id, row.sn)) else Rescan(e, d, i)
  {
    hide Xor, EdgeIn;
    var d1 := d.(vertex := d.vertex[id := row]);
    var w := XorOver(d.edge, EdgeIn(e, i));
    assert d1.vertex - {id} == d.vertex;
    XorRemove(d1.vertex, id, VertexIn(e, i));
    XorUnits(0, 0);
    XorUnits(XorOver(d.vertex, VertexIn(e, i)), 0);
    XorLaws(XorOver(d.vertex, VertexIn(e, i)), e.rowHash(id, row.sn), w);
    XorLaws(e.rowHash(id, row.sn), w, XorOver(d.vertex, VertexIn(e, i)));
    XorLaws(XorOver(d.vertex, VertexIn(e, i)), w, e.rowHash(id, row.sn));
  }

  lemma DigestOfEdge(e: Env, d: Db, k: EdgeKey, row: ERow, content: Props, i: nat)
    requires k !in d.edge && IsContent(row, content)
    ensures Rescan(e, d.(edge := d.edge[k := row]), i) ==
            if row.leaf == i then Xor(Rescan(e, d, i), e.edgeHash(k, content)) else Rescan(e, d, i)
  {
    hide Xor, VertexIn, EdgeDigest;
    var d1 := d.(edge := d.edge[k := row]);
    ContentIs(e, k, row, content);
    assert d1.edge - {k} == d.edge;
    XorRemove(d1.edge, k, EdgeIn(e, i));
    var v, g, x := XorOver(d.vertex, VertexIn(e, i)), XorOver(d.edge, EdgeIn(e, i)), e.edgeHash(k, content);
    XorUnits(g, 0);
    XorLaws(v, g, x);
    XorLaws(v, x, g);
    XorLaws(g, x, v);
  }

  /** What an edge is hashed on: the columns and the properties that hold something, under their
      names; no origin, no seq, nothing that repeats the key. */
  ghost predicate IsContent(row: ERow, content: Props) {
    forall p :: At(content, p) == if ContentOf(row, p) == Null then None else Some(ContentOf(row, p))
  }

  function ContentOf(row: ERow, p: Prop): Value {
    if p in row.blob then
      if p in {Plain("src"), Plain("dst"), Plain("label")} then Null else row.blob[p]
    else match p
         case Force => row.force
         case Propagate => row.propagate
         case IsOrigin => row.isOrigin
         case OrderKey => row.orderKey
         case _ => Null
  }

  lemma ContentIs(e: Env, k: EdgeKey, row: ERow, content: Props)
    requires IsContent(row, content)
    ensures EdgeDigest(e, k, row) == e.edgeHash(k, content)
  {
    var c := Canon(EdgeContent(row));
    forall p ensures At(c, p) == At(content, p) {}
    assert forall p :: p in c <==> At(c, p).Some?;
    assert forall p :: p in content <==> At(content, p).Some?;
    assert forall p :: p in c ==> At(c, p) == Some(c[p]);
    assert forall p :: p in content ==> At(content, p) == Some(content[p]);
    assert c == content;
  }
}
