/**
 The bulk relabel of a legacy state: keyset batches in id order, each its own transaction,
 the counters moved in it by what was rewritten.  A relabel is not an authored event: no
 seq is taken, no digest moves.
 */
module Relabel {
  import opened Folds
  import opened Tables
  import opened Invariants
  import opened Steps
  import opened Clock
  import opened Keyset
  import opened Writes
  import opened Lattice

  const LEGACY_LIVE_STATES := {"committed", "draft"}
  const IN_CHUNK := 900

  function RelabelledRow(row: VRow): VRow { row.(doc := row.doc[StateKey := Str("live")]) }

  /** The table with `ids` relabelled: nothing but their recorded state moved. */
  function Relabelled(v: map<string, VRow>, ids: set<string>): map<string, VRow> {
    map id | id in v :: if id in ids then RelabelledRow(v[id]) else v[id]
  }

  predicate InState(row: VRow, s: string) { Get(row.doc, StateKey) == Str(s) }

  /** The rows a relabel of `legacy` is due to rewrite. */
  function Due(v: map<string, VRow>, legacy: string, exclude: Option<string>): set<string> {
    set id | id in v && InState(v[id], legacy) && (exclude.None? || v[id].origin != exclude.value)
  }

  lemma RelabelKeeps(e: Env, me: string, leaves: nat, d: Db, h: History, d1: Db, id: string)
    requires Ok(e, me, leaves, d, h) && id in d.vertex
    requires d1 == d.(vertex := d.vertex[id := RelabelledRow(d.vertex[id])], counter := d1.counter)
    requires var row := d.vertex[id];
             forall n :: Count(d1.counter, n) == Count(d.counter, n)
               + DocNames(e, RelabelledRow(row).doc, row.ct)[n] as int - DocNames(e, row.doc, row.ct)[n] as int
    ensures Ok(e, me, leaves, d1, h) && Evolves(me, d, h, d1, h)
  {
    hide Ok, Evolves, DocNames, TaskOf, PostingsOf, VertexNames, Count;
    var row, doc := d.vertex[id], RelabelledRow(d.vertex[id]).doc;
    RelabelProjects(e, row);
    forall n ensures Recounted(n) ==>
      Count(d1.counter, n) == Count(d.counter, n)
        + VertexNames(e)(id, d1.vertex[id])[n] as int - VertexNames(e)(id, row)[n] as int
    {
      VertexNameCount(e, id, row, n);
      VertexNameCount(e, id, d1.vertex[id], n);
    }
    DocNamesFamilies(e, doc, row.ct, Counter(Vacated, me));
    DocNamesFamilies(e, row.doc, row.ct, Counter(Vacated, me));
    RelabelSidecar(e, me, leaves, d, h, d1, id);
    PatchStep(e, me, leaves, d, h, d1, id, doc);
  }

  /** Neither sidecar reads the state. */
  lemma RelabelProjects(e: Env, row: VRow)
    ensures var doc := RelabelledRow(row).doc;
            TaskOf(e, doc, row.ct) == TaskOf(e, row.doc, row.ct) &&
            PostingsOf(e, doc, row.ct) == PostingsOf(e, row.doc, row.ct) &&
            Get(doc, ContentType) == Get(row.doc, ContentType)
  {
    hide FieldsPostings, FieldPostings;
    var doc := RelabelledRow(row).doc;
    forall k: Key | !k.StateKey? ensures Get(doc, k) == Get(row.doc, k) {}
    SameFields(e, LIST_INDEX_FIELDS, doc, row.doc, row.ct);
  }

  lemma {:induction false} SameFields(e: Env, fields: seq<Key>, a: Doc, b: Doc, ct: Value)
    requires forall k :: k in fields ==> Get(a, k) == Get(b, k)
    ensures FieldsPostings(e, fields, a, ct) == FieldsPostings(e, fields, b, ct)
  {
    hide FieldPostings;
    if fields != [] {
      assert fields[0] in fields;
      forall k | k in fields[1..] ensures Get(a, k) == Get(b, k) { assert k in fields; }
      SameFields(e, fields[1..], a, b, ct);
    }
  }

  lemma RelabelSidecar(e: Env, me: string, leaves: nat, d: Db, h: History, d1: Db, id: string)
    requires Ok(e, me, leaves, d, h) && id in d.vertex
    requires d1 == d.(vertex := d.vertex[id := RelabelledRow(d.vertex[id])], counter := d1.counter)
    ensures SidecarAt(e, d1, h.lostIds, id)
    ensures Get(RelabelledRow(d.vertex[id]).doc, ContentType) == Get(d.vertex[id].doc, ContentType)
  {
    hide MerkleOk, CountersOk, LedgerOk, TaskOf, PostingsOf;
    assert SidecarAt(e, d, h.lostIds, id);
    RelabelProjects(e, d.vertex[id]);
  }

  function StateNames(e: Env, doc: Doc): multiset<Counter> {
    if Truthy(Get(doc, StateKey)) then One(Counter(StateOf, e.text(Get(doc, StateKey)))) else multiset{}
  }

  /** What a document is counted in besides its own state. */
  function OtherNames(e: Env, doc: Doc, ct: Value): multiset<Counter> {
    (if Truthy(ct) then One(Counter(CtOf, e.text(ct))) else multiset{}) +
    (if Truthy(Get(doc, CollectionId)) then
       One(Counter(Col, e.text(Get(doc, CollectionId)))) +
       (if Live(doc) then One(Counter(Col, e.text(Get(doc, CollectionId)) + ":committed")) else multiset{})
     else multiset{}) +
    MissingNames(doc, CitedFrom, "cited_from") +
    MissingNames(doc, Provenance, "provenance")
  }

  lemma NamesSplit(e: Env, doc: Doc, ct: Value, n: Counter)
    ensures DocNames(e, doc, ct)[n] == StateNames(e, doc)[n] + OtherNames(e, doc, ct)[n]
  {
    hide Truthy, Live, MissingNames, One;
  }

  lemma OtherNamesSame(e: Env, a: Doc, b: Doc, ct: Value)
    requires Live(a) == Live(b) && forall k: Key :: !k.StateKey? ==> Get(a, k) == Get(b, k)
    ensures OtherNames(e, a, ct) == OtherNames(e, b, ct)
  {
    hide Live, One;
  }

  /** Inside the pair the `committed_only` buckets both count, a relabel moves two counters. */
  lemma CommittedNames(e: Env, row: VRow, n: Counter)
    requires InState(row, "committed") && (forall s :: e.text(Str(s)) == s)
    ensures DocNames(e, RelabelledRow(row).doc, row.ct)[n] as int ==
            DocNames(e, row.doc, row.ct)[n] - OneIf(n == Counter(StateOf, "committed"))
                + OneIf(n == Counter(StateOf, "live"))
  {
    hide DocNames, OtherNames, Live;
    var doc := RelabelledRow(row).doc;
    RelabelledLive(row);
    OtherNamesSame(e, doc, row.doc, row.ct);
    NamesSplit(e, doc, row.ct, n);
    NamesSplit(e, row.doc, row.ct, n);
    assert e.text(Str("committed")) == "committed" && e.text(Str("live")) == "live";
  }

  lemma RelabelledLive(row: VRow)
    requires InState(row, "committed")
    ensures Live(RelabelledRow(row).doc) && Live(row.doc)
  {
  }

  /** The database as if the two state counters had already moved for `k` rewritten rows. */
  function Moved(d: Db, k: int): Db {
    d.(counter := Bump(Bump(d.counter, Counter(StateOf, "committed"), -k), Counter(StateOf, "live"), k))
  }

  lemma MovedCount(d: Db, k: int, n: Counter)
    ensures Count(Moved(d, k).counter, n) ==
            Count(d.counter, n) - (if n == Counter(StateOf, "committed") then k else 0)
                                + (if n == Counter(StateOf, "live") then k else 0)
  {
    hide Bump, Count;
    assert "committed" != "live" by { assert |"committed"| != |"live"|; }
  }

  lemma SetUpdateStep(e: Env, me: string, leaves: nat, d: Db, h: History, d1: Db, id: string, k: nat)
    requires Ok(e, me, leaves, Moved(d, k), h) && id in d.vertex && InState(d.vertex[id], "committed")
    requires (forall s :: e.text(Str(s)) == s)
    requires d1 == d.(vertex := d.vertex[id := RelabelledRow(d.vertex[id])])
    ensures Ok(e, me, leaves, Moved(d1, k + 1), h) && Evolves(me, Moved(d, k), h, Moved(d1, k + 1), h)
  {
    hide Ok, Evolves, DocNames, Count, Bump, RelabelledRow;
    forall n
      ensures Count(Moved(d1, k + 1).counter, n) == Count(Moved(d, k).counter, n)
        + DocNames(e, RelabelledRow(d.vertex[id]).doc, d.vertex[id].ct)[n] as int
        - DocNames(e, d.vertex[id].doc, d.vertex[id].ct)[n] as int
    {
      MovedCount(d, k, n);
      MovedCount(d1, k + 1, n);
      CommittedNames(e, d.vertex[id], n);
    }
    RelabelKeeps(e, me, leaves, Moved(d, k), h, Moved(d1, k + 1), id);
  }

  // ── one batch ────────────────────────────────────────────────────────────────

  /** The rows among `ids` that still record the old state. */
  function Hits(v: map<string, VRow>, legacy: string, ids: set<string>): set<string> {
    set id | id in ids && id in v && InState(v[id], legacy)
  }

  function IdsOf(chunk: seq<string>): set<string> { set id | id in chunk }

  lemma IdsOfAll(chunk: seq<string>)
    ensures IdsOf(chunk[..0]) == {} && IdsOf(chunk[..|chunk|]) == IdsOf(chunk)
  {
    assert chunk[..|chunk|] == chunk;
  }

  lemma IdsOfNext(chunk: seq<string>, i: nat)
    requires i < |chunk|
    ensures IdsOf(chunk[..i + 1]) == IdsOf(chunk[..i]) + {chunk[i]}
  {
    assert chunk[..i + 1] == chunk[..i] + [chunk[i]];
  }

  function Rewritten(d: Db, legacy: string, ids: set<string>): Db {
    d.(vertex := Relabelled(d.vertex, Hits(d.vertex, legacy, ids)))
  }

  /** The next id of a chunk: rewritten if it still records the old state and was not yet. */
  lemma RewrittenMore(d: Db, legacy: string, ids: set<string>, id: string)
    requires legacy != "live"
    ensures var d1, hits := Rewritten(d, legacy, ids), Hits(d.vertex, legacy, ids);
            var hit := id in d1.vertex && InState(d1.vertex[id], legacy);
            Hits(d.vertex, legacy, ids + {id}) == hits + (if hit then {id} else {}) &&
            (hit ==> id !in hits) &&
            Rewritten(d, legacy, ids + {id}) == if hit
                then d1.(vertex := d1.vertex[id := RelabelledRow(d1.vertex[id])]) else d1
  {
    hide Relabelled, RelabelledRow, InState;
    var v, hits := d.vertex, Hits(d.vertex, legacy, ids);
    var hit := id in Relabelled(v, hits) && InState(Relabelled(v, hits)[id], legacy);
    StillDue(v, legacy, hits, id);
    assert Hits(v, legacy, ids + {id}) == hits + (if hit then {id} else {});
    RelabelledMore(v, hits, id);
  }

  lemma StillDue(v: map<string, VRow>, legacy: string, hits: set<string>, id: string)
    requires legacy != "live"
    ensures var v1 := Relabelled(v, hits);
            id in v1 && InState(v1[id], legacy) <==> id in v && id !in hits && InState(v[id], legacy)
  {
    if id in v && id in hits { assert Get(Relabelled(v, hits)[id].doc, StateKey) == Str("live"); }
  }

  lemma RelabelledMore(v: map<string, VRow>, hits: set<string>, id: string)
    ensures id in v && id !in hits ==>
              Relabelled(v, hits + {id}) == Relabelled(v, hits)[id := RelabelledRow(Relabelled(v, hits)[id])]
    ensures hits + {} == hits
  {
    hide RelabelledRow;
  }

  lemma RewrittenNone(d: Db, legacy: string)
    ensures Hits(d.vertex, legacy, {}) == {} && Rewritten(d, legacy, {}) == d && Moved(d, 0) == d
  {
    assert Relabelled(d.vertex, {}) == d.vertex;
  }

  /** The rewrite itself leaves two counters behind by the number of rows it rewrote. */
  method RewriteIds(st: Store, chunk: seq<string>) returns (k: nat)
    requires Ok(st.env, st.origin, st.leaves, st.db, st.hist) && EnvOk(st.env)
    modifies st`db
    ensures st.db == Rewritten(old(st.db), "committed", IdsOf(chunk))
    ensures k == |Hits(old(st.db).vertex, "committed", IdsOf(chunk))|
    ensures Ok(st.env, st.origin, st.leaves, Moved(st.db, k), st.hist)
    ensures Evolves(st.origin, old(st.db), st.hist, Moved(st.db, k), st.hist)
  {
    hide Ok, Evolves, Rewritten, Hits, Moved, IdsOf, RelabelledRow, InState, StrictTotal;
    ghost var d0 := st.db;
    RewrittenNone(d0, "committed");
    EvolvesRefl(st.origin, d0, st.hist);
    NotLive();
    IdsOfAll(chunk);
    k := 0;
    for i := 0 to |chunk|
      invariant st.db == Rewritten(d0, "committed", IdsOf(chunk[..i]))
      invariant k == |Hits(d0.vertex, "committed", IdsOf(chunk[..i]))|
      invariant Ok(st.env, st.origin, st.leaves, Moved(st.db, k), st.hist)
      invariant Evolves(st.origin, d0, st.hist, Moved(st.db, k), st.hist)
    {
      var id := chunk[i];
      ghost var ids := IdsOf(chunk[..i]);
      IdsOfNext(chunk, i);
      RewrittenMore(d0, "committed", ids, id);
      if id in st.db.vertex && InState(st.db.vertex[id], "committed") {
        ghost var d1 := st.db;
        st.db := st.db.(vertex := st.db.vertex[id := RelabelledRow(st.db.vertex[id])]);
        SetUpdateStep(st.env, st.origin, st.leaves, d1, st.hist, st.db, id, k);
        EvolvesTrans(st.origin, d0, st.hist, Moved(d1, k), st.hist, Moved(st.db, k + 1), st.hist);
        k := k + 1;
      }
    }
  }

  /** `committed` to `live`: one set update, whose row count is the delta of two counters. */
  method SetUpdate(st: Store, chunk: seq<string>) returns (k: nat)
    requires st.Valid() && st.open
    modifies st`db
    ensures st.Valid()
    ensures st.db == Rewritten(old(st.db), "committed", IdsOf(chunk)).(counter := st.db.counter)
    ensures k == |Hits(old(st.db).vertex, "committed", IdsOf(chunk))|
    ensures Evolves(st.origin, old(st.db), st.hist, st.db, st.hist)
  {
    hide Ok, Evolves, Rewritten, Hits, Moved, IdsOf, Bump;
    ghost var d0 := st.db;
    k := RewriteIds(st, chunk);
    MovedIs(st.db, k);
    var delta: int := k;
    st.db := st.db.(counter := Bump(st.db.counter, Counter(StateOf, "committed"), -delta));
    st.db := st.db.(counter := Bump(st.db.counter, Counter(StateOf, "live"), delta));
    RewrittenFrame(d0, "committed", IdsOf(chunk));
    EvolvesTrans(st.origin, st.disk, st.diskHist, d0, st.hist, st.db, st.hist);
  }

  lemma NotLive()
    ensures "committed" != "live" && "draft" != "live"
  {
    assert |"committed"| != |"live"| && |"draft"| != |"live"|;
  }

  lemma MovedIs(d: Db, k: int)
    ensures Moved(d, k) == d.(counter := Bump(Bump(d.counter, Counter(StateOf, "committed"), -k),
        Counter(StateOf, "live"), k))
  {
  }

  lemma RewrittenFrame(d: Db, legacy: string, ids: set<string>)
    ensures var d1 := Rewritten(d, legacy, ids); d1 == d.(vertex := d1.vertex)
  {
  }

  /** `draft` to `live`: row by row, each moving the counters of its own document. */
  method RowByRow(st: Store, chunk: seq<string>) returns (k: nat)
    requires st.Valid() && st.open
    modifies st`db
    ensures st.Valid()
    ensures st.db == Rewritten(old(st.db), "draft", IdsOf(chunk)).(counter := st.db.counter)
    ensures k == |Hits(old(st.db).vertex, "draft", IdsOf(chunk))|
    ensures Evolves(st.origin, old(st.db), st.hist, st.db, st.hist)
  {
    hide Ok, Evolves, Rewritten, Hits, IdsOf, RelabelledRow, BumpAll, CounterDeltas, InState;
    ghost var d0 := st.db;
    RewrittenNone(d0, "draft");
    EvolvesRefl(st.origin, d0, st.hist);
    NotLive();
    IdsOfAll(chunk);
    k := 0;
    for i := 0 to |chunk|
      invariant st.db == Rewritten(d0, "draft", IdsOf(chunk[..i])).(counter := st.db.counter)
      invariant k == |Hits(d0.vertex, "draft", IdsOf(chunk[..i]))|
      invariant Ok(st.env, st.origin, st.leaves, st.db, st.hist)
      invariant Evolves(st.origin, d0, st.hist, st.db, st.hist)
    {
      var id := chunk[i];
      ghost var ids := IdsOf(chunk[..i]);
      IdsOfNext(chunk, i);
      RewrittenMore(d0, "draft", ids, id);
      if id in st.db.vertex && InState(st.db.vertex[id], "draft") {
        ghost var d1 := st.db;
        RelabelRow(st, id);
        EvolvesTrans(st.origin, d0, st.hist, d1, st.hist, st.db, st.hist);
        k := k + 1;
      }
    }
    RewrittenFrame(d0, "draft", IdsOf(chunk));
    EvolvesTrans(st.origin, st.disk, st.diskHist, d0, st.hist, st.db, st.hist);
  }

  method RelabelRow(st: Store, id: string)
    requires Ok(st.env, st.origin, st.leaves, st.db, st.hist) && id in st.db.vertex
    modifies st`db
    ensures Ok(st.env, st.origin, st.leaves, st.db, st.hist)
    ensures st.db == old(st.db).(vertex := old(st.db).vertex[id := RelabelledRow(old(st.db).vertex[id])],
                                 counter := st.db.counter)
    ensures Evolves(st.origin, old(st.db), st.hist, st.db, st.hist)
  {
    hide Ok, Evolves, RelabelledRow, CounterDeltas, BumpAll, DocNames, Count;
    ghost var d0 := st.db;
    var row := st.db.vertex[id];
    var next := RelabelledRow(row);
    st.db := st.db.(vertex := st.db.vertex[id := next]);
    st.BumpCounters(CounterDeltas(st.env, Some(row.doc), Some(next.doc), row.ct, row.ct));
    RelabelKeeps(st.env, st.origin, st.leaves, d0, st.hist, st.db, id);
  }

  lemma RewrittenTwice(d: Db, legacy: string, a: set<string>, b: set<string>, d1: Db)
    requires legacy != "live" && d1 == Rewritten(d, legacy, a).(counter := d1.counter)
    ensures Rewritten(d1, legacy, b).(counter := d.counter) == Rewritten(d, legacy, a + b)
    ensures |Hits(d.vertex, legacy, a + b)| == |Hits(d.vertex, legacy, a)| + |Hits(d1.vertex, legacy, b)|
  {
    hide RelabelledRow, InState;
    var v, h := d.vertex, Hits(d.vertex, legacy, a);
    forall id
      ensures id in d1.vertex && InState(d1.vertex[id], legacy) <==> id in v && id !in h && InState(v[id], legacy)
    {
      StillDue(v, legacy, h, id);
    }
    assert Hits(v, legacy, a + b) == h + Hits(d1.vertex, legacy, b);
    assert h !! Hits(d1.vertex, legacy, b);
    assert Relabelled(d1.vertex, Hits(d1.vertex, legacy, b)) == Relabelled(v, Hits(v, legacy, a + b));
  }

  /** One write transaction over the ids of a batch, in chunks. */
  method RelabelBatch(st: Store, legacy: string, ids: seq<string>) returns (n: nat)
    requires st.Valid() && !st.open && legacy in LEGACY_LIVE_STATES
    modifies st`db, st`disk, st`hist, st`diskHist, st`open, st.clock
    ensures st.Valid() && !st.open && st.hist == old(st.hist)
    ensures st.db == Rewritten(old(st.db), legacy, IdsOf(ids)).(counter := st.db.counter)
    ensures n == |Hits(old(st.db).vertex, legacy, IdsOf(ids))|
    ensures Evolves(st.origin, old(st.db), old(st.hist), st.db, st.hist)
  {
    hide Ok, Evolves, Rewritten, Hits, IdsOf;
    ghost var d0, h0 := st.db, st.hist;
    st.Begin();
    NotLive();
    IdsOfAll(ids);
    RewrittenNone(d0, legacy);
    EvolvesRefl(st.origin, d0, h0);
    n := 0;
    var i := 0;
    while i < |ids|
      invariant 0 <= i <= |ids|
      invariant st.Valid() && st.open && !st.clock.dirty && st.hist == h0
      invariant st.db == Rewritten(d0, legacy, IdsOf(ids[..i])).(counter := st.db.counter)
      invariant n == |Hits(d0.vertex, legacy, IdsOf(ids[..i]))|
      invariant Evolves(st.origin, d0, h0, st.db, h0)
      modifies st`db
    {
      var end := if i + IN_CHUNK < |ids| then i + IN_CHUNK else |ids|;
      ghost var d1 := st.db;
      var k;
      if legacy == "committed" { k := SetUpdate(st, ids[i..end]); } else { k := RowByRow(st, ids[i..end]); }
      IdsOfChunk(ids, i, end);
      RewrittenTwice(d0, legacy, IdsOf(ids[..i]), IdsOf(ids[i..end]), d1);
      EvolvesTrans(st.origin, d0, h0, d1, h0, st.db, h0);
      n := n + k;
      i := end;
    }
    var committed := st.Commit();
  }

  lemma IdsOfChunk(ids: seq<string>, i: nat, end: nat)
    requires i <= end <= |ids|
    ensures IdsOf(ids[..end]) == IdsOf(ids[..i]) + IdsOf(ids[i..end])
  {
    assert ids[..end] == ids[..i] + ids[i..end];
  }

  // ── the walk ─────────────────────────────────────────────────────────────────

  /** `moved` is the part of the due rows a stopped walk has rewritten: the lowest ids. */
  ghost predicate LowestOf(lt: (string, string) -> bool, due: set<string>, moved: set<string>) {
    moved <= due && forall a, b :: a in moved && b in due - moved ==> lt(a, b)
  }

  lemma PageMoved(lt: (string, string) -> bool, v0: map<string, VRow>, v: map<string, VRow>, legacy: string,
                  exclude: Option<string>, moved: set<string>, after: Option<string>, take: nat, ids: seq<string>)
    requires StrictTotal(lt) && legacy != "live" && LowestOf(lt, Due(v0, legacy, exclude), moved)
    requires v == Relabelled(v0, moved)
    requires IsPage(lt, Due(v, legacy, exclude), after, take, ids)
    requires forall k :: k in Due(v0, legacy, exclude) - moved ==> Above(lt, after, k)
    ensures Due(v, legacy, exclude) == Due(v0, legacy, exclude) - moved
    ensures Hits(v, legacy, IdsOf(ids)) == IdsOf(ids) && |IdsOf(ids)| == |ids| <= take && IdsOf(ids) !! moved
    ensures LowestOf(lt, Due(v0, legacy, exclude), moved + IdsOf(ids))
    ensures ids != [] ==> forall k :: k in Due(v0, legacy, exclude) - (moved + IdsOf(ids)) ==> lt(ids[|ids| - 1], k)
    ensures |ids| < take ==> moved + IdsOf(ids) == Due(v0, legacy, exclude)
  {
    hide RelabelledRow, InState, StrictTotal, Ascending;
    DueLeft(v0, legacy, exclude, moved);
    AscendingDistinct(lt, ids);
    forall k | k in IdsOf(ids) ensures k in v && InState(v[k], legacy) { assert k in Due(v, legacy, exclude); }
    if ids != [] { assert ids[|ids| - 1] in ids; }
  }

  lemma DueLeft(v0: map<string, VRow>, legacy: string, exclude: Option<string>, moved: set<string>)
    requires legacy != "live" && moved <= Due(v0, legacy, exclude)
    ensures Due(Relabelled(v0, moved), legacy, exclude) == Due(v0, legacy, exclude) - moved
  {
    hide RelabelledRow, InState;
    var v := Relabelled(v0, moved);
    forall id ensures id in Due(v, legacy, exclude) <==> id in Due(v0, legacy, exclude) - moved {
      StillDue(v0, legacy, moved, id);
      if id in v0 { assert v[id].origin == v0[id].origin by { RelabelledOrigin(v0[id]); } }
    }
  }

  lemma RelabelledOrigin(row: VRow)
    ensures RelabelledRow(row).origin == row.origin
  {
  }

  lemma RelabelledTwice(v: map<string, VRow>, a: set<string>, b: set<string>)
    requires a !! b
    ensures Relabelled(Relabelled(v, a), b) == Relabelled(v, a + b)
  {
    hide RelabelledRow;
  }

  /** What is left of the walk lies above its cursor. */
  ghost predicate Ahead(lt: (string, string) -> bool, due: set<string>, moved: set<string>, after: Option<string>) {
    forall k :: k in due - moved ==> Above(lt, after, k)
  }

  /** A walk that stands at `after` has rewritten `moved`, the lowest due rows, and nothing else. */
  ghost predicate OnWalk(lt: (string, string) -> bool, d0: Db, d: Db, legacy: string, exclude: Option<string>,
                         moved: set<string>, after: Option<string>) {
    var due := Due(d0.vertex, legacy, exclude);
    d == d0.(vertex := Relabelled(d0.vertex, moved), counter := d.counter) && LowestOf(lt, due, moved) &&
    Ahead(lt, due, moved, after)
  }

  /** `n` rows to a page, and only the last page of a walk that is over may be short. */
  predicate Pages(n: nat, done: nat, batches: nat, over: bool) {
    done <= batches * n && (batches > 0 ==> (batches - 1) * n < done) && (over || done == batches * n)
  }

  lemma NoPage(n: nat, over: bool)
    ensures Pages(n, 0, 0, over)
  {
  }

  lemma OnePage(n: nat, done: nat, batches: nat, more: nat, over: bool)
    requires Pages(n, done, batches, false) && 0 < more <= n && (more == n || over)
    ensures Pages(n, done + more, batches + 1, over)
  {
    assert (batches + 1) * n == batches * n + n;
  }

  /** Every due row is relabelled, or, under a limit, the lowest ones in id order; nothing else
      moves, and the counters stay the recount. */
  method RelabelState(st: Store, legacy: string, batch: int, limit: Option<int>, exclude: Option<string>)
    returns (done: nat, batches: nat, ghost moved: set<string>)
    requires st.Valid() && !st.open && legacy in LEGACY_LIVE_STATES
    modifies st`db, st`disk, st`hist, st`diskHist, st`open, st.clock
    ensures st.Valid() && !st.open && st.hist == old(st.hist)
    ensures st.db == old(st.db).(vertex := Relabelled(old(st.db).vertex, moved), counter := st.db.counter)
    ensures LowestOf(st.env.idBefore, Due(old(st.db).vertex, legacy, exclude), moved) && done == |moved|
    ensures limit.None? || done < limit.value ==> moved == Due(old(st.db).vertex, legacy, exclude)
    ensures limit.Some? ==> done <= Max(limit.value, 0)
    ensures Pages(Max(1, batch), done, batches, limit == Some(done) || moved == Due(old(st.db).vertex, legacy, exclude))
    ensures RelabelReads(old(st.db.vertex), st.db.vertex, legacy, exclude, moved)
    ensures limit.None? || done < limit.value ==> NoneLeft(st.db.vertex, legacy, exclude)
    ensures Evolves(st.origin, old(st.db), old(st.hist), st.db, st.hist)
  {
    hide Ok, Evolves, IdsOf, Due, LowestOf, Relabelled, StrictTotal, MarkOk, MarkKept, Now, Ahead, LEGACY_LIVE_STATES,
        Pages, OnWalk, RelabelReads, NoneLeft, RelabelledRow, InState;
    ghost var d0, h0 := st.db, st.hist;
    ghost var due := Due(d0.vertex, legacy, exclude);
    EvolvesRefl(st.origin, d0, h0);
    StartOfWalk(st.env.idBefore, d0, legacy, exclude);
    done, batches, moved := 0, 0, {};
    NoPage(Max(1, batch), limit == Some(0) || due == {});
    var n := Max(1, batch);
    var after: Option<string> := None;
    while limit.None? || done < limit.value
      invariant st.Valid() && !st.open && st.hist == h0
      invariant OnWalk(st.env.idBefore, d0, st.db, legacy, exclude, moved, after) && done == |moved|
      invariant limit.Some? ==> done <= Max(limit.value, 0)
      invariant Pages(n, done, batches, limit == Some(done) || moved == due)
      invariant Evolves(st.origin, d0, h0, st.db, h0)
      decreases |due - moved|
    {
      var take := if limit.None? then n else Min(n, limit.value - done);
      var ids := RelabelPage(st, legacy, take, after, exclude, d0, moved);
      if ids == [] {
        RelabelIs(st.env.idBefore, d0, st.db, legacy, exclude, moved, after);
        return;
      }
      OnePage(n, done, batches, |ids|, limit == Some(done + |ids|) || moved + IdsOf(ids) == due);
      moved := moved + IdsOf(ids);
      done := done + |ids|;
      batches := batches + 1;
      after := Some(ids[|ids| - 1]);
    }
    RelabelIs(st.env.idBefore, d0, st.db, legacy, exclude, moved, after);
  }

  /** The rewritten rows were in the legacy state, of an origin that is not excluded, and read live
      now; nothing else of them, and no other row, is another. */
  ghost predicate RelabelReads(v0: map<string, VRow>, v1: map<string, VRow>, legacy: string, exclude: Option<string>,
                               moved: set<string>) {
    v1.Keys == v0.Keys && moved <= v0.Keys &&
    (forall id :: id in v0 && id !in moved ==> v1[id] == v0[id]) &&
    (forall id :: id in moved ==>
       Get(v0[id].doc, StateKey) == Str(legacy) && exclude != Some(v0[id].origin) &&
       v1[id] == v0[id].(doc := v1[id].doc) && Get(v1[id].doc, StateKey) == Str("live") &&
       forall k :: k != StateKey ==> Get(v1[id].doc, k) == Get(v0[id].doc, k))
  }

  ghost predicate NoneLeft(v1: map<string, VRow>, legacy: string, exclude: Option<string>) {
    forall id :: id in v1 && Get(v1[id].doc, StateKey) == Str(legacy) ==> exclude == Some(v1[id].origin)
  }

  lemma RelabelIs(lt: (string, string) -> bool, d0: Db, d: Db, legacy: string, exclude: Option<string>,
                  moved: set<string>, after: Option<string>)
    requires OnWalk(lt, d0, d, legacy, exclude, moved, after) && legacy in LEGACY_LIVE_STATES
    ensures d == d0.(vertex := Relabelled(d0.vertex, moved), counter := d.counter)
    ensures LowestOf(lt, Due(d0.vertex, legacy, exclude), moved)
    ensures RelabelReads(d0.vertex, d.vertex, legacy, exclude, moved)
    ensures moved == Due(d0.vertex, legacy, exclude) ==> NoneLeft(d.vertex, legacy, exclude)
  {
    NotLive();
  }

  /** One page of the walk: the next candidates, then the transaction that rewrites them. */
  method RelabelPage(st: Store, legacy: string, take: nat, after: Option<string>, exclude: Option<string>,
                     ghost d0: Db, ghost moved: set<string>) returns (ids: seq<string>)
    requires st.Valid() && !st.open && legacy in LEGACY_LIVE_STATES && take > 0
    requires OnWalk(st.env.idBefore, d0, st.db, legacy, exclude, moved, after)
    requires Evolves(st.origin, d0, st.hist, st.db, st.hist)
    modifies st`db, st`disk, st`hist, st`diskHist, st`open, st.clock
    ensures st.Valid() && !st.open && st.hist == old(st.hist)
    ensures var due := Due(d0.vertex, legacy, exclude);
            |ids| <= take && (|ids| < take ==> moved + IdsOf(ids) == due) &&
            if ids == [] then st.db == old(st.db) && moved == due
            else moved != due && |due - (moved + IdsOf(ids))| < |due - moved| && |moved + IdsOf(ids)| == |moved| + |ids|
    ensures ids != [] ==>
              OnWalk(st.env.idBefore, d0, st.db, legacy, exclude, moved + IdsOf(ids), Some(ids[|ids| - 1]))
    ensures Evolves(st.origin, d0, old(st.hist), st.db, st.hist)
  {
    hide Ok, Evolves, Rewritten, Hits, IdsOf, IsPage, Due, LowestOf, Relabelled, StrictTotal, PagePlan, Ahead,
        MarkOk, Now;
    ghost var d1, h1 := st.db, st.hist;
    EvolvesRefl(st.origin, d1, h1);
    ids := Select(st.env.idBefore, Due(st.db.vertex, legacy, exclude), after, take);
    PagePlanned(st.env.idBefore, d0.vertex, d1.vertex, legacy, exclude, moved, after, take, ids);
    if ids == [] {
      EmptyPlan(st.env.idBefore, d0.vertex, d1.vertex, legacy, exclude, moved, take, ids);
      return;
    }
    var k := RelabelBatch(st, legacy, ids);
    EvolvesTrans(st.origin, d0, h1, d1, h1, st.db, h1);
    PlanMet(st.env.idBefore, d0.vertex, d1, legacy, exclude, moved, take, ids);
    LowestShrinks(st.env.idBefore, Due(d0.vertex, legacy, exclude), moved, IdsOf(ids));
  }

  /** What rewriting a page does to the walk. */
  ghost predicate PagePlan(lt: (string, string) -> bool, v0: map<string, VRow>, v: map<string, VRow>, legacy: string,
                           exclude: Option<string>, moved: set<string>, take: nat, ids: seq<string>) {
    Hits(v, legacy, IdsOf(ids)) == IdsOf(ids) && |IdsOf(ids)| == |ids| <= take && IdsOf(ids) !! moved &&
    v == Relabelled(v0, moved) &&
    LowestOf(lt, Due(v0, legacy, exclude), moved + IdsOf(ids)) &&
    (ids != [] ==> IdsOf(ids) != {} && Ahead(lt, Due(v0, legacy, exclude), moved + IdsOf(ids), Some(ids[|ids| - 1]))) &&
    (|ids| < take ==> moved + IdsOf(ids) == Due(v0, legacy, exclude)) &&
    (ids == [] ==> IdsOf(ids) == {} && moved == Due(v0, legacy, exclude))
  }

  lemma PagePlanned(lt: (string, string) -> bool, v0: map<string, VRow>, v: map<string, VRow>, legacy: string,
                    exclude: Option<string>, moved: set<string>, after: Option<string>, take: nat, ids: seq<string>)
    requires StrictTotal(lt) && legacy in LEGACY_LIVE_STATES && LowestOf(lt, Due(v0, legacy, exclude), moved) &&
        take > 0
    requires v == Relabelled(v0, moved) && IsPage(lt, Due(v, legacy, exclude), after, take, ids)
    requires Ahead(lt, Due(v0, legacy, exclude), moved, after)
    ensures PagePlan(lt, v0, v, legacy, exclude, moved, take, ids)
  {
    hide StrictTotal, LowestOf, Due, Hits, IsPage, Relabelled, IdsOf;
    NotLive();
    PageMoved(lt, v0, v, legacy, exclude, moved, after, take, ids);
    IdsOfSome(ids);
  }

  lemma EmptyPlan(lt: (string, string) -> bool, v0: map<string, VRow>, v: map<string, VRow>, legacy: string,
                  exclude: Option<string>, moved: set<string>, take: nat, ids: seq<string>)
    requires PagePlan(lt, v0, v, legacy, exclude, moved, take, ids) && ids == []
    ensures IdsOf(ids) == {} && moved + IdsOf(ids) == moved && moved == Due(v0, legacy, exclude) &&
        v == Relabelled(v0, moved)
    ensures LowestOf(lt, Due(v0, legacy, exclude), moved + IdsOf(ids))
  {
    hide LowestOf, Due, Hits, Relabelled;
  }

  lemma SomeLeft(lt: (string, string) -> bool, due: set<string>, moved: set<string>, ids: seq<string>)
    requires LowestOf(lt, due, moved + IdsOf(ids)) && IdsOf(ids) !! moved && ids != []
    ensures moved != due
  {
    assert ids[0] in IdsOf(ids);
  }

  lemma PlanMet(lt: (string, string) -> bool, v0: map<string, VRow>, d1: Db, legacy: string,
                exclude: Option<string>, moved: set<string>, take: nat, ids: seq<string>)
    requires PagePlan(lt, v0, d1.vertex, legacy, exclude, moved, take, ids) && ids != []
    ensures Rewritten(d1, legacy, IdsOf(ids)) == d1.(vertex := Relabelled(v0, moved + IdsOf(ids)))
    ensures |Hits(d1.vertex, legacy, IdsOf(ids))| == |ids|
    ensures IdsOf(ids) !! moved && |IdsOf(ids)| == |ids| <= take && IdsOf(ids) != {}
    ensures (|ids| < take ==> moved + IdsOf(ids) == Due(v0, legacy, exclude)) && moved != Due(v0, legacy, exclude)
    ensures LowestOf(lt, Due(v0, legacy, exclude), moved + IdsOf(ids))
    ensures Ahead(lt, Due(v0, legacy, exclude), moved + IdsOf(ids), Some(ids[|ids| - 1]))
  {
    hide LowestOf, Due, Hits, Relabelled, IdsOf, Rewritten, Ahead;
    RewrittenIs(d1, legacy, IdsOf(ids));
    RelabelledTwice(v0, moved, IdsOf(ids));
    SomeLeft(lt, Due(v0, legacy, exclude), moved, ids);
  }

  lemma IdsOfSome(ids: seq<string>)
    ensures ids == [] <==> IdsOf(ids) == {}
  {
    if ids != [] { assert ids[0] in IdsOf(ids); }
  }

  lemma StartOfWalk(lt: (string, string) -> bool, d: Db, legacy: string, exclude: Option<string>)
    ensures OnWalk(lt, d, d, legacy, exclude, {}, None)
  {
    assert Relabelled(d.vertex, {}) == d.vertex;
  }

  lemma RewrittenIs(d: Db, legacy: string, ids: set<string>)
    requires Hits(d.vertex, legacy, ids) == ids
    ensures Rewritten(d, legacy, ids) == d.(vertex := Relabelled(d.vertex, ids))
  {
  }

  lemma LowestShrinks(lt: (string, string) -> bool, due: set<string>, moved: set<string>, more: set<string>)
    requires LowestOf(lt, due, moved + more) && more != {} && more !! moved
    ensures |due - (moved + more)| < |due - moved| && |moved + more| == |moved| + |more|
  {
    assert due - moved == (due - (moved + more)) + more;
  }
}
