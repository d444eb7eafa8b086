/**
 The work pool: claims are a compare-and-set on the task sidecar, mirrored into the document
 at the version it has.
 */
module Pool {
  import opened Folds
  import opened Tables
  import opened Invariants
  import opened Steps
  import opened Writes
  import opened Lattice

  /** A document field the task row projects, and one a counter counts. */
  predicate Projected(k: Key) {
    k.ContentType? || k.Status? || k.Priority? || k.Operator? || k.TaskKey? || k.ClaimedBy? || k.ClaimedAt? ||
    k.NextRetryAt? || k.CompletedAt?
  }

  predicate Counted(k: Key) { k.StateKey? || k.CollectionId? || k.CitedFrom? || k.Provenance? }

  predicate Indexed(k: Key) { k in LIST_INDEX_FIELDS }

  /** The document takes the fields; its postings are redone only if an indexed field is among them. */
  function PatchedDb(e: Env, d: Db, id: string, fields: Doc): Db {
    if id !in d.vertex then d
    else
      var row := d.vertex[id].(doc := d.vertex[id].doc + fields);
      d.(vertex := d.vertex[id := row], listkey := PatchedListkey(e, d.listkey, id, row, fields))
  }

  function PatchedListkey(e: Env, l: map<string, multiset<Posting>>, id: string, row: VRow, fields: Doc)
    : map<string, multiset<Posting>>
  {
    if exists k :: k in fields && Indexed(k) then Posted(l - {id}, id, PostingsOf(e, row.doc, row.ct)) else l
  }

  lemma NamesUnchanged(e: Env, d: Doc, fields: Doc, ct: Value)
    requires forall k :: k in fields ==> !Counted(k)
    ensures DocNames(e, d + fields, ct) == DocNames(e, d, ct)
  {
    hide MissingNames;
    var d1 := d + fields;
    assert StateKey !in fields && CollectionId !in fields && CitedFrom !in fields && Provenance !in fields;
    MissingUnchanged(d, d1, CitedFrom, "cited_from");
    MissingUnchanged(d, d1, Provenance, "provenance");
    assert Get(d1, StateKey) == Get(d, StateKey) && Get(d1, CollectionId) == Get(d, CollectionId);
  }

  lemma MissingUnchanged(d: Doc, d1: Doc, field: Key, name: string)
    requires Get(d1, field) == Get(d, field) && Get(d1, StateKey) == Get(d, StateKey)
    ensures MissingNames(d1, field, name) == MissingNames(d, field, name)
  {
  }

  lemma {:induction false} PostingsUnchanged(e: Env, fields: seq<Key>, d: Doc, more: Doc, ct: Value)
    requires forall k :: k in fields ==> k !in more
    ensures FieldsPostings(e, fields, d + more, ct) == FieldsPostings(e, fields, d, ct)
  {
    hide FieldPostings;
    if fields != [] {
      assert fields[0] in fields;
      assert Get(d + more, fields[0]) == Get(d, fields[0]);
      forall k | k in fields[1..] ensures k !in more { assert k in fields; }
      PostingsUnchanged(e, fields[1..], d, more, ct);
    }
  }

  /** The counter moves of a task from one bucket to another. */
  function Rebucket(c: map<Counter, int>, row: TaskRow, row1: TaskRow): map<Counter, int> {
    BumpTask(BumpTask(c, Some(row), -1), Some(row1), 1)
  }

  /** The sidecar row moves, and its document with it. */
  function MovedDb(e: Env, d: Db, id: string, row1: TaskRow, fields: Doc, rebucket: bool): Db
    requires id in d.task
  {
    var p := PatchedDb(e, d.(task := d.task[id := row1]), id, fields);
    if rebucket then p.(counter := Rebucket(p.counter, d.task[id], row1)) else p
  }

  /** Without a document behind it, the moved task row stays a stray, with its counter drift. */
  function MovedHistory(d: Db, h: History, id: string, row1: TaskRow, rebucket: bool): History
    requires id in d.task
  {
    if id in d.vertex then h
    else h.(stray := h.stray[id := row1], drift := if rebucket then Rebucket(h.drift, d.task[id], row1) else h.drift)
  }

  /** Only the task counters of a document that vanished may move in the books. */
  ghost predicate OnlyTaskDrift(h0: History, h1: History) {
    h1 == h0.(drift := h1.drift, stray := h1.stray) && (h0.lostIds == {} ==> h1 == h0) &&
    forall n: Counter :: !n.family.TaskStatus? ==> Count(h1.drift, n) == Count(h0.drift, n)
  }

  lemma MovedBooks(e: Env, me: string, leaves: nat, d: Db, h: History, id: string, row1: TaskRow, rebucket: bool)
    requires id in d.task && Ok(e, me, leaves, d, h)
    ensures OnlyTaskDrift(h, MovedHistory(d, h, id, row1, rebucket))
  {
    hide TaskOf, PostingsOf, Rebucket, MerkleOk, CountersOk, LedgerOk;
    assert SidecarAt(e, d, h.lostIds, id);
    forall n: Counter | !n.family.TaskStatus?
      ensures Count(MovedHistory(d, h, id, row1, rebucket).drift, n) == Count(h.drift, n)
    {
      RebucketCount(h.drift, d.task[id], row1, n);
    }
  }

  /** The document will project to the moved row, be counted where it was, and keep its type. */
  predicate Fitting(e: Env, d: Db, id: string, row1: TaskRow, fields: Doc) {
    id in d.vertex ==>
      var row := d.vertex[id];
      var doc := row.doc + fields;
      TaskOf(e, doc, row.ct) == Some(row1) && DocNames(e, doc, row.ct) == DocNames(e, row.doc, row.ct) &&
      Get(doc, ContentType) == Get(row.doc, ContentType)
  }

  lemma FieldsFitting(e: Env, d: Db, id: string, row1: TaskRow, fields: Doc)
    requires forall k :: k in fields ==> !Counted(k) && !k.ContentType?
    requires id in d.vertex ==> TaskOf(e, d.vertex[id].doc + fields, d.vertex[id].ct) == Some(row1)
    ensures Fitting(e, d, id, row1, fields)
  {
    hide DocNames, TaskOf;
    if id in d.vertex {
      NamesUnchanged(e, d.vertex[id].doc, fields, d.vertex[id].ct);
      assert ContentType !in fields;
    }
  }

  lemma MoveStep(e: Env, me: string, leaves: nat, d: Db, h: History, id: string, row1: TaskRow, fields: Doc,
                 rebucket: bool)
    requires Ok(e, me, leaves, d, h) && id in d.task && Fitting(e, d, id, row1, fields)
    requires !rebucket ==> row1.ct == d.task[id].ct && row1.status == d.task[id].status
    ensures Ok(e, me, leaves, MovedDb(e, d, id, row1, fields, rebucket), MovedHistory(d, h, id, row1, rebucket))
    ensures Evolves(me, d, h, MovedDb(e, d, id, row1, fields, rebucket), MovedHistory(d, h, id, row1, rebucket))
  {
    hide Fitting, MovedDb, MovedHistory, Ok, Evolves;
    if id in d.vertex {
      MovedHistoryOwned(d, h, id, row1, rebucket);
      MoveOwned(e, me, leaves, d, h, id, row1, fields, rebucket);
    } else {
      MoveOrphan(e, me, leaves, d, h, id, row1, fields, rebucket);
    }
  }

  lemma MovedHistoryOwned(d: Db, h: History, id: string, row1: TaskRow, rebucket: bool)
    requires id in d.task && id in d.vertex
    ensures MovedHistory(d, h, id, row1, rebucket) == h
  {
  }

  lemma MoveOwned(e: Env, me: string, leaves: nat, d: Db, h: History, id: string, row1: TaskRow, fields: Doc,
                  rebucket: bool)
    requires Ok(e, me, leaves, d, h) && id in d.task && id in d.vertex && Fitting(e, d, id, row1, fields)
    requires !rebucket ==> row1.ct == d.task[id].ct && row1.status == d.task[id].status
    ensures Ok(e, me, leaves, MovedDb(e, d, id, row1, fields, rebucket), h)
    ensures Evolves(me, d, h, MovedDb(e, d, id, row1, fields, rebucket), h)
  {
    hide MerkleOk, CountersOk, LedgerOk, Evolves, DocNames, VertexNames, TaskOf, Rebucket, PostingsOf;
    var d1 := MovedDb(e, d, id, row1, fields, rebucket);
    var row := d.vertex[id];
    assert SidecarAt(e, d, h.lostIds, id);
    assert TaskOf(e, row.doc, row.ct) == Some(d.task[id]);
    forall n
      ensures Recounted(n) ==>
        Count(d1.counter, n) == Count(d.counter, n)
          + VertexNames(e)(id, d1.vertex[id])[n] as int - VertexNames(e)(id, row)[n] as int
      ensures n.family.Vacated? ==> Count(d1.counter, n) == Count(d.counter, n)
    {
      VertexNameCount(e, id, row, n);
      VertexNameCount(e, id, d1.vertex[id], n);
      RebucketCount(d.counter, d.task[id], row1, n);
      SameBucket(d.task[id], row1, n);
    }
    MovedSidecar(e, d, h, id, row1, fields, rebucket);
    PatchStep(e, me, leaves, d, h, d1, id, row.doc + fields);
  }

  /** What moves while its document does not fit leaves the invariants: the task row is no longer
      the projection, a counter no longer the recount, or the type column no longer the document's. */
  lemma MisfitBreaks(e: Env, me: string, leaves: nat, d: Db, h: History, id: string, row1: TaskRow, fields: Doc)
    requires Ok(e, me, leaves, d, h) && id in d.task && !Fitting(e, d, id, row1, fields)
    ensures !Ok(e, me, leaves, MovedDb(e, d, id, row1, fields, true), MovedHistory(d, h, id, row1, true))
  {
    hide MerkleOk, LedgerOk, SidecarsOk, CountersOk, DocNames, TaskOf, Rebucket, PostingsOf, PatchedListkey;
    var d1, row := MovedDb(e, d, id, row1, fields, true), d.vertex[id];
    var doc := row.doc + fields;
    if Ok(e, me, leaves, d1, h) {
      assert At(d1.task, id) == Some(row1) && d1.vertex[id] == row.(doc := doc);
      MovedTaskIs(e, d1, h, id);
      MovedNamesAre(e, me, leaves, d, h, d1, id, row1, doc);
    }
  }

  lemma MovedTaskIs(e: Env, d: Db, h: History, id: string)
    requires SidecarsOk(e, d, h) && id in d.vertex
    ensures At(d.task, id) == TaskOf(e, d.vertex[id].doc, d.vertex[id].ct)
  {
    hide TaskOf, PostingsOf;
    assert SidecarAt(e, d, h.lostIds, id);
  }

  lemma MovedNamesAre(e: Env, me: string, leaves: nat, d: Db, h: History, d1: Db, id: string, row1: TaskRow, doc: Doc)
    requires Ok(e, me, leaves, d, h) && Ok(e, me, leaves, d1, h) && id in d.task && id in d.vertex
    requires d1.vertex == d.vertex[id := d.vertex[id].(doc := doc)] && d1.edge == d.edge
    requires d1.counter == Rebucket(d.counter, d.task[id], row1) && At(d1.task, id) == Some(row1)
    ensures DocNames(e, doc, d.vertex[id].ct) == DocNames(e, d.vertex[id].doc, d.vertex[id].ct)
  {
    hide MerkleOk, LedgerOk, SidecarsOk, DocNames, TaskNames, TaskOf, VertexNames, EdgeNames, Census, Rebucket, Count;
    var row := d.vertex[id];
    MovedTaskIs(e, d, h, id);
    MovedTaskIs(e, d1, h, id);
    VertexEdit(e, d, d1, id, Some(d1.vertex[id]));
    forall n ensures DocNames(e, doc, row.ct)[n] == DocNames(e, row.doc, row.ct)[n] {
      assert (Census(e, d1) + SumAt(id, Some(row), VertexNames(e)))[n]
          == (Census(e, d) + SumAt(id, Some(d1.vertex[id]), VertexNames(e)))[n];
      VertexNameCount(e, id, row, n);
      VertexNameCount(e, id, d1.vertex[id], n);
      RebucketCount(d.counter, d.task[id], row1, n);
      if !Recounted(n) {
        DocNamesFamilies(e, doc, row.ct, n);
        DocNamesFamilies(e, row.doc, row.ct, n);
      }
    }
  }

  lemma RebucketCount(c: map<Counter, int>, row: TaskRow, row1: TaskRow, n: Counter)
    ensures Count(Rebucket(c, row, row1), n) == Count(c, n)
        + TaskNames(Some(row1))[n] as int - TaskNames(Some(row))[n] as int
    ensures !n.family.TaskStatus? ==> Count(Rebucket(c, row, row1), n) == Count(c, n)
  {
    hide BumpTask, TaskNames;
    BumpTaskCount(c, Some(row), -1, n);
    BumpTaskCount(BumpTask(c, Some(row), -1), Some(row1), 1, n);
    if !n.family.TaskStatus? { TaskNamesFamily(Some(row), n); TaskNamesFamily(Some(row1), n); }
  }

  lemma SameBucket(row: TaskRow, row1: TaskRow, n: Counter)
    ensures row1.ct == row.ct && row1.status == row.status ==> TaskNames(Some(row1))[n] == TaskNames(Some(row))[n]
  {
  }

  lemma MovedSidecar(e: Env, d: Db, h: History, id: string, row1: TaskRow, fields: Doc, rebucket: bool)
    requires SidecarsOk(e, d, h) && id in d.task && id in d.vertex
    requires TaskOf(e, d.vertex[id].doc + fields, d.vertex[id].ct) == Some(row1)
    ensures var d1 := MovedDb(e, d, id, row1, fields, rebucket);
            SidecarAt(e, d1, h.lostIds, id) &&
            (forall j :: j != id ==> At(d1.task, j) == At(d.task, j) && Group(d1.listkey, j) == Group(d.listkey, j))
  {
    hide TaskOf, PostingsOf, Rebucket, SidecarAt;
    var d1, row := MovedDb(e, d, id, row1, fields, rebucket), d.vertex[id];
    assert SidecarAt(e, d, h.lostIds, id);
    MovedGroups(e, d, id, row, row1, fields, rebucket, h.lostIds);
    assert At(d1.task, id) == Some(row1) && At(d1.vertex, id) == Some(row.(doc := row.doc + fields));
    SidecarIs(e, d1, h.lostIds, id, row.(doc := row.doc + fields));
  }

  lemma SidecarIs(e: Env, d: Db, lostIds: set<string>, id: string, row: VRow)
    requires At(d.vertex, id) == Some(row) && At(d.task, id) == TaskOf(e, row.doc, row.ct)
    requires id !in lostIds ==> Group(d.listkey, id) == PostingsOf(e, row.doc, row.ct)
    ensures SidecarAt(e, d, lostIds, id)
  {
    hide TaskOf, PostingsOf;
  }

  lemma MovedGroups(e: Env, d: Db, id: string, row: VRow, row1: TaskRow, fields: Doc, rebucket: bool,
                    lostIds: set<string>)
    requires At(d.vertex, id) == Some(row) && id in d.task && SidecarAt(e, d, lostIds, id)
    ensures var d1 := MovedDb(e, d, id, row1, fields, rebucket);
            (id !in lostIds ==> Group(d1.listkey, id) == PostingsOf(e, row.doc + fields, row.ct)) &&
            (forall j :: j != id ==> Group(d1.listkey, j) == Group(d.listkey, j))
  {
    hide TaskOf, PostingsOf, Rebucket, Posted;
    var l, row2 := d.listkey, row.(doc := row.doc + fields);
    assert MovedDb(e, d, id, row1, fields, rebucket).listkey == PatchedListkey(e, l, id, row2, fields);
    hide MovedDb;
    PostedGroup(l - {id}, id, PostingsOf(e, row2.doc, row2.ct));
    assert forall j :: Group(l - {id}, j) == if j == id then multiset{} else Group(l, j);
    if !(exists k :: k in fields && Indexed(k)) { PostingsKept(e, row.doc, fields, row.ct); }
  }

  lemma PostedGroup(l: map<string, multiset<Posting>>, id: string, ps: multiset<Posting>)
    ensures forall j :: Group(Posted(l, id, ps), j) == if j == id then Group(l, id) + ps else Group(l, j)
  {
  }

  lemma PostingsKept(e: Env, d: Doc, fields: Doc, ct: Value)
    requires !(exists k :: k in fields && Indexed(k))
    ensures PostingsOf(e, d + fields, ct) == PostingsOf(e, d, ct)
  {
    hide FieldsPostings;
    forall k | k in LIST_INDEX_FIELDS ensures k !in fields { assert Indexed(k); }
    PostingsUnchanged(e, LIST_INDEX_FIELDS, d, fields, ct);
  }

  lemma MoveOrphan(e: Env, me: string, leaves: nat, d: Db, h: History, id: string, row1: TaskRow, fields: Doc,
                   rebucket: bool)
    requires Ok(e, me, leaves, d, h) && id in d.task && id !in d.vertex
    requires !rebucket ==> row1.ct == d.task[id].ct && row1.status == d.task[id].status
    ensures Ok(e, me, leaves, MovedDb(e, d, id, row1, fields, rebucket), MovedHistory(d, h, id, row1, rebucket))
    ensures Evolves(me, d, h, MovedDb(e, d, id, row1, fields, rebucket), MovedHistory(d, h, id, row1, rebucket))
  {
    hide MerkleOk, CountersOk, LedgerOk, Evolves, Rebucket, SidecarsOk;
    var d1, h1 := MovedDb(e, d, id, row1, fields, rebucket), MovedHistory(d, h, id, row1, rebucket);
    OrphanCounts(d, h, id, row1, rebucket, d1, h1);
    RebucketCount(d.counter, d.task[id], row1, Counter(Vacated, me));
    OrphanSidecars(e, d, h, id, d1, h1);
    SameRowsOk(e, me, leaves, d, h, d1, h1);
  }

  lemma OrphanCounts(d: Db, h: History, id: string, row1: TaskRow, rebucket: bool, d1: Db, h1: History)
    requires id in d.task
    requires d1.counter == if rebucket then Rebucket(d.counter, d.task[id], row1) else d.counter
    requires h1.drift == if rebucket then Rebucket(h.drift, d.task[id], row1) else h.drift
    ensures forall n :: Count(d1.counter, n) - Count(h1.drift, n) == Count(d.counter, n) - Count(h.drift, n)
  {
    hide Rebucket, Count;
    forall n ensures Count(d1.counter, n) - Count(h1.drift, n) == Count(d.counter, n) - Count(h.drift, n) {
      RebucketCount(d.counter, d.task[id], row1, n);
      RebucketCount(h.drift, d.task[id], row1, n);
    }
  }

  lemma OrphanSidecars(e: Env, d: Db, h: History, id: string, d1: Db, h1: History)
    requires SidecarsOk(e, d, h) && id in d.task && id !in d.vertex && h1.lostIds == h.lostIds
    requires id in d1.task && h1.stray == h.stray[id := d1.task[id]]
    requires d1.vertex == d.vertex && d1.listkey == d.listkey && d1.task.Keys == d.task.Keys
    requires forall j :: j != id ==> At(d1.task, j) == At(d.task, j)
    ensures SidecarsOk(e, d1, h1)
  {
    hide TaskOf, PostingsOf;
    assert SidecarAt(e, d, h.lostIds, id);
    forall j ensures SidecarAt(e, d1, h1.lostIds, j) && StrayAt(d1, h1, j) {
      assert SidecarAt(e, d, h.lostIds, j) && StrayAt(d, h, j);
    }
  }

  // ── the four transitions ─────────────────────────────────────────────────────

  /** Keep the document in step with the sidecar, at the version it has. */
  method PatchDoc(st: Store, id: string, fields: Doc)
    modifies st`db
    ensures st.db == PatchedDb(st.env, old(st.db), id, fields)
  {
    hide PostingsOf;
    if id !in st.db.vertex { return; }
    var row := st.db.vertex[id];
    var doc := row.doc + fields;
    st.db := st.db.(vertex := st.db.vertex[id := row.(doc := doc)]);
    if exists k :: k in fields && Indexed(k) {
      st.IndexLists(id, Some(doc), row.ct, true);
    }
  }

  /** The task row with these five columns, and every other column as it was. */
  predicate TaskReads(t: TaskRow, u: TaskRow, status: string, holder: Value, since: Value, retry: Value, done: Value) {
    u.status == status && u.claimedBy == holder && u.claimedAt == since && u.nextRetryAt == retry &&
        u.completedAt == done &&
    u.ct == t.ct && u.priority == t.priority && u.operator == t.operator && u.taskKey == t.taskKey
  }

  /** The document with these keys, and every other key as it was. */
  ghost predicate DocReads(c: Doc, d: Doc, fields: Doc) {
    forall k :: Get(d, k) == if k in fields then fields[k] else Get(c, k)
  }

  lemma MirroredReads(d0: Db, d1: Db, id: string, row1: TaskRow, fields: Doc, rebucket: bool)
    requires Mirrored(d0, d1, id, row1, fields, rebucket)
    ensures id in d0.task && d1.task == d0.task[id := row1]
    ensures id in d0.vertex ==> id in d1.vertex && DocReads(d0.vertex[id].doc, d1.vertex[id].doc, fields)
  {
    hide TaskNames, Count;
  }

  /** The transition and its commit.  The invariants hold after it exactly when the document fits. */
  method Exchange(st: Store, id: string, row1: TaskRow, fields: Doc, rebucket: bool)
    requires st.Valid() && st.open && id in st.db.task && !st.clock.dirty
    requires rebucket || (row1.ct == st.db.task[id].ct && row1.status == st.db.task[id].status &&
                          Fitting(st.env, st.db, id, row1, fields))
    modifies st`db, st`disk, st`hist, st`diskHist, st`open, st.clock
    ensures !st.open
    ensures st.Valid() <==> Fitting(st.env, old(st.db), id, row1, fields)
    ensures st.Valid() ==> Evolves(st.origin, old(st.db), old(st.hist), st.db, st.hist)
    ensures Mirrored(old(st.db), st.db, id, row1, fields, rebucket) && OnlyTaskDrift(old(st.hist), st.hist)
  {
    hide Ok, Evolves, MovedDb, MovedHistory, TaskOf, MarkOk, Mirrored, Fitting, OnlyTaskDrift;
    ghost var d0, h0 := st.db, st.hist;
    MovedIsMirrored(st.env, d0, id, row1, fields, rebucket);
    MovedBooks(st.env, st.origin, st.leaves, d0, h0, id, row1, rebucket);
    MoveTables(st, id, row1, fields, rebucket);
    st.hist := MovedHistory(d0, h0, id, row1, rebucket);
    if Fitting(st.env, d0, id, row1, fields) {
      MoveStep(st.env, st.origin, st.leaves, d0, h0, id, row1, fields, rebucket);
      MovedKeeps(st.env, d0, h0, id, row1, fields, rebucket);
      EvolvesTrans(st.origin, st.disk, st.diskHist, d0, h0, st.db, st.hist);
      assert st.Valid();
    } else {
      MisfitBreaks(st.env, st.origin, st.leaves, d0, h0, id, row1, fields);
    }
    var committed := st.Commit();
  }

  lemma MovedKeeps(e: Env, d: Db, h: History, id: string, row1: TaskRow, fields: Doc, rebucket: bool)
    requires id in d.task
    ensures MovedDb(e, d, id, row1, fields, rebucket).seqs == d.seqs
    ensures var h1 := MovedHistory(d, h, id, row1, rebucket); h1.log == h.log && h1.echo == h.echo
  {
  }

  /** One task row moved, and its bucket with it; its document took the fields at the version it
      has; no other row, no digest and no clock moved. */
  ghost predicate Mirrored(d0: Db, d1: Db, id: string, row1: TaskRow, fields: Doc, rebucket: bool) {
    id in d0.task &&
    d1 == d0.(vertex := d1.vertex, task := d0.task[id := row1], counter := d1.counter, listkey := d1.listkey) &&
    d1.vertex == (if id in d0.vertex then d0.vertex[id := d0.vertex[id].(doc := d0.vertex[id].doc + fields)]
        else d0.vertex) &&
    (forall n :: Count(d1.counter, n) ==
       Count(d0.counter, n) + if rebucket
           then TaskNames(Some(row1))[n] as int - TaskNames(Some(d0.task[id]))[n] as int else 0) &&
    (forall j :: j != id ==> Group(d1.listkey, j) == Group(d0.listkey, j))
  }

  lemma MovedIsMirrored(e: Env, d: Db, id: string, row1: TaskRow, fields: Doc, rebucket: bool)
    requires id in d.task
    ensures Mirrored(d, MovedDb(e, d, id, row1, fields, rebucket), id, row1, fields, rebucket)
  {
    hide PatchedListkey, Rebucket, TaskNames, Count;
    forall n ensures Count(Rebucket(d.counter, d.task[id], row1), n) ==
                     Count(d.counter, n) + TaskNames(Some(row1))[n] as int - TaskNames(Some(d.task[id]))[n] as int
    {
      RebucketCount(d.counter, d.task[id], row1, n);
    }
    if id in d.vertex {
      OnlyItsPostings(e, d.listkey, id, d.vertex[id].(doc := d.vertex[id].doc + fields), fields);
    }
  }

  lemma OnlyItsPostings(e: Env, l: map<string, multiset<Posting>>, id: string, row: VRow, fields: Doc)
    ensures forall j :: j != id ==> Group(PatchedListkey(e, l, id, row, fields), j) == Group(l, j)
  {
    hide PostingsOf, Posted;
    PostedGroup(l - {id}, id, PostingsOf(e, row.doc, row.ct));
    assert forall j :: Group(l - {id}, j) == if j == id then multiset{} else Group(l, j);
  }

  method MoveTables(st: Store, id: string, row1: TaskRow, fields: Doc, rebucket: bool)
    requires id in st.db.task
    modifies st`db
    ensures st.db == MovedDb(st.env, old(st.db), id, row1, fields, rebucket)
  {
    hide PostingsOf, TaskOf, Bump;
    var row := st.db.task[id];
    st.db := st.db.(task := st.db.task[id := row1]);
    PatchDoc(st, id, fields);
    if rebucket {
      st.db := st.db.(counter := Bump(st.db.counter, TaskCounter(row.ct, row.status), -1));
      st.db := st.db.(counter := Bump(st.db.counter, TaskCounter(row1.ct, row1.status), 1));
    }
  }

  function Claimed(row: TaskRow, worker: string, now: Value): TaskRow {
    row.(status := "claimed", claimedBy := Str(worker), claimedAt := now)
  }

  function Released(row: TaskRow, to: string, nextRetry: Value): TaskRow {
    row.(status := to, claimedBy := Null, nextRetryAt := nextRetry)
  }

  function Settled(row: TaskRow, to: string, nextRetry: Value, completedAt: Value): TaskRow {
    row.(status := to, claimedBy := Null, nextRetryAt := nextRetry, completedAt := completedAt)
  }

  /** The task row of a document that exists is its projection, also after a loss. */
  lemma TaskAgrees(st: Store, id: string)
    requires st.Valid() && id in st.db.vertex && id in st.db.task
    ensures TaskOf(st.env, st.db.vertex[id].doc, st.db.vertex[id].ct) == Some(st.db.task[id])
  {
    assert SidecarAt(st.env, st.db, st.hist.lostIds, id);
  }

  /** What a patched document reads at `k`. */
  function Over(d: Doc, fields: Doc, k: Key): Value { if k in fields then fields[k] else Get(d, k) }

  lemma Reprojected(e: Env, d: Doc, ct: Value, fields: Doc, row: TaskRow)
    requires TaskOf(e, d, ct) == Some(row) && Truthy(Over(d, fields, Status))
    requires forall k :: k in fields ==> !k.Priority? && !k.Operator? && !k.TaskKey?
    ensures TaskOf(e, d + fields, ct) == Some(TaskRow(
      row.ct, e.text(Over(d, fields, Status)), row.priority, row.operator, row.taskKey, Over(d, fields, ClaimedBy),
      Over(d, fields, ClaimedAt), Over(d, fields, NextRetryAt), Over(d, fields, CompletedAt)))
    ensures row.claimedBy == Get(d, ClaimedBy) && row.claimedAt == Get(d, ClaimedAt)
    ensures row.nextRetryAt == Get(d, NextRetryAt) && row.completedAt == Get(d, CompletedAt)
    ensures row.status == e.text(Get(d, Status)) && Truthy(Get(d, Status))
  {
    forall k ensures Get(d + fields, k) == Over(d, fields, k) {}
    hide Over;
    assert Priority !in fields && Operator !in fields && TaskKey !in fields;
    assert Over(d, fields, Priority) == Get(d, Priority) by { PlainOver(d, fields, Priority); }
    assert Over(d, fields, Operator) == Get(d, Operator) by { PlainOver(d, fields, Operator); }
    assert Over(d, fields, TaskKey) == Get(d, TaskKey) by { PlainOver(d, fields, TaskKey); }
  }

  lemma PlainOver(d: Doc, fields: Doc, k: Key)
    requires k !in fields
    ensures Over(d, fields, k) == Get(d, k)
  {
  }

  /** The fields a transition writes into the document. */
  function ClaimFields(worker: string, now: Value): Doc {
    map[Status := Str("claimed"), ClaimedBy := Str(worker), ClaimedAt := now]
  }

  function ReleaseFields(to: string, nextRetry: Value): Doc {
    map[Status := Str(to), ClaimedBy := Null, NextRetryAt := nextRetry]
  }

  function SettleFields(fields: Doc, to: string, nextRetry: Value, completedAt: Value): Doc {
    fields + map[Status := Str(to), ClaimedBy := Null, NextRetryAt := nextRetry, CompletedAt := completedAt]
  }

  predicate FieldsFit(fields: Doc) { forall k :: k in fields ==> !Counted(k) && !k.ContentType? }

  lemma SettleFieldsFit(fields: Doc, to: string, nextRetry: Value, completedAt: Value)
    requires forall k :: k in fields ==> !Projected(k) && !Counted(k)
    ensures FieldsFit(SettleFields(fields, to, nextRetry, completedAt))
  {
  }

  lemma ClaimProjects(e: Env, d: Doc, ct: Value, row: TaskRow, worker: string, now: Value)
    requires TaskOf(e, d, ct) == Some(row) && (forall s :: e.text(Str(s)) == s)
    ensures TaskOf(e, d + ClaimFields(worker, now), ct) == Some(Claimed(row, worker, now))
  {
    hide TaskOf;
    Reprojected(e, d, ct, ClaimFields(worker, now), row);
  }

  lemma RenewProjects(e: Env, d: Doc, ct: Value, row: TaskRow, now: Value)
    requires TaskOf(e, d, ct) == Some(row)
    ensures TaskOf(e, d + map[ClaimedAt := now], ct) == Some(row.(claimedAt := now))
  {
    assert Over(d, map[ClaimedAt := now], Status) == Get(d, Status);
    Reprojected(e, d, ct, map[ClaimedAt := now], row);
  }

  lemma ReleaseProjects(e: Env, d: Doc, ct: Value, row: TaskRow, to: string, nextRetry: Value)
    requires TaskOf(e, d, ct) == Some(row) && (forall s :: e.text(Str(s)) == s) && to != ""
    ensures TaskOf(e, d + ReleaseFields(to, nextRetry), ct) == Some(Released(row, to, nextRetry))
  {
    hide TaskOf;
    Reprojected(e, d, ct, ReleaseFields(to, nextRetry), row);
  }

  lemma SettleProjects(e: Env, d: Doc, ct: Value, row: TaskRow, fields: Doc, to: string, nextRetry: Value,
                       completedAt: Value)
    requires TaskOf(e, d, ct) == Some(row) && (forall s :: e.text(Str(s)) == s) && to != ""
    requires forall k :: k in fields ==> !Projected(k)
    ensures TaskOf(e, d + SettleFields(fields, to, nextRetry, completedAt), ct)
        == Some(Settled(row, to, nextRetry, completedAt))
  {
    hide TaskOf;
    var f := SettleFields(fields, to, nextRetry, completedAt);
    assert ClaimedAt !in fields && Priority !in fields && Operator !in fields && TaskKey !in fields;
    assert f[Status] == Str(to) && f[ClaimedBy] == Null && f[NextRetryAt] == nextRetry && f[CompletedAt] == completedAt;
    assert ClaimedAt !in f;
    Reprojected(e, d, ct, f, row);
  }

  lemma ClaimReads(t: TaskRow, worker: string, now: Value)
    ensures TaskReads(t, Claimed(t, worker, now), "claimed", Str(worker), now, t.nextRetryAt, t.completedAt)
    ensures ClaimFields(worker, now) == map[Status := Str("claimed"), ClaimedBy := Str(worker), ClaimedAt := now]
  {
  }

  lemma RenewReads(t: TaskRow, now: Value)
    ensures TaskReads(t, t.(claimedAt := now), t.status, t.claimedBy, now, t.nextRetryAt, t.completedAt)
  {
  }

  lemma ReleaseReads(t: TaskRow, to: string, nextRetry: Value)
    ensures TaskReads(t, Released(t, to, nextRetry), to, Null, t.claimedAt, nextRetry, t.completedAt)
    ensures ReleaseFields(to, nextRetry) == map[Status := Str(to), ClaimedBy := Null, NextRetryAt := nextRetry]
  {
  }

  lemma SettleReads(t: TaskRow, fields: Doc, to: string, nextRetry: Value, completedAt: Value)
    ensures TaskReads(t, Settled(t, to, nextRetry, completedAt), to, Null, t.claimedAt, nextRetry, completedAt)
    ensures SettleFields(fields, to, nextRetry, completedAt) ==
            fields + map[Status := Str(to), ClaimedBy := Null, NextRetryAt := nextRetry, CompletedAt := completedAt]
  {
  }

  method TryClaim(st: Store, id: string, worker: string, now: Value) returns (won: bool)
    requires st.Valid() && !st.open
    modifies st`db, st`disk, st`hist, st`diskHist, st`open, st.clock
    ensures st.Valid() && !st.open
    ensures won <==> id in old(st.db.task) && old(st.db.task)[id].status == "pending"
    ensures PoolStep(old(st.db.task), Claim(id, worker), won, st.db.task)
    ensures won ==>
        Mirrored(old(st.db), st.db, id, Claimed(old(st.db.task)[id], worker, now), ClaimFields(worker, now), true)
    ensures won ==>
              id in st.db.task && var t, u := old(st.db.task)[id], st.db.task[id];
              TaskReads(t, u, "claimed", Str(worker), now, t.nextRetryAt, t.completedAt)
    ensures won && id in old(st.db.vertex) ==>
              id in st.db.vertex && DocReads(old(st.db.vertex)[id].doc, st.db.vertex[id].doc, 
                map[Status := Str("claimed"), ClaimedBy := Str(worker), ClaimedAt := now])
    ensures Evolves(st.origin, old(st.db), old(st.hist), st.db, st.hist) && OnlyTaskDrift(old(st.hist), st.hist)
    ensures !won ==> st.db == old(st.db)
  {
    hide Ok, Evolves, MovedDb, MovedHistory, TaskOf, MarkOk, Mirrored, DocReads, TaskReads;
    st.Begin();
    won := id in st.db.task && st.db.task[id].status == "pending";
    if won {
      var row1 := Claimed(st.db.task[id], worker, now);
      if id in st.db.vertex {
        TaskAgrees(st, id);
        ClaimProjects(st.env, st.db.vertex[id].doc, st.db.vertex[id].ct, st.db.task[id], worker, now);
      }
      FieldsFitting(st.env, st.db, id, row1, ClaimFields(worker, now));
      Exchange(st, id, row1, ClaimFields(worker, now), true);
      ClaimReads(old(st.db.task)[id], worker, now);
      MirroredReads(old(st.db), st.db, id, row1, ClaimFields(worker, now), true);
    } else {
      EvolvesRefl(st.origin, st.db, st.hist);
      var committed := st.Commit();
    }
  }

  lemma RenewSteps(t0: map<string, TaskRow>, t1: map<string, TaskRow>, id: string, now: Value, held: bool)
    requires held <==> id in t0 && t0[id].status == "claimed"
    requires t1 == if held then t0[id := t0[id].(claimedAt := now)] else t0
    ensures PoolStep(t0, Renew(id), held, t1)
  {
  }

  method RenewLease(st: Store, id: string, now: Value) returns (held: bool)
    requires st.Valid() && !st.open
    modifies st`db, st`disk, st`hist, st`diskHist, st`open, st.clock
    ensures st.Valid() && !st.open
    ensures held <==> id in old(st.db.task) && old(st.db.task)[id].status == "claimed"
    ensures PoolStep(old(st.db.task), Renew(id), held, st.db.task)
    ensures held ==>
        Mirrored(old(st.db), st.db, id, old(st.db.task)[id].(claimedAt := now), map[ClaimedAt := now], false)
    ensures held ==>
              id in st.db.task && var t, u := old(st.db.task)[id], st.db.task[id];
              TaskReads(t, u, t.status, t.claimedBy, now, t.nextRetryAt, t.completedAt)
    ensures held && id in old(st.db.vertex) ==>
              id in st.db.vertex && DocReads(old(st.db.vertex)[id].doc, st.db.vertex[id].doc, map[ClaimedAt := now])
    ensures Evolves(st.origin, old(st.db), old(st.hist), st.db, st.hist) && OnlyTaskDrift(old(st.hist), st.hist)
    ensures !held ==> st.db == old(st.db)
  {
    hide Ok, Evolves, MovedDb, MovedHistory, TaskOf, MarkOk, Mirrored, DocReads, TaskReads, PoolStep, Fitting,
        FieldsFit;
    st.Begin();
    held := id in st.db.task && st.db.task[id].status == "claimed";
    if held {
      var row1 := st.db.task[id].(claimedAt := now);
      if id in st.db.vertex {
        TaskAgrees(st, id);
        RenewProjects(st.env, st.db.vertex[id].doc, st.db.vertex[id].ct, st.db.task[id], now);
      }
      FieldsFitting(st.env, st.db, id, row1, map[ClaimedAt := now]);
      Exchange(st, id, row1, map[ClaimedAt := now], false);
      RenewReads(old(st.db.task)[id], now);
      MirroredReads(old(st.db), st.db, id, row1, map[ClaimedAt := now], false);
    } else {
      EvolvesRefl(st.origin, st.db, st.hist);
      var committed := st.Commit();
    }
    RenewSteps(old(st.db.task), st.db.task, id, now, held);
  }

  /** An empty target status is taken too: the task row keeps it, the document projects to no task. */
  method Release(st: Store, id: string, to: string, nextRetry: Value) returns (moved: bool)
    requires st.Valid() && !st.open
    modifies st`db, st`disk, st`hist, st`diskHist, st`open, st.clock
    ensures !st.open
    ensures st.Valid() <==> (moved && to == "" ==> id !in old(st.db.vertex))
    ensures moved <==> id in old(st.db.task) && old(st.db.task)[id].status == "claimed"
    ensures PoolStep(old(st.db.task), Give(id, to), moved, st.db.task)
    ensures moved ==>
        Mirrored(old(st.db), st.db, id, Released(old(st.db.task)[id], to, nextRetry), ReleaseFields(to, nextRetry),
        true)
    ensures moved ==>
              id in st.db.task && var t, u := old(st.db.task)[id], st.db.task[id];
              TaskReads(t, u, to, Null, t.claimedAt, nextRetry, t.completedAt)
    ensures moved && id in old(st.db.vertex) ==>
              id in st.db.vertex && DocReads(old(st.db.vertex)[id].doc, st.db.vertex[id].doc, 
                map[Status := Str(to), ClaimedBy := Null, NextRetryAt := nextRetry])
    ensures st.Valid() ==> Evolves(st.origin, old(st.db), old(st.hist), st.db, st.hist)
    ensures OnlyTaskDrift(old(st.hist), st.hist)
    ensures !moved ==> st.db == old(st.db)
  {
    hide Ok, Evolves, MovedDb, MovedHistory, TaskOf, MarkOk, Mirrored, DocReads, TaskReads, Fitting, FieldsFit;
    st.Begin();
    moved := id in st.db.task && st.db.task[id].status == "claimed";
    if moved {
      var row1 := Released(st.db.task[id], to, nextRetry);
      ReleaseFits(st, id, to, nextRetry);
      Exchange(st, id, row1, ReleaseFields(to, nextRetry), true);
      ReleaseReads(old(st.db.task)[id], to, nextRetry);
      MirroredReads(old(st.db), st.db, id, row1, ReleaseFields(to, nextRetry), true);
    } else {
      EvolvesRefl(st.origin, st.db, st.hist);
      var committed := st.Commit();
    }
  }

  lemma ReleaseFits(st: Store, id: string, to: string, nextRetry: Value)
    requires st.Valid() && id in st.db.task
    ensures Fitting(st.env, st.db, id, Released(st.db.task[id], to, nextRetry), ReleaseFields(to, nextRetry))
            <==> (to == "" ==> id !in st.db.vertex)
  {
    hide Ok, TaskOf, DocNames;
    var row1, fields := Released(st.db.task[id], to, nextRetry), ReleaseFields(to, nextRetry);
    if id in st.db.vertex {
      var row := st.db.vertex[id];
      if to == "" {
        NoStatusNoTask(st.env, row.doc + fields, row.ct);
      } else {
        TaskAgrees(st, id);
        ReleaseProjects(st.env, row.doc, row.ct, st.db.task[id], to, nextRetry);
        FieldsFitting(st.env, st.db, id, row1, fields);
      }
    }
  }

  lemma NoStatusNoTask(e: Env, doc: Doc, ct: Value)
    requires !Truthy(Get(doc, Status))
    ensures TaskOf(e, doc, ct) == None
  {
  }

  /** The claimer's own exit: it compares on the holder too.  Whatever else `fields` says, the
      invariants hold after it exactly when the document fits the row it leaves. */
  method Settle(st: Store, id: string, worker: string, to: string, nextRetry: Value, completedAt: Value, fields: Doc)
    returns (moved: bool)
    requires st.Valid() && !st.open
    modifies st`db, st`disk, st`hist, st`diskHist, st`open, st.clock
    ensures !st.open
    ensures moved <==> id in old(st.db.task) && var t := old(st.db.task)[id];
                       t.status == "claimed" && t.claimedBy == Str(worker)
    ensures PoolStep(old(st.db.task), Exit(id, worker, to), moved, st.db.task)
    ensures moved ==> Mirrored(old(st.db), st.db, id, Settled(old(st.db.task)[id], to, nextRetry, completedAt),
                               SettleFields(fields, to, nextRetry, completedAt), true)
    ensures moved ==>
              id in st.db.task && var t, u := old(st.db.task)[id], st.db.task[id];
              TaskReads(t, u, to, Null, t.claimedAt, nextRetry, completedAt)
    ensures moved && id in old(st.db.vertex) ==>
              id in st.db.vertex && DocReads(old(st.db.vertex)[id].doc, st.db.vertex[id].doc, 
                fields + map[Status := Str(to), ClaimedBy := Null, NextRetryAt := nextRetry,
                    CompletedAt := completedAt])
    ensures !moved ==> st.Valid() && st.db == old(st.db)
    ensures moved ==>
        (st.Valid() <==> Fitting(st.env, old(st.db), id, Settled(old(st.db.task)[id], to, nextRetry, completedAt),
                                               SettleFields(fields, to, nextRetry, completedAt)))
    ensures to != "" && DocOnly(fields) ==> st.Valid()
    ensures st.Valid() ==> Evolves(st.origin, old(st.db), old(st.hist), st.db, st.hist)
    ensures OnlyTaskDrift(old(st.hist), st.hist)
  {
    hide Ok, Evolves, MovedDb, MovedHistory, TaskOf, MarkOk, Mirrored, DocReads, TaskReads, SettleFields, Fitting,
        DocOnly;
    st.Begin();
    moved := id in st.db.task && st.db.task[id].status == "claimed" && st.db.task[id].claimedBy == Str(worker);
    if moved {
      var row1 := Settled(st.db.task[id], to, nextRetry, completedAt);
      if to != "" && DocOnly(fields) { SettleFits(st, id, to, nextRetry, completedAt, fields); }
      Exchange(st, id, row1, SettleFields(fields, to, nextRetry, completedAt), true);
      SettleReads(old(st.db.task)[id], fields, to, nextRetry, completedAt);
      MirroredReads(old(st.db), st.db, id, row1, SettleFields(fields, to, nextRetry, completedAt), true);
    } else {
      EvolvesRefl(st.origin, st.db, st.hist);
      var committed := st.Commit();
    }
  }

  /** Facts about the attempt that no column projects and no counter counts. */
  predicate DocOnly(fields: Doc) { forall k :: k in fields ==> !Projected(k) && !Counted(k) }

  lemma SettleFits(st: Store, id: string, to: string, nextRetry: Value, completedAt: Value, fields: Doc)
    requires st.Valid() && id in st.db.task && to != "" && DocOnly(fields)
    ensures Fitting(st.env, st.db, id, Settled(st.db.task[id], to, nextRetry, completedAt),
                    SettleFields(fields, to, nextRetry, completedAt))
  {
    hide Ok, TaskOf, SettleFields, Fitting;
    if id in st.db.vertex {
      TaskAgrees(st, id);
      SettleProjects(st.env, st.db.vertex[id].doc, st.db.vertex[id].ct, st.db.task[id], fields, to, nextRetry,
          completedAt);
    }
    SettleFieldsFit(fields, to, nextRetry, completedAt);
    FieldsFitting(st.env, st.db, id, Settled(st.db.task[id], to, nextRetry, completedAt),
                  SettleFields(fields, to, nextRetry, completedAt));
  }

  // ── whole runs of the pool ───────────────────────────────────────────────────

  /** What can happen to the task table: the four transitions, or a write that leaves some documents
      with another claim than they had. */
  datatype Event =
    | Claim(id: string, worker: string)
    | Renew(id: string)
    | Give(id: string, to: string)
    | Exit(id: string, worker: string, to: string)
    | Rewrite(ids: set<string>)

  ghost predicate PoolStep(t0: map<string, TaskRow>, ev: Event, ok: bool, t1: map<string, TaskRow>) {
    match ev
    case Claim(id, worker) =>
      (ok <==> id in t0 && t0[id].status == "pending") &&
      (ok ==> exists now :: t1 == t0[id := Claimed(t0[id], worker, now)]) && (!ok ==> t1 == t0)
    case Renew(id) =>
      (ok <==> id in t0 && t0[id].status == "claimed") &&
      (ok ==> exists now :: t1 == t0[id := t0[id].(claimedAt := now)]) && (!ok ==> t1 == t0)
    case Give(id, to) =>
      (ok <==> id in t0 && t0[id].status == "claimed") &&
      (ok ==> exists retry :: t1 == t0[id := Released(t0[id], to, retry)]) && (!ok ==> t1 == t0)
    case Exit(id, worker, to) =>
      (ok <==> id in t0 && t0[id].status == "claimed" && t0[id].claimedBy == Str(worker)) &&
      (ok ==> exists retry, done :: t1 == t0[id := Settled(t0[id], to, retry, done)]) && (!ok ==> t1 == t0)
    case Rewrite(ids) => forall j :: j !in ids ==> Hold(At(t1, j)) == Hold(At(t0, j))
  }

  /** The status of a task and who holds it. */
  function Hold(t: Option<TaskRow>): Option<(string, Value)> {
    if t.Some? then Some((t.value.status, t.value.claimedBy)) else None
  }

  /** What a document says of its claim; nothing when it is not there. */
  function ClaimOf(row: Option<VRow>): Option<(Value, Value, Value)> {
    if row.Some? then Some((Get(row.value.doc, Status), Get(row.value.doc, ClaimedBy), Get(row.value.doc, ContentType)))
    else None
  }

  /** The document came or went, or reads otherwise in its status, its holder or its type. */
  predicate ClaimRewritten(v0: map<string, VRow>, v1: map<string, VRow>, id: string) {
    ClaimOf(At(v0, id)) != ClaimOf(At(v1, id))
  }

  function RewrittenClaims(v0: map<string, VRow>, v1: map<string, VRow>): set<string> {
    set id | id in v0.Keys + v1.Keys && ClaimRewritten(v0, v1, id)
  }

  /** The status or the holder of a task moves only with its own document, whatever else vanished:
      a task whose document is gone stays as it was left. */
  lemma FreedByItsDocument(e: Env, d0: Db, h0: History, d1: Db, h1: History, id: string)
    requires SidecarsOk(e, d0, h0) && SidecarsOk(e, d1, h1) && Shaped(d0) && Shaped(d1)
    requires id in d0.vertex || id in d1.vertex || At(h0.stray, id) == At(h1.stray, id)
    ensures Hold(At(d0.task, id)) != Hold(At(d1.task, id)) ==> ClaimRewritten(d0.vertex, d1.vertex, id)
  {
    hide PostingsOf, SidecarsOk;
    if id !in d0.vertex && id !in d1.vertex {
      StrayIs(e, d0, h0, id);
      StrayIs(e, d1, h1, id);
    } else if id in d0.vertex && id in d1.vertex {
      MovedTaskIs(e, d0, h0, id);
      MovedTaskIs(e, d1, h1, id);
    }
  }

  lemma StrayIs(e: Env, d: Db, h: History, id: string)
    requires SidecarsOk(e, d, h) && id !in d.vertex
    ensures At(d.task, id) == At(h.stray, id)
  {
    assert StrayAt(d, h, id);
  }

  /** Where no document changed what its task projects and no stray moved, no task moved. */
  lemma SameTasks(e: Env, d0: Db, h0: History, d1: Db, h1: History)
    requires SidecarsOk(e, d0, h0) && SidecarsOk(e, d1, h1) && d1.vertex == d0.vertex && h1.stray == h0.stray
    ensures d1.task == d0.task
  {
    hide TaskOf, SidecarsOk;
    forall id ensures At(d1.task, id) == At(d0.task, id) {
      if id in d0.vertex {
        MovedTaskIs(e, d0, h0, id);
        MovedTaskIs(e, d1, h1, id);
      } else {
        StrayIs(e, d0, h0, id);
        StrayIs(e, d1, h1, id);
      }
    }
    SameAt(d0.task, d1.task);
  }

  lemma SameAt(a: map<string, TaskRow>, b: map<string, TaskRow>)
    requires forall id :: At(b, id) == At(a, id)
    ensures b == a
  {
    assert forall id :: id in a <==> At(a, id).Some?;
    assert forall id :: id in b <==> At(b, id).Some?;
    assert forall id :: id in a ==> At(a, id) == Some(a[id]);
    assert forall id :: id in b ==> At(b, id) == Some(b[id]);
  }

  datatype Happened = Happened(ev: Event, ok: bool)

  /** A run: one more state than events, each event a step. */
  ghost predicate PoolRun(ts: seq<map<string, TaskRow>>, evs: seq<Happened>) {
    |ts| == |evs| + 1 && forall i :: 0 <= i < |evs| ==> PoolStep(ts[i], evs[i].ev, evs[i].ok, ts[i + 1])
  }

  /** An event that takes a claimed task out of its claim. */
  predicate Frees(h: Happened, id: string) {
    match h.ev
    case Give(j, _) => h.ok && j == id
    case Exit(j, _, _) => h.ok && j == id
    case Rewrite(ids) => id in ids
    case _ => false
  }

  /** While nothing frees it, a claimed task stays claimed, by the worker that claimed it. */
  lemma {:induction false} ClaimHolds(ts: seq<map<string, TaskRow>>, evs: seq<Happened>, i: nat, j: nat, id: string,
                                      worker: string)
    requires PoolRun(ts, evs) && i < j <= |evs|
    requires evs[i] == Happened(Claim(id, worker), true)
    requires forall k :: i < k < j ==> !Frees(evs[k], id)
    ensures id in ts[j] && ts[j][id].status == "claimed" && ts[j][id].claimedBy == Str(worker)
    decreases j
  {
    assert PoolStep(ts[j - 1], evs[j - 1].ev, evs[j - 1].ok, ts[j]);
    if j > i + 1 {
      ClaimHolds(ts, evs, i, j - 1, id, worker);
      assert !Frees(evs[j - 1], id);
      assert "claimed" != "pending" by { assert "claimed"[0] != "pending"[0]; }
      match evs[j - 1].ev {
        case Rewrite(ids) => assert Hold(At(ts[j], id)) == Hold(At(ts[j - 1], id));
        case _ =>
      }
    }
  }

  /** Between two successful claims of one task it was freed. */
  lemma ClaimedOnce(ts: seq<map<string, TaskRow>>, evs: seq<Happened>, i: nat, j: nat, id: string, u: string, v: string)
    requires PoolRun(ts, evs) && i < j < |evs|
    requires evs[i] == Happened(Claim(id, u), true) && evs[j] == Happened(Claim(id, v), true)
    ensures exists k :: i < k < j && Frees(evs[k], id)
  {
    if forall k :: i < k < j ==> !Frees(evs[k], id) {
      assert "claimed" != "pending" by { assert "claimed"[0] != "pending"[0]; }
      assert PoolStep(ts[j], evs[j].ev, evs[j].ok, ts[j + 1]);
      ClaimHolds(ts, evs, i, j, id, u);
      assert false;
    }
  }

  /** While nothing frees it, only the claimer can settle, and the claimer can. */
  lemma OnlyTheHolderSettles(ts: seq<map<string, TaskRow>>, evs: seq<Happened>, i: nat, j: nat, id: string, u: string,
                             v: string, to: string)
    requires PoolRun(ts, evs) && i < j < |evs|
    requires evs[i] == Happened(Claim(id, u), true) && evs[j].ev == Exit(id, v, to)
    requires forall k :: i < k < j ==> !Frees(evs[k], id)
    ensures evs[j].ok <==> u == v
  {
    ClaimHolds(ts, evs, i, j, id, u);
    assert PoolStep(ts[j], evs[j].ev, evs[j].ok, ts[j + 1]);
  }

  // ── queue depth ──────────────────────────────────────────────────────────────

  function Bucket(t: map<string, TaskRow>, ct: string, status: string): set<string> {
    set id | id in t && t[id].ct == ct && t[id].status == status
  }

  predicate ColonFree(s: string) { forall i :: 0 <= i < |s| ==> s[i] != ':' }

  lemma NameSplits(ct: string, status: string, ct1: string, status1: string)
    requires ColonFree(status) && ColonFree(status1)
    requires ct + ":" + status == ct1 + ":" + status1
    ensures ct == ct1 && status == status1
  {
    var s, s1 := ct + ":" + status, ct1 + ":" + status1;
    assert s[|ct|] == ':' && s1[|ct1|] == ':';
    assert forall i :: |ct| < i < |s| ==> s[i] == status[i - |ct| - 1];
    assert forall i :: |ct1| < i < |s1| ==> s1[i] == status1[i - |ct1| - 1];
    assert |ct| == |ct1|;
    assert ct == s[..|ct|] && ct1 == s1[..|ct1|];
    assert status == s[|ct| + 1..] && status1 == s1[|ct1| + 1..];
  }

  /** The tasks counted under the name that joins `ct` and `status`. */
  function Named(t: map<string, TaskRow>, ct: string, status: string): set<string> {
    set id | id in t && t[id].ct + ":" + t[id].status == ct + ":" + status
  }

  lemma NamedBucket(e: Env, id: string, row: VRow, t: Option<TaskRow>, ct: string, status: string)
    requires t == TaskOf(e, row.doc, row.ct)
    ensures VertexNames(e)(id, row)[TaskCounter(ct, status)]
         == if t.Some? && t.value.ct + ":" + t.value.status == ct + ":" + status then 1 else 0
  {
    hide TaskOf, DocNames, TaskNames, VertexNames;
    var n := TaskCounter(ct, status);
    VertexNameCount(e, id, row, n);
    DocNamesFamilies(e, row.doc, row.ct, n);
    TaskNameCount(t, n);
  }

  lemma TasksAreProjections(e: Env, d: Db, h: History)
    requires SidecarsOk(e, d, h) && h.lostIds == {}
    ensures forall id :: At(d.task, id) == if id in d.vertex then TaskOf(e, d.vertex[id].doc, d.vertex[id].ct) else None
  {
    hide TaskOf, PostingsOf;
    forall id
      ensures At(d.task, id) == if id in d.vertex then TaskOf(e, d.vertex[id].doc, d.vertex[id].ct) else None
    {
      assert SidecarAt(e, d, h.lostIds, id);
    }
  }

  /** A store in which nothing vanished answers each queue depth with the number of tasks whose
      type and status join to that name; that is the size of the bucket exactly when no task of
      another bucket joins to it, as none does when no status holds a colon. */
  lemma DepthIsBucketSize(e: Env, me: string, leaves: nat, d: Db, h: History, ct: string, status: string)
    requires Ok(e, me, leaves, d, h) && Whole(h)
    ensures var n := Count(d.counter, TaskCounter(ct, status));
            n == |Named(d.task, ct, status)| >= |Bucket(d.task, ct, status)| &&
            (n == |Bucket(d.task, ct, status)| <==> Named(d.task, ct, status) == Bucket(d.task, ct, status)) &&
            (ColonFree(status) && (forall id :: id in d.task ==> ColonFree(d.task[id].status)) ==>
               n == |Bucket(d.task, ct, status)|)
  {
    hide Ok, Leaf;
    DepthUpToDrift(e, me, leaves, d, h, ct, status);
    var named, bucket := Named(d.task, ct, status), Bucket(d.task, ct, status);
    SubsetSize(bucket, named);
    if ColonFree(status) && forall id :: id in d.task ==> ColonFree(d.task[id].status) {
      forall id | id in named ensures id in bucket { NameSplits(ct, status, d.task[id].ct, d.task[id].status); }
      assert named == bucket;
    }
  }

  lemma DepthUpToDrift(e: Env, me: string, leaves: nat, d: Db, h: History, ct: string, status: string)
    requires Ok(e, me, leaves, d, h) && h.lostIds == {}
    ensures Count(d.counter, TaskCounter(ct, status)) == |Named(d.task, ct, status)|
        + Count(h.drift, TaskCounter(ct, status))
  {
    hide MerkleOk, LedgerOk, SidecarsOk, TaskOf, VertexNames, EdgeNames;
    var n, hits := TaskCounter(ct, status), Named(d.task, ct, status);
    TasksAreProjections(e, d, h);
    forall id | id in d.task ensures id in d.vertex { assert At(d.task, id).Some?; }
    forall id | id in d.vertex
      ensures VertexNames(e)(id, d.vertex[id])[n] == if id in hits then 1 else 0
    {
      NamedBucket(e, id, d.vertex[id], At(d.task, id), ct, status);
    }
    SumCounts(d.vertex, VertexNames(e), n, hits);
    forall k | k in d.edge ensures EdgeNames()(k, d.edge[k])[n] == 0 { EdgeNameCount(k, d.edge[k], n); }
    SumCounts(d.edge, EdgeNames(), n, {});
  }
}
