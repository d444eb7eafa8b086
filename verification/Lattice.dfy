/**
 The lattice store: vertices, edges, one proper-time clock, and every quantity derived from
 the rows, kept incrementally.  `db` is what the writer sees, `disk` what has been committed.
 */
module Lattice {
  import opened Folds
  import opened Tables
  import opened Invariants
  import opened Steps
  import opened Clock
  import opened Consume
  import opened Writes
  import opened Documents

  class Store {
    const env: Env
    const origin: string
    const clock: SeqAllocator
    var leaves: nat
    var db: Db
    var disk: Db
    var open: bool
    ghost var hist: History
    ghost var diskHist: History

    /** Everything but the tie between the clock and the log. */
    ghost predicate Sound()
      reads this, clock
    {
      clock.origin == origin && EnvOk(env) &&
      Ok(env, origin, leaves, db, hist) && Ok(env, origin, leaves, disk, diskHist) &&
      MarkOk(origin, disk, diskHist) &&
      Evolves(origin, disk, diskHist, db, hist) &&
      (!hist.echo ==> MarkKept(origin, disk, db)) &&
      (clock.cache.Some? ==> clock.dirty)
    }

    /** The clock stands at the length of the log. */
    ghost predicate Tied()
      reads this, clock
    {
      !hist.echo ==> Now(clock.cache, db, origin) == |hist.log|
    }

    ghost predicate Valid()
      reads this, clock
    {
      Sound() && Tied() &&
      (!open ==> db == disk && hist == diskHist && clock.cache == None && !clock.dirty)
    }

    constructor (env: Env, origin: string, leaves: nat)
      requires origin != "" && leaves > 0 && EnvOk(env)
      ensures Valid() && !open
      ensures fresh(clock)
      ensures this.env == env && this.origin == origin && this.leaves == leaves
      ensures db == EMPTY_DB && hist == NEW_HISTORY
    {
      this.env, this.origin, this.leaves := env, origin, leaves;
      this.clock := new SeqAllocator(origin);
      this.db, this.disk, this.open := EMPTY_DB, EMPTY_DB, false;
      this.hist, this.diskHist := NEW_HISTORY, NEW_HISTORY;
      new;
      EmptyOk(env, origin, leaves);
    }

    // ── transactions ───────────────────────────────────────────────────────────

    method Begin()
      requires Valid() && !open
      modifies this`open, clock
      ensures Valid() && open && db == disk && clock.cache == None && !clock.dirty
    {
      hide Ok, Evolves;
      clock.Begin();
      open := true;
    }

    method Rollback()
      requires Sound() && open
      modifies this`db, this`hist, this`open, clock
      ensures Valid() && !open
      ensures db == disk && hist == diskHist
    {
      hide Ok;
      db, hist := disk, diskHist;
      clock.Discard();
      open := false;
      clock.End();
      EvolvesRefl(origin, db, hist);
    }

    /** Flush, then COMMIT; a flush that fails rolls the whole transaction back. */
    method Commit() returns (ok: bool)
      requires open && clock.origin == origin
      modifies this`db, this`disk, this`hist, this`diskHist, this`open, clock
      ensures !open
      ensures ok <==> !(old(clock.dirty) && old(clock.cache).None?)
      ensures ok ==> hist == old(hist) && db == old(db).(seqs := db.seqs)
      ensures ok && !old(clock.dirty) ==> db == old(db)
      ensures ok ==> MarksRise(old(db).seqs, db.seqs)
      ensures !ok ==> db == old(disk) && hist == old(diskHist)
      ensures disk == db && diskHist == hist
      ensures old(Valid()) ==> Valid() && Evolves(origin, old(disk), old(diskHist), db, hist)
    {
      hide Ok;
      ghost var valid := Valid();
      var flushed := clock.Flush(db);
      if flushed.None? {
        db, hist := disk, diskHist;
        clock.Discard();
        open := false;
        clock.End();
        EvolvesRefl(origin, db, hist);
        return false;
      }
      if valid {
        OkLocal(env, origin, leaves, db, hist);
        OkSeqs(env, origin, leaves, db, hist, flushed.value.seqs);
        EvolvesTrans(origin, disk, diskHist, db, hist, flushed.value, hist);
      }
      db := flushed.value;
      disk, diskHist := db, hist;
      open := false;
      clock.End();
      EvolvesRefl(origin, db, hist);
      ok := true;
    }

    // ── the single write path ──────────────────────────────────────────────────

    /** The row, its digests, its accounting, its counters, its sidecar and its postings. */
    method PutRow(id: string, doc: Doc, org: string, s: int)
      requires Sound() && open && id != "" && org != ""
      requires !hist.echo && org == origin ==> s == |hist.log| + 1
      modifies this`db, this`hist
      ensures Sound()
      ensures db.vertex == old(db.vertex)[id := StoredRow(env, leaves, At(old(db.vertex), id), id, doc, org, s)]
      ensures db.edge == old(db.edge) && db.seqs == old(db.seqs)
      ensures hist == Appended(origin, old(hist), VKey(id), org)
      ensures Evolves(origin, old(db), old(hist), db, hist)
    {
      hide MerkleOk, CountersOk, LedgerOk, SidecarsOk, Evolves, StoredDoc, WrittenCounters, XorLeaf;
      ghost var d0, h0 := db, hist;
      var row := StoredRow(env, leaves, At(db.vertex, id), id, doc, org, s);
      WriteTables(id, row);
      WriteVertexStep(env, origin, leaves, d0, h0, id, row);
      hist := Appended(origin, hist, VKey(id), org);
      EvolvesTrans(origin, disk, diskHist, d0, h0, db, hist);
    }

    method WriteTables(id: string, row: VRow)
      modifies this`db
      ensures db == WrittenDb(env, old(db), id, row)
    {
      hide TaskOf, PostingsOf, XorLeaf, Bump, BumpAll, CounterDeltas, Vacate, BumpTask;
      var prev := At(db.vertex, id);
      db := db.(vertex := db.vertex[id := row]);
      XorRow(id, prev, row);
      AccountRow(prev, row);
      Recount(DocBefore(prev), row.doc, CtBefore(prev), row.ct);
      SyncTask(id, DocBefore(prev), Some(row.doc), row.ct);
      IndexLists(id, Some(row.doc), row.ct, prev.Some?);
    }

    /** XOR out the old identity, XOR in the new. */
    method XorRow(id: string, prev: Option<VRow>, row: VRow)
      modifies this`db
      ensures db == old(db).(digests := XorLeaf(XorLeaf(old(db).digests, row.leaf, RowHashOf(env, id, prev)),
                                              row.leaf, env.rowHash(id, row.sn)))
    {
      if prev.Some? {
        db := db.(digests := XorLeaf(db.digests, row.leaf, env.rowHash(id, prev.value.sn)));
      }
      db := db.(digests := XorLeaf(db.digests, row.leaf, env.rowHash(id, row.sn)));
      XorLeafZero(old(db).digests, row.leaf);
    }

    /** The seq of a replaced row is vacated; the new row is counted under its origin. */
    method AccountRow(prev: Option<VRow>, row: VRow)
      modifies this`db
      ensures var vacated := if prev.Some? then Vacate(old(db).counter, prev.value.origin) else old(db).counter;
              db == old(db).(counter := Bump(vacated, Counter(Rows, row.origin), 1))
    {
      if prev.Some? { db := db.(counter := Vacate(db.counter, prev.value.origin)); }
      db := db.(counter := Bump(db.counter, Counter(Rows, row.origin), 1));
    }

    method Recount(prior: Option<Doc>, later: Doc, priorCt: Value, laterCt: Value)
      modifies this`db
      ensures var total := if prior.None? then Bump(old(db).counter, Counter(VertexTotal, ""), 1) else old(db).counter;
              db == old(db).(counter := BumpAll(total, CounterDeltas(env, prior, Some(later), priorCt, laterCt)))
    {
      hide CounterDeltas;
      if prior.None? { db := db.(counter := Bump(db.counter, Counter(VertexTotal, ""), 1)); }
      var deltas := CounterDeltas(env, prior, Some(later), priorCt, laterCt);
      BumpCounters(deltas);
    }

    /** One upsert per name, in whatever order the names come. */
    method BumpCounters(deltas: map<Counter, int>)
      requires forall n :: n in deltas ==> deltas[n] != 0
      modifies this`db
      ensures db == old(db).(counter := BumpAll(old(db).counter, deltas))
    {
      hide Bump, BumpAll;
      var rest := deltas;
      while rest != map[]
        invariant rest.Keys <= deltas.Keys && forall n :: n in rest ==> rest[n] == deltas[n]
        invariant db == old(db).(counter := db.counter)
        invariant BumpAll(db.counter, rest) == BumpAll(old(db).counter, deltas)
        decreases |rest|
      {
        var n :| n in rest;
        BumpFirst(db.counter, rest, n);
        db := db.(counter := Bump(db.counter, n, rest[n]));
        rest := rest - {n};
      }
      BumpNone(db.counter);
    }

    /** The task row follows the document: its old bucket loses one, its new bucket gains one. */
    method SyncTask(id: string, prior: Option<Doc>, later: Option<Doc>, ct: Value)
      modifies this`db
      ensures var was := if prior.Some? then TaskOf(env, prior.value, Get(prior.value, ContentType)) else None;
              var next := if later.Some? then TaskOf(env, later.value, ct) else None;
              db == old(db).(task := Edit(old(db).task, id, next),
                             counter := BumpTask(BumpTask(old(db).counter, was, -1), next, 1))
    {
      if prior.Some? && Truthy(Get(prior.value, Status)) && Truthy(Get(prior.value, ContentType)) {
        var name := TaskCounter(env.text(Get(prior.value, ContentType)), env.text(Get(prior.value, Status)));
        db := db.(counter := Bump(db.counter, name, -1));
      }
      if later.None? || !Truthy(Get(later.value, Status)) || !Truthy(ct) {
        db := db.(task := db.task - {id});
        return;
      }
      var row := TaskOf(env, later.value, ct).value;
      db := db.(counter := Bump(db.counter, TaskCounter(row.ct, row.status), 1));
      db := db.(task := db.task[id := row]);
    }

    /** Delete, then insert one posting per non-null value of every indexed field. */
    method IndexLists(id: string, doc: Option<Doc>, ct: Value, hadPrev: bool)
      modifies this`db
      ensures var cleared := if hadPrev then old(db).listkey - {id} else old(db).listkey;
              db == old(db).(listkey := if doc.Some? then Posted(cleared, id, PostingsOf(env, doc.value, ct))
                  else cleared)
    {
      hide FieldPostings, FieldsPostings;
      if hadPrev { db := db.(listkey := db.listkey - {id}); }
      if doc.None? { return; }
      var rows := ListRows(LIST_INDEX_FIELDS, doc.value, ct);
      if rows != multiset{} {
        db := db.(listkey := db.listkey[id := Group(db.listkey, id) + rows]);
      }
    }

    method ListRows(fields: seq<Key>, doc: Doc, ct: Value) returns (rows: multiset<Posting>)
      ensures rows == FieldsPostings(env, fields, doc, ct)
    {
      rows := multiset{};
      for i := 0 to |fields|
        invariant rows + FieldsPostings(env, fields[i..], doc, ct) == FieldsPostings(env, fields, doc, ct)
      {
        hide FieldPostings, ListValues;
        assert fields[i..][1..] == fields[i + 1..];
        var posted := FieldRows(fields[i], ListValues(doc, fields[i]), ct);
        SumStep(rows, posted, FieldsPostings(env, fields[i + 1..], doc, ct));
        rows := rows + posted;
      }
      assert fields[|fields|..] == [];
    }

    method FieldRows(field: Key, vals: seq<Value>, ct: Value) returns (rows: multiset<Posting>)
      ensures rows == FieldPostings(env, field, vals, ct)
    {
      rows := multiset{};
      for j := 0 to |vals|
        invariant rows + FieldPostings(env, field, vals[j..], ct) == FieldPostings(env, field, vals, ct)
      {
        assert vals[j..][1..] == vals[j + 1..];
        if !vals[j].Null? {
          var one := multiset{Posting(field, env.lower(env.text(vals[j])), CtText(env, ct))};
          SumStep(rows, one, FieldPostings(env, field, vals[j + 1..], ct));
          rows := rows + one;
        }
      }
      assert vals[|vals|..] == [];
    }

    // ── edges ──────────────────────────────────────────────────────────────────

    method WriteEdgeTables(k: EdgeKey, row: ERow)
      modifies this`db
      ensures db == WrittenEdgeDb(env, old(db), k, row)
    {
      hide XorLeaf, Bump, Vacate, EdgeDigest;
      var prior := At(db.edge, k);
      db := db.(edge := db.edge[k := row]);
      if prior.Some? {
        db := db.(digests := XorLeaf(db.digests, row.leaf, EdgeDigest(env, k, prior.value)));
      }
      db := db.(digests := XorLeaf(db.digests, row.leaf, EdgeDigest(env, k, row)));
      if prior.None? {
        db := db.(counter := Bump(db.counter, Counter(EdgeTotal, ""), 1));
        db := db.(counter := Bump(db.counter, Counter(EdgeLabel, k.rel), 1));
      } else {
        db := db.(counter := Vacate(db.counter, prior.value.origin));
      }
      db := db.(counter := Bump(db.counter, Counter(Rows, row.origin), 1));
      XorLeafZero(old(db).digests, row.leaf);
    }

    method PutEdgeRow(k: EdgeKey, props: Props, org: string, s: int)
      requires Sound() && open && org != ""
      requires !hist.echo && org == origin ==> s == |hist.log| + 1
      modifies this`db, this`hist
      ensures Sound()
      ensures db.vertex == old(db.vertex) && db.seqs == old(db.seqs)
      ensures db.edge == old(db.edge)[k := StoredEdge(env, leaves, k, props, org, s)]
      ensures Clashed(old(db.counter), db.counter, false)
      ensures hist == Appended(origin, old(hist), EKey(k), org)
      ensures Evolves(origin, old(db), old(hist), db, hist)
    {
      hide MerkleOk, CountersOk, LedgerOk, SidecarsOk, Evolves, WrittenEdgeCounters, XorLeaf, EdgeDigest, Clashed;
      ghost var d0, h0 := db, hist;
      var row := StoredEdge(env, leaves, k, props, org, s);
      WriteEdgeTables(k, row);
      WriteEdgeStep(env, origin, leaves, d0, h0, k, row);
      NoClash(d0.counter, k, At(d0.edge, k), row);
      hist := Appended(origin, hist, EKey(k), org);
      EvolvesTrans(origin, disk, diskHist, d0, h0, db, hist);
    }

    /** A foreign seq is observed; a row that claims the local origin voids the ledger. */
    method Observe(v: Version)
      requires Valid() && open
      modifies this`db, this`hist
      ensures Valid()
      ensures db == ObserveSeq(old(db), v)
      ensures hist == if v.origin == origin then old(hist).(echo := true) else old(hist)
      ensures Evolves(origin, old(db), old(hist), db, hist)
    {
      hide Ok, Evolves;
      ghost var d0, h0 := db, hist;
      OkLocal(env, origin, leaves, db, hist);
      LocalNoted(origin, db, v);
      OkSeqs(env, origin, leaves, db, hist, ObserveSeq(db, v).seqs);
      db := ObserveSeq(db, v);
      if v.origin == origin {
        OkEcho(env, origin, leaves, db, hist);
        EvolvesTrans(origin, d0, h0, db, hist, db, hist.(echo := true));
        hist := hist.(echo := true);
        EchoFlag(origin, disk, diskHist, db, hist);
      }
      EvolvesTrans(origin, disk, diskHist, d0, h0, db, hist);
    }

    /** An edge not known here is written; else only a newer version of the same origin is. */
    method EdgeLww(k: EdgeKey, v: Version) returns (write: bool)
      requires Valid() && open
      modifies this`db
      ensures Valid()
      ensures write <==> Accepts(EdgeVersionsOf(old(db.edge)), Offered(k, v), KeepLocal)
      ensures write ==> db == old(db) && (k in db.edge ==> db.edge[k].origin == v.origin)
      ensures db == old(db).(counter := db.counter) && QuietDb(old(db), db)
      ensures Clashed(old(db.counter), db.counter, k in old(db.edge) && old(db.edge)[k].origin != v.origin)
      ensures Evolves(origin, old(db), hist, db, hist)
    {
      hide Ok, Evolves, Bump, Clashed;
      EvolvesRefl(origin, db, hist);
      ClashedNot(db.counter);
      var prior := At(db.edge, k);
      if prior.None? { return true; }
      var verdict := CompareVersion(v, Version(prior.value.origin, prior.value.sn));
      if verdict == Older || verdict == Same { return false; }
      if verdict == Unordered {
        OneClash(db.counter);
        BumpConflict(Counter(Conflict, "unordered_edge"));
        return false;
      }
      write := true;
    }

    /** False is a refused edge: an empty end or label, or a consumed edge without a version. */
    method AddOne(o: EdgeOffer, stampRev: bool) returns (ok: bool)
      requires Valid() && open
      modifies this`db, this`hist, clock
      ensures Valid()
      ensures ok <==> EdgeFormed(o, stampRev)
      ensures AddReads(origin, old(db.edge), db.edge, o, stampRev, ok)
      ensures !ok ==>
          db == old(db) && hist == old(hist) && clock.cache == old(clock.cache) && clock.dirty == old(clock.dirty)
      ensures db.vertex == old(db.vertex)
      ensures Evolves(origin, old(db), old(hist), db, hist)
      ensures SameLosses(old(hist), hist, stampRev || ForeignEdge(o, origin))
      ensures var k := EdgeKey(o.src, o.dst, o.rel);
              ok && stampRev ==>
                clock.cache == Some(old(Now(clock.cache, db, origin)) + 1) && clock.dirty &&
                db.edge == old(db.edge)[k := StoredEdge(env, leaves, k, o.props, origin, clock.cache.value)] &&
                hist == old(hist).(log := old(hist.log) + [EKey(k)])
      ensures stampRev ==> db.seqs == old(db.seqs)
      ensures !stampRev ==> clock.cache == old(clock.cache) && clock.dirty == old(clock.dirty)
      ensures ok && !stampRev ==> ConsumedEdge(env, leaves, old(db).edge, db.edge, o)
      ensures ok && !stampRev ==> db.seqs == Noted(old(db.seqs), o.version.value)
      ensures Clashed(old(db.counter), db.counter, ok && !stampRev && var k := EdgeKey(o.src, o.dst, o.rel);
                      k in old(db.edge) && old(db.edge)[k].origin != o.version.value.origin)
      ensures ok && !stampRev && !Accepts(EdgeVersionsOf(old(db).edge), OfferedEdge(o), KeepLocal) ==>
                QuietDb(old(db), db)
    {
      hide Ok, Evolves, StoredEdge, MarkKept, AddReads, Clashed, Noted, CompareVersion;
      ClashedNot(db.counter);
      if !EdgeFormed(o, stampRev) {
        EvolvesRefl(origin, db, hist);
        RefusedAdd(origin, db.edge, o, stampRev);
        return false;
      }
      var k := EdgeKey(o.src, o.dst, o.rel);
      var org, s := origin, 0;
      ghost var d0, h0 := db, hist;
      if stampRev {
        s := clock.Allocate(db);
        NamedOrigin(env, origin, leaves, db, hist);
        EvolvesRefl(origin, db, hist);
      } else {
        org, s := o.version.value.origin, o.version.value.sn;
        Observe(o.version.value);
        ghost var d1 := db;
        var write := EdgeLww(k, o.version.value);
        EvolvesTrans(origin, d0, h0, d1, hist, db, hist);
        if !write {
          ConsumedAdd(d0.edge, o);
          return true;
        }
      }
      ghost var d1, h1 := db, hist;
      PutEdgeRow(k, o.props, org, s);
      EvolvesTrans(origin, d0, h0, d1, h1, db, hist);
      ok := true;
      NamedOrigin(env, origin, leaves, db, hist);
      if stampRev { LocalAddIs(env, leaves, origin, d0.edge, db.edge, o, s); } else { ConsumedAdd(d0.edge, o); }
    }

    lemma ConsumedAdd(g0: map<EdgeKey, ERow>, o: EdgeOffer)
      requires Sound() && EdgeFormed(o, false) && (leaves > 0 ==> ConsumedEdge(env, leaves, g0, db.edge, o))
      ensures AddReads(origin, g0, db.edge, o, false, true)
    {
      hide MerkleOk, CountersOk, LedgerOk, SidecarsOk, ConsumedEdge, AddReads;
      ConsumedAddIs(env, leaves, origin, g0, db.edge, o);
    }

    method BumpConflict(n: Counter)
      requires Valid() && open && n.family.Conflict?
      modifies this`db
      ensures Valid()
      ensures db == old(db).(counter := Bump(old(db).counter, n, 1))
      ensures Evolves(origin, old(db), hist, db, hist)
    {
      hide Ok, Evolves, Bump;
      OkCounter(env, origin, leaves, db, hist, n, 1);
      EvolvesTrans(origin, disk, diskHist, db, hist, db.(counter := Bump(db.counter, n, 1)), hist);
      db := db.(counter := Bump(db.counter, n, 1));
    }

    // ── placement ──────────────────────────────────────────────────────────────

    /** The origin containment edge of a document whose collection is in the store. */
    method Place(doc: Doc)
      requires Valid() && open
      modifies this`db, this`hist, clock
      ensures Valid()
      ensures db.vertex == old(db.vertex) && db.seqs == old(db.seqs)
      ensures Evolves(origin, old(db), old(hist), db, hist)
      ensures Placed(env, origin, leaves, old(db).edge, db.edge, PlaceOf(env, old(db).vertex, doc), clock.cache)
      ensures PlacementReads(env, origin, old(db.vertex), doc, old(db.edge), db.edge)
      ensures var place := PlaceOf(env, old(db).vertex, doc);
              hist.log == (old(hist.log) + if place.Some? then [EKey(place.value)] else []) &&
              hist == old(hist).(log := hist.log) &&
              (place.Some? ==> clock.cache == Some(old(Now(clock.cache, db, origin)) + 1) && clock.dirty) &&
              (place.None? ==> clock.cache == old(clock.cache) && clock.dirty == old(clock.dirty) && db == old(db))
    {
      hide Ok, Evolves, StoredEdge, PlacementReads, AddReads;
      NamedOrigin(env, origin, leaves, db, hist);
      ghost var d0 := db;
      var cid, aid := Get(doc, CollectionId), RootOf(doc);
      if !Truthy(cid) || !Truthy(aid) || env.text(cid) == env.text(aid) || env.text(cid) !in db.vertex {
        EvolvesRefl(origin, db, hist);
        PlacementIs(env, leaves, origin, d0.vertex, doc, d0.edge, db.edge, clock.cache);
        return;
      }
      var src, dst := env.text(cid), env.text(aid);
      var offer := EdgeOffer(src, dst, "contains", PlaceProps(dst), None);
      var placed := AddOne(offer, true);
      PlacementIs(env, leaves, origin, d0.vertex, doc, d0.edge, db.edge, clock.cache);
    }

    /** PutRow, then Place for the document as stored: the log grows by what the two of them took. */
    method WriteRow(id: string, doc: Doc, org: string, s: int)
      requires Sound() && open && id != "" && org != ""
      requires !hist.echo ==> Now(clock.cache, db, origin) == |hist.log| + if org == origin then 1 else 0
      requires !hist.echo && org == origin ==> s == |hist.log| + 1
      modifies this`db, this`hist, clock
      ensures Valid()
      ensures db.vertex == old(db.vertex)[id := StoredRow(env, leaves, At(old(db.vertex), id), id, doc, org, s)]
      ensures db.seqs == old(db.seqs)
      ensures Evolves(origin, old(db), old(hist), db, hist)
      ensures id in db.vertex && RowReads(At(old(db.vertex), id), doc, db.vertex[id]) &&
              db.vertex[id].origin == org && db.vertex[id].sn == s
      ensures PlacementReads(env, origin, db.vertex, db.vertex[id].doc, old(db.edge), db.edge)
      ensures leaves > 0 && PlacedHere(env, leaves, origin, db.vertex, db.edge, id)
      ensures var place := PlaceOf(env, db.vertex, StoredDoc(At(old(db.vertex), id), doc, org, s));
              Placed(env, origin, leaves, old(db).edge, db.edge, place, clock.cache) &&
              hist == old(hist).(log := WrittenLog(old(hist.log), origin, id, org, place)) &&
              (place.Some? ==> clock.cache == Some(old(Now(clock.cache, db, origin)) + 1) && clock.dirty) &&
              (place.None? ==> clock.cache == old(clock.cache) && clock.dirty == old(clock.dirty))
    {
      hide Ok, Evolves, StoredRow, StoredDoc, StoredEdge, PlaceOf, PlacedHere, RowReads, PlacementReads;
      ghost var d0, h0 := db, hist;
      var stored := StoredDoc(At(db.vertex, id), doc, org, s);
      PutRow(id, doc, org, s);
      ghost var d1, h1 := db, hist;
      Place(stored);
      EvolvesTrans(origin, d0, h0, d1, h1, db, hist);
      NamedOrigin(env, origin, leaves, db, hist);
      PlacedMeans(env, leaves, origin, db.vertex, d1.edge, db.edge, At(d0.vertex, id), id, doc, org, s, clock.cache);
      StoredReads(env, leaves, At(d0.vertex, id), id, doc, org, s);
      StoredDocIs(env, leaves, At(d0.vertex, id), id, doc, org, s);
    }

    // ── single put ─────────────────────────────────────────────────────────────

    /** The archived snapshot of the row a local put is about to replace; its id, and the seq
        it took if it was not there yet. */
    method SnapshotPrior(id: string, prev: VRow) returns (snap: Option<string>, took: Option<int>)
      requires Valid() && open && At(db.vertex, id) == Some(prev)
      modifies this`db, this`hist, clock
      ensures Valid()
      ensures snap == SnapshotId(env, id, prev)
      ensures took.Some? <==> snap.Some? && snap.value !in old(db.vertex)
      ensures took.None? ==>
          db == old(db) && hist == old(hist) && clock.cache == old(clock.cache) && clock.dirty == old(clock.dirty)
      ensures took.Some? ==>
                && clock.dirty && clock.cache.Some?
                && took.value == old(Now(clock.cache, db, origin)) + 1 <= clock.cache.value
                && db.vertex == old(db.vertex)[snap.value :=
                     StoredRow(env, leaves, None, snap.value, SnapshotDoc(id, snap.value, prev), origin, took.value)]
                && PlacementReads(env, origin, db.vertex, db.vertex[snap.value].doc, old(db.edge), db.edge)
      ensures Evolves(origin, old(db), old(hist), db, hist)
      ensures SameLosses(old(hist), hist, true)
    {
      hide Ok, Evolves, StoredRow, StoredDoc, StoredEdge, PlaceOf, PlacedHere, PlacementReads, RowReads;
      EvolvesRefl(origin, db, hist);
      snap, took := SnapshotId(env, id, prev), None;
      if snap.None? || snap.value in db.vertex { return; }
      NamedOrigin(env, origin, leaves, db, hist);
      var s := clock.Allocate(db);
      WriteRow(snap.value, SnapshotDoc(id, snap.value, prev), origin, s);
      took := Some(s);
    }

    /** One transaction: upsert `doc`; a local change of content keeps the prior version first. */
    method PutArtifact(doc: Doc, stampRev: bool, newVersion: bool, fault: bool) returns (r: PutResult)
      requires Valid() && !open
      modifies this`db, this`disk, this`hist, this`diskHist, this`open, clock
      ensures Valid() && !open
      ensures r.Raised? <==> fault || !HasId(doc) || (!stampRev && !HasVersion(doc))
      ensures r.Raised? ==> db == old(db) && hist == old(hist)
      ensures Evolves(origin, old(db), old(hist), db, hist)
      ensures SameLosses(old(hist), hist, stampRev || Foreign(doc, origin))
      ensures r.Stored? ==>
                PutLeaves(env, origin, old(db.vertex), db.vertex, old(db.edge), db.edge, doc[Id].s, doc, stampRev,
                    newVersion,
                    r.took)
                && db.vertex[doc[Id].s].sn == r.sn
      ensures r.Stored? ==> leaves > 0 && PlacedHere(env, leaves, origin, db.vertex, db.edge, doc[Id].s)
      ensures r.Stored? ==>
                var id := doc[Id].s;
                PutEffect(env, leaves, origin, old(db.vertex), db.vertex, id, doc, stampRev, newVersion, r.took,
                    r.sn) &&
                (!old(hist.echo) && stampRev ==>
                    r.sn > |old(hist.log)| && (r.took.Some? ==> |old(hist.log)| < r.took.value < r.sn))
    {
      hide Ok, Evolves, StoredRow, StoredDoc, StoredEdge, PlaceOf, PlacedHere, PutLeaves, PutEffect;
      IdIs(doc);
      VersionIs(doc);
      EvolvesRefl(origin, db, hist);
      if IdOf(doc).None? { return Raised; }
      Begin();
      ghost var before := Now(clock.cache, db, origin);
      r := PutInside(IdOf(doc).value, doc, stampRev, newVersion);
      if fault || r.Raised? { Rollback(); return Raised; }
      var committed := Commit();
    }

    /** The body of the put, inside the transaction. */
    method PutInside(id: string, doc: Doc, stampRev: bool, newVersion: bool) returns (r: PutResult)
      requires Valid() && open && IdOf(doc) == Some(id)
      modifies this`db, this`hist, clock
      ensures Valid()
      ensures r.Raised? <==> !stampRev && VersionOf(doc).None?
      ensures Evolves(origin, old(db), old(hist), db, hist)
      ensures SameLosses(old(hist), hist, stampRev || Foreign(doc, origin))
      ensures clock.dirty ==> clock.cache.Some? || old(clock.dirty)
      ensures r.Stored? ==> leaves > 0 && PlacedHere(env, leaves, origin, db.vertex, db.edge, id)
      ensures r.Stored? ==>
                PutLeaves(env, origin, old(db.vertex), db.vertex, old(db.edge), db.edge, id, doc, stampRev,
                    newVersion, r.took)
                && db.vertex[id].sn == r.sn
      ensures r.Stored? ==>
                && PutEffect(env, leaves, origin, old(db.vertex), db.vertex, id, doc, stampRev, newVersion, r.took,
                    r.sn)
                && (stampRev ==> r.sn > old(Now(clock.cache, db, origin)))
                && (stampRev && r.took.Some? ==> old(Now(clock.cache, db, origin)) < r.took.value < r.sn)
    {
      hide Ok, Evolves, StoredRow, StoredDoc, StoredEdge, PlaceOf, SnapshotId, SnapshotDoc, Versioned, PutEffect,
          PlacedHere, PlacementReads, RowReads, PutLeaves, CopyPlaced;
      ghost var d0, h0 := db, hist;
      NamedOrigin(env, origin, leaves, db, hist);
      var d, took := PrepareHead(id, doc, stampRev, newVersion);
      ghost var d1, h1 := db, hist;
      var v := TakeVersion(doc, stampRev);
      if v.None? { EvolvesTrans(origin, d0, h0, d1, h1, db, hist); return Raised; }
      ghost var d2, h2 := db, hist;
      EvolvesTrans(origin, d0, h0, d1, h1, d2, h2);
      WriteRow(id, d, v.value.origin, v.value.sn);
      EvolvesTrans(origin, d0, h0, d2, h2, db, hist);
      HeadWritten(env, leaves, origin, d0.vertex, d1.vertex, db.vertex, id, doc, d, stampRev, newVersion, took,
          v.value);
      PutLeavesIs(env, leaves, origin, d0.vertex, d1.vertex, db.vertex, d0.edge, d1.edge, db.edge, id, doc, d, stampRev,
                  newVersion, took, v.value);
      r := Stored(took, v.value.sn);
    }

    /** The document as it will be stored: a versioned put names the snapshot it was made from. */
    method PrepareHead(id: string, doc: Doc, stampRev: bool, newVersion: bool) returns (d: Doc, took: Option<int>)
      requires Valid() && open && IdOf(doc) == Some(id)
      modifies this`db, this`hist, clock
      ensures Valid()
      ensures Prepared(env, leaves, origin, old(db.vertex), db.vertex, id, doc, d, stampRev, newVersion, took)
      ensures CopyPlaced(env, origin, old(db.vertex), db.vertex, id, old(db.edge), db.edge, took)
      ensures Evolves(origin, old(db), old(hist), db, hist)
      ensures SameLosses(old(hist), hist, true)
      ensures took.None? ==>
          Now(clock.cache, db, origin) == old(Now(clock.cache, db, origin)) && clock.dirty == old(clock.dirty) &&
          clock.cache == old(clock.cache)
      ensures took.Some? ==> clock.cache.Some? && old(Now(clock.cache, db, origin)) < took.value <= clock.cache.value
    {
      hide Ok, Evolves, StoredRow, StoredDoc, StoredEdge, PlaceOf, SnapshotDoc, PlacementReads;
      EvolvesRefl(origin, db, hist);
      d, took := doc, None;
      var prev := At(db.vertex, id);
      if stampRev && Versioned(prev, doc, newVersion) {
        var snap;
        snap, took := SnapshotPrior(id, prev.value);
        d := doc[ParentId := if snap.Some? then Str(snap.value) else Get(doc, ParentId)];
      }
    }

    /** A local write takes the next seq; a consumed document brings its own, which is observed. */
    method TakeVersion(doc: Doc, stampRev: bool) returns (v: Option<Version>)
      requires Valid() && open
      modifies this`db, this`hist, clock
      ensures Sound()
      ensures v.None? <==> !stampRev && VersionOf(doc).None?
      ensures v.None? || stampRev ==> db == old(db) && hist == old(hist)
      ensures v.None? || !stampRev ==> clock.cache == old(clock.cache) && clock.dirty == old(clock.dirty)
      ensures v.None? ==> Valid()
      ensures v.Some? && stampRev ==>
                v.value == Version(origin, old(Now(clock.cache, db, origin)) + 1) &&
                    clock.cache == Some(v.value.sn) && clock.dirty
      ensures v.Some? && !stampRev ==>
                v == VersionOf(doc) && Valid() && db == ObserveSeq(old(db), v.value) &&
                hist == (if v.value.origin == origin then old(hist).(echo := true) else old(hist))
      ensures v.Some? ==> v.value.origin != "" && (!hist.echo ==>
                Now(clock.cache, db, origin) == |hist.log| + (if v.value.origin == origin then 1 else 0) &&
                (v.value.origin == origin ==> v.value.sn == |hist.log| + 1))
      ensures Evolves(origin, old(db), old(hist), db, hist)
    {
      hide Ok, Evolves;
      EvolvesRefl(origin, db, hist);
      if stampRev {
        NamedOrigin(env, origin, leaves, db, hist);
        var s := clock.Allocate(db);
        return Some(Version(origin, s));
      }
      v := VersionOf(doc);
      if v.Some? { Observe(v.value); }
    }

    // ── bulk put ───────────────────────────────────────────────────────────────

    /** One document of a batch.  After a failure the caller rolls back to its savepoint, so
        nothing is promised then but what no rollback undoes: the allocator's `dirty`. */
    method PutOne(o: Offer, stampRev: bool, policy: Policy) returns (ok: bool)
      requires Valid() && open
      modifies this`db, this`hist, clock
      ensures ok ==> Valid() && Evolves(origin, old(db), old(hist), db, hist)
      ensures ok ==> SameLosses(old(hist), hist, stampRev || Foreign(o.doc, origin))
      ensures PutReads(origin, old(db.vertex), if ok then db.vertex else old(db.vertex), o, stampRev, policy, ok)
      ensures old(clock.dirty) ==> clock.dirty
      ensures EarlyFails(o, stampRev) ==> !ok && clock.dirty == old(clock.dirty)
      ensures stampRev && !EarlyFails(o, stampRev) ==> clock.dirty && (ok <==> o.fault.NoFault?)
      ensures stampRev && ok ==>
                clock.cache.Some? && var id := IdOf(o.doc).value;
                db.vertex == old(db.vertex)[id :=
                  StoredRow(env, leaves, At(old(db.vertex), id), id, o.doc, origin, old(Now(clock.cache, db, origin))
                      + 1)]
      ensures !stampRev ==>
                leaves > 0 &&
                var c := ConsumeOne(env, leaves, policy,
                    Consumed(old(db.vertex), old(clock.dirty), old(clock.cache).Some?, 0), o);
                c.handled == (if ok then 1 else 0) && c.took == clock.dirty &&
                (ok ==> c.vertex == db.vertex && c.kept == clock.cache.Some?)
      ensures !stampRev && ok ==> !EarlyFails(o, false)
      ensures !stampRev && ok ==> db.seqs == Noted(old(db.seqs), VersionOf(o.doc).value)
      ensures !stampRev && ok && !Accepts(VersionsOf(old(db.vertex)), OfferedDoc(o.doc), policy) ==>
                QuietDb(old(db), db) && hist.log == old(hist.log)
    {
      hide Ok, Evolves, StoredRow, StoredDoc, StoredEdge, PlaceOf, Placed, QuietDb, WrittenLog, MarkOk, MarkKept;
      hide Accepts, Refused, ConsumeOne, VersionsOf, Noted, PutReads, RowReads, PlacementReads;
      NamedOrigin(env, origin, leaves, db, hist);
      ghost var d0, h0 := db, hist;
      FailedReads(origin, db.vertex, o, stampRev, policy);
      ConsumedReads(env, leaves, origin, policy, Consumed(db.vertex, clock.dirty, clock.cache.Some?, 0), o);
      ConsumeOneSkipped(env, leaves, policy, Consumed(db.vertex, clock.dirty, clock.cache.Some?, 0), o);
      if o.fault.Early? || IdOf(o.doc).None? { return false; }
      var v := TakeVersion(o.doc, stampRev);
      if v.None? { return false; }
      ghost var d1, h1 := db, hist;
      if !stampRev {
        ok := PutOffered(o, policy);
        QuietObserve(d0, v.value);
        if ok { EvolvesTrans(origin, d0, h0, d1, h1, db, hist); }
        QuietThen(d0, d1, db);
        return;
      }
      if o.fault.AfterVersion? { return false; }
      WriteVersion(IdOf(o.doc).value, o.doc, v.value);
      EvolvesTrans(origin, d0, h0, d1, h1, db, hist);
      ok := o.fault.NoFault?;
      if ok { LocalReads(env, leaves, origin, d0.vertex, db.vertex, o, policy, true, v.value.sn); }
    }

    /** A consumed document whose version has been observed: last-writer-wins, then the write. */
    method PutOffered(o: Offer, policy: Policy) returns (ok: bool)
      requires Valid() && open && !EarlyFails(o, false)
      requires VersionOf(o.doc).value.origin == origin ==> hist.echo
      modifies this`db, this`hist, clock
      ensures ok ==> Valid() && Evolves(origin, old(db), old(hist), db, hist) && SameLosses(old(hist), hist, true)
      ensures old(clock.dirty) ==> clock.dirty
      ensures ok ==> db.seqs == old(db.seqs)
      ensures leaves > 0 &&
              var c := ConsumeOne(env, leaves, policy,
                  Consumed(old(db.vertex), old(clock.dirty), old(clock.cache).Some?, 0), o);
              c.handled == (if ok then 1 else 0) && c.took == clock.dirty &&
              (ok ==> c.vertex == db.vertex && c.kept == clock.cache.Some?)
      ensures ok && !Accepts(VersionsOf(old(db.vertex)), OfferedDoc(o.doc), policy) ==>
                QuietDb(old(db), db) && hist.log == old(hist.log)
    {
      hide Ok, Evolves, StoredRow, StoredDoc, StoredEdge, PlaceOf, Placed, QuietDb, WrittenLog, MarkOk, MarkKept;
      hide Accepts, Refused, ConsumeOne, VersionsOf, Noted, PlacementReads, RowReads;
      NamedOrigin(env, origin, leaves, db, hist);
      ghost var v0, c := db.vertex, Consumed(db.vertex, clock.dirty, clock.cache.Some?, 0);
      ConsumeOneSkipped(env, leaves, policy, c, o);
      var id, v := IdOf(o.doc).value, VersionOf(o.doc).value;
      var gate := Lww(id, v, policy);
      if gate == Refusal { return false; }
      if gate == Decline { return true; }
      if o.fault.AfterVersion? { return false; }
      WriteVersion(id, o.doc, v);
      ConsumeOneWrote(env, leaves, policy, c, o, db.vertex,
                      PlaceOf(env, db.vertex, StoredDoc(At(v0, id), o.doc, v.origin, v.sn)).Some?);
      ok := o.fault.NoFault?;
    }

    /** The write of a document at the version it was given. */
    method WriteVersion(id: string, doc: Doc, v: Version)
      requires Sound() && open && id != "" && v.origin != ""
      requires !hist.echo ==> Now(clock.cache, db, origin) == |hist.log| + if v.origin == origin then 1 else 0
      requires !hist.echo && v.origin == origin ==> v.sn == |hist.log| + 1
      modifies this`db, this`hist, clock
      ensures Valid()
      ensures leaves > 0 &&
              db.vertex == old(db.vertex)[id := StoredRow(env, leaves, At(old(db.vertex), id), id, doc, v.origin, v.sn)]
      ensures db.seqs == old(db.seqs)
      ensures Evolves(origin, old(db), old(hist), db, hist) && SameLosses(old(hist), hist, true)
      ensures var places := PlaceOf(env, db.vertex, StoredDoc(At(old(db.vertex), id), doc, v.origin, v.sn)).Some?;
              (clock.dirty <==> old(clock.dirty) || places) && (clock.cache.Some? <==> old(clock.cache).Some? || places)
    {
      hide Ok, Evolves, StoredRow, StoredDoc, StoredEdge, PlaceOf, Placed, PlacedHere, WrittenLog, MarkOk, MarkKept;
      hide PlacementReads, RowReads;
      NamedOrigin(env, origin, leaves, db, hist);
      WriteRow(id, doc, v.origin, v.sn);
    }

    /** Last-writer-wins over the row that is here, if any; an unordered offer goes by policy. */
    method Lww(id: string, v: Version, policy: Policy) returns (gate: Gate)
      requires Valid() && open
      modifies this`db
      ensures Valid()
      ensures gate == Write <==> Accepts(VersionsOf(old(db.vertex)), Offered(id, v), policy)
      ensures gate == Refusal <==> Refused(VersionsOf(old(db.vertex)), Offered(id, v), policy)
      ensures gate != Decline ==> db == old(db)
      ensures db.vertex == old(db.vertex) && db.seqs == old(db.seqs) && QuietDb(old(db), db)
      ensures forall n :: Count(db.counter, n) == Count(old(db.counter), n) +
                OneIf(n == Counter(Conflict, "unordered") && policy == KeepLocal && id in old(db.vertex) &&
                      old(db.vertex)[id].origin != v.origin)
      ensures Evolves(origin, old(db), hist, db, hist)
    {
      hide Ok, Evolves, Bump;
      EvolvesRefl(origin, db, hist);
      if id !in db.vertex { return Write; }
      match CompareVersion(v, Version(db.vertex[id].origin, db.vertex[id].sn)) {
        case Newer => gate := Write;
        case Older => gate := Decline;
        case Same => gate := Decline;
        case Unordered =>
          if policy == KeepLocal {
            BumpConflict(Counter(Conflict, "unordered"));
            gate := Decline;
          } else {
            gate := if policy == Refuse then Refusal else Write;
          }
      }
    }

    /** One document inside its savepoint: a failure rolls the tables and the clock back. */
    method PutGuarded(o: Offer, stampRev: bool, policy: Policy) returns (ok: bool)
      requires Valid() && open
      modifies this`db, this`hist, clock
      ensures Valid() && Evolves(origin, old(db), old(hist), db, hist)
      ensures SameLosses(old(hist), hist, stampRev || Foreign(o.doc, origin))
      ensures PutReads(origin, old(db.vertex), db.vertex, o, stampRev, policy, ok)
      ensures !ok ==> db == old(db) && hist == old(hist) && clock.cache == old(clock.cache)
      ensures stampRev ==> (ok <==> Succeeds(o)) && (clock.dirty <==> old(clock.dirty) || !EarlyFails(o, true))
      ensures stampRev && ok ==>
                clock.cache.Some? && var id := IdOf(o.doc).value;
                db.vertex == old(db.vertex)[id :=
                  StoredRow(env, leaves, At(old(db.vertex), id), id, o.doc, origin, old(Now(clock.cache, db, origin))
                      + 1)]
      ensures !stampRev ==>
                leaves > 0 &&
                ConsumeOne(env, leaves, policy, Consumed(old(db.vertex), old(clock.dirty), old(clock.cache).Some?,
                    0), o)
                == Consumed(db.vertex, clock.dirty, clock.cache.Some?, if ok then 1 else 0)
      ensures !stampRev && ok ==> !EarlyFails(o, false)
      ensures !stampRev ==> db.seqs == if ok then Noted(old(db.seqs), VersionOf(o.doc).value) else old(db.seqs)
      ensures !stampRev && (ok ==> !Accepts(VersionsOf(old(db.vertex)), OfferedDoc(o.doc), policy)) ==>
                QuietDb(old(db), db) && hist.log == old(hist.log)
    {
      hide Ok, Evolves, StoredRow, StoredDoc, PlaceOf, CompareVersion, QuietDb, Noted, PutReads;
      var saved := db;
      ghost var h0 := hist;
      var mark := clock.Mark();
      ok := PutOne(o, stampRev, policy);
      if !ok {
        db, hist := saved, h0;
        clock.Restore(mark);
        EvolvesRefl(origin, db, hist);
        QuietRefl(db);
      }
    }

    /** One transaction, one savepoint per document.  `raised` is an exception that left the
        transaction: the commit found the allocator dirty with an empty cache. */
    method PutChunk(offers: seq<Offer>, stampRev: bool, policy: Policy) returns (handled: nat, raised: bool)
      requires Valid() && !open
      modifies this`db, this`disk, this`hist, this`diskHist, this`open, clock
      ensures Valid() && !open
      ensures Evolves(origin, old(db), old(hist), db, hist)
      ensures raised ==> db == old(db) && hist == old(hist)
      ensures leaves > 0 && ChunkDone(env, leaves, origin, old(db), old(hist), db, hist, offers, stampRev, policy,
          handled, raised)
    {
      hide Ok, Evolves, StoredRow, LocalSoFar, ConsumedSoFar, SameLosses, Foreign, ChunkDone, ConsumeOne, Accepts,
          Noted, MarksRise, PutReads, EarlyFails, Succeeds, VersionOf;
      NamedOrigin(env, origin, leaves, db, hist);
      Begin();
      EvolvesRefl(origin, db, hist);
      handled, raised := 0, false;
      SoFarStart(env, leaves, origin, db, hist, policy);
      SameLossesRefl(hist, stampRev || AllForeign(offers, origin));
      for i := 0 to |offers|
        invariant Valid() && open
        invariant Evolves(origin, old(db), old(hist), db, hist)
        invariant SameLosses(old(hist), hist, stampRev || AllForeign(offers, origin))
        invariant disk == old(disk) && diskHist == old(diskHist)
        invariant stampRev ==>
          LocalSoFar(origin, old(db.vertex), db.vertex, offers[..i], handled, clock.cache.Some?, clock.dirty)
        invariant !stampRev ==>
          ConsumedSoFar(env, leaves, old(db), old(hist), db, hist, offers[..i], policy, handled, clock.cache.Some?,
              clock.dirty)
      {
        ghost var d0, h0, c0 := db, hist, Now(clock.cache, db, origin);
        ghost var filled, dirty, done := clock.cache.Some?, clock.dirty, handled;
        var ok := PutGuarded(offers[i], stampRev, policy);
        if ok { handled := handled + 1; }
        EvolvesTrans(origin, old(db), old(hist), d0, h0, db, hist);
        assert offers[i] in offers;
        SameLossesTrans(old(hist), h0, hist, stampRev || AllForeign(offers, origin), stampRev ||
            Foreign(offers[i].doc, origin));
        ghost var front, all := offers[..i], offers[..i + 1];
        assert all == front + [offers[i]];
        if stampRev {
          LocalStep(env, leaves, origin, old(db.vertex), d0.vertex, db.vertex, front, offers[i], all, done, filled,
              dirty,
                    clock.cache.Some?, clock.dirty, c0 + 1);
        } else {
          ConsumedStep(env, leaves, old(db), old(hist), d0, h0, db, hist, front, offers[i], all, policy, ok, done,
              filled, dirty,
                       clock.cache.Some?, clock.dirty);
        }
      }
      ghost var d1, h1, filled, dirty := db, hist, clock.cache.Some?, clock.dirty;
      var committed := Commit();
      raised := !committed;
      ChunkEnd(env, leaves, origin, old(db), old(hist), d1, h1, db, hist, offers, stampRev, policy, handled, filled,
          dirty);
    }

    /** Chunks of `batch` documents (at least one), each its own transaction. */
    method PutMany(offers: seq<Offer>, batch: int, stampRev: bool, policy: Policy) returns (handled: nat, raised: bool)
      requires Valid() && !open
      modifies this`db, this`disk, this`hist, this`diskHist, this`open, clock
      ensures Valid() && !open
      ensures Evolves(origin, old(db), old(hist), db, hist)
      ensures leaves > 0 &&
              BatchOver(env, leaves, origin, old(db), old(hist), db, hist, offers, if batch > 1 then batch
                  else 1, stampRev, policy,
                        handled, raised)
      ensures BatchReads(origin, old(db.vertex), db.vertex,
                         Reached(env, leaves, stampRev, policy, old(db.vertex), offers, if batch > 1 then batch else 1),
                         stampRev, policy)
    {
      hide Ok, Evolves, BatchDone, ChunkDone, BatchOver, BatchReads, Reached;
      NamedOrigin(env, origin, leaves, db, hist);
      var n := if batch > 1 then batch else 1;
      var chunk: seq<Offer> := [];
      handled, raised := 0, false;
      EvolvesRefl(origin, db, hist);
      BatchStart(env, leaves, origin, db, hist, offers, n, stampRev, policy);
      for i := 0 to |offers|
        invariant Valid() && !open && !raised
        invariant Evolves(origin, old(db), old(hist), db, hist)
        invariant |chunk| < n && |chunk| <= i && chunk == offers[i - |chunk|..i]
        invariant BatchDone(env, leaves, origin, old(db), old(hist), db, hist, offers, i - |chunk|, n, stampRev,
            policy, handled)
      {
        ghost var p := i - |chunk|;
        NextSlice(offers, p, i);
        chunk := chunk + [offers[i]];
        if |chunk| >= n {
          ghost var d0, h0 := db, hist;
          var more;
          more, raised := PutChunk(chunk, stampRev, policy);
          EvolvesTrans(origin, old(db), old(hist), d0, h0, db, hist);
          BatchStep(env, leaves, origin, old(db), old(hist), d0, h0, db, hist, offers, p, i + 1, n, stampRev, policy,
                    handled, more, raised);
          if raised {
            OverReads(env, leaves, origin, old(db), old(hist), db, hist, offers, n, stampRev, policy, handled, true);
            return;
          }
          handled := handled + more;
          chunk := [];
        }
      }
      if chunk != [] {
        ghost var d0, h0 := db, hist;
        var more;
        more, raised := PutChunk(chunk, stampRev, policy);
        EvolvesTrans(origin, old(db), old(hist), d0, h0, db, hist);
        assert offers[|offers| - |chunk|..|offers|] == chunk;
        BatchStep(env, leaves, origin, old(db), old(hist), d0, h0, db, hist, offers, |offers| - |chunk|, |offers|, n,
            stampRev,
                  policy, handled, more, raised);
        if raised {
          OverReads(env, leaves, origin, old(db), old(hist), db, hist, offers, n, stampRev, policy, handled, true);
          return;
        }
        handled := handled + more;
      }
      BatchEnd(env, leaves, origin, old(db), old(hist), db, hist, offers, n, stampRev, policy, handled);
      OverReads(env, leaves, origin, old(db), old(hist), db, hist, offers, n, stampRev, policy, handled, false);
    }

    // ── bulk edges ─────────────────────────────────────────────────────────────

    method AddGuarded(it: EdgeItem, stampRev: bool) returns (ok: bool)
      requires Valid() && open
      modifies this`db, this`hist, clock
      ensures Valid() && Evolves(origin, old(db), old(hist), db, hist)
      ensures SameLosses(old(hist), hist, stampRev || ForeignEdge(it.offer, origin))
      ensures db.vertex == old(db.vertex)
      ensures !ok ==> db == old(db) && hist == old(hist) && clock.cache == old(clock.cache)
      ensures stampRev ==>
          (ok <==> EdgeSucceeds(it)) && (clock.dirty <==> old(clock.dirty) || !EdgeEarlyFails(it, true))
      ensures stampRev && ok ==>
                clock.cache.Some? && var k := KeyOf(it.offer);
                db.edge == old(db.edge)[k := StoredEdge(env, leaves, k, it.offer.props, origin, clock.cache.value)]
      ensures !stampRev ==> clock.cache == old(clock.cache) && clock.dirty == old(clock.dirty)
      ensures !stampRev ==>
                leaves > 0 &&
                ConsumeEdge(env, leaves, ConsumedEdges(old(db.edge), 0), it)
                    == ConsumedEdges(db.edge, if ok then 1 else 0)
    {
      hide Ok, Evolves, StoredEdge, Accepts, QuietDb, MarkOk, MarkKept, EdgeVersionsOf, AddReads;
      NamedOrigin(env, origin, leaves, db, hist);
      var saved := db;
      ghost var h0 := hist;
      var mark := clock.Mark();
      if EdgeEarlyFails(it, stampRev) {
        ok := false;
      } else if it.fault.AfterVersion? && stampRev {
        var s := clock.Allocate(db);
        ok := false;
      } else {
        ok := AddOne(it.offer, stampRev);
        // a declined edge never reaches the write that fails
        ok := it.fault.NoFault? || (!stampRev && !Accepts(EdgeVersionsOf(saved.edge), OfferedEdge(it.offer),
            KeepLocal));
      }
      if !ok {
        db, hist := saved, h0;
        clock.Restore(mark);
        EvolvesRefl(origin, db, hist);
      }
    }

    /** One chunk of `add_edges`: one transaction, one savepoint per edge. */
    method AddChunk(items: seq<EdgeItem>, stampRev: bool) returns (handled: nat, raised: bool)
      requires Valid() && !open
      modifies this`db, this`disk, this`hist, this`diskHist, this`open, clock
      ensures Valid() && !open
      ensures Evolves(origin, old(db), old(hist), db, hist)
      ensures SameLosses(old(hist), hist, stampRev || AllForeignEdges(items, origin))
      ensures db.vertex == old(db.vertex)
      ensures raised ==> db == old(db) && hist == old(hist)
      ensures stampRev ==>
                (raised <==> EdgeSuccesses(items) == 0 && exists j ::
                    0 <= j < |items| && !EdgeEarlyFails(items[j], true))
      ensures stampRev && !raised ==>
                handled == EdgeSuccesses(items) &&
                (forall k :: AddedLast(env, leaves, origin, old(db.edge), db.edge, items, k))
      ensures !stampRev ==> !raised
      ensures !stampRev ==>
                leaves > 0 && ConsumeEdges(env, leaves, old(db.edge), items) == ConsumedEdges(db.edge, handled)
      ensures stampRev && !raised ==> LocalEdgesRead(origin, old(db.edge), db.edge, items)
      ensures !stampRev ==> ConsumedEdgesRead(old(db.edge), db.edge, items)
    {
      hide Ok, Evolves, StoredEdge, SameLosses, ForeignEdge, ConsumeEdge, LocalEdgesRead, ConsumedEdgesRead;
      Begin();
      EvolvesRefl(origin, db, hist);
      NamedOrigin(env, origin, leaves, db, hist);
      handled, raised := 0, false;
      SameLossesRefl(hist, stampRev || AllForeignEdges(items, origin));
      for i := 0 to |items|
        invariant Valid() && open
        invariant Evolves(origin, old(db), old(hist), db, hist)
        invariant SameLosses(old(hist), hist, stampRev || AllForeignEdges(items, origin))
        invariant disk == old(disk) && diskHist == old(diskHist) && db.vertex == old(db.vertex)
        invariant stampRev ==>
          LocalEdges(env, leaves, origin, old(db.edge), db.edge, items[..i], handled, clock.cache.Some?, clock.dirty)
        invariant !stampRev ==> clock.cache == None && !clock.dirty
        invariant !stampRev ==> ConsumeEdges(env, leaves, old(db.edge), items[..i]) == ConsumedEdges(db.edge, handled)
      {
        hide LocalEdges;
        ghost var d0, h0 := db, hist;
        ghost var filled, dirty, done := clock.cache.Some?, clock.dirty, handled;
        var ok := AddGuarded(items[i], stampRev);
        if ok { handled := handled + 1; }
        EvolvesTrans(origin, old(db), old(hist), d0, h0, db, hist);
        assert items[i] in items;
        SameLossesTrans(old(hist), h0, hist, stampRev || AllForeignEdges(items, origin), stampRev ||
            ForeignEdge(items[i].offer, origin));
        ghost var front, all := items[..i], items[..i + 1];
        assert all == front + [items[i]];
        if stampRev {
          LocalEdgesStep(env, leaves, origin, old(db.edge), d0.edge, db.edge, front, items[i], all, done, filled, dirty,
                         if clock.cache.Some? then clock.cache.value else 0);
        } else {
          ConsumeEdgeAppend(env, leaves, old(db.edge), front, items[i], all);
          ConsumeEdgeShift(env, leaves, d0.edge, done, items[i]);
        }
      }
      assert items[..|items|] == items;
      var committed := Commit();
      raised := !committed;
      if stampRev && !raised { LocalEdgesAre(env, leaves, origin, old(db.edge), db.edge, items); }
      if !stampRev { ConsumedEdgesAre(env, leaves, origin, old(db.edge), items); }
    }

    // ── removal ────────────────────────────────────────────────────────────────

    /** Delete one edge row and account for it: digest, total, extent, seq. */
    method RetireEdgeRow(k: EdgeKey)
      requires Valid() && open && k in db.edge
      modifies this`db
      ensures Valid()
      ensures db.edge == old(db.edge) - {k} && db.vertex == old(db.vertex)
      ensures Evolves(origin, old(db), hist, db, hist)
    {
      hide Ok, Evolves, XorLeaf, EdgeDigest, Bump, Vacate;
      NamedOrigin(env, origin, leaves, db, hist);
      ghost var d0 := db;
      var prev := db.edge[k];
      db := db.(edge := db.edge - {k});
      db := db.(digests := XorLeaf(db.digests, env.edgeSlot(k) % leaves, EdgeDigest(env, k, prev)));
      db := db.(counter := Bump(db.counter, Counter(EdgeTotal, ""), -1));
      db := db.(counter := Bump(db.counter, Counter(EdgeLabel, k.rel), -1));
      db := db.(counter := Vacate(db.counter, prev.origin));
      assert db == RetiredEdgeDb(env, leaves, d0, k);
      RetireEdgeStep(env, origin, leaves, d0, hist, k);
      EvolvesTrans(origin, disk, diskHist, d0, hist, db, hist);
    }

    /** Retire every edge with `node` on either side; no cap. */
    method RetireEdgesTouching(node: string) returns (gone: nat)
      requires Valid() && open
      modifies this`db
      ensures Valid()
      ensures db.edge == old(db.edge) - Touching(old(db.edge), node) && db.vertex == old(db.vertex)
      ensures gone == |Touching(old(db.edge), node)|
      ensures forall k :: k in db.edge <==> k in old(db.edge) && k.src != node && k.dst != node
      ensures Evolves(origin, old(db), hist, db, hist)
    {
      hide Ok, Evolves;
      var rows := Touching(db.edge, node);
      ghost var all := rows;
      gone := 0;
      EvolvesRefl(origin, db, hist);
      while rows != {}
        invariant Valid() && open
        invariant rows <= all
        invariant db.edge == old(db.edge) - (all - rows) && db.vertex == old(db.vertex)
        invariant gone + |rows| == |all|
        invariant Evolves(origin, old(db), hist, db, hist)
        decreases |rows|
      {
        var k :| k in rows;
        ghost var d0 := db;
        RetireEdgeRow(k);
        EvolvesTrans(origin, old(db), hist, d0, hist, db, hist);
        rows := rows - {k};
        gone := gone + 1;
      }
    }

    method DeleteEdge(k: EdgeKey) returns (found: bool)
      requires Valid() && !open
      modifies this`db, this`disk, this`hist, this`diskHist, this`open, clock
      ensures Valid() && !open
      ensures found <==> k in old(db.edge)
      ensures db.edge == old(db.edge) - {k} && db.vertex == old(db.vertex) && hist == old(hist)
      ensures Evolves(origin, old(db), old(hist), db, hist)
    {
      hide Ok, Evolves;
      Begin();
      found := k in db.edge;
      if found { RetireEdgeRow(k); } else { EvolvesRefl(origin, db, hist); }
      var committed := Commit();
    }

    /** An accounted delete takes the edges with the vertex; an eviction drops the cached copy only.
        The edges go first here: the statements commute, and every step stays accounted. */
    method DeleteArtifact(id: string, accounted: bool)
      requires Valid() && !open
      modifies this`db, this`disk, this`hist, this`diskHist, this`open, clock
      ensures Valid() && !open
      ensures db.vertex == old(db.vertex) - {id}
      ensures db.edge == if accounted && id in old(db.vertex)
                         then old(db.edge) - Touching(old(db.edge), id) else old(db.edge)
      ensures forall k :: k in db.edge <==>
                k in old(db.edge) && !(accounted && id in old(db.vertex) && (k.src == id || k.dst == id))
      ensures hist == if id in old(db.vertex) then RemovedHistory(origin, old(hist), id, old(db.vertex)[id],
          accounted) else old(hist)
      ensures Evolves(origin, old(db), old(hist), db, hist)
    {
      hide Ok, Evolves, RemovedHistory;
      Begin();
      EvolvesRefl(origin, db, hist);
      if id in db.vertex {
        if accounted { var gone := RetireEdgesTouching(id); }
        ghost var d1, h1 := db, hist;
        RemoveRow(id, accounted);
        EvolvesTrans(origin, old(db), old(hist), d1, h1, db, hist);
      }
      var committed := Commit();
    }

    method RemoveRow(id: string, accounted: bool)
      requires Valid() && open && id in db.vertex
      modifies this`db, this`hist
      ensures Valid()
      ensures db.vertex == old(db.vertex) - {id} && db.edge == old(db.edge) && db.seqs == old(db.seqs)
      ensures hist == RemovedHistory(origin, old(hist), id, old(db.vertex)[id], accounted)
      ensures Evolves(origin, old(db), old(hist), db, hist)
    {
      hide Ok, Evolves, XorLeaf, Bump, BumpAll, Vacate, CounterDeltas, TaskOf, BumpTask;
      ghost var d0, h0 := db, hist;
      var prev := db.vertex[id];
      RemoveTables(id, accounted);
      RemoveVertexStep(env, origin, leaves, d0, h0, id, accounted);
      hist := RemovedHistory(origin, hist, id, prev, accounted);
      EvolvesTrans(origin, disk, diskHist, d0, h0, db, hist);
    }

    method RemoveTables(id: string, accounted: bool)
      requires id in db.vertex
      modifies this`db
      ensures db == RemovedDb(env, old(db), id, accounted)
    {
      hide XorLeaf, Bump, BumpAll, Vacate, CounterDeltas, TaskOf;
      var prev := db.vertex[id];
      db := db.(vertex := db.vertex - {id});
      db := db.(digests := XorLeaf(db.digests, prev.leaf, env.rowHash(id, prev.sn)));
      db := db.(counter := Bump(db.counter, Counter(VertexTotal, ""), -1));
      if accounted { db := db.(counter := Vacate(db.counter, prev.origin)); }
      BumpCounters(CounterDeltas(env, Some(prev.doc), None, prev.ct, Null));
      SyncTask(id, Some(prev.doc), None, prev.ct);
      IndexLists(id, None, prev.ct, true);
    }

    // ── losses outside the write path ──────────────────────────────────────────

    /** A vertex row is gone: nothing is accounted, nothing else moves. */
    method LoseVertex(id: string)
      requires Valid() && !open && id in db.vertex
      modifies this`db, this`disk, this`hist, this`diskHist
      ensures Valid() && !open
      ensures db == old(db).(vertex := old(db.vertex) - {id})
      ensures hist == LostVertexHistory(env, origin, old(hist), id, old(db.vertex)[id])
      ensures Evolves(origin, old(db), old(hist), db, hist)
    {
      hide Ok, Evolves, VertexNames, AddNames, XorLeaf;
      LoseVertexStep(env, origin, leaves, db, hist, id);
      hist := LostVertexHistory(env, origin, hist, id, db.vertex[id]);
      db := db.(vertex := db.vertex - {id});
      disk, diskHist := db, hist;
      EvolvesRefl(origin, db, hist);
    }

    method LoseEdge(k: EdgeKey)
      requires Valid() && !open && k in db.edge
      modifies this`db, this`disk, this`hist, this`diskHist
      ensures Valid() && !open
      ensures db == old(db).(edge := old(db.edge) - {k})
      ensures hist == LostEdgeHistory(env, origin, old(hist), k, old(db.edge)[k])
      ensures Evolves(origin, old(db), old(hist), db, hist)
    {
      hide Ok, Evolves, EdgeNames, AddNames, XorLeaf, EdgeDigest;
      LoseEdgeStep(env, origin, leaves, db, hist, k);
      hist := LostEdgeHistory(env, origin, hist, k, db.edge[k]);
      db := db.(edge := db.edge - {k});
      disk, diskHist := db, hist;
      EvolvesRefl(origin, db, hist);
    }
  }

  /** `put_many` promises that one bad document does not stop the others.  It does when it is alone
      in its chunk: with chunks of one "y" is never reached; beside it in one chunk "y" is stored. */
  method BadDocumentStopsTheBatch(env: Env, origin: string)
    returns (one: Store, raisedOne: bool, two: Store, raisedTwo: bool)
    requires origin != "" && EnvOk(env)
    ensures raisedOne && one.db.vertex == map[]
    ensures !raisedTwo && "y" in two.db.vertex
  {
    hide Ok, Evolves, SameLosses, LastPut, Successes, StopAt, Unserializable, Serializable, Holds;
    var docs := [Unserializable("x"), Serializable("y")];
    var n;
    one := new Store(env, origin, 1);
    BadDocumentAlone(env, 1, KeepLocal, one.db.vertex);
    n, raisedOne := one.PutMany(docs, 1, true, KeepLocal);
    forall id ensures id !in one.db.vertex {
      NothingPut(id);
      assert HoldsLast(map[], one.db.vertex, [], id, origin);
    }
    two := new Store(env, origin, 1);
    n, raisedTwo := two.PutMany(docs, 2, true, KeepLocal);
    assert HoldsLast(map[], two.db.vertex, docs, "y", origin);
  }
}
