/**
 What the store does, told from the keys of documents and the columns of rows alone: which
 documents carry a version, what a stored row reads, where an artifact is placed, what an edge
 row keeps of its properties.  The operations of the store promise these beside their exact tables.
 */
module Documents {
  import opened Folds
  import opened Tables
  import opened Invariants
  import opened Consume
  import opened Writes

  // ── what a document carries ──────────────────────────────────────────────────

  lemma TruthIs(v: Value)
    ensures Truthy(v) <==> v !in {Null, Str(""), Int(0), List([])}
  {
  }

  predicate HasId(doc: Doc) { Id in doc && doc[Id].Str? && doc[Id].s != "" }

  /** A document with a non-empty text `_origin` and an integer `_seq`. */
  predicate HasVersion(doc: Doc) {
    OriginStamp in doc && doc[OriginStamp].Str? && doc[OriginStamp].s != "" && SeqStamp in doc && doc[SeqStamp].Int?
  }

  lemma IdIs(doc: Doc)
    ensures IdOf(doc) == if HasId(doc) then Some(doc[Id].s) else None
  {
  }

  lemma VersionIs(doc: Doc)
    ensures VersionOf(doc).Some? <==> HasVersion(doc)
    ensures HasVersion(doc) ==>
              VersionOf(doc).value.origin == doc[OriginStamp].s && VersionOf(doc).value.sn == doc[SeqStamp].i
  {
  }

  /** The row is at the version the document carries, and its stored document carries it too. */
  ghost predicate Carried(doc: Doc, row: VRow) {
    HasVersion(doc) && HasVersion(row.doc) &&
    doc[OriginStamp] == row.doc[OriginStamp] == Str(row.origin) && doc[SeqStamp] == row.doc[SeqStamp] == Int(row.sn)
  }

  // ── what a stored row reads ──────────────────────────────────────────────────

  /** `row` is `doc` stored over `prev`: every key as given but the stamps and the clock claim, the
      columns as the document reads, the lineage handle of the row that was there. */
  ghost predicate RowReads(prev: Option<VRow>, doc: Doc, row: VRow) {
    HasVersion(row.doc) && row.doc[OriginStamp] == Str(row.origin) && row.doc[SeqStamp] == Int(row.sn) &&
    (forall k :: k !in {OriginStamp, SeqStamp, CreatedTime, CreatedTimeOrigin} ==> Get(row.doc, k) == Get(doc, k)) &&
    row.ct == Get(doc, ContentType) && row.contentRef == Get(doc, ContentRef) &&
    row.rootId == (if prev.Some? then prev.value.rootId
                   else if Get(doc, RootId) in {Null, Str(""), Int(0), List([])} then Get(doc, Id)
                   else Get(doc, RootId)) &&
    FirstClaim(prev, doc, row)
  }

  /** `created_time` is first-write-wins: the claim of the row that was there stays with its
      claimant; a new claim without one is attributed to the row's own origin. */
  ghost predicate FirstClaim(prev: Option<VRow>, doc: Doc, row: VRow) {
    var claimant := if Get(doc, CreatedTime) != Null && Get(doc, CreatedTimeOrigin) in {Null, Str(""), Int(0), List([])}
                    then Str(row.origin) else Get(doc, CreatedTimeOrigin);
    if prev.Some? && Get(prev.value.doc, CreatedTime) != Null then
      Get(row.doc, CreatedTime) == Get(prev.value.doc, CreatedTime) &&
      Get(row.doc, CreatedTimeOrigin) ==
        if Get(prev.value.doc, CreatedTimeOrigin) != Null then Get(prev.value.doc, CreatedTimeOrigin) else claimant
    else
      Get(row.doc, CreatedTime) == Get(doc, CreatedTime) && Get(row.doc, CreatedTimeOrigin) == claimant
  }

  lemma StoredReads(e: Env, leaves: nat, prev: Option<VRow>, id: string, doc: Doc, org: string, s: int)
    requires leaves > 0 && org != ""
    ensures var row := StoredRow(e, leaves, prev, id, doc, org, s);
            RowReads(prev, doc, row) && row.origin == org && row.sn == s && row.leaf == e.slot(id) % leaves
  {
    TruthIs(Get(doc, RootId));
    TruthIs(Get(doc, CreatedTimeOrigin));
  }

  lemma StoredDocIs(e: Env, leaves: nat, prev: Option<VRow>, id: string, doc: Doc, org: string, s: int)
    requires leaves > 0
    ensures StoredRow(e, leaves, prev, id, doc, org, s).doc == StoredDoc(prev, doc, org, s)
  {
  }

  // ── one document ─────────────────────────────────────────────────────────────

  /** What putting one document does to the vertex table, and whether it counts: a document without
      an id, or consumed without a version, fails; a consumed one that is not newer than the row of
      its own origin is declined, one of another origin goes by policy; what is written is stored
      whole at its version, and nothing else moves. */
  ghost predicate PutReads(me: string, v0: map<string, VRow>, v1: map<string, VRow>, o: Offer, stampRev: bool,
                           policy: Policy, ok: bool) {
    if o.fault.Early? || !HasId(o.doc) || (!stampRev && !HasVersion(o.doc)) then !ok
    else
      var id := o.doc[Id].s;
      if Declined(v0, id, o.doc, stampRev, policy) then ok && v1 == v0
      else if !stampRev && id in v0 && o.doc[OriginStamp] != Str(v0[id].origin) && policy == Refuse then !ok
      else if !o.fault.NoFault? then !ok
      else
        ok && id in v1 && v1 == v0[id := v1[id]] && RowReads(At(v0, id), o.doc, v1[id]) &&
        if stampRev then v1[id].origin == me else Carried(o.doc, v1[id])
  }

  predicate Declined(v0: map<string, VRow>, id: string, doc: Doc, stampRev: bool, policy: Policy) {
    !stampRev && HasVersion(doc) && id in v0 &&
    if doc[OriginStamp] == Str(v0[id].origin) then doc[SeqStamp].i <= v0[id].sn else policy == KeepLocal
  }

  lemma LocalReads(e: Env, leaves: nat, me: string, v0: map<string, VRow>, v1: map<string, VRow>, o: Offer,
                   policy: Policy, ok: bool, s: int)
    requires leaves > 0 && me != "" && (ok <==> Succeeds(o))
    requires ok ==> var id := IdOf(o.doc).value; v1 == v0[id := StoredRow(e, leaves, At(v0, id), id, o.doc, me, s)]
    ensures PutReads(me, v0, v1, o, true, policy, ok)
  {
    hide StoredRow, RowReads;
    IdIs(o.doc);
    if ok {
      var id := IdOf(o.doc).value;
      StoredReads(e, leaves, At(v0, id), id, o.doc, me, s);
    }
  }

  lemma ConsumedReads(e: Env, leaves: nat, me: string, policy: Policy, c: Consumed, o: Offer)
    requires leaves > 0
    ensures var r := ConsumeOne(e, leaves, policy, c, o);
            PutReads(me, c.vertex, r.vertex, o, false, policy, r.handled == c.handled + 1) &&
            (r.handled != c.handled + 1 ==> r.vertex == c.vertex)
  {
    hide StoredRow, StoredDoc, PlaceOf, RowReads, IdOf, VersionOf;
    IdIs(o.doc);
    VersionIs(o.doc);
    if HasId(o.doc) && HasVersion(o.doc) {
      var id, v := IdOf(o.doc).value, VersionOf(o.doc).value;
      StoredReads(e, leaves, At(c.vertex, id), id, o.doc, v.origin, v.sn);
      ReadsCarried(At(c.vertex, id), o.doc, StoredRow(e, leaves, At(c.vertex, id), id, o.doc, v.origin, v.sn));
    }
  }

  lemma ReadsCarried(prev: Option<VRow>, doc: Doc, row: VRow)
    requires RowReads(prev, doc, row) && HasVersion(doc) && doc[OriginStamp] == Str(row.origin) &&
        doc[SeqStamp] == Int(row.sn)
    ensures Carried(doc, row)
  {
  }

  // ── a batch ──────────────────────────────────────────────────────────────────

  /** The document is put under `id` when nothing fails. */
  predicate PutsUnder(o: Offer, id: string) { o.fault.NoFault? && HasId(o.doc) && o.doc[Id].s == id }

  /** After local writes the last document put under an id is its row, as `me` authored it; a row
      under which none was put is as it was. */
  ghost predicate LocalBatchReads(me: string, v0: map<string, VRow>, v1: map<string, VRow>, done: seq<Offer>) {
    (forall id :: (forall o :: o in done ==> !PutsUnder(o, id)) ==> At(v1, id) == At(v0, id)) &&
    (forall i, id ::
        0 <= i < |done| && PutsUnder(done[i], id) && (forall j :: i < j < |done| ==> !PutsUnder(done[j], id)) ==>
       id in v1 && Authored(done[i].doc, v1[id], me))
  }

  ghost predicate Authored(doc: Doc, row: VRow, me: string) {
    row.origin == me && row.ct == Get(doc, ContentType) && HasVersion(row.doc) &&
    row.doc[OriginStamp] == Str(row.origin) && row.doc[SeqStamp] == Int(row.sn) &&
    forall k :: k !in {OriginStamp, SeqStamp, CreatedTime, CreatedTimeOrigin} ==> Get(row.doc, k) == Get(doc, k)
  }

  lemma {:induction false} LastPutIs(offers: seq<Offer>, id: string)
    ensures LastPut(offers, id).None? <==> forall o :: o in offers ==> !PutsUnder(o, id)
    ensures forall i :: 0 <= i < |offers| && PutsUnder(offers[i], id) &&
                        (forall j :: i < j < |offers| ==> !PutsUnder(offers[j], id)) ==>
              LastPut(offers, id) == Some(offers[i].doc)
  {
    if offers != [] {
      var front, last := offers[..|offers| - 1], offers[|offers| - 1];
      assert offers == front + [last];
      IdIs(last.doc);
      assert Succeeds(last) && IdOf(last.doc) == Some(id) <==> PutsUnder(last, id);
      LastPutIs(front, id);
      if PutsUnder(last, id) {
        assert last in offers;
      } else {
        assert forall o :: o in offers <==> o in front || o == last;
        forall i | 0 <= i < |offers| && PutsUnder(offers[i], id) &&
                   (forall j :: i < j < |offers| ==> !PutsUnder(offers[j], id))
          ensures LastPut(offers, id) == Some(offers[i].doc)
        {
          assert i < |front| && front[i] == offers[i];
          forall j | i < j < |front| ensures !PutsUnder(front[j], id) { assert front[j] == offers[j]; }
        }
      }
    }
  }

  lemma LocalBatchIs(me: string, v0: map<string, VRow>, v1: map<string, VRow>, done: seq<Offer>, handled: nat)
    requires LocalBatch(me, v0, v1, done, handled) && me != ""
    ensures LocalBatchReads(me, v0, v1, done)
  {
    hide Holds, PutsUnder, LastPut, Authored;
    forall id | forall o :: o in done ==> !PutsUnder(o, id) ensures At(v1, id) == At(v0, id) {
      LastPutIs(done, id);
      assert HoldsLast(v0, v1, done, id, me);
    }
    forall i, id | 0 <= i < |done| && PutsUnder(done[i], id) && (forall j :: i < j < |done| ==> !PutsUnder(done[j], id))
      ensures id in v1 && Authored(done[i].doc, v1[id], me)
    {
      LastPutIs(done, id);
      assert HoldsLast(v0, v1, done, id, me);
      HoldsIs(v1[id], done[i].doc, me);
    }
  }

  lemma HoldsIs(row: VRow, doc: Doc, me: string)
    requires Holds(row, doc, me) && me != ""
    ensures Authored(doc, row, me)
  {
  }

  /** Consuming a batch takes no row away; a row that moved is a document of the batch, at the
      version it carries; and a document that did not fail has its row, which is not older than the
      document of its own origin wherever unordered offers cannot replace it. */
  ghost predicate ConsumedBatchReads(v0: map<string, VRow>, v1: map<string, VRow>, done: seq<Offer>, policy: Policy) {
    v0.Keys <= v1.Keys &&
    (forall id :: id in v1 && At(v1, id) != At(v0, id) ==> exists o :: o in done && BroughtAs(o, id, v1[id])) &&
    (forall o :: o in done && o.fault.NoFault? && HasId(o.doc) && HasVersion(o.doc) ==> Kept(v1, o.doc, policy))
  }

  ghost predicate BroughtAs(o: Offer, id: string, row: VRow) {
    o.fault.NoFault? && HasId(o.doc) && o.doc[Id].s == id && Carried(o.doc, row) &&
    forall k :: k !in {OriginStamp, SeqStamp, CreatedTime, CreatedTimeOrigin} ==> Get(row.doc, k) == Get(o.doc, k)
  }

  predicate Kept(v1: map<string, VRow>, doc: Doc, policy: Policy)
    requires HasId(doc) && HasVersion(doc)
  {
    var id := doc[Id].s;
    id in v1 && (policy != TakeRemote && doc[OriginStamp] == Str(v1[id].origin) ==> doc[SeqStamp].i <= v1[id].sn)
  }

  lemma {:induction false} ConsumedBatchIs(e: Env, leaves: nat, me: string, policy: Policy, v0: map<string, VRow>,
                                           done: seq<Offer>)
    requires leaves > 0
    ensures ConsumedBatchReads(v0, ConsumeAll(e, leaves, policy, v0, done).vertex, done, policy)
    decreases |done|
  {
    hide ConsumeOne, Carried, HasVersion, HasId;
    if done != [] {
      var front, o := done[..|done| - 1], done[|done| - 1];
      assert done == front + [o];
      ConsumedBatchIs(e, leaves, me, policy, v0, front);
      var c := ConsumeAll(e, leaves, policy, v0, front);
      ConsumedReads(e, leaves, me, policy, c, o);
      var r := ConsumeOne(e, leaves, policy, c, o);
      BatchReadsStep(me, v0, c.vertex, r.vertex, front, o, done, policy, r.handled == c.handled + 1);
    }
  }

  lemma BatchReadsStep(me: string, v0: map<string, VRow>, v: map<string, VRow>, v1: map<string, VRow>,
                       front: seq<Offer>, o: Offer, done: seq<Offer>, policy: Policy, ok: bool)
    requires done == front + [o] && ConsumedBatchReads(v0, v, front, policy)
    requires PutReads(me, v, v1, o, false, policy, ok) && (!ok ==> v1 == v)
    ensures ConsumedBatchReads(v0, v1, done, policy)
  {
    hide RowReads, Carried;
    assert o in done && forall p :: p in front ==> p in done;
    forall id | id in v1 && At(v1, id) != At(v0, id) ensures exists p :: p in done && BroughtAs(p, id, v1[id]) {
      if At(v1, id) == At(v, id) {
        var p :| p in front && BroughtAs(p, id, v[id]);
        assert p in done;
      } else {
        Brings(me, v, v1, o, policy, ok, id);
      }
    }
    forall p | p in done && p.fault.NoFault? && HasId(p.doc) && HasVersion(p.doc) ensures Kept(v1, p.doc, policy) {
      if p in front { assert Kept(v, p.doc, policy); }
      KeptOn(me, v, v1, o, policy, ok, p);
    }
  }

  lemma Brings(me: string, v: map<string, VRow>, v1: map<string, VRow>, o: Offer, policy: Policy, ok: bool, id: string)
    requires PutReads(me, v, v1, o, false, policy, ok) && id in v1 && At(v1, id) != At(v, id) && (!ok ==> v1 == v)
    ensures BroughtAs(o, id, v1[id])
  {
    hide FirstClaim;
  }

  lemma KeptOn(me: string, v: map<string, VRow>, v1: map<string, VRow>, o: Offer, policy: Policy, ok: bool, p: Offer)
    requires PutReads(me, v, v1, o, false, policy, ok) && (!ok ==> v1 == v)
    requires p.fault.NoFault? && HasId(p.doc) && HasVersion(p.doc) && (p == o || Kept(v, p.doc, policy))
    ensures Kept(v1, p.doc, policy)
  {
    hide RowReads;
  }

  /** What a bulk put left of the documents before its first aborting chunk, when it had one. */
  ghost predicate BatchReads(me: string, v0: map<string, VRow>, v1: map<string, VRow>, done: seq<Offer>, stampRev: bool,
                             policy: Policy) {
    if stampRev then LocalBatchReads(me, v0, v1, done) else ConsumedBatchReads(v0, v1, done, policy)
  }

  lemma OverReads(e: Env, leaves: nat, me: string, d0: Db, h0: History, d1: Db, h1: History, offers: seq<Offer>, n: nat,
                  stampRev: bool, policy: Policy, handled: nat, raised: bool)
    requires leaves > 0 && n > 0 && me != ""
    requires BatchOver(e, leaves, me, d0, h0, d1, h1, offers, n, stampRev, policy, handled, raised)
    ensures BatchReads(me, d0.vertex, d1.vertex, Reached(e, leaves, stampRev, policy, d0.vertex, offers, n),
        stampRev, policy)
  {
    hide LocalBatchReads, ConsumedBatchReads, LocalBatch, ConsumeAll, Reached, MarksLeft, QuietDb;
    var done := Reached(e, leaves, stampRev, policy, d0.vertex, offers, n);
    if stampRev {
      LocalBatchIs(me, d0.vertex, d1.vertex, done, handled);
    } else {
      ConsumedBatchIs(e, leaves, me, policy, d0.vertex, done);
    }
  }

  lemma FailedReads(me: string, v0: map<string, VRow>, o: Offer, stampRev: bool, policy: Policy)
    ensures EarlyFails(o, stampRev) || (stampRev && !o.fault.NoFault?) ==>
        PutReads(me, v0, v0, o, stampRev, policy, false)
  {
    IdIs(o.doc);
    VersionIs(o.doc);
  }

  // ── placement ────────────────────────────────────────────────────────────────

  /** A stored document that names a collection which is a vertex, and which is not its own root,
      is contained in it: one edge from the collection to the root of the artifact, the artifact's
      canonical parent, with no mask.  No other edge moves, and none where there is none to write. */
  ghost predicate PlacementReads(e: Env, me: string, v: map<string, VRow>, doc: Doc, g0: map<EdgeKey, ERow>,
                                 g1: map<EdgeKey, ERow>) {
    var none := {Null, Str(""), Int(0), List([])};
    var cid := Get(doc, CollectionId);
    var root := if Get(doc, RootId) in none then Get(doc, Id) else Get(doc, RootId);
    if cid !in none && root !in none && e.text(cid) in v && e.text(cid) != e.text(root) then
      var k := EdgeKey(src := e.text(cid), dst := e.text(root), rel := "contains");
      k in g1 && g1 == g0[k := g1[k]] && Contains(g1[k], me, e.text(root))
    else g1 == g0
  }

  /** An origin containment edge of `me` without a mask. */
  ghost predicate Contains(row: ERow, me: string, root: string) {
    row.origin == me && row.isOrigin == Int(1) && row.propagate == Null && row.force == Null && row.orderKey == Null &&
    row.blob == map[Plain("root_id") := Str(root)]
  }

  lemma PlacementIs(e: Env, leaves: nat, me: string, v: map<string, VRow>, doc: Doc, g0: map<EdgeKey, ERow>,
                    g1: map<EdgeKey, ERow>, cache: Option<int>)
    requires leaves > 0 && Placed(e, me, leaves, g0, g1, PlaceOf(e, v, doc), cache)
    ensures PlacementReads(e, me, v, doc, g0, g1)
  {
    TruthIs(Get(doc, CollectionId));
    TruthIs(Get(doc, RootId));
    TruthIs(Get(doc, Id));
    if PlaceOf(e, v, doc).Some? {
      var k := PlaceOf(e, v, doc).value;
      PlacedRow(e, leaves, k, me, cache.value);
    }
  }

  lemma PlacedRow(e: Env, leaves: nat, k: EdgeKey, me: string, s: int)
    requires leaves > 0
    ensures Contains(StoredEdge(e, leaves, k, PlaceProps(k.dst), me, s), me, k.dst)
  {
    var props := PlaceProps(k.dst);
    assert (map p | p in props && p.Plain? :: props[p]) == map[Plain("root_id") := Str(k.dst)];
  }

  lemma PlacementSameKeys(e: Env, me: string, v: map<string, VRow>, w: map<string, VRow>, doc: Doc,
                          g0: map<EdgeKey, ERow>, g1: map<EdgeKey, ERow>)
    requires PlacementReads(e, me, v, doc, g0, g1) && v.Keys == w.Keys
    ensures PlacementReads(e, me, w, doc, g0, g1)
  {
    hide Contains;
  }

  // ── a put with its snapshot ──────────────────────────────────────────────────

  /** A local put owes a copy of the row it replaces: on request, or when it brings a content other
      than the one that is here. */
  predicate CopyDue(v0: map<string, VRow>, id: string, doc: Doc, stampRev: bool, newVersion: bool) {
    var none := {Null, Str(""), Int(0), List([])};
    stampRev && id in v0 &&
    (newVersion || (Get(doc, ContentRef) !in none && v0[id].contentRef !in none &&
        v0[id].contentRef != Get(doc, ContentRef)))
  }

  /** The copy reads as the replaced document but for its id, its state and the lineage it names. */
  ghost predicate CopyReads(id: string, snap: string, prev: VRow, row: VRow, me: string) {
    var none := {Null, Str(""), Int(0), List([])};
    row.origin == me && row.ct == Get(prev.doc, ContentType) && row.contentRef == Get(prev.doc, ContentRef) &&
    Get(row.doc, Id) == Str(snap) && Get(row.doc, StateKey) == Str("archived") &&
    Get(row.doc, RootId) == (if prev.rootId in none then Str(id) else prev.rootId) &&
    row.rootId == (if prev.rootId !in none then prev.rootId else if id != "" then Str(id) else Str(snap)) &&
    Get(row.doc, CreatedTime) == Get(prev.doc, CreatedTime) &&
    forall k :: k !in {Id, StateKey, RootId, OriginStamp, SeqStamp, CreatedTime, CreatedTimeOrigin} ==>
      Get(row.doc, k) == Get(prev.doc, k)
  }

  /** What a put leaves behind: the copy it owes, at its seq and placed, unless it is there already;
      then the document, which names that copy as its parent, placed; and nothing else. */
  ghost predicate PutLeaves(e: Env, me: string, v0: map<string, VRow>, v1: map<string, VRow>, g0: map<EdgeKey, ERow>,
                            g1: map<EdgeKey, ERow>, id: string, doc: Doc, stampRev: bool, newVersion: bool,
                            took: Option<int>) {
    id in v1 && RowReads(At(v0, id), doc[ParentId := Get(v1[id].doc, ParentId)], v1[id]) &&
    (if stampRev then v1[id].origin == me else Carried(doc, v1[id])) &&
    var due := CopyDue(v0, id, doc, stampRev, newVersion) && v0[id].doc != map[] && e.snapId(id, v0[id].doc) != id;
    Get(v1[id].doc, ParentId) == (if due then Str(e.snapId(id, v0[id].doc)) else Get(doc, ParentId)) &&
    (took.Some? <==> due && e.snapId(id, v0[id].doc) !in v0) &&
    if took.None? then
      v1 == v0[id := v1[id]] && PlacementReads(e, me, v1, v1[id].doc, g0, g1)
    else
      id in v0 &&
      var snap := e.snapId(id, v0[id].doc);
      snap in v1 && v1 == v0[snap := v1[snap]][id := v1[id]] && CopyReads(id, snap, v0[id], v1[snap], me) &&
      v1[snap].sn == took.value &&
      exists mid :: PlacementReads(e, me, v1, v1[snap].doc, g0, mid) && PlacementReads(e, me, v1, v1[id].doc, mid, g1)
  }

  lemma CopyIs(e: Env, leaves: nat, id: string, snap: string, prev: VRow, me: string, s: int)
    requires leaves > 0 && id != "" && snap != ""
    ensures CopyReads(id, snap, prev, StoredRow(e, leaves, None, snap, SnapshotDoc(id, snap, prev), me, s), me)
  {
    TruthIs(prev.rootId);
    TruthIs(Get(SnapshotDoc(id, snap, prev), RootId));
  }

  lemma DueIs(e: Env, v0: map<string, VRow>, id: string, doc: Doc, stampRev: bool, newVersion: bool)
    ensures stampRev && Versioned(At(v0, id), doc, newVersion) <==> CopyDue(v0, id, doc, stampRev, newVersion)
    ensures CopyDue(v0, id, doc, stampRev, newVersion) ==> id in v0
    ensures id in v0 ==>
              SnapshotId(e, id, v0[id]) == if v0[id].doc != map[] && e.snapId(id, v0[id].doc) != id
                                           then Some(e.snapId(id, v0[id].doc)) else None
  {
    TruthIs(Get(doc, ContentRef));
    if id in v0 { TruthIs(v0[id].contentRef); }
  }

  /** How the copy stood in the tables before the head was written. */
  ghost predicate CopyPlaced(e: Env, me: string, v0: map<string, VRow>, kept: map<string, VRow>, id: string,
                             g0: map<EdgeKey, ERow>, mid: map<EdgeKey, ERow>, took: Option<int>) {
    if took.None? then kept == v0 && mid == g0
    else id in v0 && e.snapId(id, v0[id].doc) in kept &&
         PlacementReads(e, me, kept, kept[e.snapId(id, v0[id].doc)].doc, g0, mid)
  }

  lemma PutLeavesIs(e: Env, leaves: nat, me: string, v0: map<string, VRow>, kept: map<string, VRow>,
                    v1: map<string, VRow>, g0: map<EdgeKey, ERow>, mid: map<EdgeKey, ERow>, g1: map<EdgeKey, ERow>,
                    id: string, doc: Doc, d: Doc, stampRev: bool, newVersion: bool, took: Option<int>, v: Version)
    requires leaves > 0 && id != "" && (forall a, x :: e.snapId(a, x) != "")
    requires Prepared(e, leaves, me, v0, kept, id, doc, d, stampRev, newVersion, took)
    requires CopyPlaced(e, me, v0, kept, id, g0, mid, took)
    requires id in v1 && v1 == kept[id := v1[id]] && RowReads(At(kept, id), d, v1[id]) &&
        v1[id].origin == v.origin && v1[id].sn == v.sn
    requires PlacementReads(e, me, v1, v1[id].doc, mid, g1)
    requires if stampRev then v.origin == me else VersionOf(doc) == Some(v)
    ensures PutLeaves(e, me, v0, v1, g0, g1, id, doc, stampRev, newVersion, took)
  {
    hide StoredRow, SnapshotDoc, SnapshotId, Versioned, FirstClaim, CopyDue, CopyReads, PlacementReads, VersionOf;
    DueIs(e, v0, id, doc, stampRev, newVersion);
    VersionIs(doc);
    HeadReads(At(v0, id), doc, d, v1[id]);
    if took.Some? {
      var snap := e.snapId(id, v0[id].doc);
      CopyIs(e, leaves, id, snap, v0[id], me, took.value);
      SnapRow(e, leaves, v0, kept, id, snap, me, took.value);
      PlacementSameKeys(e, me, kept, v1, kept[snap].doc, g0, mid);
      assert v1 == v0[snap := v1[snap]][id := v1[id]];
      assert CopyReads(id, snap, v0[id], v1[snap], me);
      assert PlacementReads(e, me, v1, v1[snap].doc, g0, mid);
    }
    var due := CopyDue(v0, id, doc, stampRev, newVersion) && v0[id].doc != map[] && e.snapId(id, v0[id].doc) != id;
    assert Get(v1[id].doc, ParentId) == (if due then Str(e.snapId(id, v0[id].doc)) else Get(doc, ParentId));
    assert (took.Some? <==> due && e.snapId(id, v0[id].doc) !in v0);
  }

  lemma SnapRow(e: Env, leaves: nat, v0: map<string, VRow>, kept: map<string, VRow>, id: string, snap: string,
                me: string, s: int)
    requires leaves > 0 && id in v0
    requires kept == v0[snap := StoredRow(e, leaves, None, snap, SnapshotDoc(id, snap, v0[id]), me, s)]
    ensures kept[snap].sn == s
  {
    hide StoredDoc, SnapshotDoc;
  }

  lemma HeadReads(prev: Option<VRow>, doc: Doc, d: Doc, row: VRow)
    requires RowReads(prev, d, row) && (d == doc || d == doc[ParentId := Get(d, ParentId)])
    ensures RowReads(prev, doc[ParentId := Get(row.doc, ParentId)], row)
    ensures Get(row.doc, ParentId) == Get(d, ParentId)
    ensures HasVersion(doc) && doc[OriginStamp] == Str(row.origin) && doc[SeqStamp] == Int(row.sn) ==> Carried(doc, row)
  {
    assert ParentId !in {OriginStamp, SeqStamp, CreatedTime, CreatedTimeOrigin};
    var d1 := doc[ParentId := Get(row.doc, ParentId)];
    forall k ensures Get(d1, k) == Get(d, k) {}
  }

  // ── edges ────────────────────────────────────────────────────────────────────

  /** The row keeps the offered properties: the promoted ones each in the column of its name,
      `is_origin` as its truth, every plain one in the blob, and no hidden one. */
  ghost predicate EdgeReads(row: ERow, props: Props) {
    row.force == PropOf(props, Force) && row.propagate == PropOf(props, Propagate) &&
    row.orderKey == PropOf(props, OrderKey) &&
    row.isOrigin == (if PropOf(props, IsOrigin) == Null then Null
                     else if PropOf(props, IsOrigin) in {Str(""), Int(0), List([])} then Int(0) else Int(1)) &&
    (forall n :: Plain(n) in row.blob <==> Plain(n) in props) &&
    (forall p :: p in row.blob ==> p.Plain? && p in props && row.blob[p] == props[p])
  }

  lemma StoredEdgeReads(e: Env, leaves: nat, k: EdgeKey, props: Props, org: string, s: int)
    requires leaves > 0
    ensures var row := StoredEdge(e, leaves, k, props, org, s);
            EdgeReads(row, props) && row.origin == org && row.sn == s && row.leaf == e.edgeSlot(k) % leaves
  {
    TruthIs(PropOf(props, IsOrigin));
  }

  /** What adding one edge does to the edge table: an edge without ends or label, or consumed without
      a version, is refused; a consumed one is declined unless it is newer than the row of its own
      origin; what is written is stored whole under its ends and label, and no other edge moves. */
  ghost predicate AddReads(me: string, g0: map<EdgeKey, ERow>, g1: map<EdgeKey, ERow>, o: EdgeOffer, stampRev: bool,
                           ok: bool) {
    var k := EdgeKey(src := o.src, dst := o.dst, rel := o.rel);
    if o.src == "" || o.dst == "" || o.rel == "" || (!stampRev &&
        (o.version.None? || o.version.value.origin == "")) then
      !ok && g1 == g0
    else if !stampRev && k in g0 && !(o.version.value.origin == g0[k].origin && o.version.value.sn > g0[k].sn) then
      ok && g1 == g0
    else
      ok && k in g1 && g1 == g0[k := g1[k]] && EdgeReads(g1[k], o.props) &&
      if stampRev then g1[k].origin == me
      else g1[k].origin == o.version.value.origin && g1[k].sn == o.version.value.sn
  }

  lemma RefusedAdd(me: string, g: map<EdgeKey, ERow>, o: EdgeOffer, stampRev: bool)
    requires !EdgeFormed(o, stampRev)
    ensures AddReads(me, g, g, o, stampRev, false)
  {
  }

  lemma LocalAddIs(e: Env, leaves: nat, me: string, g0: map<EdgeKey, ERow>, g1: map<EdgeKey, ERow>, o: EdgeOffer,
                   s: int)
    requires leaves > 0 && EdgeFormed(o, true)
    requires var k := EdgeKey(o.src, o.dst, o.rel); g1 == g0[k := StoredEdge(e, leaves, k, o.props, me, s)]
    ensures AddReads(me, g0, g1, o, true, true)
  {
    hide StoredEdge, EdgeReads;
    StoredEdgeReads(e, leaves, EdgeKey(o.src, o.dst, o.rel), o.props, me, s);
  }

  lemma ConsumedAddIs(e: Env, leaves: nat, me: string, g0: map<EdgeKey, ERow>, g1: map<EdgeKey, ERow>, o: EdgeOffer)
    requires leaves > 0 && EdgeFormed(o, false) && ConsumedEdge(e, leaves, g0, g1, o)
    ensures AddReads(me, g0, g1, o, false, true)
  {
    hide StoredEdge, EdgeReads;
    StoredEdgeReads(e, leaves, EdgeKey(o.src, o.dst, o.rel), o.props, o.version.value.origin, o.version.value.sn);
  }

  predicate AddsUnder(it: EdgeItem, k: EdgeKey) {
    it.fault.NoFault? && it.offer.src != "" && it.offer.dst != "" && it.offer.rel != "" &&
    k == EdgeKey(src := it.offer.src, dst := it.offer.dst, rel := it.offer.rel)
  }

  /** After local adds the last edge added under a key is its row; other rows are as they were. */
  ghost predicate LocalEdgesRead(me: string, g0: map<EdgeKey, ERow>, g1: map<EdgeKey, ERow>, items: seq<EdgeItem>) {
    (forall k :: (forall it :: it in items ==> !AddsUnder(it, k)) ==> At(g1, k) == At(g0, k)) &&
    (forall i, k ::
        0 <= i < |items| && AddsUnder(items[i], k) && (forall j :: i < j < |items| ==> !AddsUnder(items[j], k)) ==>
       k in g1 && g1[k].origin == me && EdgeReads(g1[k], items[i].offer.props))
  }

  lemma {:induction false} LastAddedIs(items: seq<EdgeItem>, k: EdgeKey)
    ensures LastAdded(items, k).None? <==> forall it :: it in items ==> !AddsUnder(it, k)
    ensures forall i :: 0 <= i < |items| && AddsUnder(items[i], k) &&
                        (forall j :: i < j < |items| ==> !AddsUnder(items[j], k)) ==>
              LastAdded(items, k) == Some(items[i].offer.props)
  {
    if items != [] {
      var front, last := items[..|items| - 1], items[|items| - 1];
      assert items == front + [last];
      assert EdgeSucceeds(last) && KeyOf(last.offer) == k <==> AddsUnder(last, k);
      LastAddedIs(front, k);
      if AddsUnder(last, k) {
        assert last in items;
      } else {
        assert forall it :: it in items <==> it in front || it == last;
        forall i | 0 <= i < |items| && AddsUnder(items[i], k) &&
            (forall j :: i < j < |items| ==> !AddsUnder(items[j], k))
          ensures LastAdded(items, k) == Some(items[i].offer.props)
        {
          assert i < |front| && front[i] == items[i];
          forall j | i < j < |front| ensures !AddsUnder(front[j], k) { assert front[j] == items[j]; }
        }
      }
    }
  }

  lemma LocalEdgesAre(e: Env, leaves: nat, me: string, g0: map<EdgeKey, ERow>, g1: map<EdgeKey, ERow>,
                      items: seq<EdgeItem>)
    requires leaves > 0 && forall k :: AddedLast(e, leaves, me, g0, g1, items, k)
    ensures LocalEdgesRead(me, g0, g1, items)
  {
    hide StoredEdge, EdgeReads, AddsUnder, LastAdded;
    forall k | forall it :: it in items ==> !AddsUnder(it, k) ensures At(g1, k) == At(g0, k) {
      LastAddedIs(items, k);
      assert AddedLast(e, leaves, me, g0, g1, items, k);
    }
    forall i, k | 0 <= i < |items| && AddsUnder(items[i], k) &&
        (forall j :: i < j < |items| ==> !AddsUnder(items[j], k))
      ensures k in g1 && g1[k].origin == me && EdgeReads(g1[k], items[i].offer.props)
    {
      LastAddedIs(items, k);
      assert AddedLast(e, leaves, me, g0, g1, items, k);
      StoredEdgeReads(e, leaves, k, items[i].offer.props, me, g1[k].sn);
    }
  }

  /** Consuming edges takes no row away; a row that moved is an edge of the chunk at the version it
      was offered with; and an edge that did not fail has its row, not older than the offer. */
  ghost predicate ConsumedEdgesRead(g0: map<EdgeKey, ERow>, g1: map<EdgeKey, ERow>, items: seq<EdgeItem>) {
    g0.Keys <= g1.Keys &&
    (forall k :: k in g1 && At(g1, k) != At(g0, k) ==> exists it :: it in items && EdgeBrought(it, k, g1[k])) &&
    (forall it, k :: it in items && AddsUnder(it, k) && EdgeVersioned(it) ==>
       k in g1 && (it.offer.version.value.origin == g1[k].origin ==> it.offer.version.value.sn <= g1[k].sn))
  }

  predicate EdgeVersioned(it: EdgeItem) { it.offer.version.Some? && it.offer.version.value.origin != "" }

  ghost predicate EdgeBrought(it: EdgeItem, k: EdgeKey, row: ERow) {
    AddsUnder(it, k) && it.offer.version == Some(Version(origin := row.origin, sn := row.sn)) &&
    EdgeReads(row, it.offer.props)
  }

  lemma ConsumeEdgeReads(e: Env, leaves: nat, me: string, c: ConsumedEdges, it: EdgeItem)
    requires leaves > 0
    ensures var r := ConsumeEdge(e, leaves, c, it);
            r.edge == c.edge || (it.fault.NoFault? && AddReads(me, c.edge, r.edge, it.offer, false, true))
    ensures it.fault.NoFault? && EdgeFormed(it.offer, false) ==>
              AddReads(me, c.edge, ConsumeEdge(e, leaves, c, it).edge, it.offer, false, true)
  {
    hide StoredEdge, AddReads;
    if it.fault.NoFault? && EdgeFormed(it.offer, false) {
      ConsumedAddIs(e, leaves, me, c.edge, ConsumeEdge(e, leaves, c, it).edge, it.offer);
    }
  }

  lemma {:induction false} ConsumedEdgesAre(e: Env, leaves: nat, me: string, g0: map<EdgeKey, ERow>,
                                            items: seq<EdgeItem>)
    requires leaves > 0
    ensures ConsumedEdgesRead(g0, ConsumeEdges(e, leaves, g0, items).edge, items)
    decreases |items|
  {
    hide ConsumeEdge, EdgeReads, AddReads;
    if items != [] {
      var front, it := items[..|items| - 1], items[|items| - 1];
      assert items == front + [it];
      ConsumedEdgesAre(e, leaves, me, g0, front);
      var c := ConsumeEdges(e, leaves, g0, front);
      ConsumeEdgeReads(e, leaves, me, c, it);
      EdgesReadStep(me, g0, c.edge, ConsumeEdge(e, leaves, c, it).edge, front, it, items);
    }
  }

  lemma EdgesReadStep(me: string, g0: map<EdgeKey, ERow>, g: map<EdgeKey, ERow>, g1: map<EdgeKey, ERow>,
                      front: seq<EdgeItem>, it: EdgeItem, items: seq<EdgeItem>)
    requires items == front + [it] && ConsumedEdgesRead(g0, g, front)
    requires g1 == g || (it.fault.NoFault? && AddReads(me, g, g1, it.offer, false, true))
    requires it.fault.NoFault? && EdgeFormed(it.offer, false) ==> AddReads(me, g, g1, it.offer, false, true)
    ensures ConsumedEdgesRead(g0, g1, items)
  {
    hide EdgeReads, EdgeBrought;
    assert it in items && forall p :: p in front ==> p in items;
    forall k | k in g1 && At(g1, k) != At(g0, k) ensures exists p :: p in items && EdgeBrought(p, k, g1[k]) {
      if At(g1, k) == At(g, k) {
        var p :| p in front && EdgeBrought(p, k, g[k]);
        assert p in items;
      } else {
        EdgeBrings(me, g, g1, it, k);
      }
    }
  }

  lemma EdgeBrings(me: string, g: map<EdgeKey, ERow>, g1: map<EdgeKey, ERow>, it: EdgeItem, k: EdgeKey)
    requires it.fault.NoFault? && AddReads(me, g, g1, it.offer, false, true) && k in g1 && At(g1, k) != At(g, k)
    ensures EdgeBrought(it, k, g1[k])
  {
    hide EdgeReads;
  }
}
