/**
 What one write of the store does, on values: which documents and edges are accepted, what a
 batch leaves behind, which snapshot a put owes.  The class Store is proved against these.
 */
module Writes {
  import opened Folds
  import opened Tables
  import opened Invariants
  import opened Steps
  import opened Consume
  import opened Keyset

  /** Where an operation on one document or edge fails, if it gets that far: before anything, in
      the row write after its version is settled (a document json.dumps refuses), or after its
      placement took a seq (the edge row cannot be written). */
  datatype Fault = NoFault | Early | AfterVersion | AfterWrite

  /** str() of a truthy value is a non-empty text, of a text that text; a snapshot id is not
      empty; the two orders are strict and total. */
  ghost predicate EnvOk(e: Env) {
    (forall v :: Truthy(v) ==> e.text(v) != "") &&
    (forall s :: e.text(Str(s)) == s) &&
    (forall a, d :: e.snapId(a, d) != "") &&
    StrictTotal(e.idBefore) && StrictTotal(e.keyBefore)
  }

  function IdOf(doc: Doc): Option<string> {
    match Get(doc, Id)
    case Str(s) => if s != "" then Some(s) else None
    case _ => None
  }

  function VersionsOf(v: map<string, VRow>): map<string, Version> {
    map id | id in v :: Version(v[id].origin, v[id].sn)
  }

  function EdgeVersionsOf(g: map<EdgeKey, ERow>): map<EdgeKey, Version> {
    map k | k in g :: Version(g[k].origin, g[k].sn)
  }

  /** The log after a vertex write and, if it placed one, its containment edge. */
  function WrittenLog(log: seq<RowKey>, me: string, id: string, org: string, place: Option<EdgeKey>): seq<RowKey> {
    (if org == me then log + [VKey(id)] else log) + (if place.Some? then [EKey(place.value)] else [])
  }

  ghost predicate MarkKept(me: string, d0: Db, d1: Db) { At(d0.seqs, me) == At(d1.seqs, me) }

  /** The mark of the version's origin is no lower than its seq. */
  predicate Seen(seqs: map<string, SeqRow>, v: Version) { v.origin in seqs && seqs[v.origin].last >= v.sn }

  ghost predicate MarksRise(a: map<string, SeqRow>, b: map<string, SeqRow>) {
    forall o :: o in a ==> o in b && a[o].last <= b[o].last
  }

  lemma OkLocal(e: Env, me: string, leaves: nat, d: Db, h: History)
    requires Ok(e, me, leaves, d, h)
    ensures LocalOnly(me, d)
  {
  }

  lemma LocalNoted(me: string, d: Db, v: Version)
    requires LocalOnly(me, d)
    ensures LocalOnly(me, ObserveSeq(d, v))
  {
  }

  lemma OkSeqs(e: Env, me: string, leaves: nat, d: Db, h: History, seqs: map<string, SeqRow>)
    requires Ok(e, me, leaves, d, h) && LocalOnly(me, d.(seqs := seqs))
    ensures Ok(e, me, leaves, d.(seqs := seqs), h) && Evolves(me, d, h, d.(seqs := seqs), h)
  {
    hide MerkleOk, CountersOk, LedgerOk, Evolves;
    SidecarsSame(e, d, d.(seqs := seqs), h, h);
    SameRowsOk(e, me, leaves, d, h, d.(seqs := seqs), h);
  }

  lemma OkEcho(e: Env, me: string, leaves: nat, d: Db, h: History)
    requires Ok(e, me, leaves, d, h)
    ensures Ok(e, me, leaves, d, h.(echo := true)) && Evolves(me, d, h, d, h.(echo := true))
  {
    hide MerkleOk, CountersOk, LedgerOk, Evolves;
    SidecarsSame(e, d, d, h, h.(echo := true));
    SameRowsOk(e, me, leaves, d, h, d, h.(echo := true));
  }

  lemma EvolvesRefl(me: string, d: Db, h: History)
    ensures Evolves(me, d, h, d, h)
  {
  }

  lemma OkCounter(e: Env, me: string, leaves: nat, d: Db, h: History, n: Counter, delta: int)
    requires Ok(e, me, leaves, d, h) && n.family.Conflict?
    ensures var d1 := d.(counter := Bump(d.counter, n, delta));
            Ok(e, me, leaves, d1, h) && Evolves(me, d, h, d1, h)
  {
    hide MerkleOk, CountersOk, LedgerOk, Evolves, Bump;
    var d1 := d.(counter := Bump(d.counter, n, delta));
    SidecarsSame(e, d, d1, h, h);
    SameRowsOk(e, me, leaves, d, h, d1, h);
  }

  /** `v1` holds the snapshot a put of `doc` owes, and `d` is the document the put will store. */
  ghost predicate Prepared(e: Env, leaves: nat, me: string, v0: map<string, VRow>, v1: map<string, VRow>, id: string,
                           doc: Doc, d: Doc, stampRev: bool, newVersion: bool, took: Option<int>)
    requires leaves > 0
  {
    var prev := At(v0, id);
    var versioned := stampRev && Versioned(prev, doc, newVersion);
    var snap := if versioned then SnapshotId(e, id, prev.value) else None;
    (took.Some? <==> snap.Some? && snap.value !in v0) &&
    v1 == (if took.Some? && snap.Some?
           then v0[snap.value := StoredRow(e, leaves, None, snap.value, SnapshotDoc(id, snap.value, prev.value), me,
               took.value)]
           else v0) &&
    d == if versioned then doc[ParentId := if snap.Some? then Str(snap.value) else Get(doc, ParentId)] else doc
  }

  lemma HeadWritten(e: Env, leaves: nat, me: string, v0: map<string, VRow>, v1: map<string, VRow>,
                    v2: map<string, VRow>, id: string, doc: Doc, d: Doc, stampRev: bool, newVersion: bool,
                    took: Option<int>, v: Version)
    requires leaves > 0 && Prepared(e, leaves, me, v0, v1, id, doc, d, stampRev, newVersion, took)
    requires v2 == v1[id := StoredRow(e, leaves, At(v1, id), id, d, v.origin, v.sn)]
    requires if stampRev then v.origin == me else VersionOf(doc) == Some(v)
    ensures PutEffect(e, leaves, me, v0, v2, id, doc, stampRev, newVersion, took, v.sn)
  {
    hide StoredRow, SnapshotDoc;
  }

  /** The document, or edge, carries no version of `me`. */
  predicate Foreign(doc: Doc, me: string) { VersionOf(doc).Some? ==> VersionOf(doc).value.origin != me }
  predicate ForeignEdge(o: EdgeOffer, me: string) { o.version.Some? ==> o.version.value.origin != me }
  predicate AllForeign(offers: seq<Offer>, me: string) { forall o :: o in offers ==> Foreign(o.doc, me) }
  predicate AllForeignEdges(items: seq<EdgeItem>, me: string) { forall it :: it in items ==> ForeignEdge(it.offer, me) }

  datatype Offer = Offer(doc: Doc, fault: Fault)

  /** What last-writer-wins says to a consumed document: write it, decline it, or refuse it. */
  datatype Gate = Write | Decline | Refusal

  predicate EarlyFails(o: Offer, stampRev: bool) {
    o.fault.Early? || IdOf(o.doc).None? || (!stampRev && VersionOf(o.doc).None?)
  }

  predicate Succeeds(o: Offer) { !EarlyFails(o, true) && o.fault.NoFault? }

  function Successes(offers: seq<Offer>): seq<Offer> {
    if offers == [] then []
    else Successes(offers[..|offers| - 1]) +
         if Succeeds(offers[|offers| - 1]) then [offers[|offers| - 1]] else []
  }

  lemma NextSlice(offers: seq<Offer>, p: nat, i: nat)
    requires p <= i < |offers|
    ensures offers[p..i + 1] == offers[p..i] + [offers[i]]
  {
  }

  lemma SliceForeign(offers: seq<Offer>, lo: nat, hi: nat, me: string)
    requires lo <= hi <= |offers|
    ensures AllForeign(offers, me) ==> AllForeign(offers[lo..hi], me)
  {
  }

  function OfferedDoc(doc: Doc): Offered<string>
    requires IdOf(doc).Some? && VersionOf(doc).Some?
  {
    Offered(IdOf(doc).value, VersionOf(doc).value)
  }

  /** The versions a batch offers: of every document that has an id and a version. */
  function Arrivals(offers: seq<Offer>): seq<Offered<string>> {
    if offers == [] then []
    else
      var last := offers[|offers| - 1];
      Arrivals(offers[..|offers| - 1]) +
      if IdOf(last.doc).Some? && VersionOf(last.doc).Some? then [OfferedDoc(last.doc)] else []
  }

  predicate Refused(vs: map<string, Version>, o: Offered<string>, policy: Policy) {
    policy == Refuse && o.key in vs && CompareVersion(o.version, vs[o.key]) == Unordered
  }

  ghost predicate NoneAccepted(vs: map<string, Version>, os: seq<Offered<string>>, policy: Policy) {
    forall o :: o in os ==> !Accepts(vs, o, policy)
  }

  /** A chunk of local writes aborts when some document failed after it took a seq and none
      succeeded: the rollback to its savepoint empties the cache but leaves `dirty` set. */
  predicate ChunkAborts(offers: seq<Offer>) {
    (exists j :: 0 <= j < |offers| && !EarlyFails(offers[j], true)) && Successes(offers) == []
  }

  /** The last document of `offers` that was put under `id`. */
  function LastPut(offers: seq<Offer>, id: string): Option<Doc> {
    if offers == [] then None
    else
      var last := offers[|offers| - 1];
      if Succeeds(last) && IdOf(last.doc) == Some(id) then Some(last.doc) else LastPut(offers[..|offers| - 1], id)
  }

  predicate StampKey(k: Key) { k.OriginStamp? || k.SeqStamp? || k.CreatedTime? || k.CreatedTimeOrigin? }

  /** `row` is `doc` as `me` authored it: every field as given but the stamps and the clock claim. */
  ghost predicate Holds(row: VRow, doc: Doc, me: string) {
    row.origin == me && row.ct == Get(doc, ContentType) &&
    Get(row.doc, OriginStamp) == Str(row.origin) && Get(row.doc, SeqStamp) == Int(row.sn) &&
    (forall k :: !StampKey(k) ==> Get(row.doc, k) == Get(doc, k))
  }

  ghost predicate HoldsLast(v0: map<string, VRow>, v1: map<string, VRow>, offers: seq<Offer>, id: string, me: string) {
    var last := LastPut(offers, id);
    if last.None? then At(v1, id) == At(v0, id) else id in v1 && Holds(v1[id], last.value, me)
  }

  lemma StoredHolds(e: Env, leaves: nat, prev: Option<VRow>, id: string, doc: Doc, me: string, s: int)
    requires leaves > 0
    ensures Holds(StoredRow(e, leaves, prev, id, doc, me, s), doc, me)
  {
  }

  lemma StoredVersion(e: Env, leaves: nat, prev: Option<VRow>, id: string, doc: Doc, v: Version)
    requires leaves > 0
    ensures var row := StoredRow(e, leaves, prev, id, doc, v.origin, v.sn); row.origin == v.origin && row.sn == v.sn
  {
    hide StoredDoc;
  }

  lemma VersionsPut(v: map<string, VRow>, id: string, row: VRow)
    ensures VersionsOf(v[id := row]) == VersionsOf(v)[id := Version(row.origin, row.sn)]
  {
  }

  lemma QuietRefl(d: Db)
    ensures QuietDb(d, d)
  {
  }

  lemma QuietObserve(d: Db, v: Version)
    ensures QuietDb(d, ObserveSeq(d, v))
  {
  }

  lemma QuietTrans(a: Db, b: Db, c: Db)
    requires QuietDb(a, b) && QuietDb(b, c)
    ensures QuietDb(a, c)
  {
  }

  lemma QuietThen(a: Db, b: Db, c: Db)
    requires QuietDb(a, b)
    ensures QuietDb(b, c) ==> QuietDb(a, c)
  {
  }

  lemma OfferAppended(front: seq<Offer>, o: Offer, all: seq<Offer>)
    requires all == front + [o]
    ensures Successes(all) == Successes(front) + if Succeeds(o) then [o] else []
    ensures Arrivals(all) == Arrivals(front) + if IdOf(o.doc).Some? && VersionOf(o.doc).Some?
        then [OfferedDoc(o.doc)] else []
    ensures forall id :: LastPut(all, id) ==
              if Succeeds(o) && IdOf(o.doc) == Some(id) then Some(o.doc) else LastPut(front, id)
  {
    assert all[..|all| - 1] == front;
  }

  /** One local success: the last document put under its id is now this one. */
  lemma HoldsStep(e: Env, leaves: nat, me: string, v0: map<string, VRow>, v: map<string, VRow>,
                  front: seq<Offer>, o: Offer, all: seq<Offer>, s: int)
    requires leaves > 0 && Succeeds(o) && all == front + [o]
    requires forall id :: HoldsLast(v0, v, front, id, me)
    ensures var id := IdOf(o.doc).value;
            var v1 := v[id := StoredRow(e, leaves, At(v, id), id, o.doc, me, s)];
            forall j :: HoldsLast(v0, v1, all, j, me)
  {
    hide StoredRow, Holds;
    OfferAppended(front, o, all);
    var id := IdOf(o.doc).value;
    StoredHolds(e, leaves, At(v, id), id, o.doc, me, s);
    var v1 := v[id := StoredRow(e, leaves, At(v, id), id, o.doc, me, s)];
    forall j
      ensures HoldsLast(v0, v1, all, j, me)
    {
      assert HoldsLast(v0, v, front, j, me);
    }
  }

  lemma HoldsSkip(me: string, v0: map<string, VRow>, v: map<string, VRow>, front: seq<Offer>, o: Offer, all: seq<Offer>)
    requires !Succeeds(o) && all == front + [o]
    requires forall id :: HoldsLast(v0, v, front, id, me)
    ensures forall id :: HoldsLast(v0, v, all, id, me)
  {
    OfferAppended(front, o, all);
    forall j
      ensures HoldsLast(v0, v, all, j, me)
    {
      assert HoldsLast(v0, v, front, j, me);
    }
  }

  // ── consuming ────────────────────────────────────────────────────────────────

  /** A consume transaction: the table, whether a placement took a seq, whether one kept it, and
      how many documents were handled. */
  datatype Consumed = Consumed(vertex: map<string, VRow>, took: bool, kept: bool, handled: nat)

  /** One consumed document: counted when written or rightly declined, not when refused or failed.
      A failure after its placement took a seq leaves `took` behind and nothing else. */
  function ConsumeOne(e: Env, leaves: nat, policy: Policy, c: Consumed, o: Offer): Consumed
    requires leaves > 0
  {
    if EarlyFails(o, false) || Refused(VersionsOf(c.vertex), OfferedDoc(o.doc), policy) then c
    else if !Accepts(VersionsOf(c.vertex), OfferedDoc(o.doc), policy) then c.(handled := c.handled + 1)
    else
      var id, v := IdOf(o.doc).value, VersionOf(o.doc).value;
      var prev := At(c.vertex, id);
      var v1 := c.vertex[id := StoredRow(e, leaves, prev, id, o.doc, v.origin, v.sn)];
      var places := PlaceOf(e, v1, StoredDoc(prev, o.doc, v.origin, v.sn)).Some?;
      match o.fault
      case NoFault => Consumed(v1, c.took || places, c.kept || places, c.handled + 1)
      case AfterWrite => c.(took := c.took || places)
      case _ => c
  }

  /** The transaction after the store wrote `o` into it, up to its fault. */
  lemma ConsumeOneWrote(e: Env, leaves: nat, policy: Policy, c: Consumed, o: Offer, v1: map<string, VRow>, places: bool)
    requires leaves > 0 && !EarlyFails(o, false) && !o.fault.AfterVersion?
    requires Accepts(VersionsOf(c.vertex), OfferedDoc(o.doc), policy)
    requires var id, v := IdOf(o.doc).value, VersionOf(o.doc).value;
             v1 == c.vertex[id := StoredRow(e, leaves, At(c.vertex, id), id, o.doc, v.origin, v.sn)] &&
             places == PlaceOf(e, v1, StoredDoc(At(c.vertex, id), o.doc, v.origin, v.sn)).Some?
    ensures ConsumeOne(e, leaves, policy, c, o) ==
            if o.fault.NoFault? then Consumed(v1, c.took || places, c.kept || places, c.handled + 1)
            else c.(took := c.took || places)
  {
    hide StoredRow, StoredDoc, PlaceOf, IdOf, VersionOf, CompareVersion;
  }

  lemma ConsumeOneSkipped(e: Env, leaves: nat, policy: Policy, c: Consumed, o: Offer)
    requires leaves > 0
    ensures EarlyFails(o, false) || Refused(VersionsOf(c.vertex), OfferedDoc(o.doc), policy) ==>
              ConsumeOne(e, leaves, policy, c, o) == c
    ensures !EarlyFails(o, false) && Accepts(VersionsOf(c.vertex), OfferedDoc(o.doc), policy) &&
            o.fault.AfterVersion? ==>
              ConsumeOne(e, leaves, policy, c, o) == c
    ensures !EarlyFails(o, false) && !Refused(VersionsOf(c.vertex), OfferedDoc(o.doc), policy) &&
            !Accepts(VersionsOf(c.vertex), OfferedDoc(o.doc), policy) ==>
              ConsumeOne(e, leaves, policy, c, o) == c.(handled := c.handled + 1)
  {
    hide StoredRow, StoredDoc, PlaceOf, IdOf, VersionOf, CompareVersion;
  }

  function ConsumeFrom(e: Env, leaves: nat, policy: Policy, c: Consumed, offers: seq<Offer>): Consumed
    requires leaves > 0
  {
    if offers == [] then c
    else ConsumeOne(e, leaves, policy, ConsumeFrom(e, leaves, policy, c, offers[..|offers| - 1]), offers[|offers| - 1])
  }

  function ConsumeAll(e: Env, leaves: nat, policy: Policy, v0: map<string, VRow>, offers: seq<Offer>): Consumed
    requires leaves > 0
  {
    ConsumeFrom(e, leaves, policy, Consumed(v0, false, false, 0), offers)
  }

  lemma ConsumeAppend(e: Env, leaves: nat, policy: Policy, c: Consumed, front: seq<Offer>, o: Offer, all: seq<Offer>)
    requires leaves > 0 && all == front + [o]
    ensures ConsumeFrom(e, leaves, policy, c, all) == ConsumeOne(e, leaves, policy,
        ConsumeFrom(e, leaves, policy, c, front), o)
  {
    assert all[..|all| - 1] == front;
  }

  /** What one document does to the table and adds to the count depends on the table alone. */
  lemma ConsumeOneShift(e: Env, leaves: nat, policy: Policy, c: Consumed, d: Consumed, o: Offer)
    requires leaves > 0 && c.vertex == d.vertex && d.handled == 0
    ensures var r, s := ConsumeOne(e, leaves, policy, c, o), ConsumeOne(e, leaves, policy, d, o);
            r.vertex == s.vertex && r.handled == c.handled + s.handled && s.handled <= 1
    ensures c.took == d.took && c.kept == d.kept ==>
              var r, s := ConsumeOne(e, leaves, policy, c, o), ConsumeOne(e, leaves, policy, d, o);
              r.took == s.took && r.kept == s.kept
  {
    hide StoredRow, StoredDoc, PlaceOf, Accepts, Refused, EarlyFails;
  }

  lemma {:induction false} ConsumeShift(e: Env, leaves: nat, policy: Policy, c: Consumed, offers: seq<Offer>)
    requires leaves > 0
    ensures var r, s := ConsumeFrom(e, leaves, policy, c, offers), ConsumeAll(e, leaves, policy, c.vertex, offers);
            r.vertex == s.vertex && r.handled == c.handled + s.handled
    decreases |offers|
  {
    hide ConsumeOne;
    if offers != [] {
      var front, o := offers[..|offers| - 1], offers[|offers| - 1];
      ConsumeShift(e, leaves, policy, c, front);
      var r, s := ConsumeFrom(e, leaves, policy, c, front), ConsumeAll(e, leaves, policy, c.vertex, front);
      var z := Consumed(r.vertex, false, false, 0);
      ConsumeOneShift(e, leaves, policy, r, z, o);
      ConsumeOneShift(e, leaves, policy, s, z, o);
    }
  }

  lemma {:induction false} ConsumeSplit(e: Env, leaves: nat, policy: Policy, c: Consumed, front: seq<Offer>,
                                        chunk: seq<Offer>, all: seq<Offer>)
    requires leaves > 0 && all == front + chunk
    ensures ConsumeFrom(e, leaves, policy, c, all)
         == ConsumeFrom(e, leaves, policy, ConsumeFrom(e, leaves, policy, c, front), chunk)
    decreases |chunk|
  {
    hide ConsumeOne;
    if chunk == [] {
      assert all == front;
    } else {
      var most, o := chunk[..|chunk| - 1], chunk[|chunk| - 1];
      ConsumeSplit(e, leaves, policy, c, front, most, front + most);
      assert all == (front + most) + [o] && chunk == most + [o];
      ConsumeAppend(e, leaves, policy, c, front + most, o, all);
      ConsumeAppend(e, leaves, policy, ConsumeFrom(e, leaves, policy, c, front), most, o, chunk);
    }
  }

  /** Two batches one after the other: the table of the whole, and the counts add up. */
  lemma ConsumeConcat(e: Env, leaves: nat, policy: Policy, v0: map<string, VRow>, front: seq<Offer>, chunk: seq<Offer>,
                      all: seq<Offer>)
    requires leaves > 0 && all == front + chunk
    ensures var a := ConsumeAll(e, leaves, policy, v0, front);
            var b := ConsumeAll(e, leaves, policy, a.vertex, chunk);
            var r := ConsumeAll(e, leaves, policy, v0, all);
            r.vertex == b.vertex && r.handled == a.handled + b.handled
  {
    hide ConsumeFrom;
    var c := Consumed(v0, false, false, 0);
    ConsumeSplit(e, leaves, policy, c, front, chunk, all);
    ConsumeShift(e, leaves, policy, ConsumeFrom(e, leaves, policy, c, front), chunk);
  }

  /** The documents on which nothing fails. */
  function Clean(offers: seq<Offer>): seq<Offer> {
    if offers == [] then []
    else
      var last := offers[|offers| - 1];
      Clean(offers[..|offers| - 1]) + if last.fault.NoFault? then [last] else []
  }

  lemma CleanAppended(front: seq<Offer>, o: Offer, all: seq<Offer>)
    requires all == front + [o]
    ensures Clean(all) == if o.fault.NoFault? then Clean(front) + [o] else Clean(front)
    ensures Arrivals(Clean(all)) == Arrivals(Clean(front)) +
              if o.fault.NoFault? && IdOf(o.doc).Some? && VersionOf(o.doc).Some? then [OfferedDoc(o.doc)] else []
  {
    assert all[..|all| - 1] == front;
    if o.fault.NoFault? { OfferAppended(Clean(front), o, Clean(all)); }
  }

  /** The versions a batch leaves are what its documents that did not fail leave behind in order. */
  lemma {:induction false} ConsumedVersions(e: Env, leaves: nat, policy: Policy, v0: map<string, VRow>,
                                            offers: seq<Offer>)
    requires leaves > 0
    ensures VersionsOf(ConsumeAll(e, leaves, policy, v0, offers).vertex)
         == ArriveAll(VersionsOf(v0), Arrivals(Clean(offers)), policy)
    decreases |offers|
  {
    hide ConsumeOne, Accepts, IdOf, VersionOf;
    if offers != [] {
      var front, o := offers[..|offers| - 1], offers[|offers| - 1];
      assert offers == front + [o];
      ConsumedVersions(e, leaves, policy, v0, front);
      CleanAppended(front, o, offers);
      ConsumeOneVersions(e, leaves, policy, ConsumeAll(e, leaves, policy, v0, front), o);
      if o.fault.NoFault? && IdOf(o.doc).Some? && VersionOf(o.doc).Some? {
        ArriveAppend(VersionsOf(v0), Arrivals(Clean(front)), OfferedDoc(o.doc), policy);
      } else {
        assert Arrivals(Clean(front)) + [] == Arrivals(Clean(front));
      }
    }
  }

  lemma ConsumeOneVersions(e: Env, leaves: nat, policy: Policy, c: Consumed, o: Offer)
    requires leaves > 0
    ensures VersionsOf(ConsumeOne(e, leaves, policy, c, o).vertex)
         == if o.fault.NoFault? && IdOf(o.doc).Some? && VersionOf(o.doc).Some?
            then Arrive(VersionsOf(c.vertex), OfferedDoc(o.doc), policy) else VersionsOf(c.vertex)
  {
    hide StoredRow, StoredDoc, PlaceOf, IdOf, VersionOf, CompareVersion, VersionsOf;
    if !EarlyFails(o, false) {
      var id, v := IdOf(o.doc).value, VersionOf(o.doc).value;
      var row := StoredRow(e, leaves, At(c.vertex, id), id, o.doc, v.origin, v.sn);
      StoredVersion(e, leaves, At(c.vertex, id), id, o.doc, v);
      VersionsPut(c.vertex, id, row);
    }
  }

  /** A document is handled when it is well formed, not refused, and either declined or written. */
  predicate HandledAt(vs: map<string, Version>, o: Offer, policy: Policy) {
    !EarlyFails(o, false) && !Refused(vs, OfferedDoc(o.doc), policy) &&
    (Accepts(vs, OfferedDoc(o.doc), policy) ==> o.fault.NoFault?)
  }

  /** The document at `j` was handled against the versions the ones before it left. */
  ghost predicate HandledIn(vs: map<string, Version>, offers: seq<Offer>, policy: Policy, j: nat)
    requires j < |offers|
  {
    HandledAt(ArriveAll(vs, Arrivals(Clean(offers[..j])), policy), offers[j], policy)
  }

  ghost predicate EveryHandled(vs: map<string, Version>, offers: seq<Offer>, policy: Policy) {
    forall j :: 0 <= j < |offers| ==> HandledIn(vs, offers, policy, j)
  }

  /** The caller's guard against data loss: the count reaches the length of the batch exactly when
      every document was handled, and then nothing the batch offered is missing. */
  lemma {:induction false} CountIsTheGuard(e: Env, leaves: nat, policy: Policy, v0: map<string, VRow>,
                                           offers: seq<Offer>)
    requires leaves > 0
    ensures var c := ConsumeAll(e, leaves, policy, v0, offers);
            c.handled <= |offers| &&
            (c.handled == |offers| <==> EveryHandled(VersionsOf(v0), offers, policy)) &&
            (c.handled == |offers| ==> VersionsOf(c.vertex) == ArriveAll(VersionsOf(v0), Arrivals(offers), policy))
    decreases |offers|
  {
    hide ConsumeOne, Accepts, Refused, EarlyFails, HandledAt;
    if offers != [] {
      var vs := VersionsOf(v0);
      var front, o := offers[..|offers| - 1], offers[|offers| - 1];
      assert offers == front + [o];
      CountIsTheGuard(e, leaves, policy, v0, front);
      ConsumedVersions(e, leaves, policy, v0, front);
      var c := ConsumeAll(e, leaves, policy, v0, front);
      ConsumeOneHandled(e, leaves, policy, c, o);
      EveryHandledAppend(vs, front, o, offers, policy);
      if c.handled == |front| && HandledAt(VersionsOf(c.vertex), o, policy) {
        OfferAppended(front, o, offers);
        ArriveAppend(vs, Arrivals(front), OfferedDoc(o.doc), policy);
      }
    }
  }

  lemma ConsumeOneHandled(e: Env, leaves: nat, policy: Policy, c: Consumed, o: Offer)
    requires leaves > 0
    ensures var r := ConsumeOne(e, leaves, policy, c, o);
            r.handled == c.handled + (if HandledAt(VersionsOf(c.vertex), o, policy) then 1 else 0)
    ensures HandledAt(VersionsOf(c.vertex), o, policy) ==>
              IdOf(o.doc).Some? && VersionOf(o.doc).Some? &&
              VersionsOf(ConsumeOne(e, leaves, policy, c, o).vertex)
                  == Arrive(VersionsOf(c.vertex), OfferedDoc(o.doc), policy)
  {
    hide StoredRow, StoredDoc, PlaceOf, IdOf, VersionOf, VersionsOf;
    ConsumeOneVersions(e, leaves, policy, c, o);
  }

  lemma HandledInAppend(vs: map<string, Version>, front: seq<Offer>, o: Offer, all: seq<Offer>, policy: Policy)
    requires all == front + [o]
    ensures forall j :: 0 <= j < |front| ==> (HandledIn(vs, all, policy, j) <==> HandledIn(vs, front, policy, j))
    ensures HandledIn(vs, all, policy, |front|) <==>
            HandledAt(ArriveAll(vs, Arrivals(Clean(front)), policy), o, policy)
  {
    hide HandledAt;
    assert all[..|front|] == front && all[|front|] == o;
    assert forall j :: 0 <= j < |front| ==> all[..j] == front[..j] && all[j] == front[j];
  }

  lemma EveryHandledAppend(vs: map<string, Version>, front: seq<Offer>, o: Offer, all: seq<Offer>, policy: Policy)
    requires all == front + [o]
    ensures EveryHandled(vs, all, policy) <==>
            EveryHandled(vs, front, policy) && HandledAt(ArriveAll(vs, Arrivals(Clean(front)), policy), o, policy)
  {
    hide HandledAt, HandledIn;
    HandledInAppend(vs, front, o, all, policy);
    assert EveryHandled(vs, all, policy) ==> HandledIn(vs, all, policy, |front|);
  }

  /** Where nothing fails nothing is lost: a batch of well-formed documents is handled whole under
      any policy that decides, and it never aborts. */
  lemma {:induction false} NothingFailsNothingLost(e: Env, leaves: nat, policy: Policy, v0: map<string, VRow>,
      offers: seq<Offer>)
    requires leaves > 0 && forall o :: o in offers ==> o.fault.NoFault?
    ensures var c := ConsumeAll(e, leaves, policy, v0, offers);
            c.took == c.kept &&
            (policy != Refuse && (forall o :: o in offers ==> !EarlyFails(o, false)) ==> c.handled == |offers|)
    decreases |offers|
  {
    hide StoredRow, StoredDoc, PlaceOf, EarlyFails;
    if offers != [] {
      var front, o := offers[..|offers| - 1], offers[|offers| - 1];
      assert offers == front + [o];
      assert o in offers && forall p :: p in front ==> p in offers;
      NothingFailsNothingLost(e, leaves, policy, v0, front);
    }
  }

  // ── observed marks ───────────────────────────────────────────────────────────

  lemma NotedIs(seqs: map<string, SeqRow>, v: Version)
    ensures MarksRise(seqs, Noted(seqs, v)) && Seen(Noted(seqs, v), v)
    ensures Seen(seqs, v) ==> Noted(seqs, v) == seqs
  {
  }

  lemma StillSeen(a: map<string, SeqRow>, b: map<string, SeqRow>, v: Version)
    requires MarksRise(a, b) && Seen(a, v)
    ensures Seen(b, v)
  {
  }

  lemma RiseTrans(a: map<string, SeqRow>, b: map<string, SeqRow>, c: map<string, SeqRow>)
    requires MarksRise(a, b) && MarksRise(b, c)
    ensures MarksRise(a, c)
  {
  }

  /** Nothing offered is newer than what is here, and no mark is behind a document that is not refused. */
  ghost predicate AllSeen(vs: map<string, Version>, q: map<string, SeqRow>, offers: seq<Offer>, policy: Policy) {
    forall o ::
        o in offers && IdOf(o.doc).Some? && VersionOf(o.doc).Some? && !Refused(vs, OfferedDoc(o.doc), policy) ==>
      Seen(q, VersionOf(o.doc).value)
  }

  /** The marks after consuming `offers`: none fell, each is as high as every document that was
      written or declined, and a batch with nothing new and nothing unseen moved none. */
  ghost predicate MarksLeft(vs: map<string, Version>, q0: map<string, SeqRow>, q1: map<string, SeqRow>,
                            offers: seq<Offer>, policy: Policy) {
    MarksRise(q0, q1) && HandledSeen(vs, q1, offers, policy) &&
    (NoneAccepted(vs, Arrivals(offers), policy) && AllSeen(vs, q0, offers, policy) ==> q1 == q0)
  }

  ghost predicate HandledSeen(vs: map<string, Version>, q: map<string, SeqRow>, offers: seq<Offer>, policy: Policy) {
    forall j :: 0 <= j < |offers| && HandledIn(vs, offers, policy, j) ==>
      VersionOf(offers[j].doc).Some? && Seen(q, VersionOf(offers[j].doc).value)
  }

  lemma MarksStart(vs: map<string, Version>, q: map<string, SeqRow>, policy: Policy)
    ensures MarksLeft(vs, q, q, [], policy)
  {
  }

  lemma MarksStep(vs: map<string, Version>, q0: map<string, SeqRow>, q: map<string, SeqRow>, q1: map<string, SeqRow>,
                  front: seq<Offer>, o: Offer, all: seq<Offer>, policy: Policy, ok: bool)
    requires all == front + [o] && MarksLeft(vs, q0, q, front, policy)
    requires ok <==> HandledAt(ArriveAll(vs, Arrivals(Clean(front)), policy), o, policy)
    requires ok ==> VersionOf(o.doc).Some?
    requires q1 == if ok then Noted(q, VersionOf(o.doc).value) else q
    requires NoneAccepted(vs, Arrivals(front), policy) ==> ArriveAll(vs, Arrivals(Clean(front)), policy) == vs
    ensures MarksLeft(vs, q0, q1, all, policy)
  {
    hide HandledAt, HandledIn, Seen, MarksRise, Noted, Accepts, Refused, IdOf, VersionOf;
    HandledSeenStep(vs, q, q1, front, o, all, policy, ok);
    RiseTrans(q0, q, q1);
    if NoneAccepted(vs, Arrivals(all), policy) && AllSeen(vs, q0, all, policy) {
      OfferAppended(front, o, all);
      forall a | a in Arrivals(front) ensures !Accepts(vs, a, policy) { assert a in Arrivals(all); }
      forall p | p in front ensures p in all {}
      assert o in all;
      if ok {
        HandledMeans(vs, o, policy);
        NotedIs(q, VersionOf(o.doc).value);
      }
    }
  }

  lemma HandledSeenStep(vs: map<string, Version>, q: map<string, SeqRow>, q1: map<string, SeqRow>,
                        front: seq<Offer>, o: Offer, all: seq<Offer>, policy: Policy, ok: bool)
    requires all == front + [o] && HandledSeen(vs, q, front, policy)
    requires ok <==> HandledAt(ArriveAll(vs, Arrivals(Clean(front)), policy), o, policy)
    requires ok ==> VersionOf(o.doc).Some?
    requires q1 == if ok then Noted(q, VersionOf(o.doc).value) else q
    ensures HandledSeen(vs, q1, all, policy) && MarksRise(q, q1)
  {
    hide HandledAt, HandledIn, Seen, MarksRise, Noted, VersionOf;
    HandledInAppend(vs, front, o, all, policy);
    if ok { NotedIs(q, VersionOf(o.doc).value); } else { RiseRefl(q); }
    forall j | 0 <= j < |all| && HandledIn(vs, all, policy, j)
      ensures VersionOf(all[j].doc).Some? && Seen(q1, VersionOf(all[j].doc).value)
    {
      if j < |front| {
        assert HandledIn(vs, front, policy, j) && all[j] == front[j];
        StillSeen(q, q1, VersionOf(all[j].doc).value);
      } else {
        assert all[j] == o;
      }
    }
  }

  lemma RiseRefl(q: map<string, SeqRow>)
    ensures MarksRise(q, q)
  {
  }

  lemma HandledMeans(vs: map<string, Version>, o: Offer, policy: Policy)
    requires HandledAt(vs, o, policy)
    ensures IdOf(o.doc).Some? && VersionOf(o.doc).Some? && !Refused(vs, OfferedDoc(o.doc), policy)
  {
  }

  /** The flush of a chunk may raise the local mark, and does not when no placement took a seq. */
  lemma MarksFlushed(vs: map<string, Version>, q0: map<string, SeqRow>, q: map<string, SeqRow>, q1: map<string, SeqRow>,
                     offers: seq<Offer>, policy: Policy)
    requires MarksLeft(vs, q0, q, offers, policy) && MarksRise(q, q1)
    requires NoneAccepted(vs, Arrivals(offers), policy) ==> q1 == q
    ensures MarksLeft(vs, q0, q1, offers, policy)
  {
    hide HandledIn, Seen, MarksRise, NoneAccepted, AllSeen, VersionOf;
    RiseTrans(q0, q, q1);
    forall j | 0 <= j < |offers| && HandledIn(vs, offers, policy, j)
      ensures VersionOf(offers[j].doc).Some? && Seen(q1, VersionOf(offers[j].doc).value)
    {
      StillSeen(q, q1, VersionOf(offers[j].doc).value);
    }
  }

  lemma {:induction false} CleanConcat(front: seq<Offer>, chunk: seq<Offer>)
    ensures Clean(front + chunk) == Clean(front) + Clean(chunk)
    decreases |chunk|
  {
    if chunk == [] {
      assert front + chunk == front;
    } else {
      var c, o := chunk[..|chunk| - 1], chunk[|chunk| - 1];
      CleanConcat(front, c);
      assert (front + chunk)[..|front + chunk| - 1] == front + c;
    }
  }

  lemma HandledInConcat(vs: map<string, Version>, ws: map<string, Version>, front: seq<Offer>, chunk: seq<Offer>,
                        all: seq<Offer>, policy: Policy, j: nat)
    requires all == front + chunk && ws == ArriveAll(vs, Arrivals(Clean(front)), policy) && j < |all|
    ensures HandledIn(vs, all, policy, j) <==>
            if j < |front| then HandledIn(vs, front, policy, j) else HandledIn(ws, chunk, policy, j - |front|)
  {
    hide HandledAt, ArriveAll;
    if j < |front| {
      assert all[..j] == front[..j] && all[j] == front[j];
    } else {
      var c := chunk[..j - |front|];
      assert all[..j] == front + c && all[j] == chunk[j - |front|];
      CleanConcat(front, c);
      ArrivalsConcat(Clean(front), Clean(c));
      ArriveConcat(vs, Arrivals(Clean(front)), Arrivals(Clean(c)), policy);
    }
  }

  lemma MarksConcat(vs: map<string, Version>, ws: map<string, Version>, q0: map<string, SeqRow>,
                    q1: map<string, SeqRow>, q2: map<string, SeqRow>, front: seq<Offer>, chunk: seq<Offer>,
                    all: seq<Offer>, policy: Policy)
    requires all == front + chunk && ws == ArriveAll(vs, Arrivals(Clean(front)), policy)
    requires MarksLeft(vs, q0, q1, front, policy) && MarksLeft(ws, q1, q2, chunk, policy)
    requires NoneAccepted(vs, Arrivals(front), policy) ==> ws == vs
    ensures MarksLeft(vs, q0, q2, all, policy)
  {
    hide HandledIn, Seen, MarksRise, Accepts, Refused, IdOf, VersionOf, ArriveAll;
    RiseTrans(q0, q1, q2);
    forall j | 0 <= j < |all| && HandledIn(vs, all, policy, j)
      ensures VersionOf(all[j].doc).Some? && Seen(q2, VersionOf(all[j].doc).value)
    {
      HandledInConcat(vs, ws, front, chunk, all, policy, j);
      if j < |front| {
        StillSeen(q1, q2, VersionOf(front[j].doc).value);
      } else {
        assert all[j] == chunk[j - |front|];
      }
    }
    if NoneAccepted(vs, Arrivals(all), policy) && AllSeen(vs, q0, all, policy) {
      ArrivalsConcat(front, chunk);
      forall a | a in Arrivals(front) ensures !Accepts(vs, a, policy) { assert a in Arrivals(all); }
      forall a | a in Arrivals(chunk) ensures !Accepts(vs, a, policy) { assert a in Arrivals(all); }
      forall o | o in front ensures o in all {}
      forall o | o in chunk ensures o in all {}
    }
  }

  // ── the batch loop ───────────────────────────────────────────────────────────

  /** After the local writes of `front`: the last document put under each id is what the table
      holds, and the allocator is dirty once any took a seq and filled once any succeeded. */
  ghost predicate LocalSoFar(me: string, v0: map<string, VRow>, v1: map<string, VRow>, front: seq<Offer>, handled: nat,
                             filled: bool, dirty: bool) {
    (dirty <==> exists j :: 0 <= j < |front| && !EarlyFails(front[j], true)) &&
    (filled <==> Successes(front) != []) &&
    handled == |Successes(front)| &&
    (forall id :: HoldsLast(v0, v1, front, id, me))
  }

  /** After consuming `front`: the table, the allocator and the count are those of the fold, the
      marks are as high as what was handled, and a batch that offers nothing newer moved nothing. */
  ghost predicate ConsumedSoFar(e: Env, leaves: nat, d0: Db, h0: History, d1: Db, h1: History, front: seq<Offer>,
                                policy: Policy, handled: nat, filled: bool, dirty: bool)
    requires leaves > 0
  {
    ConsumeAll(e, leaves, policy, d0.vertex, front) == Consumed(d1.vertex, dirty, filled, handled) &&
    MarksLeft(VersionsOf(d0.vertex), d0.seqs, d1.seqs, front, policy) &&
    (NoneAccepted(VersionsOf(d0.vertex), Arrivals(front), policy) ==> QuietDb(d0, d1) && h1.log == h0.log && !dirty)
  }

  lemma SoFarStart(e: Env, leaves: nat, me: string, d: Db, h: History, policy: Policy)
    requires leaves > 0
    ensures LocalSoFar(me, d.vertex, d.vertex, [], 0, false, false)
    ensures ConsumedSoFar(e, leaves, d, h, d, h, [], policy, 0, false, false)
  {
    MarksStart(VersionsOf(d.vertex), d.seqs, policy);
  }

  lemma LocalStep(e: Env, leaves: nat, me: string, v0: map<string, VRow>, v: map<string, VRow>, v1: map<string, VRow>,
                  front: seq<Offer>, o: Offer, all: seq<Offer>, handled: nat, filled: bool, dirty: bool,
                  filled1: bool, dirty1: bool, s: int)
    requires leaves > 0 && all == front + [o] && LocalSoFar(me, v0, v, front, handled, filled, dirty)
    requires dirty1 <==> dirty || !EarlyFails(o, true)
    requires filled1 == (filled || Succeeds(o))
    requires if Succeeds(o)
             then var id := IdOf(o.doc).value; v1 == v[id := StoredRow(e, leaves, At(v, id), id, o.doc, me, s)]
             else v1 == v
    ensures LocalSoFar(me, v0, v1, all, if Succeeds(o) then handled + 1 else handled, filled1, dirty1)
  {
    hide StoredRow, HoldsLast;
    OfferAppended(front, o, all);
    if Succeeds(o) {
      HoldsStep(e, leaves, me, v0, v, front, o, all, s);
    } else {
      HoldsSkip(me, v0, v, front, o, all);
    }
    assert (exists j :: 0 <= j < |all| && !EarlyFails(all[j], true)) <==>
           (exists j :: 0 <= j < |front| && !EarlyFails(front[j], true)) || !EarlyFails(o, true) by {
      if !EarlyFails(o, true) { assert !EarlyFails(all[|front|], true); }
      if j :| 0 <= j < |front| && !EarlyFails(front[j], true) { assert !EarlyFails(all[j], true); }
    }
  }

  lemma ConsumedStep(e: Env, leaves: nat, d0: Db, h0: History, d: Db, h: History, d1: Db, h1: History,
                     front: seq<Offer>, o: Offer, all: seq<Offer>, policy: Policy, ok: bool, handled: nat,
                     filled: bool, dirty: bool, filled1: bool, dirty1: bool)
    requires leaves > 0 && all == front + [o]
    requires ConsumedSoFar(e, leaves, d0, h0, d, h, front, policy, handled, filled, dirty)
    requires ConsumeOne(e, leaves, policy, Consumed(d.vertex, dirty, filled, 0), o)
          == Consumed(d1.vertex, dirty1, filled1, if ok then 1 else 0)
    requires ok ==> !EarlyFails(o, false)
    requires d1.seqs == if ok then Noted(d.seqs, VersionOf(o.doc).value) else d.seqs
    requires (ok ==> !Accepts(VersionsOf(d.vertex), OfferedDoc(o.doc), policy)) ==> QuietDb(d, d1) && h1.log == h.log
    ensures ConsumedSoFar(e, leaves, d0, h0, d1, h1, all, policy, handled + (if ok then 1 else 0), filled1, dirty1)
  {
    hide QuietDb, Accepts, ConsumeOne, ConsumeFrom, MarksLeft, EarlyFails, Noted, HandledAt;
    ConsumeAppend(e, leaves, policy, Consumed(d0.vertex, false, false, 0), front, o, all);
    ConsumeOneShift(e, leaves, policy, Consumed(d.vertex, dirty, filled, handled),
        Consumed(d.vertex, dirty, filled, 0), o);
    OfferAppended(front, o, all);
    ConsumedMarks(e, leaves, d0, h0, d, h, d1, front, o, all, policy, ok, handled, filled, dirty);
    if NoneAccepted(VersionsOf(d0.vertex), Arrivals(all), policy) {
      forall a | a in Arrivals(front) ensures !Accepts(VersionsOf(d0.vertex), a, policy) { assert a in Arrivals(all); }
      QuietVertex(d0, d);
      Formed(o);
      if ok { assert OfferedDoc(o.doc) in Arrivals(all); }
      QuietTrans(d0, d, d1);
      ConsumeOneQuiet(e, leaves, policy, Consumed(d.vertex, dirty, filled, 0), o);
    }
  }

  lemma Formed(o: Offer)
    ensures !EarlyFails(o, false) ==> IdOf(o.doc).Some? && VersionOf(o.doc).Some?
  {
  }

  lemma ConsumeOneQuiet(e: Env, leaves: nat, policy: Policy, c: Consumed, o: Offer)
    requires leaves > 0 && (!EarlyFails(o, false) ==> !Accepts(VersionsOf(c.vertex), OfferedDoc(o.doc), policy))
    ensures ConsumeOne(e, leaves, policy, c, o).took == c.took
  {
    hide StoredRow, StoredDoc, PlaceOf, Accepts, Refused, EarlyFails;
  }

  lemma ConsumedMarks(e: Env, leaves: nat, d0: Db, h0: History, d: Db, h: History, d1: Db, front: seq<Offer>,
                      o: Offer, all: seq<Offer>, policy: Policy, ok: bool, handled: nat, filled: bool, dirty: bool)
    requires leaves > 0 && all == front + [o]
    requires ConsumedSoFar(e, leaves, d0, h0, d, h, front, policy, handled, filled, dirty)
    requires ConsumeOne(e, leaves, policy, Consumed(d.vertex, dirty, filled, 0), o).handled == if ok then 1 else 0
    requires ok ==> !EarlyFails(o, false)
    requires d1.seqs == if ok then Noted(d.seqs, VersionOf(o.doc).value) else d.seqs
    ensures MarksLeft(VersionsOf(d0.vertex), d0.seqs, d1.seqs, all, policy)
  {
    hide QuietDb, Accepts, ConsumeOne, ConsumeFrom, MarksLeft, EarlyFails, Noted, HandledAt, NoneAccepted;
    Formed(o);
    ConsumedVersions(e, leaves, policy, d0.vertex, front);
    ConsumeOneHandled(e, leaves, policy, Consumed(d.vertex, dirty, filled, 0), o);
    if NoneAccepted(VersionsOf(d0.vertex), Arrivals(front), policy) { QuietVertex(d0, d); }
    MarksStep(VersionsOf(d0.vertex), d0.seqs, d.seqs, d1.seqs, front, o, all, policy, ok);
  }

  lemma QuietVertex(a: Db, b: Db)
    requires QuietDb(a, b)
    ensures a.vertex == b.vertex
  {
  }

  // ── batches of chunks ────────────────────────────────────────────────────────

  /** Does a chunk abort?  A local one when every document that took a seq failed; a consumed one
      when a placement took a seq and none kept it.  The commit then finds the allocator dirty with
      an empty cache. */
  predicate Aborts(e: Env, leaves: nat, stampRev: bool, policy: Policy, v: map<string, VRow>, chunk: seq<Offer>)
    requires leaves > 0
  {
    if stampRev then ChunkAborts(chunk)
    else var c := ConsumeAll(e, leaves, policy, v, chunk); c.took && !c.kept
  }

  /** Where the first aborting chunk of at most `n` documents starts; what follows is not reached. */
  function StopAt(e: Env, leaves: nat, stampRev: bool, policy: Policy, v: map<string, VRow>, offers: seq<Offer>, n: nat)
    : (r: Option<nat>)
    requires leaves > 0 && n > 0
    ensures r.Some? ==> r.value < |offers|
    decreases |offers|
  {
    if offers == [] then None
    else
      var chunk := if |offers| <= n then offers else offers[..n];
      if Aborts(e, leaves, stampRev, policy, v, chunk) then Some(0)
      else if |offers| <= n then None
      else
        var v1 := if stampRev then v else ConsumeAll(e, leaves, policy, v, chunk).vertex;
        Later(n, StopAt(e, leaves, stampRev, policy, v1, offers[n..], n))
  }

  function Later(p: nat, r: Option<nat>): Option<nat> { if r.Some? then Some(p + r.value) else None }

  /** The documents of the chunks that committed. */
  function Reached(e: Env, leaves: nat, stampRev: bool, policy: Policy, v: map<string, VRow>, offers: seq<Offer>,
                   n: nat)
    : seq<Offer>
    requires leaves > 0 && n > 0
  {
    var stop := StopAt(e, leaves, stampRev, policy, v, offers, n);
    if stop.Some? then offers[..stop.value] else offers
  }

  lemma StopSplit(e: Env, leaves: nat, stampRev: bool, policy: Policy, v: map<string, VRow>, offers: seq<Offer>, n: nat,
                  chunk: seq<Offer>, rest: seq<Offer>)
    requires leaves > 0 && n > 0 && offers == chunk + rest && chunk != []
    requires |chunk| == n || (rest == [] && |chunk| < n)
    ensures var v1 := if stampRev then v else ConsumeAll(e, leaves, policy, v, chunk).vertex;
            StopAt(e, leaves, stampRev, policy, v, offers, n) ==
            if Aborts(e, leaves, stampRev, policy, v, chunk) then Some(0)
            else Later(|chunk|, StopAt(e, leaves, stampRev, policy, v1, rest, n))
  {
    hide Aborts, ConsumeAll;
    if rest == [] {
      assert offers == chunk;
    } else {
      assert offers[..n] == chunk && offers[n..] == rest;
    }
  }

  lemma {:induction false} SuccessesConcat(front: seq<Offer>, chunk: seq<Offer>)
    ensures Successes(front + chunk) == Successes(front) + Successes(chunk)
    decreases |chunk|
  {
    if chunk == [] {
      assert front + chunk == front;
    } else {
      var c, o := chunk[..|chunk| - 1], chunk[|chunk| - 1];
      SuccessesConcat(front, c);
      assert (front + chunk)[..|front + chunk| - 1] == front + c;
    }
  }

  lemma {:induction false} ArrivalsConcat(front: seq<Offer>, chunk: seq<Offer>)
    ensures Arrivals(front + chunk) == Arrivals(front) + Arrivals(chunk)
    decreases |chunk|
  {
    if chunk == [] {
      assert front + chunk == front;
    } else {
      var c, o := chunk[..|chunk| - 1], chunk[|chunk| - 1];
      ArrivalsConcat(front, c);
      assert (front + chunk)[..|front + chunk| - 1] == front + c;
    }
  }

  lemma {:induction false} LastPutConcat(front: seq<Offer>, chunk: seq<Offer>, id: string)
    ensures LastPut(front + chunk, id) == if LastPut(chunk, id).Some? then LastPut(chunk, id) else LastPut(front, id)
    decreases |chunk|
  {
    if chunk == [] {
      assert front + chunk == front;
    } else {
      var c := chunk[..|chunk| - 1];
      LastPutConcat(front, c, id);
      assert (front + chunk)[..|front + chunk| - 1] == front + c;
    }
  }

  lemma HoldsConcat(me: string, v0: map<string, VRow>, v1: map<string, VRow>, v2: map<string, VRow>,
                    front: seq<Offer>, chunk: seq<Offer>, all: seq<Offer>)
    requires all == front + chunk
    requires forall id :: HoldsLast(v0, v1, front, id, me)
    requires forall id :: HoldsLast(v1, v2, chunk, id, me)
    ensures forall id :: HoldsLast(v0, v2, all, id, me)
  {
    hide Holds;
    forall id
      ensures HoldsLast(v0, v2, all, id, me)
    {
      LastPutConcat(front, chunk, id);
      assert HoldsLast(v0, v1, front, id, me) && HoldsLast(v1, v2, chunk, id, me);
    }
  }

  ghost predicate LocalBatch(me: string, v0: map<string, VRow>, v1: map<string, VRow>, done: seq<Offer>, handled: nat) {
    handled == |Successes(done)| && (forall id :: HoldsLast(v0, v1, done, id, me))
  }

  ghost predicate ConsumedBatch(e: Env, leaves: nat, d0: Db, h0: History, d1: Db, h1: History, done: seq<Offer>,
                                policy: Policy, handled: nat)
    requires leaves > 0
  {
    var c := ConsumeAll(e, leaves, policy, d0.vertex, done);
    d1.vertex == c.vertex && handled == c.handled &&
    MarksLeft(VersionsOf(d0.vertex), d0.seqs, d1.seqs, done, policy) &&
    (NoneAccepted(VersionsOf(d0.vertex), Arrivals(done), policy) ==> QuietDb(d0, d1) && h1.log == h0.log)
  }

  lemma LocalBatchStep(me: string, v0: map<string, VRow>, v1: map<string, VRow>, v2: map<string, VRow>,
                       done: seq<Offer>, chunk: seq<Offer>, all: seq<Offer>, handled: nat, more: nat)
    requires all == done + chunk && LocalBatch(me, v0, v1, done, handled) && LocalBatch(me, v1, v2, chunk, more)
    ensures LocalBatch(me, v0, v2, all, handled + more)
  {
    hide HoldsLast;
    SuccessesConcat(done, chunk);
    HoldsConcat(me, v0, v1, v2, done, chunk, all);
  }

  lemma ConsumedBatchStep(e: Env, leaves: nat, d0: Db, h0: History, d1: Db, h1: History, d2: Db, h2: History,
                          done: seq<Offer>, chunk: seq<Offer>, all: seq<Offer>, policy: Policy, handled: nat, more: nat)
    requires leaves > 0 && all == done + chunk
    requires ConsumedBatch(e, leaves, d0, h0, d1, h1, done, policy, handled)
    requires ConsumedBatch(e, leaves, d1, h1, d2, h2, chunk, policy, more)
    ensures ConsumedBatch(e, leaves, d0, h0, d2, h2, all, policy, handled + more)
  {
    hide QuietDb, Accepts, ConsumeAll, MarksLeft;
    ConsumeConcat(e, leaves, policy, d0.vertex, done, chunk, all);
    ConsumedVersions(e, leaves, policy, d0.vertex, done);
    ArrivalsConcat(done, chunk);
    if NoneAccepted(VersionsOf(d0.vertex), Arrivals(done), policy) { QuietVertex(d0, d1); }
    MarksConcat(VersionsOf(d0.vertex), VersionsOf(d1.vertex), d0.seqs, d1.seqs, d2.seqs, done, chunk, all, policy);
    if NoneAccepted(VersionsOf(d0.vertex), Arrivals(all), policy) {
      forall a | a in Arrivals(done) ensures !Accepts(VersionsOf(d0.vertex), a, policy) { assert a in Arrivals(all); }
      forall a | a in Arrivals(chunk) ensures !Accepts(VersionsOf(d1.vertex), a, policy) { assert a in Arrivals(all); }
      QuietTrans(d0, d1, d2);
    }
  }

  /** What the documents `done` left behind. */
  ghost predicate BatchLeft(e: Env, leaves: nat, me: string, d0: Db, h0: History, d1: Db, h1: History, done: seq<Offer>,
                            stampRev: bool, policy: Policy, handled: nat)
    requires leaves > 0
  {
    if stampRev then LocalBatch(me, d0.vertex, d1.vertex, done, handled)
    else ConsumedBatch(e, leaves, d0, h0, d1, h1, done, policy, handled)
  }

  /** What one chunk did. */
  ghost predicate ChunkDone(e: Env, leaves: nat, me: string, d0: Db, h0: History, d1: Db, h1: History,
                            chunk: seq<Offer>, stampRev: bool, policy: Policy, handled: nat, raised: bool)
    requires leaves > 0
  {
    SameLosses(h0, h1, stampRev || AllForeign(chunk, me)) &&
    (raised <==> Aborts(e, leaves, stampRev, policy, d0.vertex, chunk)) &&
    (raised ==> d1 == d0 && h1 == h0) &&
    (!raised ==> BatchLeft(e, leaves, me, d0, h0, d1, h1, chunk, stampRev, policy, handled))
  }

  /** The commit settles a chunk: it fails exactly when the allocator is dirty and empty. */
  lemma ChunkEnd(e: Env, leaves: nat, me: string, d0: Db, h0: History, d1: Db, h1: History, d2: Db, h2: History,
                 offers: seq<Offer>, stampRev: bool, policy: Policy, handled: nat, filled: bool, dirty: bool)
    requires leaves > 0 && SameLosses(h0, h1, stampRev || AllForeign(offers, me))
    requires stampRev ==> LocalSoFar(me, d0.vertex, d1.vertex, offers[..|offers|], handled, filled, dirty)
    requires !stampRev ==> ConsumedSoFar(e, leaves, d0, h0, d1, h1, offers[..|offers|], policy, handled, filled, dirty)
    requires if dirty && !filled then h2 == h0 && d2 == d0
             else h2 == h1 && d2 == d1.(seqs := d2.seqs) && MarksRise(d1.seqs, d2.seqs) && (!dirty ==> d2 == d1)
    ensures ChunkDone(e, leaves, me, d0, h0, d2, h2, offers, stampRev, policy, handled, dirty && !filled)
  {
    hide QuietDb, AllForeign, HoldsLast, NoneAccepted, MarksLeft, MarksRise, ConsumeAll;
    assert offers[..|offers|] == offers;
    QuietSeqs(d0, d1, d2);
    if !stampRev && !(dirty && !filled) {
      MarksFlushed(VersionsOf(d0.vertex), d0.seqs, d1.seqs, d2.seqs, offers, policy);
    }
  }

  lemma QuietSeqs(d0: Db, d1: Db, d2: Db)
    ensures QuietDb(d0, d1) && d2 == d1.(seqs := d2.seqs) ==> QuietDb(d0, d2)
  {
  }

  /** What the chunks of the first `p` documents did, and that the rest decides where it stops. */
  ghost predicate BatchDone(e: Env, leaves: nat, me: string, d0: Db, h0: History, d1: Db, h1: History,
                            offers: seq<Offer>, p: nat, n: nat, stampRev: bool, policy: Policy, handled: nat)
    requires leaves > 0 && p <= |offers| && n > 0
  {
    SameLosses(h0, h1, stampRev || AllForeign(offers, me)) &&
    BatchLeft(e, leaves, me, d0, h0, d1, h1, offers[..p], stampRev, policy, handled) &&
    StopAt(e, leaves, stampRev, policy, d0.vertex, offers, n) ==
      Later(p, StopAt(e, leaves, stampRev, policy, if stampRev then d0.vertex else d1.vertex, offers[p..], n))
  }

  lemma BatchStart(e: Env, leaves: nat, me: string, d: Db, h: History, offers: seq<Offer>, n: nat, stampRev: bool,
                   policy: Policy)
    requires leaves > 0 && n > 0
    ensures BatchDone(e, leaves, me, d, h, d, h, offers, 0, n, stampRev, policy, 0)
  {
    hide QuietDb, StopAt;
    assert offers[0..] == offers && offers[..0] == [];
    QuietRefl(d);
    MarksStart(VersionsOf(d.vertex), d.seqs, policy);
  }

  lemma BatchLeftStep(e: Env, leaves: nat, me: string, d0: Db, h0: History, d1: Db, h1: History, d2: Db, h2: History,
                      done: seq<Offer>, chunk: seq<Offer>, all: seq<Offer>, stampRev: bool, policy: Policy,
                      handled: nat, more: nat)
    requires leaves > 0 && all == done + chunk
    requires BatchLeft(e, leaves, me, d0, h0, d1, h1, done, stampRev, policy, handled)
    requires BatchLeft(e, leaves, me, d1, h1, d2, h2, chunk, stampRev, policy, more)
    ensures BatchLeft(e, leaves, me, d0, h0, d2, h2, all, stampRev, policy, handled + more)
    ensures !stampRev ==> d2.vertex == ConsumeAll(e, leaves, policy, d1.vertex, chunk).vertex
  {
    hide LocalBatch, ConsumeAll, QuietDb, NoneAccepted, MarksLeft;
    if stampRev {
      LocalBatchStep(me, d0.vertex, d1.vertex, d2.vertex, done, chunk, all, handled, more);
    } else {
      ConsumedBatchStep(e, leaves, d0, h0, d1, h1, d2, h2, done, chunk, all, policy, handled, more);
    }
  }

  lemma BatchStep(e: Env, leaves: nat, me: string, d0: Db, h0: History, d1: Db, h1: History, d2: Db, h2: History,
                  offers: seq<Offer>, p: nat, q: nat, n: nat, stampRev: bool, policy: Policy, handled: nat, more: nat,
                  raised: bool)
    requires leaves > 0 && p < q <= |offers| && n > 0 && (q - p == n || (q == |offers| && q - p < n))
    requires BatchDone(e, leaves, me, d0, h0, d1, h1, offers, p, n, stampRev, policy, handled)
    requires ChunkDone(e, leaves, me, d1, h1, d2, h2, offers[p..q], stampRev, policy, more, raised)
    ensures SameLosses(h0, h2, stampRev || AllForeign(offers, me))
    ensures raised ==> BatchOver(e, leaves, me, d0, h0, d2, h2, offers, n, stampRev, policy, handled, true)
    ensures !raised ==> BatchDone(e, leaves, me, d0, h0, d2, h2, offers, q, n, stampRev, policy, handled + more)
  {
    hide SameLosses, AllForeign, Aborts, ChunkAborts, BatchLeft, StopAt, ConsumeAll;
    var chunk, rest, after := offers[p..q], offers[p..], offers[q..];
    SliceForeign(offers, p, q, me);
    SameLossesTrans(h0, h1, h2, stampRev || AllForeign(offers, me), stampRev || AllForeign(chunk, me));
    assert rest == chunk + after && offers[..q] == offers[..p] + chunk;
    if stampRev { StopAnyTable(e, leaves, policy, d0.vertex, d1.vertex, chunk); }
    StopSplit(e, leaves, stampRev, policy, if stampRev then d0.vertex else d1.vertex, rest, n, chunk, after);
    if !raised {
      BatchLeftStep(e, leaves, me, d0, h0, d1, h1, d2, h2, offers[..p], chunk, offers[..q], stampRev, policy,
          handled, more);
    }
  }

  lemma StopAnyTable(e: Env, leaves: nat, policy: Policy, v: map<string, VRow>, w: map<string, VRow>, chunk: seq<Offer>)
    requires leaves > 0
    ensures Aborts(e, leaves, true, policy, v, chunk) <==> Aborts(e, leaves, true, policy, w, chunk)
  {
  }

  /** How a bulk put ends: it raises exactly when a chunk aborts, and what is stored then is what
      the documents before that chunk left. */
  ghost predicate BatchOver(e: Env, leaves: nat, me: string, d0: Db, h0: History, d1: Db, h1: History,
                            offers: seq<Offer>, n: nat, stampRev: bool, policy: Policy, handled: nat, raised: bool)
    requires leaves > 0 && n > 0
  {
    SameLosses(h0, h1, stampRev || AllForeign(offers, me)) &&
    (raised <==> StopAt(e, leaves, stampRev, policy, d0.vertex, offers, n).Some?) &&
    BatchLeft(e, leaves, me, d0, h0, d1, h1, Reached(e, leaves, stampRev, policy, d0.vertex, offers, n), stampRev,
        policy, handled)
  }

  lemma BatchEnd(e: Env, leaves: nat, me: string, d0: Db, h0: History, d1: Db, h1: History, offers: seq<Offer>, n: nat,
                 stampRev: bool, policy: Policy, handled: nat)
    requires leaves > 0 && n > 0 && BatchDone(e, leaves, me, d0, h0, d1, h1, offers, |offers|, n, stampRev, policy,
        handled)
    ensures BatchOver(e, leaves, me, d0, h0, d1, h1, offers, n, stampRev, policy, handled, false)
  {
    hide SameLosses, AllForeign, BatchLeft;
    assert offers[|offers|..] == [] && offers[..|offers|] == offers;
  }

  lemma {:induction false} NothingFailsNeverStops(e: Env, leaves: nat, policy: Policy, v: map<string, VRow>,
      offers: seq<Offer>, n: nat)
    requires leaves > 0 && n > 0 && forall o :: o in offers ==> o.fault.NoFault?
    ensures StopAt(e, leaves, false, policy, v, offers, n) == None
    decreases |offers|
  {
    hide ConsumeAll;
    if offers != [] {
      var cut := if |offers| <= n then |offers| else n;
      var chunk, rest := offers[..cut], offers[cut..];
      assert offers == chunk + rest;
      NothingFailsNothingLost(e, leaves, policy, v, chunk);
      NothingFailsNeverStops(e, leaves, policy, ConsumeAll(e, leaves, policy, v, chunk).vertex, rest, n);
      StopSplit(e, leaves, false, policy, v, offers, n, chunk, rest);
    }
  }

  /** A consumed batch on which nothing fails never raises, counts every document, and leaves every
      version it offered, however it is chunked. */
  lemma WholeBatchHandled(e: Env, leaves: nat, me: string, d0: Db, h0: History, d1: Db, h1: History, offers: seq<Offer>,
                          n: nat, policy: Policy, handled: nat, raised: bool)
    requires leaves > 0 && n > 0 && policy != Refuse
    requires forall o :: o in offers ==> o.fault.NoFault? && !EarlyFails(o, false)
    requires BatchOver(e, leaves, me, d0, h0, d1, h1, offers, n, false, policy, handled, raised)
    ensures !raised && handled == |offers|
    ensures VersionsOf(d1.vertex) == ArriveAll(VersionsOf(d0.vertex), Arrivals(offers), policy)
  {
    hide EarlyFails, ConsumeAll, StopAt, SameLosses, QuietDb, NoneAccepted, MarksLeft;
    NothingFailsNeverStops(e, leaves, policy, d0.vertex, offers, n);
    NothingFailsNothingLost(e, leaves, policy, d0.vertex, offers);
    CountIsTheGuard(e, leaves, policy, d0.vertex, offers);
  }

  /** A document json.dumps refuses: it has an id, so it takes a seq, and fails in the row write. */
  function Unserializable(id: string): Offer { Offer(map[Id := Str(id)], AfterVersion) }
  function Serializable(id: string): Offer { Offer(map[Id := Str(id)], NoFault) }

  /** Alone in its chunk such a document aborts the batch; beside one that succeeds it does not. */
  lemma BadDocumentAlone(e: Env, leaves: nat, policy: Policy, v: map<string, VRow>)
    requires leaves > 0
    ensures var both := [Unserializable("x"), Serializable("y")];
            StopAt(e, leaves, true, policy, v, both, 1) == Some(0) &&
                StopAt(e, leaves, true, policy, v, both, 2) == None &&
            LastPut(both, "y") == Some(Serializable("y").doc) && LastPut([], "y") == None && |Successes(both)| == 1
  {
    hide EarlyFails, Succeeds, Successes, ChunkAborts, LastPut, StopAt, Unserializable, Serializable;
    NothingPut("y");
    NothingStops(e, leaves, policy, v, 2);
    var bad, good := Unserializable("x"), Serializable("y");
    var both := [bad, good];
    assert both == [bad] + [good];
    BadFails(bad);
    GoodSucceeds(good);
    AloneAborts(bad);
    OfferAppended([bad], good, both);
    OfferAppended([], bad, [bad]);
    AnyCommits(both);
    StopSplit(e, leaves, true, policy, v, both, 1, [bad], [good]);
    assert both == both + [];
    StopSplit(e, leaves, true, policy, v, both, 2, both, []);
  }

  lemma NothingPut(id: string)
    ensures Successes([]) == [] && LastPut([], id) == None
  {
  }

  lemma NothingStops(e: Env, leaves: nat, policy: Policy, v: map<string, VRow>, n: nat)
    requires leaves > 0 && n > 0
    ensures StopAt(e, leaves, true, policy, v, [], n) == None
  {
  }

  lemma BadFails(bad: Offer)
    requires bad == Unserializable("x")
    ensures !EarlyFails(bad, true) && !Succeeds(bad)
  {
    assert Get(bad.doc, Id) == Str("x") && "x" != "";
  }

  lemma GoodSucceeds(good: Offer)
    requires good == Serializable("y")
    ensures Succeeds(good) && IdOf(good.doc) == Some("y")
  {
    assert Get(good.doc, Id) == Str("y") && "y" != "";
  }

  lemma AloneAborts(o: Offer)
    requires !EarlyFails(o, true) && !Succeeds(o)
    ensures ChunkAborts([o])
  {
    hide EarlyFails, Succeeds;
    assert !EarlyFails([o][0], true);
    OfferAppended([], o, [o]);
    assert Successes([]) == [];
  }

  lemma AnyCommits(offers: seq<Offer>)
    requires Successes(offers) != []
    ensures !ChunkAborts(offers)
  {
  }

  // ── single put ───────────────────────────────────────────────────────────────

  datatype PutResult = Raised | Stored(took: Option<int>, sn: int)

  /** Does a local put of `doc` over `prev` replace content? */
  predicate Versioned(prev: Option<VRow>, doc: Doc, newVersion: bool) {
    (Truthy(Get(doc, ContentRef)) || newVersion) && prev.Some? &&
    (newVersion || (Truthy(prev.value.contentRef) && prev.value.contentRef != Get(doc, ContentRef)))
  }

  /** The snapshot id is derived from the whole replaced document; none for an empty document. */
  function SnapshotId(e: Env, id: string, prev: VRow): Option<string> {
    if prev.doc == map[] || e.snapId(id, prev.doc) == id then None else Some(e.snapId(id, prev.doc))
  }

  function SnapshotDoc(id: string, snap: string, prev: VRow): Doc {
    prev.doc[Id := Str(snap)][RootId := OrElse(prev.rootId, Str(id))][StateKey := Str("archived")]
  }

  /** The vertex table after one put: the snapshot if one is due and absent, then the row. */
  ghost predicate PutEffect(e: Env, leaves: nat, me: string, v0: map<string, VRow>, v1: map<string, VRow>,
                            id: string, doc: Doc, stampRev: bool, newVersion: bool, took: Option<int>, s: int)
    requires leaves > 0
  {
    exists kept, d, org ::
      && Prepared(e, leaves, me, v0, kept, id, doc, d, stampRev, newVersion, took)
      && (if stampRev then org == me else VersionOf(doc) == Some(Version(org, s)))
      && v1 == kept[id := StoredRow(e, leaves, At(v0, id), id, d, org, s)]
  }

  // ── edges ────────────────────────────────────────────────────────────────────

  predicate EdgeFormed(o: EdgeOffer, stampRev: bool) {
    o.src != "" && o.dst != "" && o.rel != "" &&
    (stampRev || (o.version.Some? && o.version.value.origin != ""))
  }

  function OfferedEdge(o: EdgeOffer): Offered<EdgeKey>
    requires o.version.Some?
  {
    Offered(EdgeKey(o.src, o.dst, o.rel), o.version.value)
  }

  /** A consumed edge replaces the row here exactly when its version wins, and then whole. */
  ghost predicate ConsumedEdge(e: Env, leaves: nat, g0: map<EdgeKey, ERow>, g1: map<EdgeKey, ERow>, o: EdgeOffer)
    requires leaves > 0 && o.version.Some?
  {
    var k := EdgeKey(o.src, o.dst, o.rel);
    g1 == if Accepts(EdgeVersionsOf(g0), OfferedEdge(o), KeepLocal)
          then g0[k := StoredEdge(e, leaves, k, o.props, o.version.value.origin, o.version.value.sn)]
          else g0
  }

  /** Nothing moved but the observed high-water marks and the conflict counters. */
  ghost predicate QuietDb(d0: Db, d1: Db) {
    d1 == d0.(seqs := d1.seqs, counter := d1.counter) &&
    (forall n: Counter :: !n.family.Conflict? ==> Count(d1.counter, n) == Count(d0.counter, n))
  }

  /** The store counts one more pair of edge versions that do not compare, or none; no other conflict. */
  ghost predicate Clashed(c0: map<Counter, int>, c1: map<Counter, int>, clash: bool) {
    forall arg :: Count(c1, Counter(Conflict, arg)) ==
      Count(c0, Counter(Conflict, arg)) + if clash && arg == "unordered_edge" then 1 else 0
  }

  lemma ClashedNot(c: map<Counter, int>)
    ensures Clashed(c, c, false)
  {
  }

  lemma OneClash(c: map<Counter, int>)
    ensures Clashed(c, Bump(c, Counter(Conflict, "unordered_edge"), 1), true)
  {
  }

  lemma NoClash(c: map<Counter, int>, k: EdgeKey, prior: Option<ERow>, row: ERow)
    ensures Clashed(c, WrittenEdgeCounters(c, k, prior, row), false)
  {
  }

  ghost predicate Placed(e: Env, me: string, leaves: nat, g0: map<EdgeKey, ERow>, g1: map<EdgeKey, ERow>,
                         place: Option<EdgeKey>, cache: Option<int>)
    requires leaves > 0
  {
    if place.None? then g1 == g0
    else cache.Some? &&
         g1 == g0[place.value := StoredEdge(e, leaves, place.value, PlaceProps(place.value.dst), me, cache.value)]
  }

  /** The containment edge a stored document asks for is there, as this observer authors it. */
  ghost predicate PlacedHere(e: Env, leaves: nat, me: string, v: map<string, VRow>, g: map<EdgeKey, ERow>, id: string)
    requires leaves > 0
  {
    id in v && var place := PlaceOf(e, v, v[id].doc);
    place.Some? ==> place.value in g &&
                    g[place.value] == StoredEdge(e, leaves, place.value, PlaceProps(place.value.dst), me,
                        g[place.value].sn)
  }

  lemma PlacedMeans(e: Env, leaves: nat, me: string, v: map<string, VRow>, g0: map<EdgeKey, ERow>,
                    g: map<EdgeKey, ERow>, prev: Option<VRow>, id: string, doc: Doc, org: string, s: int,
                    cache: Option<int>)
    requires leaves > 0 && id in v && v[id] == StoredRow(e, leaves, prev, id, doc, org, s)
    requires Placed(e, me, leaves, g0, g, PlaceOf(e, v, StoredDoc(prev, doc, org, s)), cache)
    ensures PlacedHere(e, leaves, me, v, g, id)
  {
    hide StoredDoc, PlaceOf;
  }

  datatype EdgeItem = EdgeItem(offer: EdgeOffer, fault: Fault)

  predicate EdgeEarlyFails(it: EdgeItem, stampRev: bool) { it.fault.Early? || !EdgeFormed(it.offer, stampRev) }
  predicate EdgeSucceeds(it: EdgeItem) { !EdgeEarlyFails(it, true) && it.fault.NoFault? }

  function KeyOf(o: EdgeOffer): EdgeKey { EdgeKey(o.src, o.dst, o.rel) }

  /** How many edges of a chunk are handled, and the last properties added for a key. */
  function EdgeSuccesses(items: seq<EdgeItem>): nat {
    if items == [] then 0
    else EdgeSuccesses(items[..|items| - 1]) + if EdgeSucceeds(items[|items| - 1]) then 1 else 0
  }

  function LastAdded(items: seq<EdgeItem>, k: EdgeKey): Option<Props> {
    if items == [] then None
    else
      var last := items[|items| - 1];
      if EdgeSucceeds(last) && KeyOf(last.offer) == k then Some(last.offer.props)
      else LastAdded(items[..|items| - 1], k)
  }

  ghost predicate AddedLast(e: Env, leaves: nat, me: string, g0: map<EdgeKey, ERow>, g1: map<EdgeKey, ERow>,
                            items: seq<EdgeItem>, k: EdgeKey)
    requires leaves > 0
  {
    var last := LastAdded(items, k);
    if last.None? then At(g1, k) == At(g0, k)
    else k in g1 && g1[k] == StoredEdge(e, leaves, k, last.value, me, g1[k].sn)
  }

  function EdgeArrivals(items: seq<EdgeItem>): seq<Offered<EdgeKey>> {
    if items == [] then []
    else
      var last := items[|items| - 1].offer;
      EdgeArrivals(items[..|items| - 1]) + if EdgeFormed(last, false) then [OfferedEdge(last)] else []
  }

  /** A consume transaction of edges: the table and how many edges were handled. */
  datatype ConsumedEdges = ConsumedEdges(edge: map<EdgeKey, ERow>, handled: nat)

  function ConsumeEdge(e: Env, leaves: nat, c: ConsumedEdges, it: EdgeItem): ConsumedEdges
    requires leaves > 0
  {
    if EdgeEarlyFails(it, false) then c
    else if !Accepts(EdgeVersionsOf(c.edge), OfferedEdge(it.offer), KeepLocal) then c.(handled := c.handled + 1)
    else if !it.fault.NoFault? then c
    else
      var k, v := KeyOf(it.offer), it.offer.version.value;
      ConsumedEdges(c.edge[k := StoredEdge(e, leaves, k, it.offer.props, v.origin, v.sn)], c.handled + 1)
  }

  function ConsumeEdges(e: Env, leaves: nat, g0: map<EdgeKey, ERow>, items: seq<EdgeItem>): ConsumedEdges
    requires leaves > 0
  {
    if items == [] then ConsumedEdges(g0, 0)
    else ConsumeEdge(e, leaves, ConsumeEdges(e, leaves, g0, items[..|items| - 1]), items[|items| - 1])
  }

  lemma ConsumeEdgeAppend(e: Env, leaves: nat, g0: map<EdgeKey, ERow>, front: seq<EdgeItem>, it: EdgeItem,
                          all: seq<EdgeItem>)
    requires leaves > 0 && all == front + [it]
    ensures ConsumeEdges(e, leaves, g0, all) == ConsumeEdge(e, leaves, ConsumeEdges(e, leaves, g0, front), it)
  {
    assert all[..|all| - 1] == front;
  }

  lemma ConsumeEdgeShift(e: Env, leaves: nat, g: map<EdgeKey, ERow>, n: nat, it: EdgeItem)
    requires leaves > 0
    ensures var r, s := ConsumeEdge(e, leaves, ConsumedEdges(g, n), it),
        ConsumeEdge(e, leaves, ConsumedEdges(g, 0), it);
            r.edge == s.edge && r.handled == n + s.handled && s.handled <= 1
  {
    hide StoredEdge, Accepts, EdgeEarlyFails;
  }

  /** The edges on which nothing fails. */
  function CleanEdges(items: seq<EdgeItem>): seq<EdgeItem> {
    if items == [] then []
    else
      var last := items[|items| - 1];
      CleanEdges(items[..|items| - 1]) + if last.fault.NoFault? then [last] else []
  }

  predicate EdgeHandledAt(vs: map<EdgeKey, Version>, it: EdgeItem) {
    !EdgeEarlyFails(it, false) && (Accepts(vs, OfferedEdge(it.offer), KeepLocal) ==> it.fault.NoFault?)
  }

  /** Every edge was handled against the versions the ones before it left. */
  ghost predicate EveryEdgeHandled(vs: map<EdgeKey, Version>, items: seq<EdgeItem>) {
    forall j :: 0 <= j < |items| ==>
      EdgeHandledAt(ArriveAll(vs, EdgeArrivals(CleanEdges(items[..j])), KeepLocal), items[j])
  }

  lemma ConsumeEdgeVersions(e: Env, leaves: nat, c: ConsumedEdges, it: EdgeItem)
    requires leaves > 0
    ensures var r := ConsumeEdge(e, leaves, c, it);
            EdgeVersionsOf(r.edge) == (if it.fault.NoFault? && EdgeFormed(it.offer, false)
                                       then Arrive(EdgeVersionsOf(c.edge), OfferedEdge(it.offer), KeepLocal)
                                       else EdgeVersionsOf(c.edge)) &&
            r.handled == c.handled + (if EdgeHandledAt(EdgeVersionsOf(c.edge), it) then 1 else 0)
  {
    hide CompareVersion;
  }

  /** The versions a chunk of edges leaves, what its count says, and that a full count misses nothing. */
  lemma {:induction false} EdgeCountIsTheGuard(e: Env, leaves: nat, g0: map<EdgeKey, ERow>, items: seq<EdgeItem>)
    requires leaves > 0
    ensures var c, vs := ConsumeEdges(e, leaves, g0, items), EdgeVersionsOf(g0);
            EdgeVersionsOf(c.edge) == ArriveAll(vs, EdgeArrivals(CleanEdges(items)), KeepLocal) &&
            c.handled <= |items| &&
            (c.handled == |items| <==> EveryEdgeHandled(vs, items)) &&
            (c.handled == |items| ==> EdgeVersionsOf(c.edge) == ArriveAll(vs, EdgeArrivals(items), KeepLocal))
    decreases |items|
  {
    hide ConsumeEdge, Accepts, EdgeFormed, EdgeHandledAt, EveryEdgeHandled, CleanEdges, EdgeArrivals, ArriveAll,
        EdgeVersionsOf;
    NoItems(EdgeVersionsOf(g0));
    if items != [] {
      var vs := EdgeVersionsOf(g0);
      var front, it := items[..|items| - 1], items[|items| - 1];
      assert items == front + [it];
      EdgeCountIsTheGuard(e, leaves, g0, front);
      var c := ConsumeEdges(e, leaves, g0, front);
      ConsumeEdgeVersions(e, leaves, c, it);
      EveryEdgeHandledAppend(vs, front, it, items);
      EdgesAppended(vs, front, it, items);
      EdgeHandledMeans(EdgeVersionsOf(c.edge), it);
    }
  }

  lemma NoItems(vs: map<EdgeKey, Version>)
    ensures ArriveAll(vs, EdgeArrivals([]), KeepLocal) == vs && CleanEdges([]) == [] && EveryEdgeHandled(vs, [])
  {
  }

  lemma EdgeHandledMeans(vs: map<EdgeKey, Version>, it: EdgeItem)
    ensures EdgeHandledAt(vs, it) ==> EdgeFormed(it.offer, false)
    ensures EdgeHandledAt(vs, it) && !it.fault.NoFault? ==> Arrive(vs, OfferedEdge(it.offer), KeepLocal) == vs
  {
    hide Accepts;
  }

  lemma EdgesAppended(vs: map<EdgeKey, Version>, front: seq<EdgeItem>, it: EdgeItem, all: seq<EdgeItem>)
    requires all == front + [it]
    ensures ArriveAll(vs, EdgeArrivals(all), KeepLocal)
        == EdgeArrived(ArriveAll(vs, EdgeArrivals(front), KeepLocal), it)
    ensures ArriveAll(vs, EdgeArrivals(CleanEdges(all)), KeepLocal) ==
            var mid := ArriveAll(vs, EdgeArrivals(CleanEdges(front)), KeepLocal);
            if it.fault.NoFault? then EdgeArrived(mid, it) else mid
  {
    hide Accepts, Arrive;
    hide EdgeArrived, EdgeArrivals, ArriveAll, EdgeFormed;
    assert all[..|all| - 1] == front && all[|all| - 1] == it;
    EdgeArriveStep(vs, front, it, all);
    assert CleanEdges(all) == CleanEdges(front) + if it.fault.NoFault? then [it] else [];
    if it.fault.NoFault? {
      EdgeArriveStep(vs, CleanEdges(front), it, CleanEdges(all));
    } else {
      assert CleanEdges(all) == CleanEdges(front);
    }
  }

  function EdgeArrived(vs: map<EdgeKey, Version>, it: EdgeItem): map<EdgeKey, Version> {
    if EdgeFormed(it.offer, false) then Arrive(vs, OfferedEdge(it.offer), KeepLocal) else vs
  }

  lemma EdgeArriveStep(vs: map<EdgeKey, Version>, front: seq<EdgeItem>, it: EdgeItem, all: seq<EdgeItem>)
    requires all == front + [it]
    ensures ArriveAll(vs, EdgeArrivals(all), KeepLocal)
        == EdgeArrived(ArriveAll(vs, EdgeArrivals(front), KeepLocal), it)
  {
    hide Accepts, Arrive;
    assert all[..|all| - 1] == front;
    if EdgeFormed(it.offer, false) {
      ArriveAppend(vs, EdgeArrivals(front), OfferedEdge(it.offer), KeepLocal);
    } else {
      assert EdgeArrivals(front) + [] == EdgeArrivals(front);
    }
  }

  lemma EveryEdgeHandledAppend(vs: map<EdgeKey, Version>, front: seq<EdgeItem>, it: EdgeItem, all: seq<EdgeItem>)
    requires all == front + [it]
    ensures EveryEdgeHandled(vs, all) <==>
            EveryEdgeHandled(vs, front) && EdgeHandledAt(ArriveAll(vs, EdgeArrivals(CleanEdges(front)), KeepLocal), it)
  {
    hide EdgeHandledAt;
    assert all[..|front|] == front && all[|front|] == it;
    assert forall j :: 0 <= j < |front| ==> all[..j] == front[..j] && all[j] == front[j];
    if EveryEdgeHandled(vs, all) {
      forall j | 0 <= j < |front|
        ensures EdgeHandledAt(ArriveAll(vs, EdgeArrivals(CleanEdges(front[..j])), KeepLocal), front[j])
      {
        assert EdgeHandledAt(ArriveAll(vs, EdgeArrivals(CleanEdges(all[..j])), KeepLocal), all[j]);
      }
      assert EdgeHandledAt(ArriveAll(vs, EdgeArrivals(CleanEdges(all[..|front|])), KeepLocal), all[|front|]);
    }
  }

  ghost predicate LocalEdges(e: Env, leaves: nat, me: string, g0: map<EdgeKey, ERow>, g1: map<EdgeKey, ERow>,
                             items: seq<EdgeItem>, handled: nat, filled: bool, dirty: bool)
    requires leaves > 0
  {
    (dirty <==> exists j :: 0 <= j < |items| && !EdgeEarlyFails(items[j], true)) &&
    (filled <==> EdgeSuccesses(items) > 0) &&
    handled == EdgeSuccesses(items) &&
    (forall k :: AddedLast(e, leaves, me, g0, g1, items, k))
  }

  lemma LocalEdgesStep(e: Env, leaves: nat, me: string, g0: map<EdgeKey, ERow>, g: map<EdgeKey, ERow>,
                       g1: map<EdgeKey, ERow>, front: seq<EdgeItem>, it: EdgeItem, all: seq<EdgeItem>, handled: nat,
                       filled: bool, dirty: bool, s: int)
    requires leaves > 0 && all == front + [it] && LocalEdges(e, leaves, me, g0, g, front, handled, filled, dirty)
    requires var k := KeyOf(it.offer);
             g1 == if EdgeSucceeds(it) then g[k := StoredEdge(e, leaves, k, it.offer.props, me, s)] else g
    ensures LocalEdges(e, leaves, me, g0, g1, all, handled + (if EdgeSucceeds(it) then 1 else 0),
                       filled || EdgeSucceeds(it), dirty || !EdgeEarlyFails(it, true))
  {
    assert all[..|all| - 1] == front;
    forall k
      ensures AddedLast(e, leaves, me, g0, g1, all, k)
    {
      assert AddedLast(e, leaves, me, g0, g, front, k);
    }
    assert !EdgeEarlyFails(it, true) ==> !EdgeEarlyFails(all[|front|], true);
    if j :| 0 <= j < |front| && !EdgeEarlyFails(front[j], true) { assert !EdgeEarlyFails(all[j], true); }
  }

  function Touching(g: map<EdgeKey, ERow>, node: string): set<EdgeKey> {
    set k | k in g && (k.src == node || k.dst == node)
  }

  lemma NamedOrigin(e: Env, me: string, leaves: nat, d: Db, h: History)
    requires Ok(e, me, leaves, d, h)
    ensures me != "" && leaves > 0
  {
  }

  lemma EchoFlag(me: string, d0: Db, h0: History, d1: Db, h1: History)
    requires h1.echo
    ensures Evolves(me, d0, h0, d1, h1)
  {
  }

  lemma SumStep<N>(a: multiset<N>, b: multiset<N>, c: multiset<N>)
    ensures (a + b) + c == a + (b + c)
  {
  }

  lemma EmptyOk(e: Env, me: string, leaves: nat)
    requires me != "" && leaves > 0
    ensures Ok(e, me, leaves, EMPTY_DB, NEW_HISTORY) && MarkOk(me, EMPTY_DB, NEW_HISTORY)
    ensures Evolves(me, EMPTY_DB, NEW_HISTORY, EMPTY_DB, NEW_HISTORY)
  {
    XorUnits(0, 0);
    forall i: nat ensures Rescan(e, EMPTY_DB, i) == 0 {}
    assert Census(e, EMPTY_DB) == multiset{};
  }
}
