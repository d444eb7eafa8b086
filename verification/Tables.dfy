/**
 The lattice store's tables and what the rows alone determine.

 A document is a dictionary; a row is a document with its hot columns; a database is the
 record of its tables.  Beside the tables stands, for every quantity the write path keeps
 incrementally, its definition from the rows: the leaf digests (Rescan), the counters
 (Census), the task sidecar (TaskOf) and the keyed index (PostingsOf).
 */
module Tables {
  import opened Folds

  // ── documents ────────────────────────────────────────────────────────────────

  datatype Value = Null | Str(s: string) | Int(i: int) | List(items: seq<Value>)

  /** Python truth of a JSON value. */
  predicate Truthy(v: Value) {
    match v
    case Null => false
    case Str(s) => s != ""
    case Int(i) => i != 0
    case List(items) => items != []
  }

  function OrElse(v: Value, w: Value): Value { if Truthy(v) then v else w }

  datatype Key =
    | Id | StateKey | CollectionId | ContentType | ContentRef | RootId | ParentId
    | OriginStamp | SeqStamp | CreatedTime | CreatedTimeOrigin
    | CitedFrom | Provenance
    | Status | Priority | Operator | TaskKey | ClaimedBy | ClaimedAt | NextRetryAt | CompletedAt
    | Lemmas | Calls | TrashedBy
    | Other(name: string)

  type Doc = map<Key, Value>

  function Get(d: Doc, k: Key): Value { if k in d then d[k] else Null }

  datatype Version = Version(origin: string, sn: int)

  /** The version a consumed document carries, if it carries one at all. */
  function VersionOf(d: Doc): Option<Version> {
    match (Get(d, OriginStamp), Get(d, SeqStamp))
    case (Str(o), Int(s)) => if o != "" then Some(Version(o, s)) else None
    case _ => None
  }

  // ── edges ────────────────────────────────────────────────────────────────────

  /** Stands for the 16-byte hash of (src, dst, label), which is taken to be injective. */
  datatype EdgeKey = EdgeKey(src: string, dst: string, rel: string)

  /** A property name: the four promoted columns, a name with a leading underscore, or any other. */
  datatype Prop = Force | Propagate | IsOrigin | OrderKey | Hidden(name: string) | Plain(name: string)

  type Props = map<Prop, Value>

  function PropOf(p: Props, k: Prop): Value { if k in p then p[k] else Null }

  datatype EdgeOffer = EdgeOffer(src: string, dst: string, rel: string, props: Props, version: Option<Version>)

  // ── rows ─────────────────────────────────────────────────────────────────────

  datatype VRow = VRow(ct: Value, contentRef: Value, rootId: Value,
                       origin: string, sn: int, leaf: nat, doc: Doc)

  datatype ERow = ERow(force: Value, propagate: Value, isOrigin: Value, orderKey: Value, blob: Props,
                       origin: string, sn: int, leaf: nat)

  datatype TaskRow = TaskRow(ct: string, status: string, priority: Value, operator: Value, taskKey: Value,
                             claimedBy: Value, claimedAt: Value, nextRetryAt: Value, completedAt: Value)

  datatype Posting = Posting(field: Key, value: string, ct: Option<string>)

  datatype SeqRow = SeqRow(last: int, isLocal: bool)

  /** A counter name: a prefix no other family shares, and the rest of the name. */
  datatype Family =
    | VertexTotal | EdgeTotal | EdgeLabel | CtOf | StateOf | Col | Missing | Rows | Vacated
    | TaskStatus | Conflict | Marker
  datatype Counter = Counter(family: Family, arg: string)

  datatype Db = Db(
    vertex: map<string, VRow>,
    edge: map<EdgeKey, ERow>,
    seqs: map<string, SeqRow>,
    counter: map<Counter, int>,
    digests: map<nat, bv64>,
    task: map<string, TaskRow>,
    listkey: map<string, multiset<Posting>>)    // the postings, grouped by artifact id

  const EMPTY_DB := Db(map[], map[], map[], map[], map[], map[], map[])

  /** What the store takes from outside itself: its hashes, its orders, str() and lower(). */
  datatype Env = Env(
    slot: string -> nat,                         // 64-bit hash of an id
    edgeSlot: EdgeKey -> nat,                    // 64-bit hash of an edge key
    rowHash: (string, int) -> bv64,              // hash of (id, seq)
    edgeHash: (EdgeKey, Props) -> bv64,          // hash of (edge key, canonical content)
    text: Value -> string,
    lower: string -> string,
    snapId: (string, Doc) -> string,             // id of the snapshot of a replaced document
    idBefore: (string, string) -> bool,          // the collation of ids
    keyBefore: (EdgeKey, EdgeKey) -> bool)       // the order of hashed edge keys

  // ── counters ─────────────────────────────────────────────────────────────────

  function Count(c: map<Counter, int>, n: Counter): int { if n in c then c[n] else 0 }

  function Bump(c: map<Counter, int>, name: Counter, delta: int): (r: map<Counter, int>)
    ensures forall n :: Count(r, n) == Count(c, n) + if n == name then delta else 0
  {
    if delta == 0 then c else c[name := Count(c, name) + delta]
  }

  /** One upsert per name of a dictionary of deltas. */
  function BumpAll(c: map<Counter, int>, ds: map<Counter, int>): (r: map<Counter, int>)
    ensures forall n :: Count(r, n) == Count(c, n) + Count(ds, n)
  {
    map n | n in c.Keys + ds.Keys :: Count(c, n) + Count(ds, n)
  }

  lemma BumpFirst(c: map<Counter, int>, ds: map<Counter, int>, n: Counter)
    requires n in ds && ds[n] != 0
    ensures BumpAll(Bump(c, n, ds[n]), ds - {n}) == BumpAll(c, ds)
  {
    var a, b := BumpAll(Bump(c, n, ds[n]), ds - {n}), BumpAll(c, ds);
    assert a.Keys == b.Keys;
    forall m | m in b ensures a[m] == b[m] { assert Count(a, m) == Count(b, m); }
  }

  lemma BumpNone(c: map<Counter, int>)
    ensures BumpAll(c, map[]) == c
  {
  }

  /** One seq of `origin` is given up: its row is superseded or removed. */
  function Vacate(c: map<Counter, int>, origin: string): map<Counter, int> {
    if origin == "" then c
    else Bump(Bump(c, Counter(Rows, origin), -1), Counter(Vacated, origin), 1)
  }

  predicate Live(doc: Doc) {
    Get(doc, StateKey) == Str("live") || Get(doc, StateKey) == Str("committed")
  }

  function One(n: Counter): multiset<Counter> { multiset{n} }

  function MissingNames(doc: Doc, field: Key, name: string): multiset<Counter> {
    if Truthy(Get(doc, field)) then multiset{}
    else One(Counter(Missing, name)) + if Live(doc) then One(Counter(Missing, name + ":committed")) else multiset{}
  }

  /** The counters a document is counted in, besides the totals. */
  function DocNames(e: Env, doc: Doc, ct: Value): multiset<Counter> {
    (if Truthy(ct) then One(Counter(CtOf, e.text(ct))) else multiset{}) +
    (if Truthy(Get(doc, StateKey)) then One(Counter(StateOf, e.text(Get(doc, StateKey)))) else multiset{}) +
    (if Truthy(Get(doc, CollectionId)) then
       One(Counter(Col, e.text(Get(doc, CollectionId)))) +
       (if Live(doc) then One(Counter(Col, e.text(Get(doc, CollectionId)) + ":committed")) else multiset{})
     else multiset{}) +
    MissingNames(doc, CitedFrom, "cited_from") +
    MissingNames(doc, Provenance, "provenance")
  }

  function OptNames(e: Env, doc: Option<Doc>, ct: Value): multiset<Counter> {
    if doc.Some? then DocNames(e, doc.value, ct) else multiset{}
  }

  /** The dictionary of non-zero counter movements of replacing `prior` by `later`. */
  function CounterDeltas(e: Env, prior: Option<Doc>, later: Option<Doc>, priorCt: Value, laterCt: Value)
    : (ds: map<Counter, int>)
    ensures forall n :: Count(ds, n) == OptNames(e, later, laterCt)[n] as int - OptNames(e, prior, priorCt)[n] as int
    ensures forall n :: n in ds ==> ds[n] != 0
  {
    var minus, plus := OptNames(e, prior, priorCt), OptNames(e, later, laterCt);
    var touched := set n | n in minus + plus;
    map n | n in touched && plus[n] != minus[n] :: plus[n] as int - minus[n] as int
  }

  // ── the task sidecar ─────────────────────────────────────────────────────────

  /** The task row a document projects to: none unless it has both a status and a content type. */
  function TaskOf(e: Env, doc: Doc, ct: Value): Option<TaskRow> {
    if Truthy(Get(doc, Status)) && Truthy(ct) then
      Some(TaskRow(e.text(ct), e.text(Get(doc, Status)), OrElse(Get(doc, Priority), Int(0)),
                   Get(doc, Operator), Get(doc, TaskKey), Get(doc, ClaimedBy), Get(doc, ClaimedAt),
                   Get(doc, NextRetryAt), Get(doc, CompletedAt)))
    else None
  }

  function TaskCounter(ct: string, status: string): Counter { Counter(TaskStatus, ct + ":" + status) }

  function TaskNames(t: Option<TaskRow>): multiset<Counter> {
    if t.Some? then One(TaskCounter(t.value.ct, t.value.status)) else multiset{}
  }

  // ── the keyed index ──────────────────────────────────────────────────────────

  const LIST_INDEX_FIELDS: seq<Key> := [Lemmas, Calls, TrashedBy]

  /** The values of an indexed field; a scalar counts only in the one scalar field. */
  function ListValues(doc: Doc, field: Key): seq<Value> {
    match Get(doc, field)
    case List(items) => items
    case Str(s) => if field == TrashedBy then [Str(s)] else []
    case _ => []
  }

  function CtText(e: Env, ct: Value): Option<string> {
    if ct.Null? then None else Some(e.text(ct))
  }

  function FieldPostings(e: Env, field: Key, vals: seq<Value>, ct: Value): multiset<Posting> {
    if vals == [] then multiset{}
    else
      (if vals[0].Null? then multiset{}
       else multiset{Posting(field, e.lower(e.text(vals[0])), CtText(e, ct))}) +
      FieldPostings(e, field, vals[1..], ct)
  }

  function FieldsPostings(e: Env, fields: seq<Key>, doc: Doc, ct: Value): multiset<Posting> {
    if fields == [] then multiset{}
    else FieldPostings(e, fields[0], ListValues(doc, fields[0]), ct) + FieldsPostings(e, fields[1..], doc, ct)
  }

  /** One posting per non-null value of every indexed field. */
  function PostingsOf(e: Env, doc: Doc, ct: Value): multiset<Posting> {
    FieldsPostings(e, LIST_INDEX_FIELDS, doc, ct)
  }

  function Group(l: map<string, multiset<Posting>>, aid: string): multiset<Posting> {
    if aid in l then l[aid] else multiset{}
  }

  // ── leaf digests ─────────────────────────────────────────────────────────────

  function Leaf(l: map<nat, bv64>, i: nat): bv64 { if i in l then l[i] else 0 }

  function XorLeaf(l: map<nat, bv64>, leaf: nat, v: bv64): (r: map<nat, bv64>)
    ensures forall i: nat :: Leaf(r, i) == if i == leaf then Xor(Leaf(l, i), v) else Leaf(l, i)
  {
    XorLaws(Leaf(l, leaf), 0, 0);
    if v == 0 then l else l[leaf := Xor(Leaf(l, leaf), v)]
  }

  /** The content of an edge row: its promoted columns and its other properties. */
  function EdgeContent(r: ERow): Props {
    map[Force := r.force, Propagate := r.propagate, IsOrigin := r.isOrigin, OrderKey := r.orderKey] + r.blob
  }

  /** The canonical content: no absent value, and nothing of the key itself. */
  function Canon(c: Props): Props {
    map p | p in c && !c[p].Null? && p !in {Plain("src"), Plain("dst"), Plain("label")} :: c[p]
  }

  function EdgeDigest(e: Env, k: EdgeKey, r: ERow): bv64 { e.edgeHash(k, Canon(EdgeContent(r))) }

  function VertexIn(e: Env, i: nat): (string, VRow) -> bv64 {
    (id: string, r: VRow) => if r.leaf == i then e.rowHash(id, r.sn) else 0
  }

  function EdgeIn(e: Env, i: nat): (EdgeKey, ERow) -> bv64 {
    (k: EdgeKey, r: ERow) => if r.leaf == i then EdgeDigest(e, k, r) else 0
  }

  /** The digest of leaf `i` recomputed from every row of both tables. */
  ghost function Rescan(e: Env, d: Db, i: nat): bv64 {
    Xor(XorOver(d.vertex, VertexIn(e, i)), XorOver(d.edge, EdgeIn(e, i)))
  }

  // ── the census ───────────────────────────────────────────────────────────────

  function VertexNames(e: Env): (string, VRow) -> multiset<Counter> {
    (id: string, r: VRow) =>
      One(Counter(VertexTotal, "")) + One(Counter(Rows, r.origin)) +
      DocNames(e, r.doc, r.ct) + TaskNames(TaskOf(e, r.doc, r.ct))
  }

  function EdgeNames(): (EdgeKey, ERow) -> multiset<Counter> {
    (k: EdgeKey, r: ERow) =>
      One(Counter(EdgeTotal, "")) + One(Counter(EdgeLabel, k.rel)) + One(Counter(Rows, r.origin))
  }

  /** How often each counter name is due, recounted from every row of both tables. */
  ghost function Census(e: Env, d: Db): multiset<Counter> {
    SumOver(d.vertex, VertexNames(e)) + SumOver(d.edge, EdgeNames())
  }

  // ── what a write stores ──────────────────────────────────────────────────────

  /** The stored document: stamped, its clock claim attributed, `created_time` first-write-wins. */
  function StoredDoc(prev: Option<VRow>, doc: Doc, origin: string, s: int): Doc {
    var stamped := doc[OriginStamp := Str(origin)][SeqStamp := Int(s)];
    var claimed :=
      if !Get(stamped, CreatedTime).Null? && !Truthy(Get(stamped, CreatedTimeOrigin))
      then stamped[CreatedTimeOrigin := Str(origin)] else stamped;
    if prev.Some? && !Get(prev.value.doc, CreatedTime).Null? then
      var timed := claimed[CreatedTime := Get(prev.value.doc, CreatedTime)];
      if !Get(prev.value.doc, CreatedTimeOrigin).Null?
      then timed[CreatedTimeOrigin := Get(prev.value.doc, CreatedTimeOrigin)] else timed
    else claimed
  }

  function RootOf(doc: Doc): Value { OrElse(Get(doc, RootId), Get(doc, Id)) }

  function StoredRow(e: Env, leaves: nat, prev: Option<VRow>, id: string, doc: Doc, origin: string, s: int): VRow
    requires leaves > 0
  {
    var d := StoredDoc(prev, doc, origin, s);
    VRow(Get(d, ContentType), Get(d, ContentRef),
         if prev.Some? then prev.value.rootId else RootOf(d),     // never updated on conflict
         origin, s, e.slot(id) % leaves, d)
  }

  function NormOrigin(v: Value): Value {
    if v.Null? then Null else if Truthy(v) then Int(1) else Int(0)
  }

  function StoredEdge(e: Env, leaves: nat, k: EdgeKey, props: Props, origin: string, s: int): ERow
    requires leaves > 0
  {
    ERow(PropOf(props, Force), PropOf(props, Propagate), NormOrigin(PropOf(props, IsOrigin)),
         PropOf(props, OrderKey), (map p | p in props && p.Plain? :: props[p]),
         origin, s, e.edgeSlot(k) % leaves)
  }

  /** The containment edge a document asks for, if it asks for one and its collection is here. */
  function PlaceOf(e: Env, vertex: map<string, VRow>, doc: Doc): Option<EdgeKey> {
    var cid, aid := Get(doc, CollectionId), RootOf(doc);
    if !Truthy(cid) || !Truthy(aid) || e.text(cid) == e.text(aid) || e.text(cid) !in vertex then None
    else Some(EdgeKey(e.text(cid), e.text(aid), "contains"))
  }

  function PlaceProps(aid: string): Props {
    map[Plain("root_id") := Str(aid), IsOrigin := Int(1)]
  }

  // ── seq marks ────────────────────────────────────────────────────────────────

  function LastSeq(d: Db, origin: string): int { if origin in d.seqs then d.seqs[origin].last else 0 }

  function Max(a: int, b: int): int { if a < b then b else a }
  function Min(a: int, b: int): int { if a < b then a else b }

  /** A foreign origin's seq is recorded as a high-water mark. */
  function Noted(seqs: map<string, SeqRow>, v: Version): map<string, SeqRow> {
    var row := if v.origin in seqs
               then SeqRow(Max(seqs[v.origin].last, v.sn), seqs[v.origin].isLocal)
               else SeqRow(v.sn, false);
    seqs[v.origin := row]
  }

  function ObserveSeq(d: Db, v: Version): Db { d.(seqs := Noted(d.seqs, v)) }

  // ── version comparison ───────────────────────────────────────────────────────

  datatype Order = Newer | Older | Same | Unordered

  function CompareVersion(a: Version, b: Version): Order {
    if a.origin != b.origin then Unordered
    else if a.sn > b.sn then Newer
    else if a.sn < b.sn then Older
    else Same
  }
}
