/**
 Version history: what a run of local puts on one handle leaves behind.

 A put that changes content keeps the replaced row under an archived id of its own; the handle
 stays the head, and `parent_id` leads from it through the replaced versions, newest first.
 */
module Lineage {
  import opened Folds
  import opened Tables
  import opened Invariants
  import opened Writes
  import opened Lattice

  /** The derived id of a snapshot is injective in the handle and the replaced document. */
  ghost predicate SnapIdsOk(e: Env) {
    (forall a, b, x, y :: e.snapId(a, x) == e.snapId(b, y) ==> a == b && x == y) &&
    (forall a, x :: e.snapId(a, x) != a)
  }

  function SnapOf(e: Env, handle: string, replaced: VRow): string { e.snapId(handle, replaced.doc) }

  predicate Rewritten(k: Key) { StampKey(k) || k.Id? || k.RootId? || k.StateKey? }

  /** `row` is the archived copy of `replaced`. */
  ghost predicate Archives(row: VRow, replaced: VRow, root: Value, me: string) {
    row.origin == me && row.rootId == root && Get(row.doc, StateKey) == Str("archived") &&
    row.contentRef == replaced.contentRef &&
    forall k :: !Rewritten(k) ==> Get(row.doc, k) == Get(replaced.doc, k)
  }

  /** A live row of the handle, as a local put stored it. */
  ghost predicate IsHead(row: VRow, root: Value, me: string) {
    row.origin == me && row.rootId == root && Get(row.doc, StateKey) != Str("archived") &&
    row.contentRef == Get(row.doc, ContentRef) && Truthy(row.contentRef) &&
    row.doc != map[] && Get(row.doc, SeqStamp) == Int(row.sn)
  }

  /** The parent the version made after the first `k` replaced ones must name. */
  function ParentAfter(e: Env, handle: string, first: Value, replaced: seq<VRow>, k: nat): Value
    requires k <= |replaced|
  {
    if k == 0 then first else Str(SnapOf(e, handle, replaced[k - 1]))
  }

  /** The lineage of `handle`: `replaced` are the rows its content changes replaced, oldest first. */
  ghost predicate Lineage(e: Env, me: string, mark: int, v: map<string, VRow>, handle: string, root: Value,
                          first: Value, replaced: seq<VRow>) {
    handle in v && IsHead(v[handle], root, me) && v[handle].sn <= mark &&
    Get(v[handle].doc, ParentId) == ParentAfter(e, handle, first, replaced, |replaced|) &&
    Links(e, me, v, handle, v[handle].sn, root, first, replaced) &&
    InSeqOrder(e, v, handle, replaced) && OnlyThese(e, v, handle, root, replaced)
  }

  ghost predicate Links(e: Env, me: string, v: map<string, VRow>, handle: string, headSn: int, root: Value,
                        first: Value, replaced: seq<VRow>) {
    forall i :: 0 <= i < |replaced| ==>
      Link(me, At(v, SnapOf(e, handle, replaced[i])), headSn, replaced[i], root,
          ParentAfter(e, handle, first, replaced, i))
  }

  /** The archived copy is there, older than the head, and so is the row it copies; the copied
      row named `parent`. */
  ghost predicate Link(me: string, copy: Option<VRow>, headSn: int, r: VRow, root: Value, parent: Value) {
    copy.Some? && Archives(copy.value, r, root, me) && IsHead(r, root, me) &&
    r.sn < headSn && copy.value.sn < headSn && Get(r.doc, ParentId) == parent
  }

  function CopySn(e: Env, v: map<string, VRow>, handle: string, r: VRow): int {
    if SnapOf(e, handle, r) in v then v[SnapOf(e, handle, r)].sn else 0
  }

  ghost predicate InSeqOrder(e: Env, v: map<string, VRow>, handle: string, replaced: seq<VRow>) {
    forall i, j :: 0 <= i < j < |replaced| ==>
      replaced[i].sn < replaced[j].sn && CopySn(e, v, handle, replaced[i]) < CopySn(e, v, handle, replaced[j])
  }

  /** No other row shares the root. */
  ghost predicate OnlyThese(e: Env, v: map<string, VRow>, handle: string, root: Value, replaced: seq<VRow>) {
    forall id :: id in v && v[id].rootId == root ==> id == handle || exists r ::
        r in replaced && id == SnapOf(e, handle, r)
  }

  /** No row but those of the lineage sits at a snapshot id of the handle. */
  ghost predicate NoStraySnapshot(e: Env, v: map<string, VRow>, handle: string, root: Value) {
    forall id, x :: id in v && id == e.snapId(handle, x) ==> v[id].rootId == root
  }

  // ── one put ──────────────────────────────────────────────────────────────────

  lemma StoredFields(e: Env, leaves: nat, prev: Option<VRow>, id: string, doc: Doc, me: string, s: int)
    requires leaves > 0
    ensures var row := StoredRow(e, leaves, prev, id, doc, me, s);
            row.origin == me && row.sn == s && row.contentRef == Get(doc, ContentRef) &&
            row.rootId == (if prev.Some? then prev.value.rootId else RootOf(doc)) &&
            row.doc != map[] && Get(row.doc, SeqStamp) == Int(s) &&
            forall k :: !StampKey(k) ==> Get(row.doc, k) == Get(doc, k)
  {
    var d := StoredDoc(prev, doc, me, s);
    assert SeqStamp in d;
    forall k | !StampKey(k) ensures Get(d, k) == Get(doc, k) {}
  }

  lemma SnapshotArchives(e: Env, leaves: nat, id: string, snap: string, prev: VRow, root: Value, me: string, s: int)
    requires leaves > 0 && IsHead(prev, root, me) && Truthy(root)
    ensures Archives(StoredRow(e, leaves, None, snap, SnapshotDoc(id, snap, prev), me, s), prev, root, me)
  {
    hide StoredRow;
    var d := SnapshotDoc(id, snap, prev);
    StoredFields(e, leaves, None, snap, d, me, s);
    forall k | !Rewritten(k) ensures Get(d, k) == Get(prev.doc, k) {}
    assert Get(d, RootId) == root && Get(d, StateKey) == Str("archived");
  }

  lemma SnapDiffers(e: Env, handle: string, row: VRow)
    requires SnapIdsOk(e)
    ensures SnapOf(e, handle, row) != handle
  {
  }

  /** The copies of the replaced rows stay as they are when only the handle, and perhaps a new
      copy, is written. */
  lemma CopiesStay(e: Env, me: string, v: map<string, VRow>, v1: map<string, VRow>, handle: string, headSn: int,
                   root: Value, first: Value, replaced: seq<VRow>, fresh_: set<string>)
    requires SnapIdsOk(e) && Links(e, me, v, handle, headSn, root, first, replaced)
    requires forall id :: id != handle && id !in fresh_ ==> At(v1, id) == At(v, id)
    requires fresh_ !! v.Keys
    ensures forall r :: r in replaced ==>
        At(v1, SnapOf(e, handle, r)) == At(v, SnapOf(e, handle, r)) && SnapOf(e, handle, r) in v
  {
    hide SnapIdsOk, Link, ParentAfter, SnapOf;
    forall r | r in replaced
      ensures At(v1, SnapOf(e, handle, r)) == At(v, SnapOf(e, handle, r)) && SnapOf(e, handle, r) in v
    {
      var i :| 0 <= i < |replaced| && replaced[i] == r;
      assert At(v, SnapOf(e, handle, r)).Some? by { LinkThere(e, me, v, handle, headSn, root, first, replaced, i); }
      SnapDiffers(e, handle, r);
    }
  }

  lemma LinkThere(e: Env, me: string, v: map<string, VRow>, handle: string, headSn: int, root: Value, first: Value,
                  replaced: seq<VRow>, i: nat)
    requires Links(e, me, v, handle, headSn, root, first, replaced) && i < |replaced|
    ensures SnapOf(e, handle, replaced[i]) in v && v[SnapOf(e, handle, replaced[i])].rootId == root
    ensures IsHead(replaced[i], root, me) && replaced[i].sn < headSn && CopySn(e, v, handle, replaced[i]) < headSn
  {
    hide ParentAfter;
  }

  lemma LinksStay(e: Env, me: string, v: map<string, VRow>, v1: map<string, VRow>, handle: string, headSn: int,
                  headSn1: int, root: Value, first: Value, replaced: seq<VRow>)
    requires Links(e, me, v, handle, headSn, root, first, replaced) && headSn < headSn1
    requires forall r :: r in replaced ==> At(v1, SnapOf(e, handle, r)) == At(v, SnapOf(e, handle, r))
    ensures Links(e, me, v1, handle, headSn1, root, first, replaced)
  {
    hide ParentAfter, SnapOf, IsHead, Archives;
  }

  lemma LinksMore(e: Env, me: string, v: map<string, VRow>, handle: string, headSn: int, root: Value, first: Value,
                  replaced: seq<VRow>, r: VRow, all: seq<VRow>)
    requires all == replaced + [r] && Links(e, me, v, handle, headSn, root, first, replaced)
    requires Link(me, At(v, SnapOf(e, handle, r)), headSn, r, root, ParentAfter(e, handle, first, replaced, |replaced|))
    ensures Links(e, me, v, handle, headSn, root, first, all)
  {
    hide Link, SnapOf;
    forall i | 0 <= i < |all|
      ensures Link(me, At(v, SnapOf(e, handle, all[i])), headSn, all[i], root, ParentAfter(e, handle, first, all, i))
    {
      assert ParentAfter(e, handle, first, all, i) == ParentAfter(e, handle, first, replaced, i);
      if i < |replaced| { assert all[i] == replaced[i]; }
    }
  }

  lemma OrderStays(e: Env, v: map<string, VRow>, v1: map<string, VRow>, handle: string, replaced: seq<VRow>)
    requires InSeqOrder(e, v, handle, replaced)
    requires forall r :: r in replaced ==> At(v1, SnapOf(e, handle, r)) == At(v, SnapOf(e, handle, r))
    ensures InSeqOrder(e, v1, handle, replaced)
  {
    hide SnapOf;
    forall r | r in replaced ensures CopySn(e, v1, handle, r) == CopySn(e, v, handle, r) {
      assert At(v1, SnapOf(e, handle, r)) == At(v, SnapOf(e, handle, r));
    }
  }

  lemma OrderMore(e: Env, me: string, v: map<string, VRow>, handle: string, headSn: int, root: Value, first: Value,
                  replaced: seq<VRow>, r: VRow, all: seq<VRow>)
    requires all == replaced + [r] && InSeqOrder(e, v, handle, replaced)
    requires forall q :: q in replaced ==> q.sn < r.sn && CopySn(e, v, handle, q) < CopySn(e, v, handle, r)
    ensures InSeqOrder(e, v, handle, all)
  {
    hide CopySn;
  }

  /** A content change: one snapshot more, and the new head names it. */
  lemma ChangeStep(e: Env, leaves: nat, me: string, mark: int, v: map<string, VRow>, v1: map<string, VRow>,
                   handle: string, root: Value, first: Value, replaced: seq<VRow>, doc: Doc, d: Doc, took: int,
                   s: int, snap: string)
    requires leaves > 0 && SnapIdsOk(e) && Truthy(root) && Lineage(e, me, mark, v, handle, root, first, replaced)
    requires mark < took < s && Truthy(Get(doc, ContentRef)) && Get(doc, StateKey) != Str("archived")
    requires snap == SnapOf(e, handle, v[handle]) && snap !in v && d == doc[ParentId := Str(snap)]
    requires var copy := StoredRow(e, leaves, None, snap, SnapshotDoc(handle, snap, v[handle]), me, took);
             v1 == v[snap := copy][handle := StoredRow(e, leaves, At(v, handle), handle, d, me, s)]
    ensures Lineage(e, me, s, v1, handle, root, first, replaced + [v[handle]])
  {
    hide StoredRow, SnapshotDoc, Archives, SnapIdsOk, Links, InSeqOrder, OnlyThese, ParentAfter, SnapOf, IsHead;
    var head, all := v[handle], replaced + [v[handle]];
    SnapDiffers(e, handle, head);
    SnapshotArchives(e, leaves, handle, snap, head, root, me, took);
    StoredFields(e, leaves, None, snap, SnapshotDoc(handle, snap, head), me, took);
    StoredFields(e, leaves, At(v, handle), handle, d, me, s);
    NewHead(e, me, v1[handle], root, doc, d, snap, head, s);
    CopiesStay(e, me, v, v1, handle, head.sn, root, first, replaced, {snap});
    LinksStay(e, me, v, v1, handle, head.sn, s, root, first, replaced);
    LinksMore(e, me, v1, handle, s, root, first, replaced, head, all);
    OrderStays(e, v, v1, handle, replaced);
    forall q | q in replaced ensures q.sn < head.sn && CopySn(e, v1, handle, q) < took {
      var i :| 0 <= i < |replaced| && replaced[i] == q;
      LinkThere(e, me, v, handle, head.sn, root, first, replaced, i);
    }
    OrderMore(e, me, v1, handle, s, root, first, replaced, head, all);
    OnlyMore(e, v, v1, handle, root, replaced, head, all, snap);
    assert ParentAfter(e, handle, first, all, |all|) == Str(snap) by { LastParent(e, handle, first, all); }
  }

  lemma LastParent(e: Env, handle: string, first: Value, all: seq<VRow>)
    requires all != []
    ensures ParentAfter(e, handle, first, all, |all|) == Str(SnapOf(e, handle, all[|all| - 1]))
  {
  }

  lemma NewHead(e: Env, me: string, row: VRow, root: Value, doc: Doc, d: Doc, snap: string, head: VRow, s: int)
    requires d == doc[ParentId := Str(snap)] && Truthy(Get(doc, ContentRef)) && Get(doc, StateKey) != Str("archived")
    requires row.origin == me && row.sn == s && row.contentRef == Get(d, ContentRef) && row.rootId == head.rootId
    requires IsHead(head, root, me) && row.doc != map[] && Get(row.doc, SeqStamp) == Int(s)
    requires forall k :: !StampKey(k) ==> Get(row.doc, k) == Get(d, k)
    ensures IsHead(row, root, me) && Get(row.doc, ParentId) == Str(snap)
  {
  }

  lemma OnlyMore(e: Env, v: map<string, VRow>, v1: map<string, VRow>, handle: string, root: Value,
                 replaced: seq<VRow>, head: VRow, all: seq<VRow>, snap: string)
    requires OnlyThese(e, v, handle, root, replaced) && all == replaced + [head] && snap == SnapOf(e, handle, head)
    requires forall id :: id != handle && id != snap ==> At(v1, id) == At(v, id)
    ensures OnlyThese(e, v1, handle, root, all)
  {
    hide SnapOf;
    forall id | id in v1 && v1[id].rootId == root
      ensures id == handle || exists r :: r in all && id == SnapOf(e, handle, r)
    {
      if id == snap {
        assert head in all;
      } else if id != handle {
        assert At(v1, id) == At(v, id);
        var r :| r in replaced && id == SnapOf(e, handle, r);
        assert r in all;
      }
    }
  }

  /** A re-describe: nothing but the head moves. */
  lemma DescribeStep(e: Env, leaves: nat, me: string, mark: int, v: map<string, VRow>, v1: map<string, VRow>,
                     handle: string, root: Value, first: Value, replaced: seq<VRow>, doc: Doc, s: int)
    requires leaves > 0 && SnapIdsOk(e) && Lineage(e, me, mark, v, handle, root, first, replaced)
    requires mark < s && Truthy(Get(doc, ContentRef)) && Get(doc, StateKey) != Str("archived")
    requires Get(doc, ParentId) == Get(v[handle].doc, ParentId)
    requires v1 == v[handle := StoredRow(e, leaves, At(v, handle), handle, doc, me, s)]
    ensures Lineage(e, me, s, v1, handle, root, first, replaced)
  {
    hide StoredRow, Archives, SnapIdsOk, Links, InSeqOrder, ParentAfter, SnapOf;
    StoredFields(e, leaves, At(v, handle), handle, doc, me, s);
    CopiesStay(e, me, v, v1, handle, v[handle].sn, root, first, replaced, {});
    LinksStay(e, me, v, v1, handle, v[handle].sn, s, root, first, replaced);
    OrderStays(e, v, v1, handle, replaced);
  }

  /** No copy of the head's present row is there yet: it carries a seq no replaced row had. */
  lemma CopyIsNew(e: Env, me: string, mark: int, v: map<string, VRow>, handle: string, root: Value, first: Value,
                  replaced: seq<VRow>)
    requires SnapIdsOk(e) && Lineage(e, me, mark, v, handle, root, first, replaced) &&
        NoStraySnapshot(e, v, handle, root)
    ensures SnapOf(e, handle, v[handle]) !in v
  {
    hide Archives, Links, InSeqOrder, ParentAfter;
    var head := v[handle];
    var snap := SnapOf(e, handle, head);
    SnapDiffers(e, handle, head);
    forall r | r in replaced ensures snap != SnapOf(e, handle, r) {
      var i :| 0 <= i < |replaced| && replaced[i] == r;
      LinkThere(e, me, v, handle, head.sn, root, first, replaced, i);
      assert Get(r.doc, SeqStamp) != Get(head.doc, SeqStamp);
    }
  }

  /** The first put of a handle. */
  lemma FirstStep(e: Env, leaves: nat, me: string, v: map<string, VRow>, v1: map<string, VRow>, handle: string,
                  doc: Doc, s: int)
    requires leaves > 0 && handle !in v && forall id :: id in v ==> v[id].rootId != RootOf(doc)
    requires Truthy(Get(doc, ContentRef)) && Get(doc, StateKey) != Str("archived")
    requires v1 == v[handle := StoredRow(e, leaves, None, handle, doc, me, s)]
    ensures Lineage(e, me, s, v1, handle, RootOf(doc), Get(doc, ParentId), [])
  {
    hide StoredRow;
    StoredFields(e, leaves, None, handle, doc, me, s);
  }

  // ── a run of puts ────────────────────────────────────────────────────────────

  datatype Revision = Revision(doc: Doc, newVersion: bool)

  /** Does this put change content? */
  predicate Changes(prev: VRow, ed: Revision) { ed.newVersion || prev.contentRef != Get(ed.doc, ContentRef) }

  predicate Suits(handle: string, ed: Revision) {
    IdOf(ed.doc) == Some(handle) && Truthy(Get(ed.doc, ContentRef)) && Get(ed.doc, StateKey) != Str("archived")
  }

  lemma NextVersion(e: Env, leaves: nat, me: string, mark: int, v: map<string, VRow>, v1: map<string, VRow>,
                    handle: string, root: Value, first: Value, replaced: seq<VRow>, ed: Revision, took: Option<int>,
                    s: int)
    requires leaves > 0 && SnapIdsOk(e) && Truthy(root) && Suits(handle, ed)
    requires Lineage(e, me, mark, v, handle, root, first, replaced) && NoStraySnapshot(e, v, handle, root)
    requires Changes(v[handle], ed) || Get(ed.doc, ParentId) == Get(v[handle].doc, ParentId)
    requires PutEffect(e, leaves, me, v, v1, handle, ed.doc, true, ed.newVersion, took, s)
    requires mark < s && (took.Some? ==> mark < took.value < s)
    ensures Lineage(e, me, s, v1, handle, root, first, if Changes(v[handle], ed) then replaced + [v[handle]]
        else replaced)
    ensures NoStraySnapshot(e, v1, handle, root)
    ensures took.Some? <==> Changes(v[handle], ed)
  {
    hide StoredRow, SnapshotDoc, Lineage, SnapIdsOk, NoStraySnapshot, IsHead, Archives, PutEffect, SnapOf;
    LineageHead(e, me, mark, v, handle, root, first, replaced);
    var prev, doc, snap := v[handle], ed.doc, SnapOf(e, handle, v[handle]);
    CopyIsNew(e, me, mark, v, handle, root, first, replaced);
    PutMeans(e, leaves, me, v, v1, handle, root, ed, took, s);
    SnapDiffers(e, handle, prev);
    if Changes(prev, ed) {
      var d := doc[ParentId := Str(snap)];
      StoredFields(e, leaves, At(v, handle), handle, d, me, s);
      ChangeStep(e, leaves, me, mark, v, v1, handle, root, first, replaced, doc, d, took.value, s, snap);
      SnapshotRoot(e, leaves, handle, snap, prev, root, me, took.value);
      LineageHead(e, me, s, v1, handle, root, first, replaced + [prev]);
    } else {
      DescribeStep(e, leaves, me, mark, v, v1, handle, root, first, replaced, doc, s);
      LineageHead(e, me, s, v1, handle, root, first, replaced);
    }
    StraysStay(e, v, v1, handle, root, snap);
  }

  lemma SnapshotRoot(e: Env, leaves: nat, id: string, snap: string, prev: VRow, root: Value, me: string, s: int)
    requires leaves > 0 && IsHead(prev, root, me) && Truthy(root)
    ensures StoredRow(e, leaves, None, snap, SnapshotDoc(id, snap, prev), me, s).rootId == root
  {
    hide StoredRow, SnapshotDoc;
    SnapshotArchives(e, leaves, id, snap, prev, root, me, s);
  }

  /** The table after a put, by whether it changed content. */
  lemma PutMeans(e: Env, leaves: nat, me: string, v: map<string, VRow>, v1: map<string, VRow>, handle: string,
                 root: Value, ed: Revision, took: Option<int>, s: int)
    requires leaves > 0 && SnapIdsOk(e) && Suits(handle, ed)
    requires handle in v && IsHead(v[handle], root, me) && SnapOf(e, handle, v[handle]) !in v
    requires PutEffect(e, leaves, me, v, v1, handle, ed.doc, true, ed.newVersion, took, s)
    ensures took.Some? <==> Changes(v[handle], ed)
    ensures var prev, snap := v[handle], SnapOf(e, handle, v[handle]);
            v1 == if took.Some?
                  then v[snap := StoredRow(e, leaves, None, snap, SnapshotDoc(handle, snap, prev), me, took.value)]
                        [handle := StoredRow(e, leaves, At(v, handle), handle, ed.doc[ParentId := Str(snap)], me, s)]
                  else v[handle := StoredRow(e, leaves, At(v, handle), handle, ed.doc, me, s)]
  {
    hide StoredRow, SnapshotDoc, SnapIdsOk, IsHead, SnapOf, Prepared;
    var kept, d, org :| Prepared(e, leaves, me, v, kept, handle, ed.doc, d, true, ed.newVersion, took) && org == me &&
                        v1 == kept[handle := StoredRow(e, leaves, At(v, handle), handle, d, org, s)];
    PreparedMeans(e, leaves, me, v, kept, handle, root, ed, d, took);
  }

  lemma PreparedMeans(e: Env, leaves: nat, me: string, v: map<string, VRow>, kept: map<string, VRow>, handle: string,
                      root: Value, ed: Revision, d: Doc, took: Option<int>)
    requires leaves > 0 && SnapIdsOk(e) && Suits(handle, ed)
    requires handle in v && IsHead(v[handle], root, me) && SnapOf(e, handle, v[handle]) !in v
    requires Prepared(e, leaves, me, v, kept, handle, ed.doc, d, true, ed.newVersion, took)
    ensures took.Some? <==> Changes(v[handle], ed)
    ensures var prev, snap := v[handle], SnapOf(e, handle, v[handle]);
            if took.Some?
            then d == ed.doc[ParentId := Str(snap)] &&
                 kept == v[snap := StoredRow(e, leaves, None, snap, SnapshotDoc(handle, snap, prev), me, took.value)]
            else d == ed.doc && kept == v
  {
    hide StoredRow, SnapshotDoc, SnapIdsOk, IsHead, SnapOf, SnapshotId, Versioned, Changes;
    Decided(e, handle, v[handle], ed, root, me);
  }

  /** What the put path decides about a head and its snapshot. */
  lemma Decided(e: Env, handle: string, prev: VRow, ed: Revision, root: Value, me: string)
    requires SnapIdsOk(e) && IsHead(prev, root, me) && Suits(handle, ed)
    ensures Versioned(Some(prev), ed.doc, ed.newVersion) <==> Changes(prev, ed)
    ensures SnapshotId(e, handle, prev) == Some(SnapOf(e, handle, prev))
  {
    hide SnapIdsOk;
    SnapDiffers(e, handle, prev);
  }

  lemma StraysStay(e: Env, v: map<string, VRow>, v1: map<string, VRow>, handle: string, root: Value, snap: string)
    requires NoStraySnapshot(e, v, handle, root)
    requires forall id :: id != handle && id != snap ==> At(v1, id) == At(v, id)
    requires handle in v1 && v1[handle].rootId == root && (snap in v1 ==> v1[snap].rootId == root)
    ensures NoStraySnapshot(e, v1, handle, root)
  {
    forall id, x | id in v1 && id == e.snapId(handle, x) ensures v1[id].rootId == root {
      if id != handle && id != snap { assert At(v1, id) == At(v, id); }
    }
  }

  lemma LineageHead(e: Env, me: string, mark: int, v: map<string, VRow>, handle: string, root: Value, first: Value,
                    replaced: seq<VRow>)
    requires Lineage(e, me, mark, v, handle, root, first, replaced)
    ensures handle in v && IsHead(v[handle], root, me)
  {
  }

  // ── reading a lineage back ───────────────────────────────────────────────────

  /** The ids of a lineage, oldest version first, the handle last. */
  function Chain(e: Env, handle: string, replaced: seq<VRow>): seq<string> { Copies(e, handle, replaced) + [handle] }

  function Copies(e: Env, handle: string, replaced: seq<VRow>): (r: seq<string>)
    ensures |r| == |replaced| && forall i :: 0 <= i < |r| ==> r[i] == SnapOf(e, handle, replaced[i])
  {
    if replaced == [] then []
    else Copies(e, handle, replaced[..|replaced| - 1]) + [SnapOf(e, handle, replaced[|replaced| - 1])]
  }

  ghost predicate Rising(v: map<string, VRow>, ids: seq<string>) {
    (forall id :: id in ids ==> id in v) && forall i, j :: 0 <= i < j < |ids| ==> v[ids[i]].sn < v[ids[j]].sn
  }

  /** `WHERE root_id = :root ORDER BY _origin, _seq`, as far as one origin is concerned. */
  ghost predicate IsVersionsOf(v: map<string, VRow>, root: Value, ids: seq<string>) {
    (forall id :: id in ids <==> id in v && v[id].rootId == root) &&
    (forall i, j :: 0 <= i < j < |ids| ==>
       ids[i] != ids[j] && (v[ids[i]].origin == v[ids[j]].origin ==> v[ids[i]].sn <= v[ids[j]].sn))
  }

  lemma LastIsNewest(v: map<string, VRow>, ids: seq<string>, x: string)
    requires Rising(v, ids) && x in ids
    ensures x == ids[|ids| - 1] || v[x].sn < v[ids[|ids| - 1]].sn
    ensures x in ids[..|ids| - 1] <==> x != ids[|ids| - 1]
  {
    var last := |ids| - 1;
    assert ids == ids[..last] + [ids[last]];
    if x in ids[..last] {
      var i :| 0 <= i < last && ids[..last][i] == x;
      assert ids[i] == x;
    }
  }

  lemma {:induction false} RisingUnique(v: map<string, VRow>, a: seq<string>, b: seq<string>)
    requires Rising(v, a) && Rising(v, b) && forall id :: id in a <==> id in b
    ensures a == b
    decreases |a|
  {
    assert b == [] || b[0] in b;
    if a == [] {
    } else {
      hide Rising;
      assert a[0] in b;
      var x, y, a1, b1 := a[|a| - 1], b[|b| - 1], a[..|a| - 1], b[..|b| - 1];
      assert x in a && y in b;
      LastIsNewest(v, b, x);
      LastIsNewest(v, a, y);
      RisingFront(v, a);
      RisingFront(v, b);
      forall id ensures id in a1 <==> id in b1 {
        if id in a { LastIsNewest(v, a, id); LastIsNewest(v, b, id); }
      }
      RisingUnique(v, a1, b1);
      assert a == a1 + [x] && b == b1 + [y];
    }
  }

  lemma RisingFront(v: map<string, VRow>, ids: seq<string>)
    requires Rising(v, ids) && ids != []
    ensures Rising(v, ids[..|ids| - 1])
  {
  }

  lemma CopyAt(e: Env, me: string, v: map<string, VRow>, handle: string, headSn: int, root: Value, first: Value,
               replaced: seq<VRow>, i: nat)
    requires Links(e, me, v, handle, headSn, root, first, replaced) && i < |replaced|
    ensures var id := Chain(e, handle, replaced)[i];
            id == SnapOf(e, handle, replaced[i]) && id in v && v[id].rootId == root && v[id].origin == me &&
            v[id].sn < headSn && v[id].sn == CopySn(e, v, handle, replaced[i]) &&
            Get(v[id].doc, StateKey) == Str("archived")
  {
    hide ParentAfter, IsHead, SnapOf;
    assert Link(me, At(v, SnapOf(e, handle, replaced[i])), headSn, replaced[i], root,
        ParentAfter(e, handle, first, replaced, i));
  }

  lemma ChainRises(e: Env, me: string, mark: int, v: map<string, VRow>, handle: string, root: Value, first: Value,
                   replaced: seq<VRow>)
    requires Lineage(e, me, mark, v, handle, root, first, replaced)
    ensures Rising(v, Chain(e, handle, replaced))
    ensures forall id :: id in Chain(e, handle, replaced) <==> id in v && v[id].rootId == root
    ensures forall id :: id in Chain(e, handle, replaced) ==> v[id].origin == me
  {
    hide ParentAfter, SnapOf, Links, Copies, CopySn;
    var ids := Chain(e, handle, replaced);
    forall i | 0 <= i < |replaced|
      ensures ids[i] in v && v[ids[i]].rootId == root && v[ids[i]].origin == me && v[ids[i]].sn < v[handle].sn
      ensures v[ids[i]].sn == CopySn(e, v, handle, replaced[i])
    {
      CopyAt(e, me, v, handle, v[handle].sn, root, first, replaced, i);
    }
    assert ids[|replaced|] == handle;
    forall id | id in v && v[id].rootId == root && id != handle ensures id in ids {
      InChain(e, v, handle, root, replaced, id);
    }
  }

  lemma InChain(e: Env, v: map<string, VRow>, handle: string, root: Value, replaced: seq<VRow>, id: string)
    requires OnlyThese(e, v, handle, root, replaced) && id in v && v[id].rootId == root && id != handle
    ensures id in Chain(e, handle, replaced)
  {
    hide SnapOf;
    var r :| r in replaced && id == SnapOf(e, handle, r);
    var i :| 0 <= i < |replaced| && replaced[i] == r;
    assert Chain(e, handle, replaced)[i] == id;
  }

  /** `versions_of` lists the archived copies oldest first and the handle last. */
  lemma VersionsAreTheChain(e: Env, me: string, mark: int, v: map<string, VRow>, handle: string, root: Value,
                            first: Value, replaced: seq<VRow>, ids: seq<string>)
    requires Lineage(e, me, mark, v, handle, root, first, replaced) && IsVersionsOf(v, root, ids)
    ensures ids == Chain(e, handle, replaced)
  {
    hide Lineage, Chain;
    ChainRises(e, me, mark, v, handle, root, first, replaced);
    var chain := Chain(e, handle, replaced);
    forall i, j | 0 <= i < j < |ids| ensures v[ids[i]].sn < v[ids[j]].sn {
      assert ids[i] in chain && ids[j] in chain;
      var a :| 0 <= a < |chain| && chain[a] == ids[i];
      var b :| 0 <= b < |chain| && chain[b] == ids[j];
      assert a != b;
    }
    RisingUnique(v, ids, chain);
  }

  /** The last version that is not archived. */
  function HeadOf(v: map<string, VRow>, ids: seq<string>): Option<string>
    requires forall id :: id in ids ==> id in v
  {
    if ids == [] then None
    else if Get(v[ids[|ids| - 1]].doc, StateKey) != Str("archived") then Some(ids[|ids| - 1])
    else HeadOf(v, ids[..|ids| - 1])
  }

  /** The handle is the head, and the only live row of its lineage. */
  lemma HeadIsTheHandle(e: Env, me: string, mark: int, v: map<string, VRow>, handle: string, root: Value, first: Value,
                        replaced: seq<VRow>, ids: seq<string>)
    requires Lineage(e, me, mark, v, handle, root, first, replaced) && IsVersionsOf(v, root, ids)
    ensures HeadOf(v, ids) == Some(handle)
    ensures forall id :: id in ids && Get(v[id].doc, StateKey) != Str("archived") ==> id == handle
  {
    hide ParentAfter, SnapOf, Links, Copies;
    VersionsAreTheChain(e, me, mark, v, handle, root, first, replaced, ids);
    forall i | 0 <= i < |replaced| ensures Get(v[ids[i]].doc, StateKey) == Str("archived") {
      CopyAt(e, me, v, handle, v[handle].sn, root, first, replaced, i);
    }
  }

  /** The `n`th step up the `parent_id` links. */
  function Ancestor(v: map<string, VRow>, id: string, n: nat): Option<string> {
    if n == 0 then Some(id)
    else
      var a := Ancestor(v, id, n - 1);
      if a.None? || a.value !in v then None
      else match Get(v[a.value].doc, ParentId)
           case Str(p) => Some(p)
           case _ => None
  }

  lemma ParentOfCopy(e: Env, me: string, v: map<string, VRow>, handle: string, headSn: int, root: Value, first: Value,
                     replaced: seq<VRow>, i: nat)
    requires Links(e, me, v, handle, headSn, root, first, replaced) && i < |replaced|
    ensures var id := SnapOf(e, handle, replaced[i]);
            id in v && Get(v[id].doc, ParentId) == ParentAfter(e, handle, first, replaced, i)
  {
    hide ParentAfter, IsHead;
    assert Link(me, At(v, SnapOf(e, handle, replaced[i])), headSn, replaced[i], root,
        ParentAfter(e, handle, first, replaced, i));
    assert !Rewritten(ParentId);
  }

  /** From the head, `parent_id` visits the replaced versions newest to oldest. */
  lemma {:induction false} ParentsNewestFirst(e: Env, me: string, mark: int, v: map<string, VRow>, handle: string,
                                              root: Value, first: Value, replaced: seq<VRow>, n: nat)
    requires Lineage(e, me, mark, v, handle, root, first, replaced) && 0 < n <= |replaced|
    ensures Ancestor(v, handle, n) == Some(SnapOf(e, handle, replaced[|replaced| - n]))
    decreases n
  {
    hide SnapOf, Links, InSeqOrder, OnlyThese, IsHead;
    if n > 1 {
      ParentsNewestFirst(e, me, mark, v, handle, root, first, replaced, n - 1);
      ParentOfCopy(e, me, v, handle, v[handle].sn, root, first, replaced, |replaced| - (n - 1));
    } else {
      assert Ancestor(v, handle, 0) == Some(handle);
    }
  }

  // ── the run ──────────────────────────────────────────────────────────────────

  /** How many puts of a run change content: the first never does. */
  function ContentChanges(edits: seq<Revision>): nat {
    if |edits| <= 1 then 0
    else
      var last, before := edits[|edits| - 1], edits[|edits| - 2];
      ContentChanges(edits[..|edits| - 1]) +
      if last.newVersion || Get(before.doc, ContentRef) != Get(last.doc, ContentRef) then 1 else 0
  }

  lemma MarkUp(e: Env, me: string, mark: int, mark1: int, v: map<string, VRow>, handle: string, root: Value,
               first: Value, replaced: seq<VRow>)
    requires Lineage(e, me, mark, v, handle, root, first, replaced) && v[handle].sn <= mark1
    ensures Lineage(e, me, mark1, v, handle, root, first, replaced)
  {
    hide Links, InSeqOrder, OnlyThese, ParentAfter;
  }

  lemma LocalSeq(st: Store, id: string)
    requires st.Valid() && !st.hist.echo && id in st.db.vertex && st.db.vertex[id].origin == st.origin
    ensures st.db.vertex[id].sn <= |st.hist.log|
  {
  }

  /** A caller that edits one handle: a re-describe carries the parent it read. */
  method RunPuts(st: Store, handle: string, edits: seq<Revision>) returns (ghost replaced: seq<VRow>)
    requires st.Valid() && !st.open && !st.hist.echo && SnapIdsOk(st.env) && edits != []
    requires forall ed :: ed in edits ==> Suits(handle, ed)
    requires handle !in st.db.vertex && (forall id :: id in st.db.vertex ==>
        st.db.vertex[id].rootId != RootOf(edits[0].doc))
    requires forall x :: st.env.snapId(handle, x) !in st.db.vertex
    modifies st`db, st`disk, st`hist, st`diskHist, st`open, st.clock
    ensures st.Valid() && !st.open && !st.hist.echo
    ensures Lineage(st.env, st.origin, |st.hist.log|, st.db.vertex, handle, RootOf(edits[0].doc),
        Get(edits[0].doc, ParentId), replaced)
    ensures |replaced| == ContentChanges(edits)
    ensures st.db.vertex[handle].contentRef == Get(edits[|edits| - 1].doc, ContentRef)
  {
    hide Ok, Evolves, Lineage, PutEffect, NoStraySnapshot, SnapIdsOk, StoredRow, MarkOk, MarkKept, EnvOk;
    ghost var root, first := RootOf(edits[0].doc), Get(edits[0].doc, ParentId);
    replaced := [];
    assert edits[0] in edits;
    PutFirst(st, handle, edits[0]);
    for i := 1 to |edits|
      invariant st.Valid() && !st.open && !st.hist.echo
      invariant Lineage(st.env, st.origin, |st.hist.log|, st.db.vertex, handle, root, first, replaced)
      invariant NoStraySnapshot(st.env, st.db.vertex, handle, root)
      invariant handle in st.db.vertex && st.db.vertex[handle].contentRef == Get(edits[i - 1].doc, ContentRef)
      invariant |replaced| == ContentChanges(edits[..i])
    {
      assert edits[i] in edits;
      assert edits[..i + 1][..i] == edits[..i];
      ghost var prev := st.db.vertex[handle];
      PutNext(st, handle, edits[i], root, first, replaced);
      replaced := if Changes(prev, edits[i]) then replaced + [prev] else replaced;
    }
    assert edits[..|edits|] == edits;
  }

  method PutFirst(st: Store, handle: string, ed: Revision)
    requires st.Valid() && !st.open && !st.hist.echo && SnapIdsOk(st.env) && Suits(handle, ed)
    requires handle !in st.db.vertex && (forall id :: id in st.db.vertex ==> st.db.vertex[id].rootId != RootOf(ed.doc))
    requires forall x :: st.env.snapId(handle, x) !in st.db.vertex
    modifies st`db, st`disk, st`hist, st`diskHist, st`open, st.clock
    ensures st.Valid() && !st.open && !st.hist.echo
    ensures Lineage(st.env, st.origin, |st.hist.log|, st.db.vertex, handle, RootOf(ed.doc), Get(ed.doc, ParentId), [])
    ensures NoStraySnapshot(st.env, st.db.vertex, handle, RootOf(ed.doc))
    ensures handle in st.db.vertex && st.db.vertex[handle].contentRef == Get(ed.doc, ContentRef)
  {
    hide Ok, Evolves, StoredRow, SnapshotDoc, Lineage, IsHead;
    ghost var v0 := st.db.vertex;
    NamedOrigin(st.env, st.origin, st.leaves, st.db, st.hist);
    var r := st.PutArtifact(ed.doc, true, ed.newVersion, false);
    FirstPutMeans(st.env, st.leaves, st.origin, v0, st.db.vertex, handle, ed, r.took, r.sn);
    FirstStep(st.env, st.leaves, st.origin, v0, st.db.vertex, handle, ed.doc, r.sn);
    StoredFields(st.env, st.leaves, None, handle, ed.doc, st.origin, r.sn);
    LocalSeq(st, handle);
    MarkUp(st.env, st.origin, r.sn, |st.hist.log|, st.db.vertex, handle, RootOf(ed.doc), Get(ed.doc, ParentId), []);
    StrayStart(st.env, v0, st.db.vertex, handle, RootOf(ed.doc));
  }

  lemma StrayStart(e: Env, v: map<string, VRow>, v1: map<string, VRow>, handle: string, root: Value)
    requires (forall x :: e.snapId(handle, x) !in v) && v1.Keys == v.Keys + {handle} && v1[handle].rootId == root
    ensures NoStraySnapshot(e, v1, handle, root)
  {
  }

  lemma FirstPutMeans(e: Env, leaves: nat, me: string, v: map<string, VRow>, v1: map<string, VRow>, handle: string,
                      ed: Revision, took: Option<int>, s: int)
    requires leaves > 0 && handle !in v && PutEffect(e, leaves, me, v, v1, handle, ed.doc, true, ed.newVersion, took, s)
    ensures v1 == v[handle := StoredRow(e, leaves, None, handle, ed.doc, me, s)]
  {
    hide StoredRow, SnapshotDoc, Prepared;
    var none: Option<VRow> := None;
    assert At(v, handle) == none;
    var kept, d, org :| Prepared(e, leaves, me, v, kept, handle, ed.doc, d, true, ed.newVersion, took) && org == me &&
                        v1 == kept[handle := StoredRow(e, leaves, At(v, handle), handle, d, org, s)];
    FirstPrepared(e, leaves, me, v, kept, handle, ed, d, took);
  }

  lemma FirstPrepared(e: Env, leaves: nat, me: string, v: map<string, VRow>, kept: map<string, VRow>, handle: string,
                      ed: Revision, d: Doc, took: Option<int>)
    requires leaves > 0 && handle !in v && Prepared(e, leaves, me, v, kept, handle, ed.doc, d, true, ed.newVersion,
        took)
    ensures kept == v && d == ed.doc
  {
    hide StoredRow, SnapshotDoc, SnapshotId;
  }

  method PutNext(st: Store, handle: string, ed: Revision, ghost root: Value, ghost first: Value,
                 ghost replaced: seq<VRow>)
    requires st.Valid() && !st.open && !st.hist.echo && SnapIdsOk(st.env) && Suits(handle, ed)
    requires Lineage(st.env, st.origin, |st.hist.log|, st.db.vertex, handle, root, first, replaced) && Truthy(root)
    requires NoStraySnapshot(st.env, st.db.vertex, handle, root) && handle in st.db.vertex
    modifies st`db, st`disk, st`hist, st`diskHist, st`open, st.clock
    ensures st.Valid() && !st.open && !st.hist.echo
    ensures Lineage(st.env, st.origin, |st.hist.log|, st.db.vertex, handle, root, first,
                    if Changes(old(st.db.vertex)[handle], ed) then replaced + [old(st.db.vertex)[handle]] else replaced)
    ensures NoStraySnapshot(st.env, st.db.vertex, handle, root)
    ensures handle in st.db.vertex && st.db.vertex[handle].contentRef == Get(ed.doc, ContentRef)
  {
    hide Ok, Evolves, StoredRow, SnapshotDoc, Lineage, NoStraySnapshot, SnapIdsOk, PutEffect, IsHead;
    ghost var v0, mark := st.db.vertex, |st.hist.log|;
    var prev := st.db.vertex[handle];
    var doc := if Changes(prev, ed) then ed.doc else ed.doc[ParentId := Get(prev.doc, ParentId)];
    var sent := Revision(doc, ed.newVersion);
    NamedOrigin(st.env, st.origin, st.leaves, st.db, st.hist);
    var r := st.PutArtifact(doc, true, ed.newVersion, false);
    NextVersion(st.env, st.leaves, st.origin, mark, v0, st.db.vertex, handle, root, first, replaced, sent, r.took,
        r.sn);
    ghost var now := if Changes(prev, ed) then replaced + [prev] else replaced;
    LineageHead(st.env, st.origin, r.sn, st.db.vertex, handle, root, first, now);
    PutContent(st.env, st.leaves, st.origin, v0, st.db.vertex, handle, sent, r.took, r.sn);
    LocalSeq(st, handle) by { HeadOrigin(st.db.vertex[handle], root, st.origin); }
    MarkUp(st.env, st.origin, r.sn, |st.hist.log|, st.db.vertex, handle, root, first, now);
  }

  lemma HeadOrigin(row: VRow, root: Value, me: string)
    requires IsHead(row, root, me)
    ensures row.origin == me
  {
  }

  lemma PutContent(e: Env, leaves: nat, me: string, v: map<string, VRow>, v1: map<string, VRow>, handle: string,
                   ed: Revision, took: Option<int>, s: int)
    requires leaves > 0 && PutEffect(e, leaves, me, v, v1, handle, ed.doc, true, ed.newVersion, took, s)
    ensures handle in v1 && v1[handle].contentRef == Get(ed.doc, ContentRef)
  {
    hide StoredRow, SnapshotDoc, Prepared;
    var kept, d, org :| Prepared(e, leaves, me, v, kept, handle, ed.doc, d, true, ed.newVersion, took) && org == me &&
                        v1 == kept[handle := StoredRow(e, leaves, At(v, handle), handle, d, org, s)];
    PreparedContent(e, leaves, me, v, kept, handle, ed, d, took);
    StoredFields(e, leaves, At(v, handle), handle, d, me, s);
  }

  lemma PreparedContent(e: Env, leaves: nat, me: string, v: map<string, VRow>, kept: map<string, VRow>, handle: string,
                        ed: Revision, d: Doc, took: Option<int>)
    requires leaves > 0 && Prepared(e, leaves, me, v, kept, handle, ed.doc, d, true, ed.newVersion, took)
    ensures Get(d, ContentRef) == Get(ed.doc, ContentRef)
  {
    hide StoredRow, SnapshotDoc, SnapshotId, Versioned;
  }
}
