/**
 Allocation accounting: what the books of one origin's clock can tell about its rows.
 The scan finds every row lost outside the write path; the cheap modes are exactly as blind
 as stated here.
 */
module Accounting {
  import opened Folds
  import opened Tables
  import opened Invariants
  import opened Steps

  /** The versions under which `origin` has rows, over both tables; a seq held twice counts once. */
  function LiveSeqs(d: Db, origin: string): set<Version> { SeqsV(d, origin) + SeqsE(d, origin) }

  function SeqsV(d: Db, origin: string): set<Version> {
    set id | id in d.vertex && d.vertex[id].origin == origin :: Version(origin, d.vertex[id].sn)
  }

  function SeqsE(d: Db, origin: string): set<Version> {
    set k | k in d.edge && d.edge[k].origin == origin :: Version(origin, d.edge[k].sn)
  }

  function IsLocal(d: Db, origin: string): bool { origin in d.seqs && d.seqs[origin].isLocal }

  datatype Books = Books(lastSeq: int, liveRows: int, vacated: int, unaccounted: int,
                         balanced: bool, insertOnly: bool, localOnly: bool)

  function SeqAccounting(d: Db, origin: string, scan: bool): Books {
    var last, vac := LastSeq(d, origin), Count(d.counter, Counter(Vacated, origin));
    var live := if scan then |LiveSeqs(d, origin)| else Count(d.counter, Counter(Rows, origin));
    var unaccounted := last - (live + vac);
    Books(last, live, vac, unaccounted,
          if IsLocal(d, origin) then unaccounted == 0 else unaccounted >= 0, vac == 0, IsLocal(d, origin))
  }

  datatype Verdict = Intact | TailIntact | LossDetected | Undecidable
  datatype Tail = Tail(rowsLost: Option<int>, verdict: Verdict)

  /** The highest seq of `live`; 0 when there is none. */
  method MaxObserved(live: set<Version>) returns (best: int)
    ensures best >= 0 && forall v :: v in live ==> v.sn <= best
    ensures best == 0 || exists v :: v in live && v.sn == best
  {
    best := 0;
    var rest := live;
    while rest != {}
      invariant rest <= live
      invariant best >= 0 && forall v :: v in live - rest ==> v.sn <= best
      invariant best == 0 || exists v :: v in live && v.sn == best
      decreases |rest|
    {
      var v :| v in rest;
      best := Max(best, v.sn);
      rest := rest - {v};
    }
  }

  /** `gap` is how many seqs lie between the newest row and the mark. */
  ghost predicate TailGap(live: set<Version>, last: int, gap: int) {
    gap >= 0 &&
    (gap > 0 ==> forall v :: v in live ==> v.sn <= last - gap) &&
    (gap == 0 ==> last <= 0 || exists v :: v in live && v.sn >= last) &&
    (0 < gap < last ==> exists v :: v in live && v.sn == last - gap)
  }

  method CheckTail(d: Db, origin: string, scan: bool) returns (t: Tail)
    ensures var b := SeqAccounting(d, origin, scan);
            if !IsLocal(d, origin) || (!scan && b.vacated != 0) then t == Tail(None, Undecidable)
            else if scan then
              t == Tail(Some(Max(0, b.unaccounted)), if b.unaccounted > 0 then LossDetected else Intact)
            else
              t.rowsLost.Some? && t.verdict == (if t.rowsLost.value > 0 then LossDetected else TailIntact) &&
              TailGap(LiveSeqs(d, origin), b.lastSeq, t.rowsLost.value)
  {
    hide LiveSeqs;
    var acc := SeqAccounting(d, origin, scan);
    var obs := MaxObserved(LiveSeqs(d, origin));
    if !acc.localOnly { return Tail(None, Undecidable); }
    if scan {
      var lost := Max(0, acc.unaccounted);
      return Tail(Some(lost), if lost > 0 then LossDetected else Intact);
    }
    if acc.vacated == 0 {
      var lost := Max(0, acc.lastSeq - obs);
      return Tail(Some(lost), if lost > 0 then LossDetected else TailIntact);
    }
    t := Tail(None, Undecidable);
  }

  // ── the live rows and their seqs ─────────────────────────────────────────────

  function OwnV(d: Db, me: string): set<string> { set id | id in d.vertex && d.vertex[id].origin == me }
  function OwnE(d: Db, me: string): set<EdgeKey> { set k | k in d.edge && d.edge[k].origin == me }

  lemma CensusRows(e: Env, d: Db, me: string)
    ensures Census(e, d)[Counter(Rows, me)] == |OwnV(d, me)| + |OwnE(d, me)|
  {
    hide VertexNames, EdgeNames;
    var n := Counter(Rows, me);
    forall id | id in d.vertex ensures VertexNames(e)(id, d.vertex[id])[n] == if id in OwnV(d, me) then 1 else 0 {
      VertexRowsName(e, id, d.vertex[id], me);
    }
    forall k | k in d.edge ensures EdgeNames()(k, d.edge[k])[n] == if k in OwnE(d, me) then 1 else 0 {
      EdgeRowsName(k, d.edge[k], me);
    }
    SumCounts(d.vertex, VertexNames(e), n, OwnV(d, me));
    SumCounts(d.edge, EdgeNames(), n, OwnE(d, me));
  }

  /** As many values as keys, when no two keys share one. */
  lemma {:induction false} ImageSize<K>(keys: set<K>, f: K -> Version, image: set<Version>)
    requires forall v :: v in image <==> exists k :: k in keys && f(k) == v
    requires forall a, b :: a in keys && b in keys && f(a) == f(b) ==> a == b
    ensures |image| == |keys|
    decreases |keys|
  {
    if keys != {} {
      var k :| k in keys;
      var rest := image - {f(k)};
      assert f(k) in image;
      forall v ensures v in rest <==> exists j :: j in keys - {k} && f(j) == v {
        if j :| j in keys && f(j) == v { assert v in rest ==> j in keys - {k}; }
        if j :| j in keys - {k} && f(j) == v { assert j in keys; }
      }
      ImageSize(keys - {k}, f, rest);
    } else {
      assert image == {};
    }
  }

  lemma SeqsOfVertices(d: Db, me: string, log: seq<RowKey>)
    requires LoggedV(me, d.vertex, log)
    ensures |SeqsV(d, me)| == |OwnV(d, me)|
    ensures forall v :: v in SeqsV(d, me) ==> v.origin == me && 1 <= v.sn <= |log| && log[v.sn - 1].VKey?
  {
    var own := OwnV(d, me);
    var f := (id: string) => if id in d.vertex then Version(me, d.vertex[id].sn) else Version(me, 0);
    forall a, b | a in own && b in own && f(a) == f(b)
      ensures a == b
    {
      VertexOfSeq(d, me, log, a);
      VertexOfSeq(d, me, log, b);
    }
    forall v | v in SeqsV(d, me) ensures exists id :: id in own && f(id) == v {
      var id :| id in d.vertex && d.vertex[id].origin == me && Version(me, d.vertex[id].sn) == v;
      assert id in own && f(id) == v;
    }
    ImageSize(own, f, SeqsV(d, me));
  }

  lemma VertexOfSeq(d: Db, me: string, log: seq<RowKey>, id: string)
    requires LoggedV(me, d.vertex, log) && id in OwnV(d, me)
    ensures 1 <= d.vertex[id].sn <= |log| && log[d.vertex[id].sn - 1] == VKey(id)
  {
  }

  lemma SeqsOfEdges(d: Db, me: string, log: seq<RowKey>)
    requires LoggedE(me, d.edge, log)
    ensures |SeqsE(d, me)| == |OwnE(d, me)|
    ensures forall v :: v in SeqsE(d, me) ==> v.origin == me && 1 <= v.sn <= |log| && log[v.sn - 1].EKey?
  {
    var own := OwnE(d, me);
    var f := (k: EdgeKey) => if k in d.edge then Version(me, d.edge[k].sn) else Version(me, 0);
    forall a, b | a in own && b in own && f(a) == f(b)
      ensures a == b
    {
      EdgeOfSeq(d, me, log, a);
      EdgeOfSeq(d, me, log, b);
    }
    forall v | v in SeqsE(d, me) ensures exists k :: k in own && f(k) == v {
      var k :| k in d.edge && d.edge[k].origin == me && Version(me, d.edge[k].sn) == v;
      assert k in own && f(k) == v;
    }
    ImageSize(own, f, SeqsE(d, me));
  }

  lemma EdgeOfSeq(d: Db, me: string, log: seq<RowKey>, k: EdgeKey)
    requires LoggedE(me, d.edge, log) && k in OwnE(d, me)
    ensures 1 <= d.edge[k].sn <= |log| && log[d.edge[k].sn - 1] == EKey(k)
  {
  }

  /** No two local rows, of either table, hold one seq: as many live seqs as live rows. */
  lemma LiveSeqsAreRows(e: Env, me: string, d: Db, h: History)
    requires LoggedV(me, d.vertex, h.log) && LoggedE(me, d.edge, h.log)
    ensures |LiveSeqs(d, me)| == Census(e, d)[Counter(Rows, me)]
    ensures forall v :: v in LiveSeqs(d, me) ==> v.origin == me && 1 <= v.sn <= |h.log|
  {
    hide Census, SeqsV, SeqsE, OwnV, OwnE, LoggedV, LoggedE;
    CensusRows(e, d, me);
    SeqsOfVertices(d, me, h.log);
    SeqsOfEdges(d, me, h.log);
    forall v | v in SeqsV(d, me) ensures v !in SeqsE(d, me) { assert h.log[v.sn - 1].VKey?; }
    assert SeqsV(d, me) !! SeqsE(d, me);
  }

  // ── what each mode sees ──────────────────────────────────────────────────────

  /** The origin that allocates here is the local one, from its first committed seq on; no other is. */
  lemma LocalIsTheAuthor(e: Env, me: string, leaves: nat, d: Db, h: History, origin: string)
    requires Ok(e, me, leaves, d, h) && MarkOk(me, d, h) && !h.echo
    ensures origin != me ==> !IsLocal(d, origin)
    ensures h.log != [] ==> IsLocal(d, me)
    ensures IsLocal(d, me) ==> me in d.seqs && d.seqs[me].last == |h.log|
  {
    hide MerkleOk, CountersOk, SidecarsOk, LedgerOk;
  }

  /** What the books of the local origin say, in each mode. */
  lemma BooksRead(e: Env, me: string, leaves: nat, d: Db, h: History, scan: bool)
    requires Ok(e, me, leaves, d, h) && MarkOk(me, d, h) && !h.echo
    ensures var b := SeqAccounting(d, me, scan);
            b.lastSeq == |h.log| && b.vacated == Count(d.counter, Counter(family := Vacated, arg := me)) &&
            b.liveRows == (if scan then |OwnV(d, me)| + |OwnE(d, me)|
                else Count(d.counter, Counter(family := Rows, arg := me))) &&
            b.unaccounted == b.lastSeq - b.liveRows - b.vacated &&
            (b.localOnly <==> me in d.seqs) && (b.insertOnly <==> b.vacated == 0) &&
            (b.balanced <==> if b.localOnly then b.unaccounted == 0 else b.unaccounted >= 0)
  {
    hide Census, MerkleOk, CountersOk, SidecarsOk, SeqsV, SeqsE, LoggedV, LoggedE;
    LiveSeqsAreRows(e, me, d, h);
    CensusRows(e, d, me);
  }

  /** With `scan`, what is unaccounted is exactly the number of local rows that vanished outside
      the accounted write path. */
  lemma ScanFindsEveryLoss(e: Env, me: string, leaves: nat, d: Db, h: History)
    requires Ok(e, me, leaves, d, h) && MarkOk(me, d, h) && !h.echo
    ensures SeqAccounting(d, me, true).unaccounted == h.lost
    ensures SeqAccounting(d, me, true).lastSeq == |h.log|
  {
    hide Census, MerkleOk, CountersOk, SidecarsOk;
    LiveSeqsAreRows(e, me, d, h);
  }

  /** Without `scan`, the books are off by the losses the row counter has been told about. */
  lemma CounterModeSees(e: Env, me: string, leaves: nat, d: Db, h: History)
    requires Ok(e, me, leaves, d, h) && MarkOk(me, d, h) && !h.echo
    ensures SeqAccounting(d, me, false).unaccounted == h.lost - Count(h.drift, Counter(Rows, me))
  {
    hide Census, MerkleOk, SidecarsOk;
  }

  /** The seqs up to `last` that no row holds. */
  function Missing(live: set<Version>, me: string, last: nat): set<nat> {
    set s: nat | 1 <= s <= last && Version(me, s) !in live
  }

  /** The seqs above every row: the tail the mark speaks of and the rows do not. */
  function TailSeqs(obs: nat, last: nat): set<nat> { set s: nat | s <= last && PastRows(s, obs) }

  predicate PastRows(s: nat, obs: nat) { s > obs }

  lemma {:induction false} MissingSize(live: set<Version>, me: string, last: nat)
    requires forall v :: v in live ==> v.origin == me && 1 <= v.sn <= last
    ensures |Missing(live, me, last)| + |live| == last
  {
    if last == 0 {
      assert live == {} && Missing(live, me, 0) == {};
    } else {
      var top: int := last;
      var v := Version(me, top);
      var rest := live - {v};
      MissingSize(rest, me, last - 1);
      var few := Missing(rest, me, last - 1);
      if v in live {
        assert Missing(live, me, last) == few;
      } else {
        assert rest == live && Missing(live, me, last) == few + {last};
      }
    }
  }

  lemma {:induction false} TailSize(obs: nat, last: nat)
    requires obs <= last
    ensures |TailSeqs(obs, last)| == last - obs
    decreases last
  {
    if obs == last {
      assert TailSeqs(obs, last) == {};
    } else {
      TailSize(obs, last - 1);
      assert TailSeqs(obs, last) == TailSeqs(obs, last - 1) + {last};
    }
  }

  /** Every seq that no row holds was vacated or lost, and in an insert-only store each was lost.
      The tail gap counts exactly those of them above the newest row. */
  lemma TailGapIsLost(e: Env, me: string, leaves: nat, d: Db, h: History, obs: nat)
    requires Ok(e, me, leaves, d, h) && MarkOk(me, d, h) && !h.echo
    requires forall v :: v in LiveSeqs(d, me) ==> v.sn <= obs
    requires obs == 0 || exists v :: v in LiveSeqs(d, me) && v.sn == obs
    ensures var last, missing := |h.log|, Missing(LiveSeqs(d, me), me, |h.log|);
            LastSeq(d, me) == last && obs <= last &&
            |missing| == h.lost + Count(d.counter, Counter(Vacated, me)) &&
            |TailSeqs(obs, last)| == last - obs &&
            (forall s :: s in TailSeqs(obs, last) <==> s in missing && s > obs) &&
            (Count(d.counter, Counter(Vacated, me)) == 0 ==> |missing| == h.lost)
  {
    hide Census, MerkleOk, CountersOk, SidecarsOk, LiveSeqs;
    LiveSeqsAreRows(e, me, d, h);
    MissingSize(LiveSeqs(d, me), me, |h.log|);
    TailSize(obs, |h.log|);
  }

  /** The history of a store whose row counter was never repaired after a loss. */
  ghost predicate Unrepaired(me: string, h: History) { Count(h.drift, Counter(Rows, me)) == h.lost }

  lemma RemovalStaysUnrepaired(me: string, h: History, id: string, prev: VRow, accounted: bool)
    requires Unrepaired(me, h)
    ensures Unrepaired(me, RemovedHistory(me, h, id, prev, accounted))
  {
    hide Bump, Count;
  }

  lemma VertexLossStaysUnrepaired(e: Env, me: string, h: History, id: string, row: VRow)
    requires Unrepaired(me, h)
    ensures Unrepaired(me, LostVertexHistory(e, me, h, id, row))
  {
    hide AddNames, Count, VertexNames, XorLeaf;
    VertexRowsName(e, id, row, me);
  }

  lemma EdgeLossStaysUnrepaired(e: Env, me: string, h: History, k: EdgeKey, row: ERow)
    requires Unrepaired(me, h)
    ensures Unrepaired(me, LostEdgeHistory(e, me, h, k, row))
  {
    hide AddNames, Count, EdgeNames, XorLeaf;
    EdgeRowsName(k, row, me);
  }

  // ── the clock of a committed store ───────────────────────────────────────────

  /** The values 1 .. last_seq were each committed once, over both tables: a local row holds one
      of them, and no two local rows, of one table or of two, hold the same one. */
  lemma EachSeqOnce(e: Env, me: string, leaves: nat, d: Db, h: History)
    requires Ok(e, me, leaves, d, h) && MarkOk(me, d, h) && !h.echo
    ensures |h.log| == LastSeq(d, me)
    ensures forall v :: v in LiveSeqs(d, me) ==> 1 <= v.sn <= LastSeq(d, me)
    ensures |LiveSeqs(d, me)| == |OwnV(d, me)| + |OwnE(d, me)|
    ensures |OwnV(d, me)| + |OwnE(d, me)| + Count(d.counter, Counter(Vacated, me)) + h.lost == LastSeq(d, me)
  {
    hide Census, MerkleOk, CountersOk, SidecarsOk, SeqsV, SeqsE, LoggedV, LoggedE;
    LiveSeqsAreRows(e, me, d, h);
    CensusRows(e, d, me);
  }

  /** The durable mark never decreases. */
  lemma MarkGrows(me: string, d0: Db, h0: History, d1: Db, h1: History)
    requires MarkOk(me, d0, h0) && MarkOk(me, d1, h1) && !h1.echo && Evolves(me, d0, h0, d1, h1)
    ensures LastSeq(d0, me) == |h0.log| <= |h1.log| == LastSeq(d1, me) && h1.log[..|h0.log|] == h0.log
  {
    hide KeptV, KeptE;
  }
}
