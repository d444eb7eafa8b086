/**
 The publish feed, its backlog, and the freshness stamp of a node's edges.

 A feed is read from a table's versions alone, so one text serves the vertex and the edge feed.
 A consumer polls with the last seq it saw while the store goes on writing.
 */
module Feed {
  import opened Folds
  import opened Tables
  import opened Invariants
  import opened Keyset
  import opened Writes

  // ── one page of a feed ───────────────────────────────────────────────────────

  /** The rows of `origin` above `after`. */
  function AuthoredAbove<K>(vs: map<K, Version>, origin: string, after: int): set<K> {
    set k | k in vs && vs[k].origin == origin && vs[k].sn > after
  }

  /** `page` is in seq order, and a row above the cursor that is not on it is no older than any
      row that is, and was left out by the limit. */
  ghost predicate IsFeedPage<K>(vs: map<K, Version>, origin: string, after: int, limit: int, page: seq<K>) {
    (forall i :: 0 <= i < |page| ==> page[i] in vs && vs[page[i]].origin == origin && vs[page[i]].sn > after) &&
    (forall i, j :: 0 <= i < j < |page| ==> page[i] != page[j] && vs[page[i]].sn <= vs[page[j]].sn) &&
    (forall k, i :: k in vs && vs[k].origin == origin && vs[k].sn > after && k !in page && 0 <= i < |page| ==>
        vs[page[i]].sn <= vs[k].sn) &&
    var due := |set k | k in vs && vs[k].origin == origin && vs[k].sn > after|;
    |page| == if limit < 0 || due < limit then due else limit
  }

  method PageByOrigin<K(==)>(vs: map<K, Version>, origin: string, after: int, limit: int) returns (page: seq<K>)
    ensures IsFeedPage(vs, origin, after, limit, page)
  {
    var all := AuthoredAbove(vs, origin, after);
    var rest := all;
    page := [];
    while |page| < SqlLimit(|all|, limit)
      invariant |page| <= SqlLimit(|all|, limit) && |page| + |rest| == |all| && rest <= all
      invariant forall k :: k in all <==> k in rest || k in page
      invariant forall i :: 0 <= i < |page| ==> page[i] in all && page[i] !in rest
      invariant forall i, j :: 0 <= i < j < |page| ==> page[i] != page[j] && vs[page[i]].sn <= vs[page[j]].sn
      invariant forall k, i :: k in rest && 0 <= i < |page| ==> vs[page[i]].sn <= vs[k].sn
      decreases |rest|
    {
      var k := Oldest(vs, rest);
      page := page + [k];
      rest := rest - {k};
    }
  }

  method Oldest<K(==)>(vs: map<K, Version>, rows: set<K>) returns (k: K)
    requires rows != {} && rows <= vs.Keys
    ensures k in rows && forall j :: j in rows ==> vs[k].sn <= vs[j].sn
  {
    k :| k in rows;
    var rest := rows - {k};
    while rest != {}
      invariant rest <= rows && k in rows
      invariant forall j :: j in rows - rest ==> vs[k].sn <= vs[j].sn
      decreases |rest|
    {
      var j :| j in rest;
      if vs[j].sn < vs[k].sn { k := j; }
      rest := rest - {j};
    }
  }

  // ── a consumer that polls ────────────────────────────────────────────────────

  /** What a consumer remembers: its cursor, and at which seq it last received each row. */
  datatype Reader<!K> = Reader(cursor: int, got: map<K, int>)

  function Received<K>(r: Reader<K>, vs: map<K, Version>, page: seq<K>): Reader<K>
    requires forall k :: k in page ==> k in vs
  {
    Reader(if page == [] then r.cursor else vs[page[|page| - 1]].sn, r.got + map k | k in page :: vs[k].sn)
  }

  /** No row at or below the cursor is one the consumer does not hold at that version. */
  ghost predicate CaughtUp<K>(vs: map<K, Version>, me: string, r: Reader<K>) {
    forall k :: k in vs && vs[k].origin == me && vs[k].sn <= r.cursor ==> k in r.got && r.got[k] == vs[k].sn
  }

  /** No two rows of `me` share a seq, and none is above `mark`. */
  ghost predicate Numbered<K>(vs: map<K, Version>, me: string, mark: int) {
    (forall k :: k in vs && vs[k].origin == me ==> vs[k].sn <= mark) &&
    (forall j, k :: j in vs && k in vs && vs[j] == vs[k] && vs[j].origin == me ==> j == k)
  }

  /** Later rows of `me` are at the version they had, or above the old mark. */
  ghost predicate Forward<K>(vs: map<K, Version>, me: string, mark: int, ws: map<K, Version>) {
    forall k :: k in ws && ws[k].origin == me ==> ws[k].sn > mark || (k in vs && vs[k] == ws[k])
  }

  lemma PollKeeps<K>(vs: map<K, Version>, me: string, mark: int, r: Reader<K>, limit: int, page: seq<K>)
    requires Numbered(vs, me, mark) && CaughtUp(vs, me, r) && r.cursor <= mark
    requires IsFeedPage(vs, me, r.cursor, limit, page)
    ensures CaughtUp(vs, me, Received(r, vs, page)) && r.cursor <= Received(r, vs, page).cursor <= mark
  {
    var next := Received(r, vs, page);
    if page != [] {
      var last := page[|page| - 1];
      assert last in page && last in AuthoredAbove(vs, me, r.cursor);
      assert forall k :: k in AuthoredAbove(vs, me, r.cursor) && k !in page ==> vs[last].sn <= vs[k].sn;
      forall k | k in vs && vs[k].origin == me && vs[k].sn <= next.cursor
        ensures k in next.got && next.got[k] == vs[k].sn
      {
        assert vs[k].sn == vs[last].sn ==> vs[k] == vs[last];
      }
    }
  }

  lemma WritesKeep<K>(vs: map<K, Version>, ws: map<K, Version>, me: string, mark: int, r: Reader<K>)
    requires CaughtUp(vs, me, r) && r.cursor <= mark && Forward(vs, me, mark, ws)
    ensures CaughtUp(ws, me, r)
  {
  }

  lemma StoreNumbers(e: Env, me: string, leaves: nat, d: Db, h: History)
    requires Ok(e, me, leaves, d, h) && !h.echo
    ensures Numbered(VersionsOf(d.vertex), me, |h.log|) && Numbered(EdgeVersionsOf(d.edge), me, |h.log|)
  {
    hide MerkleOk, CountersOk, SidecarsOk, Balanced;
    NumberedV(me, d.vertex, h.log);
    NumberedE(me, d.edge, h.log);
  }

  lemma NumberedV(me: string, v: map<string, VRow>, log: seq<RowKey>)
    requires LoggedV(me, v, log)
    ensures Numbered(VersionsOf(v), me, |log|)
  {
    var vs := VersionsOf(v);
    forall j, k | j in vs && k in vs && vs[j] == vs[k] && vs[j].origin == me ensures j == k {
      assert log[v[j].sn - 1] == VKey(j) && log[v[k].sn - 1] == VKey(k);
    }
  }

  lemma NumberedE(me: string, g: map<EdgeKey, ERow>, log: seq<RowKey>)
    requires LoggedE(me, g, log)
    ensures Numbered(EdgeVersionsOf(g), me, |log|)
  {
    var vs := EdgeVersionsOf(g);
    forall j, k | j in vs && k in vs && vs[j] == vs[k] && vs[j].origin == me ensures j == k {
      assert log[g[j].sn - 1] == EKey(j) && log[g[k].sn - 1] == EKey(k);
    }
  }

  lemma StoreMovesForward(me: string, d0: Db, h0: History, d1: Db, h1: History)
    requires Evolves(me, d0, h0, d1, h1) && !h1.echo
    ensures Forward(VersionsOf(d0.vertex), me, |h0.log|, VersionsOf(d1.vertex)) && |h0.log| <= |h1.log|
    ensures Forward(EdgeVersionsOf(d0.edge), me, |h0.log|, EdgeVersionsOf(d1.edge))
  {
  }

  /** What one table is at the times it is polled: numbered apart, and only ever moved forward. */
  ghost predicate FeedStates<K(!new)>(vs: seq<map<K, Version>>, marks: seq<int>, me: string) {
    |marks| == |vs| &&
    (forall i :: 0 <= i < |vs| ==> Numbered(vs[i], me, marks[i])) &&
    (forall i :: 0 < i < |vs| ==> marks[i - 1] <= marks[i] && Forward(vs[i - 1], me, marks[i - 1], vs[i]))
  }

  /** Each poll is answered by the next page after the cursor. */
  ghost predicate Polled<K(!new)>(vs: seq<map<K, Version>>, me: string, rs: seq<Reader<K>>, pages: seq<seq<K>>,
                                  limits: seq<int>) {
    |pages| == |vs| && |limits| == |vs| && |rs| == |vs| + 1 &&
    (forall i :: 0 <= i < |vs| ==> IsFeedPage(vs[i], me, rs[i].cursor, limits[i], pages[i])) &&
    (forall i {:trigger rs[i], pages[i]} :: 0 <= i < |vs| ==>
       (forall k :: k in pages[i] ==> k in vs[i]) && rs[i + 1] == Received(rs[i], vs[i], pages[i]))
  }

  /** The consumer never leaves behind a row at or below its cursor that it did not receive at
      that version, whatever was written between its polls. */
  lemma {:induction false} FeedNeverSkips<K(!new)>(vs: seq<map<K, Version>>, marks: seq<int>, me: string,
      rs: seq<Reader<K>>, pages: seq<seq<K>>, limits: seq<int>, n: nat)
    requires FeedStates(vs, marks, me) && Polled(vs, me, rs, pages, limits) && 0 < n <= |vs|
    requires CaughtUp(vs[0], me, rs[0]) && rs[0].cursor <= marks[0]
    ensures CaughtUp(vs[n - 1], me, rs[n]) && rs[0].cursor <= rs[n].cursor <= marks[n - 1]
    decreases n
  {
    hide CaughtUp, IsFeedPage, Numbered, Forward, Received;
    if n > 1 {
      FeedNeverSkips(vs, marks, me, rs, pages, limits, n - 1);
      WritesKeep(vs[n - 2], vs[n - 1], me, marks[n - 2], rs[n - 1]);
    }
    PollKeeps(vs[n - 1], me, marks[n - 1], rs[n - 1], limits[n - 1], pages[n - 1]);
    assert rs[n - 1 + 1] == Received(rs[n - 1], vs[n - 1], pages[n - 1]);
  }

  // ── the backlog ──────────────────────────────────────────────────────────────

  datatype Bounded = Bounded(n: int, exact: bool)
  datatype Backlog = Backlog(vertex: int, edge: int, total: int, exact: bool)

  /** The vertex term clamps a negative cap to 0; the edge term does not. */
  function CountAfterSeq(d: Db, origin: string, after: int, cap: int): Bounded {
    var c := Max(0, cap);
    var n := SqlLimit(|AuthoredAbove(VersionsOf(d.vertex), origin, after)|, c + 1);
    Bounded(Min(n, c), n <= c)
  }

  function CountEdgesAfter(d: Db, origin: string, after: int, cap: int): Bounded {
    var n := SqlLimit(|AuthoredAbove(EdgeVersionsOf(d.edge), origin, after)|, cap + 1);
    Bounded(Min(n, cap), n <= cap)
  }

  function PendingPublish(d: Db, origin: string, vertexCursor: int, edgeCursor: int, cap: int): Backlog {
    var v, g := CountAfterSeq(d, origin, vertexCursor, cap), CountEdgesAfter(d, origin, edgeCursor, cap);
    Backlog(v.n, g.n, v.n + g.n, v.exact && g.exact)
  }

  /** An exact backlog is the number of authored rows above each table's own cursor; it is inexact
      exactly when one of them passes the cap.  So exact and 0 says that nothing is left.  The edge
      term is negative exactly when the cap is, and is then the cap itself. */
  lemma BacklogIsTheRows(d: Db, origin: string, vc: int, ec: int, cap: int)
    ensures var b := PendingPublish(d, origin, vc, ec, cap);
            var v := set id | id in d.vertex && d.vertex[id].origin == origin && d.vertex[id].sn > vc;
            var g := set k | k in d.edge && d.edge[k].origin == origin && d.edge[k].sn > ec;
            (b.exact <==> |v| <= cap && |g| <= cap) &&
            (b.exact ==> b.vertex == |v| && b.edge == |g| && b.total == |v| + |g|) &&
            (b.exact && b.total == 0 ==> v == {} && g == {}) &&
            (v == {} && g == {} && cap >= 0 ==> b.exact && b.total == 0) &&
            (b.edge < 0 <==> cap < 0) && (cap < 0 ==> b.edge == cap && b.vertex == 0 && !b.exact)
  {
    assert AuthoredAbove(VersionsOf(d.vertex), origin, vc)
        == set id | id in d.vertex && d.vertex[id].origin == origin && d.vertex[id].sn > vc;
    assert AuthoredAbove(EdgeVersionsOf(d.edge), origin, ec)
        == set k | k in d.edge && d.edge[k].origin == origin && d.edge[k].sn > ec;
  }

  /** A feed that answered a poll with less than a full page is drained at its new cursor. */
  lemma DrainedFeed<K>(vs: map<K, Version>, me: string, r: Reader<K>, limit: int, page: seq<K>)
    requires IsFeedPage(vs, me, r.cursor, limit, page) && limit > 0 && |page| < limit
    ensures forall k :: k in vs && vs[k].origin == me ==>
              vs[k].sn <= if page == [] then r.cursor else vs[page[|page| - 1]].sn
  {
    var all := AuthoredAbove(vs, me, r.cursor);
    var onPage := set k | k in page;
    PageSize(page);
    assert onPage <= all && |onPage| == |all|;
    SubsetSize(onPage, all);
    if page != [] {
      var last := page[|page| - 1];
      forall k | k in all ensures vs[k].sn <= vs[last].sn {
        assert k in onPage;
        var i :| 0 <= i < |page| && page[i] == k;
        assert i < |page| - 1 ==> vs[page[i]].sn <= vs[page[|page| - 1]].sn;
      }
      forall k | k in vs && vs[k].origin == me ensures vs[k].sn <= vs[last].sn {
        if vs[k].sn > r.cursor { assert k in all; }
      }
    } else {
      assert all == {};
      forall k | k in vs && vs[k].origin == me ensures vs[k].sn <= r.cursor { assert k !in all; }
    }
  }

  lemma {:induction false} PageSize<K>(page: seq<K>)
    requires forall i, j :: 0 <= i < j < |page| ==> page[i] != page[j]
    ensures |set k | k in page| == |page|
  {
    if page != [] {
      var front, last := page[..|page| - 1], page[|page| - 1];
      PageSize(front);
      assert page == front + [last];
      assert last !in front;
      assert (set k | k in page) == (set k | k in front) + {last};
    } else {
      assert (set k | k in page) == {};
    }
  }

  // ── the stamp of a node's edges ──────────────────────────────────────────────

  /** The edges on one side of a node. */
  function Side(g: map<EdgeKey, ERow>, node: string, out: bool): (side: set<EdgeKey>)
    ensures out ==> side == set k | k in g && k.src == node
    ensures !out ==> side == set k | k in g && k.dst == node
  {
    set k | k in g && (if out then k.src else k.dst) == node
  }

  /** `hi` is the newest seq among `keys`, 0 when there is none above it. */
  ghost predicate Newest(g: map<EdgeKey, ERow>, keys: set<EdgeKey>, hi: int)
    requires keys <= g.Keys
  {
    hi >= 0 && (forall k :: k in keys ==> g[k].sn <= hi) && (hi == 0 || exists k :: k in keys && g[k].sn == hi)
  }

  /** The rows come in no order, so past the cap the second term is the newest of some of them. */
  method EdgeMark(g: map<EdgeKey, ERow>, node: string, out: bool, cap: int)
    returns (degree: int, hi: int, exhaustive: bool)
    ensures exhaustive <==> |Side(g, node, out)| <= Max(0, cap)
    ensures degree == Min(|Side(g, node, out)|, Max(0, cap))
    ensures exhaustive ==> Newest(g, Side(g, node, out), hi)
    ensures exists rows :: rows <= Side(g, node, out) && Newest(g, rows, hi)
  {
    var c := Max(0, cap);
    var side := Side(g, node, out);
    var rest, n := side, 0;
    hi := 0;
    while rest != {} && n < c + 1
      invariant rest <= side && n + |rest| == |side| && n <= c + 1
      invariant Newest(g, side - rest, hi)
      decreases |rest|
    {
      var k :| k in rest;
      if g[k].sn > hi { hi := g[k].sn; }
      rest := rest - {k};
      n := n + 1;
    }
    degree := Min(n, c);
    exhaustive := n <= c;
    if exhaustive { assert side - rest == side; }
  }

  ghost predicate AllLocal(g: map<EdgeKey, ERow>, keys: set<EdgeKey>, me: string)
    requires keys <= g.Keys
  {
    forall k :: k in keys ==> g[k].origin == me
  }

  /** Equal exhaustive marks over locally authored edges: the edges are the same rows, whatever
      adds, updates and deletes ran between the two times. */
  lemma EdgeMarkIsAbaFree(e: Env, me: string, leaves: nat, d0: Db, h0: History, d1: Db, h1: History,
                          node: string, out: bool, hi: int)
    requires Ok(e, me, leaves, d0, h0) && !h1.echo && Evolves(me, d0, h0, d1, h1)
    requires AllLocal(d0.edge, Side(d0.edge, node, out), me) && AllLocal(d1.edge, Side(d1.edge, node, out), me)
    requires |Side(d0.edge, node, out)| == |Side(d1.edge, node, out)|
    requires Newest(d0.edge, Side(d0.edge, node, out), hi) && Newest(d1.edge, Side(d1.edge, node, out), hi)
    ensures Side(d0.edge, node, out) == Side(d1.edge, node, out)
    ensures forall k :: k in Side(d1.edge, node, out) ==> SameEdge(d0.edge[k], d1.edge[k])
  {
    hide MerkleOk, CountersOk, SidecarsOk, Balanced, LoggedV, KeptV;
    var s0, s1 := Side(d0.edge, node, out), Side(d1.edge, node, out);
    assert hi <= |h0.log| by {
      if hi > 0 { var k :| k in s0 && d0.edge[k].sn == hi; assert d0.edge[k].origin == me; }
    }
    forall k | k in s1 ensures k in s0 && SameEdge(d0.edge[k], d1.edge[k]) {
      assert d1.edge[k].origin == me && d1.edge[k].sn <= hi;
    }
    SubsetSize(s1, s0);
  }
}
