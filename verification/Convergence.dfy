/**
 What consuming a segment in another order, in other batches, or twice, leaves behind.
 */
module Convergence {
  import opened Folds
  import opened Tables
  import opened Invariants
  import opened Consume
  import opened Writes

  lemma {:induction false} ArrivalsAre(offers: seq<Offer>, a: Offered<string>)
    ensures a in Arrivals(offers) <==>
            exists o :: o in offers && IdOf(o.doc).Some? && VersionOf(o.doc).Some? && a == OfferedDoc(o.doc)
  {
    if offers != [] {
      var front, last := offers[..|offers| - 1], offers[|offers| - 1];
      ArrivalsAre(front, a);
      assert offers == front + [last];
      if a in Arrivals(offers) && a !in Arrivals(front) { assert last in offers; }
      if a in Arrivals(front) {
        var o :| o in front && IdOf(o.doc).Some? && VersionOf(o.doc).Some? && a == OfferedDoc(o.doc);
        assert o in offers;
      }
    }
  }

  lemma {:induction false} CleanAre(offers: seq<Offer>, o: Offer)
    ensures o in Clean(offers) <==> o in offers && o.fault.NoFault?
  {
    if offers != [] {
      var front, last := offers[..|offers| - 1], offers[|offers| - 1];
      CleanAre(front, o);
      assert offers == front + [last];
    }
  }

  /** The order of the documents that did not fail can matter to no id. */
  ghost predicate OrderFreeBatch(d: Db, offers: seq<Offer>, policy: Policy) {
    OrderFree(VersionsOf(d.vertex), Arrivals(Clean(offers)), policy)
  }

  /** Two stores hold the same (origin, seq) per id, and the vertex part of their digests agrees. */
  ghost predicate SameVertices(e: Env, a: Db, b: Db) {
    VersionsOf(a.vertex) == VersionsOf(b.vertex) &&
    forall i: nat :: XorOver(a.vertex, VertexIn(e, i)) == XorOver(b.vertex, VertexIn(e, i))
  }

  lemma SameVersionsSameDigest(e: Env, leaves: nat, a: Db, b: Db)
    requires Stamped(e, leaves, a) && Stamped(e, leaves, b) && VersionsOf(a.vertex) == VersionsOf(b.vertex)
    ensures SameVertices(e, a, b)
  {
    hide Xor;
    assert a.vertex.Keys == VersionsOf(a.vertex).Keys && b.vertex.Keys == VersionsOf(b.vertex).Keys;
    forall i: nat ensures XorOver(a.vertex, VertexIn(e, i)) == XorOver(b.vertex, VertexIn(e, i)) {
      forall id | id in a.vertex ensures VertexIn(e, i)(id, a.vertex[id]) == VertexIn(e, i)(id, b.vertex[id]) {
        assert VersionsOf(a.vertex)[id] == VersionsOf(b.vertex)[id];
      }
      XorSame(a.vertex, b.vertex, VertexIn(e, i), VertexIn(e, i));
    }
  }

  /** Order, repetition and batching of consumed documents do not matter, nor do the documents
      that failed on the way. */
  lemma AnyOrderSameVertices(e: Env, leaves: nat, d0: Db, h0: History, d1: Db, h1: History, d2: Db, h2: History,
                             os: seq<Offer>, ps: seq<Offer>, policy: Policy, n: nat, m: nat)
    requires Stamped(e, leaves, d1) && Stamped(e, leaves, d2)
    requires ConsumedBatch(e, leaves, d0, h0, d1, h1, os, policy, n) &&
        ConsumedBatch(e, leaves, d0, h0, d2, h2, ps, policy, m)
    requires OrderFreeBatch(d0, os, policy)
    requires forall o: Offer :: o.fault.NoFault? ==> (o in os <==> o in ps)
    ensures SameVertices(e, d1, d2)
  {
    hide ConsumeAll, Accepts, SameVertices;
    forall a ensures a in Arrivals(Clean(os)) <==> a in Arrivals(Clean(ps)) {
      ArrivalsAre(Clean(os), a);
      ArrivalsAre(Clean(ps), a);
      forall o ensures o in Clean(os) <==> o in Clean(ps) { CleanAre(os, o); CleanAre(ps, o); }
    }
    ConsumedVersions(e, leaves, policy, d0.vertex, os);
    ConsumedVersions(e, leaves, policy, d0.vertex, ps);
    SameOffersSameEnd(VersionsOf(d0.vertex), Arrivals(Clean(os)), Arrivals(Clean(ps)), policy);
    SameVersionsSameDigest(e, leaves, d1, d2);
  }

  /** Where the local version stands, no offer changes the origin of a key that is here. */
  lemma {:induction false} OriginStays(vs: map<string, Version>, os: seq<Offered<string>>, policy: Policy, k: string)
    requires policy != TakeRemote && k in vs
    ensures var end := ArriveAll(vs, os, policy); k in end && end[k].origin == vs[k].origin
    decreases |os|
  {
    if os != [] { OriginStays(vs, os[..|os| - 1], policy, k); }
  }

  /** A document refused at its place in a batch is refused after the batch too. */
  lemma RefusedStays(vs: map<string, Version>, os: seq<Offer>, policy: Policy, j: nat, a: Offered<string>)
    requires j < |os| && Refused(ArriveAll(vs, Arrivals(Clean(os[..j])), policy), a, policy)
    ensures Refused(ArriveAll(vs, Arrivals(Clean(os)), policy), a, policy)
  {
    hide ArriveAll;
    var front, rest := os[..j], os[j..];
    assert os == front + rest;
    CleanConcat(front, rest);
    ArrivalsConcat(Clean(front), Clean(rest));
    ArriveConcat(vs, Arrivals(Clean(front)), Arrivals(Clean(rest)), policy);
    OriginStays(ArriveAll(vs, Arrivals(Clean(front)), policy), Arrivals(Clean(rest)), policy, a.key);
  }

  /** After a batch every document of it that did not fail is either refused or seen. */
  lemma ConsumedAreSeen(vs: map<string, Version>, q0: map<string, SeqRow>, q1: map<string, SeqRow>, os: seq<Offer>,
                        policy: Policy, o: Offer)
    requires MarksLeft(vs, q0, q1, os, policy) && o in os && o.fault.NoFault?
    requires IdOf(o.doc).Some? && VersionOf(o.doc).Some?
    requires !Refused(ArriveAll(vs, Arrivals(Clean(os)), policy), OfferedDoc(o.doc), policy)
    ensures Seen(q1, VersionOf(o.doc).value)
  {
    hide ArriveAll, Refused, Accepts, IdOf, VersionOf, Seen;
    var j: nat :| j < |os| && os[j] == o;
    var mid := ArriveAll(vs, Arrivals(Clean(os[..j])), policy);
    if Refused(mid, OfferedDoc(o.doc), policy) { RefusedStays(vs, os, policy, j, OfferedDoc(o.doc)); }
    assert HandledIn(vs, os, policy, j);
  }

  /** Replaying any part of what was consumed moves nothing but conflict counters: no row, no digest,
      no mark. */
  lemma ReplayIsQuiet(e: Env, leaves: nat, d0: Db, h0: History, d1: Db, h1: History, d2: Db, h2: History,
                      os: seq<Offer>, ps: seq<Offer>, policy: Policy, n: nat, m: nat)
    requires leaves > 0
    requires ConsumedBatch(e, leaves, d0, h0, d1, h1, os, policy, n) &&
        ConsumedBatch(e, leaves, d1, h1, d2, h2, ps, policy, m)
    requires OrderFreeBatch(d0, os, policy) && forall o :: o in ps ==> Offer(o.doc, NoFault) in os
    ensures d2 == d1.(counter := d2.counter) && h2.log == h1.log
    ensures forall n: Counter :: !n.family.Conflict? ==> Count(d2.counter, n) == Count(d1.counter, n)
  {
    hide Accepts, ConsumeAll, OrderFreeAt, Refused, Seen, HandledSeen, MarksRise;
    var vs := VersionsOf(d0.vertex);
    ConsumedVersions(e, leaves, policy, d0.vertex, os);
    forall a | a in Arrivals(ps) ensures !Accepts(VersionsOf(d1.vertex), a, policy) {
      ArrivalsAre(ps, a);
      var o :| o in ps && IdOf(o.doc).Some? && VersionOf(o.doc).Some? && a == OfferedDoc(o.doc);
      CleanAre(os, Offer(o.doc, NoFault));
      ArrivalsAre(Clean(os), a);
      assert OrderFreeAt(vs, Arrivals(Clean(os)), policy, a.key);
      ReplayAcceptsNothing(vs, Arrivals(Clean(os)), policy, a);
    }
    forall o | o in ps && IdOf(o.doc).Some? && VersionOf(o.doc).Some? &&
               !Refused(VersionsOf(d1.vertex), OfferedDoc(o.doc), policy)
      ensures Seen(d1.seqs, VersionOf(o.doc).value)
    {
      ConsumedAreSeen(vs, d0.seqs, d1.seqs, os, policy, Offer(o.doc, NoFault));
    }
  }

  // ── edges ────────────────────────────────────────────────────────────────────

  lemma {:induction false} EdgeArrivalsAre(items: seq<EdgeItem>, a: Offered<EdgeKey>)
    ensures a in EdgeArrivals(items) <==>
            exists it :: it in items && EdgeFormed(it.offer, false) && a == OfferedEdge(it.offer)
  {
    if items != [] {
      var front, last := items[..|items| - 1], items[|items| - 1];
      EdgeArrivalsAre(front, a);
      assert items == front + [last];
      if a in EdgeArrivals(items) && a !in EdgeArrivals(front) { assert last in items; }
      if a in EdgeArrivals(front) {
        var it :| it in front && EdgeFormed(it.offer, false) && a == OfferedEdge(it.offer);
        assert it in items;
      }
    }
  }

  lemma {:induction false} CleanEdgesAre(items: seq<EdgeItem>, it: EdgeItem)
    ensures it in CleanEdges(items) <==> it in items && it.fault.NoFault?
  {
    if items != [] {
      var front, last := items[..|items| - 1], items[|items| - 1];
      CleanEdgesAre(front, it);
      assert items == front + [last];
    }
  }

  lemma {:induction false} NothingNewEdges(e: Env, leaves: nat, g: map<EdgeKey, ERow>, items: seq<EdgeItem>)
    requires leaves > 0
    requires forall it :: it in items && EdgeFormed(it.offer, false) ==>
               !Accepts(EdgeVersionsOf(g), OfferedEdge(it.offer), KeepLocal)
    ensures ConsumeEdges(e, leaves, g, items).edge == g
    decreases |items|
  {
    hide Accepts, StoredEdge;
    if items != [] {
      var front, last := items[..|items| - 1], items[|items| - 1];
      assert items == front + [last];
      NothingNewEdges(e, leaves, g, front);
    }
  }

  /** Replaying any part of a consumed segment of edges leaves every edge row as it is. */
  lemma EdgeReplayIsQuiet(e: Env, leaves: nat, g0: map<EdgeKey, ERow>, items: seq<EdgeItem>, again: seq<EdgeItem>)
    requires leaves > 0 && OrderFree(EdgeVersionsOf(g0), EdgeArrivals(CleanEdges(items)), KeepLocal)
    requires forall it :: it in again ==> EdgeItem(it.offer, NoFault) in items
    ensures var g := ConsumeEdges(e, leaves, g0, items).edge;
            ConsumeEdges(e, leaves, g, again).edge == g
  {
    hide Accepts, ConsumeEdges, OrderFreeAt, EdgeArrivals, CleanEdges, ArriveAll;
    var vs, g := EdgeVersionsOf(g0), ConsumeEdges(e, leaves, g0, items).edge;
    EdgeCountIsTheGuard(e, leaves, g0, items);
    forall it | it in again && EdgeFormed(it.offer, false)
      ensures !Accepts(EdgeVersionsOf(g), OfferedEdge(it.offer), KeepLocal)
    {
      var a := OfferedEdge(it.offer);
      CleanEdgesAre(items, EdgeItem(it.offer, NoFault));
      EdgeArrivalsAre(CleanEdges(items), a);
      assert OrderFreeAt(vs, EdgeArrivals(CleanEdges(items)), KeepLocal, a.key);
      ReplayAcceptsNothing(vs, EdgeArrivals(CleanEdges(items)), KeepLocal, a);
    }
    NothingNewEdges(e, leaves, g, again);
  }
}
