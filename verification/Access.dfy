/**
 The read decision: public, or reached by the principal's light cone of collections.

 A grant both opens (its grantee reaches the resource) and closes (the resource and all that is
 contained in it stop being public), so that adding one is not obviously monotone for anybody.
 */
module Access {
  import opened Folds
  import opened Attenuation

  const READ := "read"
  const PUBLIC_PRINCIPAL := "public"

  datatype Grant = Grant(resource: string, grantee: string, toUser: bool, active: bool, unexpired: bool, mask: Mask)

  /** The grants in store order, and which collection is the origin parent of which.  Without a
      graph, or without a readable table, no collection has children. */
  datatype Ledger = Ledger(grants: seq<Grant>, kids: set<(string, string)>, graph: bool, readable: bool)

  datatype Artifact = Artifact(id: string, collectionId: string, originRoot: string)

  function Kids(l: Ledger): set<(string, string)> { if l.graph && l.readable then l.kids else {} }

  lemma KidsRead(l: Ledger)
    ensures !l.graph || !l.readable ==> Kids(l) == {}
    ensures l.graph && l.readable ==> Kids(l) == l.kids
  {
  }

  // ── containment ──────────────────────────────────────────────────────────────

  ghost predicate Steps(kids: set<(string, string)>, from: string, to: string, n: nat)
    decreases n
  {
    if n == 0 then from == to else exists mid :: Steps(kids, from, mid, n - 1) && (mid, to) in kids
  }

  /** `to` is `from` or contained in it, at any depth. */
  ghost predicate Under(kids: set<(string, string)>, from: string, to: string) {
    exists n: nat :: Steps(kids, from, to, n)
  }

  lemma UnderSelf(kids: set<(string, string)>, a: string)
    ensures Under(kids, a, a)
  {
    assert Steps(kids, a, a, 0);
  }

  lemma UnderStep(kids: set<(string, string)>, a: string, b: string, c: string)
    requires Under(kids, a, b) && (b, c) in kids
    ensures Under(kids, a, c)
  {
    var n: nat :| Steps(kids, a, b, n);
    assert Steps(kids, a, c, n + 1);
  }

  lemma {:induction false} ClosedUnder(kids: set<(string, string)>, a: string, b: string, n: nat, seen: set<string>)
    requires a in seen && Steps(kids, a, b, n) && forall p :: p in kids && p.0 in seen ==> p.1 in seen
    ensures b in seen
    decreases n
  {
    if n > 0 {
      var mid :| Steps(kids, a, mid, n - 1) && (mid, b) in kids;
      ClosedUnder(kids, a, mid, n - 1, seen);
      assert (mid, b).0 in seen;
    }
  }

  method CollectionChildren(kids: set<(string, string)>, parent: string) returns (rows: seq<string>)
    ensures forall c :: c in rows <==> (parent, c) in kids
  {
    rows := [];
    var rest := kids;
    while rest != {}
      invariant rest <= kids
      invariant forall c :: c in rows <==> (parent, c) in kids - rest
      decreases |rest|
    {
      var p :| p in rest;
      if p.0 == parent { rows := rows + [p.1]; }
      rest := rest - {p};
    }
  }

  function Contained(kids: set<(string, string)>): set<string> { set p | p in kids :: p.1 }

  /** How far the walk has come: `done` are the collections whose children were read. */
  ghost predicate Walked(kids: set<(string, string)>, rid: string, out: seq<string>, seen: set<string>,
                         done: set<string>, frontier: seq<string>) {
    (forall c :: c in seen <==> c == rid || c in out) && rid !in out &&
    (forall c :: c in seen ==> Under(kids, rid, c)) &&
    (forall c :: c in seen <==> c in done || c in frontier) &&
    (forall p :: p in kids && p.0 in done ==> p.1 in seen) &&
    seen <= Contained(kids) + {rid}
  }

  /** The children not seen yet are recorded and queued. */
  method AddNew(children: seq<string>, seen0: set<string>, out0: seq<string>, frontier0: seq<string>)
    returns (seen: set<string>, out: seq<string>, frontier: seq<string>)
    ensures forall c :: c in seen <==> c in seen0 || c in children
    ensures forall c :: c in out <==> c in out0 || (c in children && c !in seen0)
    ensures forall c :: c in frontier <==> c in frontier0 || (c in children && c !in seen0)
    ensures seen == seen0 ==> frontier == frontier0
  {
    seen, out, frontier := seen0, out0, frontier0;
    for i := 0 to |children|
      invariant forall c :: c in seen <==> c in seen0 || c in children[..i]
      invariant forall c :: c in out <==> c in out0 || (c in children[..i] && c !in seen0)
      invariant forall c :: c in frontier <==> c in frontier0 || (c in children[..i] && c !in seen0)
      invariant seen == seen0 ==> frontier == frontier0
    {
      var cid := children[i];
      assert children[..i + 1] == children[..i] + [cid];
      if cid !in seen {
        assert cid in seen + {cid} && cid !in seen0;
        seen := seen + {cid};
        out := out + [cid];
        frontier := frontier + [cid];
      }
    }
    assert children[..|children|] == children;
  }

  lemma WalkedOn(kids: set<(string, string)>, rid: string, out: seq<string>, seen: set<string>, done: set<string>,
                 frontier: seq<string>, children: seq<string>, out1: seq<string>, seen1: set<string>,
                 frontier1: seq<string>)
    requires frontier != [] && Walked(kids, rid, out, seen, done, frontier)
    requires forall c :: c in children <==> (frontier[|frontier| - 1], c) in kids
    requires forall c :: c in seen1 <==> c in seen || c in children
    requires forall c :: c in out1 <==> c in out || (c in children && c !in seen)
    requires forall c :: c in frontier1 <==> c in frontier[..|frontier| - 1] || (c in children && c !in seen)
    ensures Walked(kids, rid, out1, seen1, done + {frontier[|frontier| - 1]}, frontier1)
    ensures seen <= seen1 <= Contained(kids) + {rid}
  {
    hide Under;
    var parent := frontier[|frontier| - 1];
    assert frontier == frontier[..|frontier| - 1] + [parent];
    assert parent in frontier;
    forall c | c in seen1 ensures Under(kids, rid, c) && c in Contained(kids) + {rid} {
      if c !in seen {
        UnderStep(kids, rid, parent, c);
        assert (parent, c) in kids && c == (parent, c).1;
      }
    }
    forall p | p in kids && p.0 in done + {parent} ensures p.1 in seen1 {
      if p.0 == parent { assert p == (parent, p.1); }
    }
  }

  lemma WalkedOut(kids: set<(string, string)>, rid: string, out: seq<string>, seen: set<string>, done: set<string>)
    requires Walked(kids, rid, out, seen, done, [])
    ensures forall c :: c in out <==> c != rid && Under(kids, rid, c)
  {
    forall c | Under(kids, rid, c) ensures c in seen {
      var n: nat :| Steps(kids, rid, c, n);
      assert done == seen;
      ClosedUnder(kids, rid, c, n, seen);
    }
  }

  lemma NothingUnder(rid: string)
    ensures forall c :: Under({}, rid, c) ==> c == rid
  {
    forall c | Under({}, rid, c) ensures c == rid {
      var n: nat :| Steps({}, rid, c, n);
    }
  }

  /** The collections below one: exactly the transitive closure, cycles or not. */
  method Descendants(l: Ledger, rid: string) returns (out: seq<string>)
    ensures forall c :: c in out <==> c != rid && Under(Kids(l), rid, c)
  {
    hide Walked, Contained, Under;
    if !l.graph {
      NothingUnder(rid);
      return [];
    }
    var kids := Kids(l);
    out := [];
    var seen, frontier := {rid}, [rid];
    ghost var done: set<string> := {};
    WalkedStart(kids, rid);
    while frontier != []
      invariant Walked(kids, rid, out, seen, done, frontier)
      decreases |Contained(kids) + {rid} - seen|, |frontier|
    {
      var parent := frontier[|frontier| - 1];
      ghost var out0, seen0, frontier0 := out, seen, frontier;
      var children := CollectionChildren(kids, parent);
      seen, out, frontier := AddNew(children, seen, out, frontier[..|frontier| - 1]);
      WalkedOn(kids, rid, out0, seen0, done, frontier0, children, out, seen, frontier);
      if seen0 != seen { SubsetSize(Contained(kids) + {rid} - seen, Contained(kids) + {rid} - seen0); }
      done := done + {parent};
    }
    WalkedOut(kids, rid, out, seen, done);
  }

  lemma WalkedStart(kids: set<(string, string)>, rid: string)
    ensures Walked(kids, rid, [], {rid}, {}, [rid])
  {
    UnderSelf(kids, rid);
  }

  // ── what grants gate, and what they reach ────────────────────────────────────

  /** A grant that gates: its effect does not matter, a denial is administration too. */
  predicate Gates(g: Grant) { g.active && g.resource != "" && Carries(g.mask, READ) && g.unexpired }

  ghost predicate Gated(l: Ledger, c: string) {
    exists g :: g in l.grants && g.active && g.unexpired && g.resource != "" && Carries(g.mask, READ) &&
                Under(Kids(l), g.resource, c)
  }

  method GatedCollections(l: Ledger) returns (gated: set<string>)
    ensures forall c :: c in gated <==> Gated(l, c)
  {
    hide Under, Kids, Carries;
    gated := {};
    for i := 0 to |l.grants|
      invariant forall c :: c in gated <==> exists g :: g in l.grants[..i] && Gates(g) && Under(Kids(l), g.resource, c)
    {
      var g := l.grants[i];
      assert l.grants[..i + 1] == l.grants[..i] + [g];
      if Gates(g) {
        var below := Descendants(l, g.resource);
        UnderSelf(Kids(l), g.resource);
        gated := gated + {g.resource} + set d | d in below;
      }
    }
    assert l.grants[..|l.grants|] == l.grants;
  }

  /** A grant of the principal that counts for its cone. */
  predicate Counts(g: Grant, p: string) {
    g.grantee == p && g.active && g.toUser && g.resource != "" && g.unexpired
  }

  predicate Denies(g: Grant, p: string, rid: string) {
    Counts(g, p) && g.resource == rid && !IsAllow(g.mask) && Carries(g.mask, READ)
  }

  /** The direct read light cone: allowed, and not denied on the same resource. */
  ghost predicate Seeds(l: Ledger, p: string, rid: string) {
    rid != "" &&
    (exists g :: g in l.grants && ToUser(g, p) && g.resource == rid && Allows(g.mask, READ)) &&
    (forall g :: g in l.grants && ToUser(g, p) && g.resource == rid && Carries(g.mask, READ) ==> IsAllow(g.mask))
  }

  /** An active unexpired grant to the user. */
  predicate ToUser(g: Grant, p: string) {
    g.active && g.unexpired && g.toUser && g.grantee == p
  }

  method GetActiveCollectionIds(l: Ledger, p: string) returns (ids: seq<string>)
    ensures forall rid :: rid in ids <==> Seeds(l, p, rid)
  {
    hide Has, IndexOf, Bit;
    var denied: set<string> := set g | g in l.grants && Counts(g, p) && !IsAllow(g.mask) && Carries(g.mask, READ) ::
        g.resource;
    ids := [];
    for i := 0 to |l.grants|
      invariant forall rid :: rid in ids <==>
        rid !in denied && exists g :: g in l.grants[..i] && Counts(g, p) && g.resource == rid && Allows(g.mask, READ)
    {
      var g := l.grants[i];
      assert l.grants[..i + 1] == l.grants[..i] + [g];
      if Counts(g, p) && Allows(g.mask, READ) && g.resource !in denied { ids := ids + [g.resource]; }
    }
    assert l.grants[..|l.grants|] == l.grants;
    forall rid ensures rid in denied <==> exists g :: g in l.grants && Denies(g, p, rid) {}
  }

  ghost predicate Reaches(l: Ledger, p: string, c: string) {
    p != "" && exists rid :: Seeds(l, p, rid) && Under(Kids(l), rid, c)
  }

  /** A principal's cone of collections; an anonymous caller reaches nothing private. */
  method ReachableCollections(l: Ledger, p: string) returns (out: set<string>)
    ensures forall c :: c in out <==> Reaches(l, p, c)
  {
    hide Under, Kids, Seeds;
    out := {};
    if p == "" { return; }
    var ids := GetActiveCollectionIds(l, p);
    for i := 0 to |ids|
      invariant forall c :: c in out <==> exists rid :: rid in ids[..i] && Under(Kids(l), rid, c)
    {
      assert ids[..i + 1] == ids[..i] + [ids[i]];
      var below := Descendants(l, ids[i]);
      UnderSelf(Kids(l), ids[i]);
      out := out + {ids[i]} + set d | d in below;
    }
    assert ids[..|ids|] == ids;
  }

  // ── the decision ─────────────────────────────────────────────────────────────

  function GroundingOf(art: Artifact): Option<string> {
    if art.collectionId != "" then Some(art.collectionId)
    else if art.originRoot != "" then Some(art.originRoot) else None
  }

  /** The cone of `p` holds the artifact: the collection it names, where it names none its origin
      root, or the artifact itself. */
  ghost predicate InCone(l: Ledger, p: string, art: Artifact) {
    (art.collectionId != "" && Reaches(l, p, art.collectionId)) ||
    (art.collectionId == "" && art.originRoot != "" && Reaches(l, p, art.originRoot)) ||
    Reaches(l, p, art.id)
  }

  ghost predicate BornPublic(l: Ledger, art: Artifact) {
    (art.collectionId != "" ==> !Gated(l, art.collectionId)) &&
    (art.collectionId == "" && art.originRoot != "" ==> !Gated(l, art.originRoot))
  }

  ghost predicate MayRead(l: Ledger, art: Artifact, p: string) {
    BornPublic(l, art) || InCone(l, PUBLIC_PRINCIPAL, art) || InCone(l, p, art)
  }

  method IsMadePublic(l: Ledger, art: Artifact) returns (b: bool)
    ensures b == InCone(l, PUBLIC_PRINCIPAL, art)
  {
    hide Reaches;
    var reach := ReachableCollections(l, PUBLIC_PRINCIPAL);
    var g := GroundingOf(art);
    b := (g.Some? && g.value in reach) || art.id in reach;
  }

  method IsPublic(l: Ledger, art: Artifact) returns (b: bool)
    ensures b <==> BornPublic(l, art) || InCone(l, PUBLIC_PRINCIPAL, art)
  {
    hide Reaches, Gated, InCone;
    var g := GroundingOf(art);
    if g.None? { return true; }
    var gated := GatedCollections(l);
    if g.value !in gated { return true; }
    b := IsMadePublic(l, art);
  }

  /** None is the missing artifact, which nobody reads. */
  method CanRead(l: Ledger, art: Option<Artifact>, p: string) returns (b: bool)
    ensures b <==> art.Some? && MayRead(l, art.value, p)
  {
    hide Reaches, Gated, BornPublic;
    if art.None? { return false; }
    var open := IsPublic(l, art.value);
    if open { return true; }
    var reach := ReachableCollections(l, p);
    var g := GroundingOf(art.value);
    b := (g.Some? && g.value in reach) || art.value.id in reach;
  }

  // ── adding a grant ───────────────────────────────────────────────────────────

  /** The ledger with one grant more, wherever the store lists it. */
  ghost predicate Adds(l: Ledger, n: Grant, l1: Ledger) {
    l1.kids == l.kids && l1.graph == l.graph && l1.readable == l.readable &&
    forall g :: g in l1.grants <==> g in l.grants || g == n
  }

  predicate ReadAllow(n: Grant, p: string) { Counts(n, p) && Allows(n.mask, READ) }

  lemma SeedsOf(l: Ledger, n: Grant, l1: Ledger, p: string, q: string, rid: string)
    requires Adds(l, n, l1) && ReadAllow(n, p)
    ensures Seeds(l1, q, rid) <==>
              Seeds(l, q, rid) || (q == p && rid == n.resource && forall g :: g in l.grants ==> !Denies(g, p, rid))
  {
    hide Carries, IsAllow;
    if Seeds(l1, q, rid) {
      var g :| g in l1.grants && Counts(g, q) && g.resource == rid && Allows(g.mask, READ);
      assert g in l.grants || g == n;
    }
    if q == p && rid == n.resource && forall g :: g in l.grants ==> !Denies(g, p, rid) { assert n in l1.grants; }
    if Seeds(l, q, rid) {
      var g :| g in l.grants && Counts(g, q) && g.resource == rid && Allows(g.mask, READ);
      assert g in l1.grants;
    }
  }

  lemma GatedBy(l: Ledger, n: Grant, l1: Ledger, p: string, c: string)
    requires Adds(l, n, l1) && ReadAllow(n, p)
    ensures Gated(l1, c) <==> Gated(l, c) || Under(Kids(l), n.resource, c)
  {
    hide Carries, IsAllow, Under;
    assert n in l1.grants && Gates(n);
    if Gated(l, c) {
      var g :| g in l.grants && Gates(g) && Under(Kids(l), g.resource, c);
      assert g in l1.grants;
    }
    if Gated(l1, c) {
      var g :| g in l1.grants && Gates(g) && Under(Kids(l1), g.resource, c);
      assert g in l.grants || g == n;
    }
  }

  /** The new grant's whole closure is reached by its grantee, or was gated already: only a denial
      on the same resource keeps it from the grantee, and a denial gates. */
  lemma ClosureReached(l: Ledger, n: Grant, l1: Ledger, p: string, c: string)
    requires Adds(l, n, l1) && ReadAllow(n, p) && p != "" && Under(Kids(l), n.resource, c)
    ensures Reaches(l1, p, c) || Gated(l, c)
  {
    hide Carries, IsAllow, Under, Allows;
    SeedsOf(l, n, l1, p, p, n.resource);
    if g :| g in l.grants && Denies(g, p, n.resource) {
      assert Gates(g) && Under(Kids(l), g.resource, c);
    } else {
      assert Seeds(l1, p, n.resource) && Under(Kids(l1), n.resource, c);
    }
  }

  lemma ReachesMore(l: Ledger, n: Grant, l1: Ledger, p: string, q: string, c: string)
    requires Adds(l, n, l1) && ReadAllow(n, p) && Reaches(l, q, c)
    ensures Reaches(l1, q, c)
  {
    hide Under, Seeds, ReadAllow;
    var rid :| Seeds(l, q, rid) && Under(Kids(l), rid, c);
    SeedsOf(l, n, l1, p, q, rid);
    assert Under(Kids(l1), rid, c);
  }

  lemma InConeMore(l: Ledger, n: Grant, l1: Ledger, p: string, q: string, art: Artifact)
    requires Adds(l, n, l1) && ReadAllow(n, p) && InCone(l, q, art)
    ensures InCone(l1, q, art)
  {
    hide Reaches, ReadAllow;
    if GroundingOf(art).Some? && Reaches(l, q, GroundingOf(art).value) {
      ReachesMore(l, n, l1, p, q, GroundingOf(art).value);
    } else {
      ReachesMore(l, n, l1, p, q, art.id);
    }
  }

  /** Granting a principal Read, on any resource, never takes a read away from it, although the
      resource and all it contains stop being public. */
  lemma GrantNeverHidesFromItsGrantee(l: Ledger, n: Grant, l1: Ledger, p: string, art: Artifact)
    requires Adds(l, n, l1) && ReadAllow(n, p) && p != "" && MayRead(l, art, p)
    ensures MayRead(l1, art, p)
  {
    hide Reaches, ReadAllow, Gated, Under;
    if InCone(l, PUBLIC_PRINCIPAL, art) {
      InConeMore(l, n, l1, p, PUBLIC_PRINCIPAL, art);
    } else if InCone(l, p, art) {
      InConeMore(l, n, l1, p, p, art);
    } else if GroundingOf(art).Some? {
      var g := GroundingOf(art).value;
      GatedBy(l, n, l1, p, g);
      if Gated(l1, g) { ClosureReached(l, n, l1, p, g); }
    }
  }

  lemma OthersReach(l: Ledger, n: Grant, l1: Ledger, p: string, q: string, c: string)
    requires Adds(l, n, l1) && ReadAllow(n, p) && q != p
    ensures Reaches(l1, q, c) <==> Reaches(l, q, c)
  {
    hide Under, Seeds, ReadAllow;
    if Reaches(l, q, c) { ReachesMore(l, n, l1, p, q, c); }
    if Reaches(l1, q, c) {
      var rid :| Seeds(l1, q, rid) && Under(Kids(l1), rid, c);
      SeedsOf(l, n, l1, p, q, rid);
      assert Under(Kids(l), rid, c);
    }
  }

  /** What the same grant, to anyone but the commons, does to everybody else: exactly what was
      public only for want of a grant, and lies in the grant's closure, is hidden. */
  lemma GrantHidesFromOthers(l: Ledger, n: Grant, l1: Ledger, p: string, q: string, art: Artifact)
    requires Adds(l, n, l1) && ReadAllow(n, p) && p != PUBLIC_PRINCIPAL && q != p
    ensures MayRead(l1, art, q) <==>
              InCone(l, PUBLIC_PRINCIPAL, art) || InCone(l, q, art) ||
              (BornPublic(l, art) && (GroundingOf(art).None? || !Under(Kids(l), n.resource, GroundingOf(art).value)))
  {
    hide Reaches, ReadAllow, Gated, Under;
    OthersReach(l, n, l1, p, q, art.id);
    OthersReach(l, n, l1, p, PUBLIC_PRINCIPAL, art.id);
    if GroundingOf(art).Some? {
      var g := GroundingOf(art).value;
      GatedBy(l, n, l1, p, g);
      OthersReach(l, n, l1, p, q, g);
      OthersReach(l, n, l1, p, PUBLIC_PRINCIPAL, g);
    }
  }
}
