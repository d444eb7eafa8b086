/**
 The light cone: the walk down from granted roots and the walk up from an artifact.

 Both prune at the same edges.  The walk down is proved to be reachability by origin paths whose
 composed mask allows the action; the walk up, where every node has at most one origin parent,
 finds exactly the roots whose cone holds the artifact.
 */
module LightCone {
  import opened Folds
  import opened Attenuation

  /** A containment edge as a read returns it. */
  datatype Contains = Contains(src: string, dst: string, isOrigin: bool, propagate: Column)

  /** The containment edges in read order.  A node's read may be clipped at the cap, which is
      raised, or fail otherwise, which is passed over. */
  datatype Graph = Graph(edges: seq<Contains>, clipped: set<string>, unreadable: set<string>,
                         clippedIn: set<string>, unreadableIn: set<string>)

  predicate Skips(g: Graph, node: string) { node in g.unreadable && node !in g.clipped }

  /** An origin edge the walk reads. */
  predicate Origin(g: Graph, c: Contains) { c in g.edges && !Skips(g, c.src) && c.isOrigin && c.dst != "" }

  /** The walk takes an edge that is the canonical one of its far end and whose source can be read; a
      clipped read counts as readable here, since it is raised. */
  lemma OriginReads(g: Graph, c: Contains)
    ensures Origin(g, c) <==>
            c in g.edges && c.isOrigin && c.dst != "" && (c.src in g.unreadable ==> c.src in g.clipped)
  {
  }

  // ── reachability by composed paths ───────────────────────────────────────────

  ghost predicate IsPath(g: Graph, from: string, path: seq<Contains>, to: string) {
    if path == [] then from == to
    else
      var last := path[|path| - 1];
      Origin(g, last) && last.dst == to && IsPath(g, from, path[..|path| - 1], last.src)
  }

  ghost function MasksOf(path: seq<Contains>): seq<Mask> {
    seq(|path|, i requires 0 <= i < |path| => MaskOf(path[i].propagate))
  }

  /** `to` is reached from `from` by a path whose composed mask allows the action. */
  ghost predicate Reached(g: Graph, from: string, to: string, action: string) {
    exists path :: IsPath(g, from, path, to) && Allows(ComposeOf(MasksOf(path)), action)
  }

  ghost predicate Conducts(path: seq<Contains>, action: string) {
    action in ACTIONS && forall c :: c in path ==> Lets(c.propagate, action)
  }

  /** A composed path conducts exactly when each of its edges does. */
  lemma PathConducts(path: seq<Contains>, action: string)
    ensures Allows(ComposeOf(MasksOf(path)), action) <==> Conducts(path, action)
  {
    hide Allows, ComposeOf, Lets, MaskOf, ACTIONS;
    var masks := MasksOf(path);
    ComposeAllows(masks, action);
    forall i | 0 <= i < |path| ensures Allows(masks[i], action) <==> Lets(path[i].propagate, action) {
      MaskLets(path[i].propagate, action);
    }
    if forall m :: m in masks ==> Allows(m, action) {
      forall c | c in path ensures Lets(c.propagate, action) {
        var i :| 0 <= i < |path| && path[i] == c;
        assert masks[i] in masks;
      }
    }
    if forall c :: c in path ==> Lets(c.propagate, action) {
      forall m | m in masks ensures Allows(m, action) {
        var i :| 0 <= i < |masks| && masks[i] == m;
        assert path[i] in path;
      }
    }
  }

  lemma ReachedStart(g: Graph, node: string, action: string)
    ensures Reached(g, node, node, action) <==> action in ACTIONS || exists path ::
        IsPath(g, node, path, node) && Conducts(path, action)
  {
    hide Allows, ComposeOf, Lets, MaskOf, ACTIONS;
    if action in ACTIONS {
      PathConducts([], action);
      assert IsPath(g, node, [], node);
    }
    forall path
      ensures Allows(ComposeOf(MasksOf(path)), action) <==> Conducts(path, action)
    {
      PathConducts(path, action);
    }
  }

  lemma ReachedMore(g: Graph, from: string, c: Contains, action: string)
    requires Reached(g, from, c.src, action) && Origin(g, c) && Lets(c.propagate, action)
    ensures Reached(g, from, c.dst, action)
  {
    hide Allows, ComposeOf, Lets, MaskOf, MasksOf, Origin;
    var path :| IsPath(g, from, path, c.src) && Allows(ComposeOf(MasksOf(path)), action);
    PathConducts(path, action);
    var longer := path + [c];
    assert longer[..|longer| - 1] == path;
    PathConducts(longer, action);
  }

  /** A set that holds the start and every conducting step out of itself holds all that is reached. */
  lemma {:induction false} ClosedHolds(g: Graph, from: string, path: seq<Contains>, to: string, action: string,
                                       seen: set<string>)
    requires from in seen && IsPath(g, from, path, to) && Conducts(path, action)
    requires forall c :: Origin(g, c) && Lets(c.propagate, action) && c.src in seen ==> c.dst in seen
    ensures to in seen
    decreases |path|
  {
    hide Lets, Origin, ACTIONS;
    if path != [] {
      var front, last := path[..|path| - 1], path[|path| - 1];
      forall c | c in front ensures Lets(c.propagate, action) { assert c in path; }
      ClosedHolds(g, from, front, last.src, action, seen);
      assert last in path;
    }
  }

  lemma ReachedPath(g: Graph, from: string, to: string, action: string) returns (path: seq<Contains>)
    requires Reached(g, from, to, action)
    ensures IsPath(g, from, path, to) && Conducts(path, action)
  {
    hide Allows, ComposeOf, MasksOf, IsPath, Conducts;
    path :| IsPath(g, from, path, to) && Allows(ComposeOf(MasksOf(path)), action);
    PathConducts(path, action);
  }

  lemma ReachedHeld(g: Graph, from: string, to: string, action: string, seen: set<string>)
    requires from in seen && Reached(g, from, to, action)
    requires forall c :: Origin(g, c) && Lets(c.propagate, action) && c.src in seen ==> c.dst in seen
    ensures to in seen
  {
    hide Allows, ComposeOf, Lets, MaskOf, MasksOf, Origin, Conducts;
    var path := ReachedPath(g, from, to, action);
    ClosedHolds(g, from, path, to, action, seen);
  }

  // ── the walk down ────────────────────────────────────────────────────────────

  ghost predicate ReachedFromAny(g: Graph, roots: seq<string>, to: string, action: string) {
    exists r :: r in roots && Reached(g, r, to, action)
  }

  function Targets(g: Graph): set<string> { set c | c in g.edges :: c.dst }

  predicate LeadsOut(g: Graph, c: Contains, node: string, action: string, seen: set<string>) {
    c.src == node && Origin(g, c) && Lets(c.propagate, action) && c.dst !in seen
  }

  function NewAmong(g: Graph, edges: seq<Contains>, node: string, action: string, seen: set<string>): set<string> {
    set c | c in edges && LeadsOut(g, c, node, action, seen) :: c.dst
  }

  /** What expanding a node adds: the far ends of its conducting edges that were not seen. */
  function NewFrom(g: Graph, node: string, action: string, seen: set<string>): set<string> {
    NewAmong(g, g.edges, node, action, seen)
  }

  lemma NewOneMore(g: Graph, i: nat, node: string, action: string, seen: set<string>)
    requires i < |g.edges|
    ensures NewAmong(g, g.edges[..i + 1], node, action, seen) ==
            NewAmong(g, g.edges[..i], node, action, seen) +
            if LeadsOut(g, g.edges[i], node, action, seen) then {g.edges[i].dst} else {}
  {
    hide LeadsOut;
    assert g.edges[..i + 1] == g.edges[..i] + [g.edges[i]];
  }

  lemma NewNone(g: Graph, node: string, action: string, seen: set<string>)
    ensures NewAmong(g, g.edges[..0], node, action, seen) == {}
    ensures NewAmong(g, g.edges[..|g.edges|], node, action, seen) == NewFrom(g, node, action, seen)
  {
    assert g.edges[..|g.edges|] == g.edges;
  }

  /** The edges of one node, in read order: seen, out and the next level take what is new. */
  method Expand(g: Graph, node: string, action: string, seen0: set<string>, out0: set<string>, nxt0: seq<string>)
    returns (seen: set<string>, out: set<string>, nxt: seq<string>)
    requires !Skips(g, node)
    ensures seen == seen0 + NewFrom(g, node, action, seen0) && out == out0 + NewFrom(g, node, action, seen0)
    ensures forall x :: x in nxt <==> x in nxt0 || x in NewFrom(g, node, action, seen0)
    ensures nxt == nxt0 <==> NewFrom(g, node, action, seen0) == {}
  {
    hide Lets, ACTIONS, NewAmong, NewFrom, Skips;
    seen, out, nxt := seen0, out0, nxt0;
    NewNone(g, node, action, seen0);
    for i := 0 to |g.edges|
      invariant seen == seen0 + NewAmong(g, g.edges[..i], node, action, seen0)
      invariant out == out0 + NewAmong(g, g.edges[..i], node, action, seen0)
      invariant forall x :: x in nxt <==> x in nxt0 || x in NewAmong(g, g.edges[..i], node, action, seen0)
      invariant |nxt| >= |nxt0| && (|nxt| == |nxt0| <==> NewAmong(g, g.edges[..i], node, action, seen0) == {})
      invariant |nxt| == |nxt0| ==> nxt == nxt0
    {
      var e := g.edges[i];
      NewOneMore(g, i, node, action, seen0);
      if e.src == node && e.isOrigin {
        var passes := Propagates(e.propagate, action);
        if passes && e.dst != "" && e.dst !in seen {
          seen, out, nxt := seen + {e.dst}, out + {e.dst}, nxt + [e.dst];
        }
      }
    }
  }

  /** How far the walk has come: `done` are the nodes expanded. */
  ghost predicate WalkedTo(g: Graph, roots: seq<string>, action: string, done: set<string>, seen: set<string>,
                           out: set<string>) {
    seen == (set r | r in roots) + out && out !! (set r | r in roots) && done <= seen && out <= Targets(g) &&
    (forall x :: x in out ==> ReachedFromAny(g, roots, x, action)) &&
    (forall c :: Origin(g, c) && Lets(c.propagate, action) && c.src in done ==> c.dst in seen) &&
    done !! g.clipped
  }

  lemma WalkStart(g: Graph, roots: seq<string>, action: string)
    ensures WalkedTo(g, roots, action, {}, set r | r in roots, {})
  {
  }

  lemma WalkStep(g: Graph, roots: seq<string>, action: string, done: set<string>, seen: set<string>, out: set<string>,
                 node: string)
    requires WalkedTo(g, roots, action, done, seen, out) && node in seen && node !in g.clipped
    ensures var later := NewFrom(g, node, action, seen);
            WalkedTo(g, roots, action, done + {node}, seen + later, out + later)
  {
    hide Lets, Reached, Origin, ACTIONS;
    var later := NewFrom(g, node, action, seen);
    forall x | x in later ensures ReachedFromAny(g, roots, x, action) && x in Targets(g) {
      var c :| c in g.edges && LeadsOut(g, c, node, action, seen) && c.dst == x;
      LetsKnown(c.propagate, action);
      if node !in out { ReachedStart(g, node, action); }
      var r :| r in roots && Reached(g, r, node, action);
      ReachedMore(g, r, c, action);
    }
    forall c | Origin(g, c) && Lets(c.propagate, action) && c.src in done + {node} ensures c.dst in seen + later {
      if c.src == node { OriginListed(g, c); assert c.dst in seen || LeadsOut(g, c, node, action, seen); }
    }
  }

  lemma OriginListed(g: Graph, c: Contains)
    requires Origin(g, c)
    ensures c in g.edges
  {
  }

  lemma LetsKnown(c: Column, action: string)
    requires Lets(c, action)
    ensures action in ACTIONS
  {
  }

  lemma WalkEnd(g: Graph, roots: seq<string>, action: string, seen: set<string>, out: set<string>)
    requires WalkedTo(g, roots, action, seen, seen, out)
    ensures forall x :: x in out <==> x !in roots && ReachedFromAny(g, roots, x, action)
    ensures forall n :: n in roots || ReachedFromAny(g, roots, n, action) ==> n !in g.clipped
  {
    hide Lets, Reached, Origin, ACTIONS;
    forall x | ReachedFromAny(g, roots, x, action) ensures x in seen {
      var r :| r in roots && Reached(g, r, x, action);
      ReachedHeld(g, r, x, action, seen);
    }
  }

  /** BFS from the roots, level by level.  None is a clipped read, which must travel: the answer
      would be quietly smaller than the graph supports. */
  method ListOriginDescendants(g: Graph, roots: seq<string>, action: string) returns (cone: Option<set<string>>)
    ensures cone.Some? ==> forall x :: x in cone.value <==> x !in roots && ReachedFromAny(g, roots, x, action)
    ensures cone.None? <==> exists n :: n in g.clipped && (n in roots || ReachedFromAny(g, roots, n, action))
  {
    hide WalkedTo, ReachedFromAny, NewFrom;
    WalkStart(g, roots, action);
    ghost var done: set<string> := {};
    var seen, out: set<string> := set r | r in roots, {};
    var frontier := roots;
    while frontier != []
      invariant WalkedTo(g, roots, action, done, seen, out)
      invariant forall x :: x in seen <==> x in done || x in frontier
      decreases |Targets(g) - out|, |frontier|
    {
      var nxt: seq<string> := [];
      ghost var done0, out0 := done, out;
      for i := 0 to |frontier|
        invariant WalkedTo(g, roots, action, done, seen, out)
        invariant forall x :: x in seen <==> x in done || x in frontier[i..] || x in nxt
        invariant forall x :: x in frontier ==> x in seen
        invariant out0 <= out && (nxt != [] ==> out0 < out) && (nxt == [] ==> out == out0)
      {
        var node := frontier[i];
        assert frontier[i..] == [node] + frontier[i + 1..];
        assert node in frontier;
        if node in g.clipped {
          SeenIsReached(g, roots, action, done, seen, out, node);
          return None;
        }
        ghost var seen1, out1 := seen, out;
        WalkStep(g, roots, action, done, seen, out, node);
        if !Skips(g, node) {
          seen, out, nxt := Expand(g, node, action, seen, out, nxt);
          NewAreNew(g, roots, action, done, seen1, out1, node);
        } else {
          SkippedGivesNone(g, node, action, seen);
        }
        done := done + {node};
      }
      if nxt != [] { OutGrows(g, roots, action, done, seen, out0, out); }
      frontier := nxt;
    }
    assert done == seen by { DoneBelow(g, roots, action, done, seen, out); }
    WalkEnd(g, roots, action, seen, out);
    cone := Some(out);
  }

  lemma SeenIsReached(g: Graph, roots: seq<string>, action: string, done: set<string>, seen: set<string>,
                      out: set<string>, node: string)
    requires WalkedTo(g, roots, action, done, seen, out) && node in seen
    ensures node in roots || ReachedFromAny(g, roots, node, action)
  {
  }

  lemma NewAreNew(g: Graph, roots: seq<string>, action: string, done: set<string>, seen: set<string>,
                  out: set<string>, node: string)
    requires WalkedTo(g, roots, action, done, seen, out)
    ensures NewFrom(g, node, action, seen) !! seen && NewFrom(g, node, action, seen) !! out
  {
  }

  lemma SkippedGivesNone(g: Graph, node: string, action: string, seen: set<string>)
    requires Skips(g, node)
    ensures NewFrom(g, node, action, seen) == {} && seen + {} == seen
  {
  }

  lemma DoneBelow(g: Graph, roots: seq<string>, action: string, done: set<string>, seen: set<string>, out: set<string>)
    requires WalkedTo(g, roots, action, done, seen, out)
    ensures done <= seen && out <= Targets(g)
  {
  }

  lemma OutGrows(g: Graph, roots: seq<string>, action: string, done: set<string>, seen: set<string>,
                 out0: set<string>, out: set<string>)
    requires WalkedTo(g, roots, action, done, seen, out) && out0 < out
    ensures |Targets(g) - out| < |Targets(g) - out0|
  {
    var x :| x in out && x !in out0;
    assert Targets(g) - out <= Targets(g) - out0 - {x};
    SubsetSize(Targets(g) - out, Targets(g) - out0 - {x});
  }

  // ── the walk up ──────────────────────────────────────────────────────────────

  datatype Parent = IsRoot | Above(id: string, propagate: Column) | ClippedRead

  /** The first origin edge into a node, in read order. */
  function FirstOrigin(edges: seq<Contains>, node: string): Option<Contains> {
    if edges == [] then None
    else if edges[0].dst == node && edges[0].isOrigin then Some(edges[0])
    else FirstOrigin(edges[1..], node)
  }

  function GetOriginParent(g: Graph, node: string): Parent {
    if node in g.clippedIn then ClippedRead
    else if node in g.unreadableIn then IsRoot
    else match FirstOrigin(g.edges, node)
         case None => IsRoot
         case Some(c) => Above(c.src, c.propagate)
  }

  /** The parent the action can be carried from, if there is one. */
  function Up(g: Graph, node: string, action: string): Option<string> {
    match GetOriginParent(g, node)
    case Above(id, column) => if id != "" && Lets(column, action) then Some(id) else None
    case _ => None
  }

  datatype ChainEnd = Complete | Unterminated | Raised

  /** Each id after `start` is the conducting parent of the one before it; a complete chain ends
      where there is none, or where it would repeat itself. */
  ghost predicate Climb(g: Graph, action: string, chain: seq<string>, start: nat, end: ChainEnd) {
    start < |chain| &&
    (forall i, j :: 0 <= i < j < |chain| ==> chain[i] != chain[j]) &&
    (forall i :: start < i < |chain| ==> Up(g, chain[i - 1], action) == Some(chain[i])) &&
    (end.Complete? ==> Up(g, chain[|chain| - 1], action).None? || Up(g, chain[|chain| - 1], action).value in chain)
  }

  /** The climb from the artifact through conducting parents, and how it ended. */
  method OriginChain(g: Graph, artifact: string, action: string, rootId: string, docRoot: string, ceiling: nat)
    returns (chain: seq<string>, end: ChainEnd)
    ensures var cursor := if rootId != "" then rootId else if docRoot != "" then docRoot else artifact;
            var start := if cursor == artifact then 0 else 1;
            chain != [] && chain[0] == artifact && Climb(g, action, chain, start, end) && chain[start] == cursor
    ensures end.Unterminated? ==> |chain| > ceiling
    ensures end.Complete? ==> |chain| <= ceiling
    ensures end.Raised? <==> |chain| <= ceiling && chain[|chain| - 1] in g.clippedIn
  {
    hide Lets, ACTIONS;
    var first := artifact;
    chain := [first];
    var cursor := if rootId != "" then rootId else if docRoot != "" then docRoot else first;
    if cursor != first { chain := chain + [cursor]; }
    ghost var start := |chain| - 1;
    while true
      invariant chain != [] && chain[0] == artifact && start < |chain| && cursor == chain[|chain| - 1]
      invariant Climb(g, action, chain, start, Unterminated)
      invariant chain[start] == (if rootId != "" then rootId else if docRoot != "" then docRoot else artifact)
      decreases ceiling + 1 - |chain|
    {
      if |chain| > ceiling { return chain, Unterminated; }
      match GetOriginParent(g, cursor) {
        case ClippedRead => return chain, Raised;
        case IsRoot => return chain, Complete;
        case Above(parent, column) =>
          if parent == "" { return chain, Complete; }
          var passes := Propagates(column, action);
          if parent in chain { return chain, Complete; }
          if !passes { return chain, Complete; }
          chain := chain + [parent];
          cursor := parent;
      }
    }
  }

  // ── the two walks agree ──────────────────────────────────────────────────────

  /** Every read succeeds, no edge has an empty end, and no node has two origin parents. */
  ghost predicate OneParent(g: Graph) {
    g.clipped == {} && g.unreadable == {} && g.clippedIn == {} && g.unreadableIn == {} &&
    (forall c :: c in g.edges ==> c.src != "" && c.dst != "") &&
    (forall c, d :: c in g.edges && d in g.edges && c.isOrigin && d.isOrigin && c.dst == d.dst ==> c == d)
  }

  lemma {:induction false} FirstOriginIs(edges: seq<Contains>, node: string)
    ensures FirstOrigin(edges, node).Some? ==>
              FirstOrigin(edges, node).value in edges && FirstOrigin(edges, node).value.isOrigin &&
              FirstOrigin(edges, node).value.dst == node
    ensures forall c :: c in edges && c.isOrigin && c.dst == node ==> FirstOrigin(edges, node).Some?
  {
    if edges != [] {
      FirstOriginIs(edges[1..], node);
      assert forall c :: c in edges <==> c == edges[0] || c in edges[1..];
    }
  }

  /** The parent of a node is the source of the first origin edge into it; none where the read
      failed, and a clipped read is neither. */
  lemma ParentReads(g: Graph, node: string)
    ensures GetOriginParent(g, node).ClippedRead? <==> node in g.clippedIn
    ensures GetOriginParent(g, node).Above? <==>
              node !in g.clippedIn && node !in g.unreadableIn && exists c :: c in g.edges && c.isOrigin && c.dst == node
    ensures GetOriginParent(g, node).Above? ==>
              exists i :: 0 <= i < |g.edges| && FirstInto(g.edges, node, i) &&
                GetOriginParent(g, node) == Above(id := g.edges[i].src, propagate := g.edges[i].propagate)
  {
    FirstOriginIs(g.edges, node);
    FirstOriginAt(g.edges, node);
    if GetOriginParent(g, node).Above? {
      var i :| 0 <= i < |g.edges| && FirstInto(g.edges, node, i) && FirstOrigin(g.edges, node) == Some(g.edges[i]);
      assert GetOriginParent(g, node) == Above(id := g.edges[i].src, propagate := g.edges[i].propagate);
    }
  }

  predicate FirstInto(edges: seq<Contains>, node: string, i: nat)
    requires i < |edges|
  {
    edges[i].isOrigin && edges[i].dst == node &&
    forall j :: 0 <= j < i ==> !(edges[j].isOrigin && edges[j].dst == node)
  }

  lemma {:induction false} FirstOriginAt(edges: seq<Contains>, node: string)
    ensures FirstOrigin(edges, node).Some? ==>
              exists i :: 0 <= i < |edges| && FirstInto(edges, node, i) && FirstOrigin(edges, node) == Some(edges[i])
  {
    if edges != [] {
      if edges[0].dst == node && edges[0].isOrigin {
        assert FirstInto(edges, node, 0);
      } else {
        FirstOriginAt(edges[1..], node);
        if FirstOrigin(edges, node).Some? {
          var i :| 0 <= i < |edges[1..]| && FirstInto(edges[1..], node, i) &&
              FirstOrigin(edges[1..], node) == Some(edges[1..][i]);
          forall j | 0 <= j < i + 1 ensures !(edges[j].isOrigin && edges[j].dst == node) {
            if j > 0 { assert edges[1..][j - 1] == edges[j]; }
          }
          assert edges[i + 1] == edges[1..][i];
          assert FirstInto(edges, node, i + 1);
        }
      }
    }
  }

  /** With one parent each, the conducting edges into a node are the step up from it. */
  lemma UpIsTheEdge(g: Graph, node: string, action: string)
    requires OneParent(g)
    ensures forall c :: Origin(g, c) && Lets(c.propagate, action) && c.dst == node ==>
        Up(g, node, action) == Some(c.src)
    ensures Up(g, node, action).Some? ==>
              exists c ::
                  Origin(g, c) && Lets(c.propagate, action) && c.dst == node && c.src == Up(g, node, action).value
  {
    hide Lets, ACTIONS;
    FirstOriginIs(g.edges, node);
    if Up(g, node, action).Some? {
      var c := FirstOrigin(g.edges, node).value;
      assert Origin(g, c);
    }
  }

  lemma {:induction false} PathPrepend(g: Graph, c: Contains, path: seq<Contains>, to: string)
    requires Origin(g, c) && IsPath(g, c.dst, path, to)
    ensures IsPath(g, c.src, [c] + path, to)
    decreases |path|
  {
    hide Origin;
    var all := [c] + path;
    if path == [] {
      assert all[..|all| - 1] == [];
    } else {
      var front := path[..|path| - 1];
      PathPrepend(g, c, front, path[|path| - 1].src);
      assert all[..|all| - 1] == [c] + front;
    }
  }

  lemma ReachedBefore(g: Graph, c: Contains, to: string, action: string)
    requires Origin(g, c) && Lets(c.propagate, action) && Reached(g, c.dst, to, action)
    ensures Reached(g, c.src, to, action)
  {
    hide Allows, ComposeOf, Lets, MaskOf, MasksOf, Origin, IsPath;
    var path :| IsPath(g, c.dst, path, to) && Allows(ComposeOf(MasksOf(path)), action);
    PathConducts(path, action);
    PathPrepend(g, c, path, to);
    PathConducts([c] + path, action);
  }

  /** Everything on the chain reaches the point the climb began at. */
  lemma {:induction false} ChainReaches(g: Graph, action: string, chain: seq<string>, start: nat, end: ChainEnd, i: nat)
    requires OneParent(g) && Climb(g, action, chain, start, end) && start <= i < |chain| &&
        (start < i || action in ACTIONS)
    ensures Reached(g, chain[i], chain[start], action)
    decreases i
  {
    hide Lets, Reached, Origin, OneParent, ACTIONS, Up;
    if i == start {
      ReachedStart(g, chain[start], action);
    } else {
      assert Up(g, chain[i - 1], action) == Some(chain[i]);
      UpIsTheEdge(g, chain[i - 1], action);
      var c :| Origin(g, c) && Lets(c.propagate, action) && c.dst == chain[i - 1] && c.src == chain[i];
      LetsKnown(c.propagate, action);
      ChainReaches(g, action, chain, start, end, i - 1);
      ReachedBefore(g, c, chain[start], action);
    }
  }

  /** A complete chain holds whatever reaches a point on it. */
  lemma {:induction false} ChainHolds(g: Graph, action: string, chain: seq<string>, from: string, path: seq<Contains>,
                                      to: string)
    requires OneParent(g) && Climb(g, action, chain, 0, Complete)
    requires IsPath(g, from, path, to) && Conducts(path, action) && to in chain
    ensures from in chain
    decreases |path|
  {
    hide Lets, Origin, OneParent, ACTIONS, Up;
    if path != [] {
      var front, last := path[..|path| - 1], path[|path| - 1];
      assert last in path;
      forall c | c in front ensures Lets(c.propagate, action) { assert c in path; }
      UpIsTheEdge(g, to, action);
      var i :| 0 <= i < |chain| && chain[i] == to;
      assert last.src in chain by {
        if i + 1 < |chain| { assert Up(g, chain[i + 1 - 1], action) == Some(chain[i + 1]); }
      }
      ChainHolds(g, action, chain, from, front, last.src);
    }
  }

  /** Walk up and walk down agree: a root is on the artifact's chain exactly when it is the
      artifact itself or its cone holds the artifact. */
  lemma WalksAgree(g: Graph, x: string, action: string, chain: seq<string>, r: string, cone: set<string>)
    requires OneParent(g) && chain != [] && chain[0] == x && Climb(g, action, chain, 0, Complete)
    requires forall y :: y in cone <==> y !in [r] && ReachedFromAny(g, [r], y, action)
    ensures r in chain <==> r == x || x in cone
  {
    hide Climb, OneParent, IsPath, Conducts, Allows;
    if r in chain && r != x {
      ClimbLinks(g, action, chain, r);
      assert ReachedFromAny(g, [r], x, action);
    }
    if x in cone {
      assert Reached(g, r, x, action);
      var path := ReachedPath(g, r, x, action);
      assert chain[0] in chain;
      ChainHolds(g, action, chain, r, path, x);
    }
  }

  lemma ClimbLinks(g: Graph, action: string, chain: seq<string>, r: string)
    requires OneParent(g) && Climb(g, action, chain, 0, Complete) && r in chain && r != chain[0]
    ensures Reached(g, r, chain[0], action)
  {
    hide OneParent, Reached;
    var i :| 0 <= i < |chain| && chain[i] == r;
    ChainReaches(g, action, chain, 0, Complete, i);
  }
}
