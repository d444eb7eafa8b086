/**
 Whole runs of the store: any sequence of operations from a fresh store, with failed documents,
 aborted transactions, consumed rows, evictions and rows that vanish outside the write path.
 */
module Runs {
  import opened Folds
  import opened Tables
  import opened Invariants
  import opened Steps
  import opened Consume
  import opened Writes
  import opened Lattice
  import Pool
  import Relabel
  import Maintenance
  import opened Accounting
  import Feed

  datatype Op =
    | Put(doc: Doc, stampRev: bool, newVersion: bool, fault: bool)
    | PutBatch(offers: seq<Offer>, batch: int, stampRev: bool, policy: Policy)
    | AddEdges(items: seq<EdgeItem>, stampRev: bool)
    | Remove(id: string, accounted: bool)
    | RemoveEdge(key: EdgeKey)
    | RelabelLive(state: string, batch: int, limit: Option<int>, exclude: Option<string>)
    | Claim(id: string, worker: string, now: Value)
    | Renew(id: string, now: Value)
    | Release(id: string, to: string, nextRetry: Value)
    | Settle(id: string, worker: string, to: string, nextRetry: Value, completedAt: Value, fields: Doc)
    | Rebuild
    | Repair
    | Reshard(target: nat, page: nat)
    | VanishVertex(id: string)
    | VanishEdge(key: EdgeKey)

  /** What the operations ask of their callers, and under which the store keeps its invariants. */
  predicate Fits(op: Op) {
    match op
    case RelabelLive(state, _, _, _) => state in Relabel.LEGACY_LIVE_STATES
    case Release(_, to, _) => to != ""
    case Settle(_, _, to, _, _, fields) => to != "" && Pool.DocOnly(fields)
    case Reshard(target, page) => target > 0 && page > 0
    case _ => true
  }

  predicate Vanishing(op: Op) { op.VanishVertex? || op.VanishEdge? }
  predicate Evicting(op: Op) { op.Remove? && !op.accounted }

  /** No consumed row of the operation claims the local origin. */
  predicate Peers(op: Op, me: string) {
    match op
    case Put(doc, stampRev, _, _) => stampRev || Foreign(doc, me)
    case PutBatch(offers, _, stampRev, _) => stampRev || AllForeign(offers, me)
    case AddEdges(items, stampRev) => stampRev || AllForeignEdges(items, me)
    case _ => true
  }

  /** What an operation does to the books: only a loss or an eviction of a row that is there adds
      to them, and each by the row it takes out.  Only a write of documents, a removal of one, or
      the pool itself may move a task. */
  ghost predicate Effect(e: Env, me: string, op: Op, d0: Db, h0: History, d1: Db, h1: History) {
    match op
    case Put(_, _, _, _) => SameLosses(h0, h1, Peers(op, me))
    case PutBatch(_, _, _, _) => SameLosses(h0, h1, Peers(op, me))
    case AddEdges(_, _) => d1.vertex == d0.vertex && d1.task == d0.task && SameLosses(h0, h1, Peers(op, me))
    case Remove(id, accounted) =>
      d1.vertex == d0.vertex - {id} &&
      h1 == if id in d0.vertex then RemovedHistory(me, h0, id, d0.vertex[id], accounted) else h0
    case RemoveEdge(k) => d1.vertex == d0.vertex && d1.edge == d0.edge - {k} && d1.task == d0.task && h1 == h0
    case RelabelLive(_, _, _, _) => d1 == d0.(vertex := d1.vertex, counter := d1.counter) && h1 == h0
    case Rebuild => d1 == d0.(digests := d1.digests) && h1 == Maintenance.Rebuilt(h0)
    case Repair => d1 == d0.(counter := d1.counter) && h1 == Maintenance.Audited(h0)
    case Reshard(_, _) =>
      d1 == d0.(vertex := d1.vertex, edge := d1.edge, digests := d1.digests) &&
      (h1 == h0 || h1 == Maintenance.Rebuilt(h0))
    case VanishVertex(id) =>
      d1 == d0.(vertex := d0.vertex - {id}) &&
      h1 == if id in d0.vertex then LostVertexHistory(e, me, h0, id, d0.vertex[id]) else h0
    case VanishEdge(k) =>
      d1 == d0.(edge := d0.edge - {k}) &&
      h1 == if k in d0.edge then LostEdgeHistory(e, me, h0, k, d0.edge[k]) else h0
    case _ => Pool.OnlyTaskDrift(h0, h1)
  }

  predicate WritesDocuments(op: Op) { op.Put? || op.PutBatch? || op.Remove? }

  /** What the pool sees of an operation: its own four transitions; of a write or a removal, the
      documents it left with another claim; of any other operation, nothing. */
  function EventOf(op: Op, d0: Db, d1: Db): Pool.Event {
    match op
    case Claim(id, worker, _) => Pool.Claim(id, worker)
    case Renew(id, _) => Pool.Renew(id)
    case Release(id, to, _) => Pool.Give(id, to)
    case Settle(id, worker, to, _, _, _) => Pool.Exit(id, worker, to)
    case _ => Pool.Rewrite(if WritesDocuments(op) then Pool.RewrittenClaims(d0.vertex, d1.vertex) else {})
  }

  /** One operation, between two states: how rows and books move, and what the pool sees. */
  ghost predicate StepOf(e: Env, me: string, op: Op, d0: Db, h0: History, d1: Db, h1: History, ok: bool) {
    Effect(e, me, op, d0, h0, d1, h1) && Evolves(me, d0, h0, d1, h1) &&
    Pool.PoolStep(d0.task, EventOf(op, d0, d1), ok, d1.task)
  }

  ghost predicate Projecting(e: Env, d: Db, h: History) { SidecarsOk(e, d, h) && Shaped(d) }

  lemma StoreProjects(st: Store)
    requires st.Valid()
    ensures Projecting(st.env, st.db, st.hist)
  {
    hide MerkleOk, CountersOk, LedgerOk, SidecarsOk, Shaped;
  }

  /** Whatever is no transition of the pool moves the tasks of the documents it rewrote, at most. */
  lemma OtherStep(e: Env, me: string, op: Op, d0: Db, h0: History, d1: Db, h1: History)
    requires !OnTask(op) && Effect(e, me, op, d0, h0, d1, h1) && Evolves(me, d0, h0, d1, h1)
    requires Projecting(e, d0, h0) && Projecting(e, d1, h1)
    ensures StepOf(e, me, op, d0, h0, d1, h1, true)
  {
    hide Evolves, SidecarsOk, Shaped, Pool.Hold, Pool.ClaimRewritten, LostVertexHistory, LostEdgeHistory;
    if WritesDocuments(op) {
      forall id ensures id !in Pool.RewrittenClaims(d0.vertex, d1.vertex) ==>
                        Pool.Hold(At(d1.task, id)) == Pool.Hold(At(d0.task, id))
      {
        Pool.FreedByItsDocument(e, d0, h0, d1, h1, id);
        NotThere(d0.vertex, d1.vertex, id);
      }
    }
  }

  lemma NotThere(v0: map<string, VRow>, v1: map<string, VRow>, id: string)
    ensures id !in v0 && id !in v1 ==> !Pool.ClaimRewritten(v0, v1, id)
  {
  }

  predicate OnTask(op: Op) { op.Claim? || op.Renew? || op.Release? || op.Settle? }
  predicate OnRows(op: Op) {
    op.Put? || op.PutBatch? || op.AddEdges? || op.Remove? || op.RemoveEdge? || op.RelabelLive?
  }

  method Perform(st: Store, op: Op) returns (ok: bool)
    requires st.Valid() && !st.open && Fits(op)
    modifies st, st.clock
    ensures st.Valid() && !st.open
    ensures StepOf(st.env, st.origin, op, old(st.db), old(st.hist), st.db, st.hist, ok)
  {
    hide *;
    ok := true;
    StoreProjects(st);
    if OnTask(op) {
      ok := PerformTask(st, op);
    } else {
      if OnRows(op) { PerformRows(st, op); } else { PerformUpkeep(st, op); }
      StoreProjects(st);
      OtherStep(st.env, st.origin, op, old(st.db), old(st.hist), st.db, st.hist);
    }
  }

  method PerformTask(st: Store, op: Op) returns (ok: bool)
    requires st.Valid() && !st.open && Fits(op) && OnTask(op)
    modifies st, st.clock
    ensures st.Valid() && !st.open
    ensures StepOf(st.env, st.origin, op, old(st.db), old(st.hist), st.db, st.hist, ok)
  {
    hide Ok, Evolves, MarkOk, Pool.OnlyTaskDrift, Pool.PoolStep, Pool.Mirrored, Pool.Fitting, Pool.DocOnly;
    match op {
      case Claim(id, worker, now) => ok := Pool.TryClaim(st, id, worker, now);
      case Renew(id, now) => ok := Pool.RenewLease(st, id, now);
      case Release(id, to, nextRetry) => ok := Pool.Release(st, id, to, nextRetry);
      case Settle(id, worker, to, nextRetry, completedAt, fields) =>
        ok := Pool.Settle(st, id, worker, to, nextRetry, completedAt, fields);
    }
  }

  method PerformRows(st: Store, op: Op)
    requires st.Valid() && !st.open && Fits(op) && OnRows(op)
    modifies st, st.clock
    ensures st.Valid() && !st.open
    ensures Evolves(st.origin, old(st.db), old(st.hist), st.db, st.hist)
    ensures Effect(st.env, st.origin, op, old(st.db), old(st.hist), st.db, st.hist)
  {
    hide Ok, Evolves, SameLosses, RemovedHistory, MarkOk, PutEffect, Reached, StopAt, BatchLeft;
    hide AllForeign, AllForeignEdges, AddedLast, Relabel.Relabelled, Relabel.LowestOf, Projecting;
    StoreProjects(st);
    match op {
      case Put(doc, stampRev, newVersion, fault) => var r := st.PutArtifact(doc, stampRev, newVersion, fault);
      case PutBatch(offers, batch, stampRev, policy) => var n, raised := st.PutMany(offers, batch, stampRev, policy);
      case AddEdges(items, stampRev) => 
        var n, raised := st.AddChunk(items, stampRev);
        StoreProjects(st);
        TasksStay(st.env, old(st.db), old(st.hist), st.db, st.hist, Peers(op, st.origin));
      case Remove(id, accounted) => st.DeleteArtifact(id, accounted);
      case RemoveEdge(k) =>
        var found := st.DeleteEdge(k);
        StoreProjects(st);
        TasksStay(st.env, old(st.db), old(st.hist), st.db, st.hist, true);
      case RelabelLive(state, batch, limit, exclude) =>
        var done, batches, moved := Relabel.RelabelState(st, state, batch, limit, exclude);
    }
  }

  lemma TasksStay(e: Env, d0: Db, h0: History, d1: Db, h1: History, foreign: bool)
    requires Projecting(e, d0, h0) && Projecting(e, d1, h1) && d1.vertex == d0.vertex
    ensures h1 == h0 || SameLosses(h0, h1, foreign) ==> d1.task == d0.task
  {
    hide SidecarsOk, Shaped;
    if h1.stray == h0.stray { Pool.SameTasks(e, d0, h0, d1, h1); }
  }

  method PerformUpkeep(st: Store, op: Op)
    requires st.Valid() && !st.open && Fits(op) && !OnTask(op) && !OnRows(op)
    modifies st, st.clock
    ensures st.Valid() && !st.open
    ensures Evolves(st.origin, old(st.db), old(st.hist), st.db, st.hist)
    ensures Effect(st.env, st.origin, op, old(st.db), old(st.hist), st.db, st.hist)
  {
    hide Ok, Evolves, LostVertexHistory, LostEdgeHistory, MarkOk, Rescan;
    hide Maintenance.RestampedV, Maintenance.RestampedE, Maintenance.Audited, Maintenance.Rebuilt;
    EvolvesRefl(st.origin, st.db, st.hist);
    match op {
      case Rebuild => var n := Maintenance.RebuildMerkle(st);
      case Repair => var drift, n := Maintenance.RepairCounters(st);
      case Reshard(target, page) => var moved := Maintenance.Reshard(st, target, page);
      case VanishVertex(id) => if id in st.db.vertex { st.LoseVertex(id); }
          else { assert st.db.vertex - {id} == st.db.vertex; }
      case VanishEdge(k) => if k in st.db.edge { st.LoseEdge(k); } else { assert st.db.edge - {k} == st.db.edge; }
    }
  }

  // ── whole runs ───────────────────────────────────────────────────────────────

  /** The store between two operations. */
  datatype Moment = Moment(db: Db, hist: History, leaves: nat)

  /** A run from a fresh store: one more moment than operations, every moment sound and committed. */
  ghost predicate IsRun(e: Env, me: string, ops: seq<Op>, ms: seq<Moment>, oks: seq<bool>) {
    |ms| == |ops| + 1 && |oks| == |ops| && ms[0].db == EMPTY_DB && ms[0].hist == NEW_HISTORY &&
    (forall i :: 0 <= i < |ms| ==> Ok(e, me, ms[i].leaves, ms[i].db, ms[i].hist) && MarkOk(me, ms[i].db, ms[i].hist)) &&
    (forall i {:trigger ops[i]} :: 0 <= i < |ops| ==>
       StepOf(e, me, ops[i], ms[i].db, ms[i].hist, ms[i + 1].db, ms[i + 1].hist, oks[i]))
  }

  lemma RunStart(e: Env, me: string, m: Moment)
    requires Ok(e, me, m.leaves, m.db, m.hist) && MarkOk(me, m.db, m.hist) && m.db == EMPTY_DB && m.hist == NEW_HISTORY
    ensures IsRun(e, me, [], [m], [])
  {
  }

  lemma RunStep(e: Env, me: string, ops: seq<Op>, ms: seq<Moment>, oks: seq<bool>, op: Op, m: Moment, ok: bool)
    requires IsRun(e, me, ops, ms, oks)
    requires Ok(e, me, m.leaves, m.db, m.hist) && MarkOk(me, m.db, m.hist)
    requires StepOf(e, me, op, ms[|ops|].db, ms[|ops|].hist, m.db, m.hist, ok)
    ensures IsRun(e, me, ops + [op], ms + [m], oks + [ok])
  {
    hide Ok, MarkOk, StepOf;
  }

  /** The operation takes a local row out of the table without accounting for it. */
  predicate LosesLocal(me: string, op: Op, d: Db) {
    match op
    case VanishVertex(id) => id in d.vertex && d.vertex[id].origin == me
    case VanishEdge(k) => k in d.edge && d.edge[k].origin == me
    case Remove(id, accounted) => !accounted && id in d.vertex && d.vertex[id].origin == me
    case _ => false
  }

  /** Which of the first `n` operations lost a local row. */
  function Losses(me: string, ops: seq<Op>, ms: seq<Moment>, n: nat): set<nat>
    requires n <= |ops| && n <= |ms|
  {
    set i: nat | i < n && LosesLocal(me, ops[i], ms[i].db)
  }

  lemma NoLosses(me: string, ops: seq<Op>, ms: seq<Moment>)
    ensures |Losses(me, ops, ms, 0)| == 0
  {
  }

  lemma LossesNext(me: string, ops: seq<Op>, ms: seq<Moment>, n: nat)
    requires n < |ops| && n < |ms|
    ensures |Losses(me, ops, ms, n + 1)| == |Losses(me, ops, ms, n)| + if LosesLocal(me, ops[n], ms[n].db) then 1 else 0
  {
    hide LosesLocal;
    var a, b := Losses(me, ops, ms, n), Losses(me, ops, ms, n + 1);
    assert b == if LosesLocal(me, ops[n], ms[n].db) then a + {n} else a;
    assert n !in a;
  }

  // ── what the operations of a run say about its books ─────────────────────────

  predicate NoneVanish(ops: seq<Op>) { forall op :: op in ops ==> !Vanishing(op) }
  predicate NoneEvict(ops: seq<Op>) { forall op :: op in ops ==> !Evicting(op) }
  predicate NoneRepair(ops: seq<Op>) { forall op :: op in ops ==> !op.Repair? }
  predicate AllPeers(ops: seq<Op>, me: string) { forall op :: op in ops ==> Peers(op, me) }

  ghost predicate Exact(h: History) { h.lost == 0 && forall n :: Count(h.drift, n) == 0 }

  ghost predicate Tracks(ops: seq<Op>, me: string, h: History) {
    (NoneVanish(ops) ==> Whole(h)) &&
    (NoneVanish(ops) && NoneEvict(ops) ==> Exact(h)) &&
    (NoneRepair(ops) ==> Unrepaired(me, h)) &&
    (AllPeers(ops, me) ==> !h.echo)
  }

  lemma EffectWhole(e: Env, me: string, op: Op, d0: Db, h0: History, d1: Db, h1: History)
    requires Effect(e, me, op, d0, h0, d1, h1) && Whole(h0) && !Vanishing(op)
    ensures Whole(h1)
  {
    hide Leaf, Bump;
    if op.Repair? { AuditedCounts(h0); }
    if op.Rebuild? || op.Reshard? { EmptyLeaves(); }
  }

  lemma AuditedCounts(h: History)
    ensures forall n :: Count(Maintenance.Audited(h).drift, n) == if Maintenance.Judged(n) then 0 else Count(h.drift, n)
  {
  }

  lemma EmptyLeaves()
    ensures forall i: nat :: Leaf(map[], i) == 0
  {
  }

  lemma EffectExact(e: Env, me: string, op: Op, d0: Db, h0: History, d1: Db, h1: History)
    requires Effect(e, me, op, d0, h0, d1, h1) && Whole(h0) && Exact(h0) && !Vanishing(op) && !Evicting(op)
    ensures Exact(h1)
  {
    hide Leaf, Bump;
    if op.Repair? { AuditedCounts(h0); }
  }

  lemma EffectUnrepaired(e: Env, me: string, op: Op, d0: Db, h0: History, d1: Db, h1: History)
    requires Effect(e, me, op, d0, h0, d1, h1) && Unrepaired(me, h0) && !op.Repair?
    ensures Unrepaired(me, h1)
  {
    hide Leaf, Bump, RemovedHistory, LostVertexHistory, LostEdgeHistory, Count;
    match op {
      case Remove(id, accounted) => if id in d0.vertex { RemovalStaysUnrepaired(me, h0, id, d0.vertex[id], accounted); }
      case VanishVertex(id) => if id in d0.vertex { VertexLossStaysUnrepaired(e, me, h0, id, d0.vertex[id]); }
      case VanishEdge(k) => if k in d0.edge { EdgeLossStaysUnrepaired(e, me, h0, k, d0.edge[k]); }
      case _ =>
    }
  }

  lemma EffectEcho(e: Env, me: string, op: Op, d0: Db, h0: History, d1: Db, h1: History)
    requires Effect(e, me, op, d0, h0, d1, h1) && !h0.echo && Peers(op, me)
    ensures !h1.echo
  {
    hide Leaf, Bump, Count, AddNames, XorLeaf;
  }

  lemma EffectLosses(e: Env, me: string, op: Op, d0: Db, h0: History, d1: Db, h1: History)
    requires Effect(e, me, op, d0, h0, d1, h1)
    ensures h1.lost == h0.lost + if LosesLocal(me, op, d0) then 1 else 0
  {
    hide Leaf, Bump, Count, AddNames, XorLeaf;
  }

  lemma TracksStep(e: Env, ops: seq<Op>, op: Op, all: seq<Op>, me: string, d0: Db, h0: History, d1: Db, h1: History)
    requires all == ops + [op] && Tracks(ops, me, h0) && Effect(e, me, op, d0, h0, d1, h1)
    ensures Tracks(all, me, h1)
  {
    hide Effect, Whole, Exact, Unrepaired, Peers, Vanishing, Evicting;
    assert op in all && forall o :: o in ops ==> o in all;
    if NoneVanish(all) {
      EffectWhole(e, me, op, d0, h0, d1, h1);
      if NoneEvict(all) { EffectExact(e, me, op, d0, h0, d1, h1); }
    }
    if NoneRepair(all) { EffectUnrepaired(e, me, op, d0, h0, d1, h1); }
    if AllPeers(all, me) { EffectEcho(e, me, op, d0, h0, d1, h1); }
  }

  lemma TracksStart(me: string)
    ensures Tracks([], me, NEW_HISTORY)
  {
  }

  lemma EffectSeen(e: Env, me: string, op: Op, m: Moment, n: Moment, ok: bool)
    requires StepOf(e, me, op, m.db, m.hist, n.db, n.hist, ok)
    ensures Effect(e, me, op, m.db, m.hist, n.db, n.hist)
  {
    hide Effect, Evolves, Pool.PoolStep, EventOf;
  }

  /** The books of a run, after its first `n` operations. */
  lemma {:induction false} RunTracks(e: Env, me: string, ops: seq<Op>, ms: seq<Moment>, oks: seq<bool>, n: nat)
    requires IsRun(e, me, ops, ms, oks) && n <= |ops|
    ensures Tracks(ops[..n], me, ms[n].hist) && ms[n].hist.lost == |Losses(me, ops, ms, n)|
    decreases n
  {
    hide Tracks, Effect, Ok, MarkOk, LosesLocal, StepOf, Losses;
    if n == 0 {
      TracksStart(me);
      NoLosses(me, ops, ms);
      assert ops[..0] == [];
    } else {
      var p := n - 1;
      RunTracks(e, me, ops, ms, oks, p);
      EffectSeen(e, me, ops[p], ms[p], ms[n], oks[p]);
      assert ops[..n] == ops[..p] + [ops[p]];
      TracksStep(e, ops[..p], ops[p], ops[..n], me, ms[p].db, ms[p].hist, ms[n].db, ms[n].hist);
      EffectLosses(e, me, ops[p], ms[p].db, ms[p].hist, ms[n].db, ms[n].hist);
      LossesNext(me, ops, ms, p);
    }
  }

  /** What a run guarantees of the tables it ends with, by what was in it. */
  ghost predicate Guarantees(e: Env, me: string, ops: seq<Op>, ms: seq<Moment>, d: Db)
    requires |ops| <= |ms|
  {
    // the published digests are the rescan of the rows
    (NoneVanish(ops) ==> forall i: nat :: Leaf(d.digests, i) == Rescan(e, d, i)) &&
    // every counter a recount can judge is exact; with evictions, all but `rows:<origin>`
    (NoneVanish(ops) ==> forall n: Counter :: Recounted(n) && (NoneEvict(ops) || !n.family.Rows?) ==>
       Count(d.counter, n) == Census(e, d)[n]) &&
    // the sidecars are the projections of the documents
    (NoneVanish(ops) ==> forall id :: SidecarAt(e, d, {}, id)) &&
    // the scan counts exactly the operations that lost a local row; the cheap mode sees none of them
    (AllPeers(ops, me) ==> SeqAccounting(d, me, true).unaccounted == |Losses(me, ops, ms, |ops|)|) &&
    (AllPeers(ops, me) && NoneRepair(ops) ==> SeqAccounting(d, me, false).unaccounted == 0)
  }

  lemma RunGuarantees(e: Env, me: string, ops: seq<Op>, ms: seq<Moment>, oks: seq<bool>)
    requires IsRun(e, me, ops, ms, oks)
    ensures Guarantees(e, me, ops, ms, ms[|ops|].db)
  {
    hide SeqAccounting, Rescan, Census, SidecarAt, NoneVanish, NoneEvict, NoneRepair, AllPeers, LedgerOk, Xor, Leaf,
        Count;
    hide Losses, StepOf;
    RunTracks(e, me, ops, ms, oks, |ops|);
    assert ops[..|ops|] == ops;
    var m := ms[|ops|];
    if NoneVanish(ops) {
      forall i: nat ensures Leaf(m.db.digests, i) == Rescan(e, m.db, i) { XorUnits(Rescan(e, m.db, i), 0); }
    }
    if AllPeers(ops, me) {
      ScanFindsEveryLoss(e, me, m.leaves, m.db, m.hist);
      CounterModeSees(e, me, m.leaves, m.db, m.hist);
    }
  }

  // ── the pool and the feed over a run ─────────────────────────────────────────

  function TasksOf(ms: seq<Moment>): seq<map<string, TaskRow>> { seq(|ms|, i requires 0 <= i < |ms| => ms[i].db.task) }

  function EventsOf(ops: seq<Op>, ms: seq<Moment>, oks: seq<bool>): seq<Pool.Happened>
    requires |ms| == |ops| + 1 && |oks| == |ops|
  {
    seq(|ops|, i requires 0 <= i < |ops| => Pool.Happened(EventOf(ops[i], ms[i].db, ms[i + 1].db), oks[i]))
  }

  /** Every run of the store is a run of the pool. */
  lemma RunIsPoolRun(e: Env, me: string, ops: seq<Op>, ms: seq<Moment>, oks: seq<bool>)
    requires IsRun(e, me, ops, ms, oks)
    ensures Pool.PoolRun(TasksOf(ms), EventsOf(ops, ms, oks))
  {
    hide Ok, MarkOk, StepOf, Pool.PoolStep, EventOf;
    var ts, evs := TasksOf(ms), EventsOf(ops, ms, oks);
    forall i | 0 <= i < |evs| ensures Pool.PoolStep(ts[i], evs[i].ev, evs[i].ok, ts[i + 1]) {
      StepSeen(e, me, ops[i], ms[i], ms[i + 1], oks[i]);
    }
  }

  lemma StepSeen(e: Env, me: string, op: Op, m: Moment, n: Moment, ok: bool)
    requires StepOf(e, me, op, m.db, m.hist, n.db, n.hist, ok)
    ensures Pool.PoolStep(m.db.task, EventOf(op, m.db, n.db), ok, n.db.task)
  {
    hide Effect, Evolves, Pool.PoolStep, EventOf;
  }

  /** The operation took the task out of its claim: it released it, settled it, or wrote or removed
      its document so that status, holder or type read otherwise. */
  predicate Freed(op: Op, ok: bool, d0: Db, d1: Db, id: string) {
    (op.Release? && ok && op.id == id) || (op.Settle? && ok && op.id == id) ||
    (WritesDocuments(op) && Pool.ClaimRewritten(d0.vertex, d1.vertex, id))
  }

  /** In any run two successful claims of one task enclose what freed it; no edge write, relabel,
      rebuild, repair, reshard or loss of rows can. */
  lemma RunClaimsOnce(e: Env, me: string, ops: seq<Op>, ms: seq<Moment>, oks: seq<bool>, i: nat, j: nat)
    requires IsRun(e, me, ops, ms, oks) && i < j < |ops| && oks[i] && oks[j]
    requires ops[i].Claim? && ops[j].Claim? && ops[i].id == ops[j].id
    ensures exists k :: i < k < j && Freed(ops[k], oks[k], ms[k].db, ms[k + 1].db, ops[i].id)
  {
    hide *;
    RunIsPoolRun(e, me, ops, ms, oks);
    RunLengths(e, me, ops, ms, oks);
    var evs := EventsOf(ops, ms, oks);
    ClaimSeen(ops, ms, oks, i);
    ClaimSeen(ops, ms, oks, j);
    Pool.ClaimedOnce(TasksOf(ms), evs, i, j, ops[i].id, ops[i].worker, ops[j].worker);
    var k :| i < k < j && Pool.Frees(evs[k], ops[i].id);
    FreeSeen(ops, ms, oks, k, ops[i].id);
  }

  lemma FreeSeen(ops: seq<Op>, ms: seq<Moment>, oks: seq<bool>, k: nat, id: string)
    requires |ms| == |ops| + 1 && |oks| == |ops| && k < |ops|
    requires |EventsOf(ops, ms, oks)| == |ops| && Pool.Frees(EventsOf(ops, ms, oks)[k], id)
    ensures Freed(ops[k], oks[k], ms[k].db, ms[k + 1].db, id)
  {
    hide Pool.ClaimRewritten;
  }

  lemma RunLengths(e: Env, me: string, ops: seq<Op>, ms: seq<Moment>, oks: seq<bool>)
    requires IsRun(e, me, ops, ms, oks)
    ensures |ms| == |ops| + 1 && |oks| == |ops|
  {
  }

  lemma ClaimSeen(ops: seq<Op>, ms: seq<Moment>, oks: seq<bool>, i: nat)
    requires |ms| == |ops| + 1 && |oks| == |ops| && i < |ops| && ops[i].Claim? && oks[i]
    ensures |EventsOf(ops, ms, oks)| == |ops|
    ensures EventsOf(ops, ms, oks)[i] == Pool.Happened(Pool.Claim(ops[i].id, ops[i].worker), true)
  {
  }

  lemma {:induction false} RunEvolves(e: Env, me: string, ops: seq<Op>, ms: seq<Moment>, oks: seq<bool>, i: nat, j: nat)
    requires IsRun(e, me, ops, ms, oks) && i <= j <= |ops|
    ensures Evolves(me, ms[i].db, ms[i].hist, ms[j].db, ms[j].hist)
    decreases j
  {
    hide Ok, MarkOk, Effect, Evolves;
    if i == j {
      EvolvesRefl(me, ms[i].db, ms[i].hist);
    } else {
      RunEvolves(e, me, ops, ms, oks, i, j - 1);
      assert StepOf(e, me, ops[j - 1], ms[j - 1].db, ms[j - 1].hist, ms[j - 1 + 1].db, ms[j - 1 + 1].hist, oks[j - 1]);
      EvolvesTrans(me, ms[i].db, ms[i].hist, ms[j - 1].db, ms[j - 1].hist, ms[j].db, ms[j].hist);
    }
  }

  function VerticesAt(ms: seq<Moment>, at: seq<nat>): seq<map<string, Version>>
    requires forall i :: 0 <= i < |at| ==> at[i] < |ms|
  {
    seq(|at|, i requires 0 <= i < |at| => VersionsOf(ms[at[i]].db.vertex))
  }

  function EdgesAt(ms: seq<Moment>, at: seq<nat>): seq<map<EdgeKey, Version>>
    requires forall i :: 0 <= i < |at| ==> at[i] < |ms|
  {
    seq(|at|, i requires 0 <= i < |at| => EdgeVersionsOf(ms[at[i]].db.edge))
  }

  function MarksAt(ms: seq<Moment>, at: seq<nat>): seq<int>
    requires forall i :: 0 <= i < |at| ==> at[i] < |ms|
  {
    seq(|at|, i requires 0 <= i < |at| => |ms[at[i]].hist.log|)
  }

  /** What a consumer polls, at any moments of a run in their order, is a table that only moves
      forward, whose rows are numbered apart. */
  lemma RunFeeds(e: Env, me: string, ops: seq<Op>, ms: seq<Moment>, oks: seq<bool>, at: seq<nat>)
    requires IsRun(e, me, ops, ms, oks) && AllPeers(ops, me)
    requires (forall i :: 0 <= i < |at| ==> at[i] < |ms|) && (forall i, j :: 0 <= i < j < |at| ==> at[i] <= at[j])
    ensures Feed.FeedStates(VerticesAt(ms, at), MarksAt(ms, at), me)
    ensures Feed.FeedStates(EdgesAt(ms, at), MarksAt(ms, at), me)
  {
    hide Ok, MarkOk, StepOf, Evolves, Feed.Numbered, Feed.Forward, Tracks, VersionsOf, EdgeVersionsOf;
    forall i | 0 <= i < |ms| ensures !ms[i].hist.echo { RunNoEcho(e, me, ops, ms, oks, i); }
    var vs, es, marks := VerticesAt(ms, at), EdgesAt(ms, at), MarksAt(ms, at);
    forall i | 0 <= i < |at| ensures Feed.Numbered(vs[i], me, marks[i]) && Feed.Numbered(es[i], me, marks[i]) {
      var m := ms[at[i]];
      Feed.StoreNumbers(e, me, m.leaves, m.db, m.hist);
    }
    forall i | 0 < i < |at|
      ensures marks[i - 1] <= marks[i] && Feed.Forward(vs[i - 1], me, marks[i - 1], vs[i]) &&
          Feed.Forward(es[i - 1], me, marks[i - 1], es[i])
    {
      var a, b := ms[at[i - 1]], ms[at[i]];
      RunEvolves(e, me, ops, ms, oks, at[i - 1], at[i]);
      Feed.StoreMovesForward(me, a.db, a.hist, b.db, b.hist);
    }
  }

  lemma RunNoEcho(e: Env, me: string, ops: seq<Op>, ms: seq<Moment>, oks: seq<bool>, n: nat)
    requires IsRun(e, me, ops, ms, oks) && AllPeers(ops, me) && n <= |ops|
    ensures !ms[n].hist.echo
  {
    hide IsRun, Peers, Whole, Exact, Unrepaired;
    RunTracks(e, me, ops, ms, oks, n);
  }

  /** Over any run, polled at any of its moments, neither feed leaves a row of this observer behind. */
  lemma RunNeverSkips(e: Env, me: string, ops: seq<Op>, ms: seq<Moment>, oks: seq<bool>, at: seq<nat>,
                      vr: seq<Feed.Reader<string>>, vpages: seq<seq<string>>,
                      er: seq<Feed.Reader<EdgeKey>>, epages: seq<seq<EdgeKey>>, limits: seq<int>)
    requires IsRun(e, me, ops, ms, oks) && AllPeers(ops, me) && |at| > 0
    requires (forall i :: 0 <= i < |at| ==> at[i] < |ms|) && (forall i, j :: 0 <= i < j < |at| ==> at[i] <= at[j])
    requires Feed.Polled(VerticesAt(ms, at), me, vr, vpages, limits) && vr[0] == Feed.Reader(0, map[])
    requires Feed.Polled(EdgesAt(ms, at), me, er, epages, limits) && er[0] == Feed.Reader(0, map[])
    ensures var last := ms[at[|at| - 1]].db;
            Feed.CaughtUp(VersionsOf(last.vertex), me, vr[|at|]) &&
                Feed.CaughtUp(EdgeVersionsOf(last.edge), me, er[|at|])
  {
    hide IsRun, Feed.Polled, Feed.FeedStates, Feed.CaughtUp;
    RunFeeds(e, me, ops, ms, oks, at);
    RunFirstPoll(e, me, ops, ms, oks, at);
    Feed.FeedNeverSkips(VerticesAt(ms, at), MarksAt(ms, at), me, vr, vpages, limits, |at|);
    Feed.FeedNeverSkips(EdgesAt(ms, at), MarksAt(ms, at), me, er, epages, limits, |at|);
  }

  /** At cursor 0 nothing has been left behind: a local row's seq is at least 1. */
  lemma RunFirstPoll(e: Env, me: string, ops: seq<Op>, ms: seq<Moment>, oks: seq<bool>, at: seq<nat>)
    requires IsRun(e, me, ops, ms, oks) && AllPeers(ops, me) && |at| > 0
    requires forall i :: 0 <= i < |at| ==> at[i] < |ms|
    ensures Feed.CaughtUp(VerticesAt(ms, at)[0], me, Feed.Reader(0, map[]))
    ensures Feed.CaughtUp(EdgesAt(ms, at)[0], me, Feed.Reader(0, map[]))
  {
    hide StepOf, MarkOk, MerkleOk, CountersOk, SidecarsOk, Balanced, AllPeers;
    RunNoEcho(e, me, ops, ms, oks, at[0]);
    assert Ok(e, me, ms[at[0]].leaves, ms[at[0]].db, ms[at[0]].hist);
  }

  /** Any run from a fresh store. */
  method Run(env: Env, origin: string, leaves: nat, ops: seq<Op>)
    returns (st: Store, oks: seq<bool>, ghost ms: seq<Moment>)
    requires origin != "" && leaves > 0 && EnvOk(env) && forall op :: op in ops ==> Fits(op)
    ensures fresh(st) && st.Valid() && !st.open && st.env == env && st.origin == origin
    ensures IsRun(env, origin, ops, ms, oks) && st.db == ms[|ops|].db
    ensures Guarantees(env, origin, ops, ms, st.db)
  {
    hide Ok, MarkOk, Evolves, StepOf, Guarantees, IsRun;
    st := new Store(env, origin, leaves);
    ms, oks := [Moment(st.db, st.hist, st.leaves)], [];
    RunStart(env, origin, ms[0]);
    for i := 0 to |ops|
      invariant fresh(st) && fresh(st.clock) && st.Valid() && !st.open && st.env == env && st.origin == origin
      invariant |ms| == i + 1 && ms[i] == Moment(st.db, st.hist, st.leaves)
      invariant IsRun(env, origin, ops[..i], ms, oks)
    {
      var ok := Perform(st, ops[i]);
      assert ops[..i + 1] == ops[..i] + [ops[i]];
      RunStep(env, origin, ops[..i], ms, oks, ops[i], Moment(st.db, st.hist, st.leaves), ok);
      ms, oks := ms + [Moment(st.db, st.hist, st.leaves)], oks + [ok];
    }
    assert ops[..|ops|] == ops;
    RunGuarantees(env, origin, ops, ms, oks);
  }
}
