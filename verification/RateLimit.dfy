/**
 The sliding-window limiter, against a limiter that keeps every admitted hit forever.
 */
module RateLimit {
  import opened Folds

  const WINDOW: real := 60.0

  datatype Hit = Hit(client: string, time: real)

  // ── the limiter that keeps everything ────────────────────────────────────────

  function Times(log: seq<Hit>, client: string): seq<real> {
    if log == [] then []
    else
      var last := log[|log| - 1];
      Times(log[..|log| - 1], client) + if last.client == client then [last.time] else []
  }

  function CountFrom(ts: seq<real>, from: real): nat {
    if ts == [] then 0 else CountFrom(ts[..|ts| - 1], from) + if ts[|ts| - 1] >= from then 1 else 0
  }

  function CountWithin(ts: seq<real>, from: real, to: real): nat {
    if ts == [] then 0
    else CountWithin(ts[..|ts| - 1], from, to) + if from <= ts[|ts| - 1] <= to then 1 else 0
  }

  /** How many admitted hits of a client lie in the closed window that starts at `from`. */
  function WindowCount(log: seq<Hit>, client: string, from: real): nat {
    CountWithin(Times(log, client), from, from + WINDOW)
  }

  /** Would the reference admit a hit now? */
  predicate Admits(max: nat, log: seq<Hit>, client: string, now: real) {
    CountFrom(Times(log, client), now - WINDOW) < max
  }

  function Logged(max: nat, log: seq<Hit>, client: string, now: real): seq<Hit> {
    if Admits(max, log, client, now) then log + [Hit(client, now)] else log
  }

  ghost predicate InOrder(log: seq<Hit>) { forall i, j :: 0 <= i < j < |log| ==> log[i].time <= log[j].time }

  /** Every hit of the log was admitted by the reference over the hits before it. */
  ghost predicate Legal(max: nat, log: seq<Hit>) {
    InOrder(log) && forall i :: 0 <= i < |log| ==> Admits(max, log[..i], log[i].client, log[i].time)
  }

  lemma {:induction false} CountMonotone(ts: seq<real>, from: real, to: real, lower: real)
    requires lower <= from
    ensures CountWithin(ts, from, to) <= CountFrom(ts, lower)
  {
    if ts != [] { CountMonotone(ts[..|ts| - 1], from, to, lower); }
  }

  lemma TimesMore(front: seq<Hit>, last: Hit, log: seq<Hit>, client: string)
    requires log == front + [last]
    ensures Times(log, client) == Times(front, client) + if last.client == client then [last.time] else []
  {
    assert log[..|log| - 1] == front;
  }

  lemma CountMore(ts: seq<real>, t: real, from: real, to: real)
    ensures CountWithin(ts + [t], from, to) == CountWithin(ts, from, to) + if from <= t <= to then 1 else 0
  {
    assert (ts + [t])[..|ts|] == ts;
  }

  lemma LegalFront(max: nat, front: seq<Hit>, last: Hit, log: seq<Hit>)
    requires log == front + [last] && Legal(max, log)
    ensures Legal(max, front) && Admits(max, front, last.client, last.time)
  {
    hide Admits;
    forall i | 0 <= i < |front| ensures Admits(max, front[..i], front[i].client, front[i].time) {
      assert front[..i] == log[..i] && front[i] == log[i];
    }
    assert log[..|front|] == front && log[|front|] == last;
  }

  /** No closed window holds more than `max` admitted hits of one client. */
  lemma {:induction false} WindowBound(max: nat, log: seq<Hit>, client: string, from: real)
    requires Legal(max, log)
    ensures WindowCount(log, client, from) <= max
    decreases |log|
  {
    hide Legal, Times, CountWithin, CountFrom;
    if log == [] {
      assert Times(log, client) == [] && CountWithin([], from, from + WINDOW) == 0 by { NoTimes(client, from); }
    } else {
      var front, last := log[..|log| - 1], log[|log| - 1];
      assert log == front + [last];
      LegalFront(max, front, last, log);
      WindowBound(max, front, client, from);
      TimesMore(front, last, log, client);
      var ts := Times(front, client);
      CountMore(ts, last.time, from, from + WINDOW);
      assert ts + [] == ts;
      if last.client == client && from <= last.time <= from + WINDOW {
        CountMonotone(ts, from, from + WINDOW, last.time - WINDOW);
      }
    }
  }

  lemma NoTimes(client: string, from: real)
    ensures Times([], client) == [] && CountWithin([], from, from + WINDOW) == 0
  {
  }

  // ── what the store keeps ─────────────────────────────────────────────────────

  function Kept(hits: map<string, seq<real>>, client: string): seq<real> {
    if client in hits then hits[client] else []
  }

  /** `kept` is what is left of `ts` when everything before some point, all of it too old, is dropped. */
  ghost predicate Tail(ts: seq<real>, kept: seq<real>, floor: real) {
    |kept| <= |ts| && kept == ts[|ts| - |kept|..] && forall i :: 0 <= i < |ts| - |kept| ==> ts[i] < floor
  }

  ghost predicate Windows(hits: map<string, seq<real>>, log: seq<Hit>, floor: real) {
    forall c :: Tail(Times(log, c), Kept(hits, c), floor)
  }

  ghost predicate Rising(ts: seq<real>) { forall i, j :: 0 <= i < j < |ts| ==> ts[i] <= ts[j] }

  lemma {:induction false} TimesRise(log: seq<Hit>, client: string, now: real)
    requires InOrder(log) && forall h :: h in log ==> h.time <= now
    ensures Rising(Times(log, client)) && forall t :: t in Times(log, client) ==> t <= now
    decreases |log|
  {
    if log != [] {
      var front, last := log[..|log| - 1], log[|log| - 1];
      assert last in log;
      forall h | h in front ensures h.time <= last.time {
        var i :| 0 <= i < |front| && front[i] == h;
        assert log[i] == h;
      }
      TimesRise(front, client, last.time);
      var ts := Times(front, client);
      forall i | 0 <= i < |ts| ensures ts[i] <= last.time { assert ts[i] in ts; }
    }
  }

  lemma {:induction false} CountSplit(ts: seq<real>, k: nat, from: real)
    requires k <= |ts|
    requires (forall i :: 0 <= i < k ==> ts[i] < from) && (forall i :: k <= i < |ts| ==> ts[i] >= from)
    ensures CountFrom(ts, from) == |ts| - k
    decreases |ts|
  {
    if ts != [] {
      var front := ts[..|ts| - 1];
      if k < |ts| { CountSplit(front, k, from); } else { CountSplit(front, k - 1, from); }
    }
  }

  /** Dropping more of what is too old keeps the tail. */
  lemma TailShrinks(ts: seq<real>, kept: seq<real>, floor: real, next: seq<real>, cutoff: real)
    requires Tail(ts, kept, floor) && floor <= cutoff
    requires |next| <= |kept| && next == kept[|kept| - |next|..] && forall i :: 0 <= i < |kept| - |next| ==>
        kept[i] < cutoff
    ensures Tail(ts, next, cutoff)
  {
    forall i | 0 <= i < |ts| - |next| ensures ts[i] < cutoff {
      if i >= |ts| - |kept| { assert ts[i] == kept[i - (|ts| - |kept|)]; }
    }
  }

  /** A tail whose first element is recent enough is the whole window. */
  lemma TailIsWindow(ts: seq<real>, kept: seq<real>, cutoff: real)
    requires Tail(ts, kept, cutoff) && Rising(ts) && (kept != [] ==> kept[0] >= cutoff)
    ensures CountFrom(ts, cutoff) == |kept|
  {
    var k := |ts| - |kept|;
    forall i | k <= i < |ts| ensures ts[i] >= cutoff { assert kept[0] == ts[k]; }
    CountSplit(ts, k, cutoff);
  }

  // ── the sweep ────────────────────────────────────────────────────────────────

  predicate Live(hits: map<string, seq<real>>, c: string, cutoff: real) {
    c in hits && hits[c] != [] && hits[c][|hits[c]| - 1] >= cutoff
  }

  /** The clients from the first live one on. */
  function FromFirstLive(order: seq<string>, hits: map<string, seq<real>>, cutoff: real): seq<string> {
    if order == [] || Live(hits, order[0], cutoff) then order else FromFirstLive(order[1..], hits, cutoff)
  }

  lemma {:induction false} FromFirstLiveIs(order: seq<string>, hits: map<string, seq<real>>, cutoff: real)
    ensures var left := FromFirstLive(order, hits, cutoff);
            |left| <= |order| && left == order[|order| - |left|..] && (left != [] ==> Live(hits, left[0], cutoff)) &&
            forall i :: 0 <= i < |order| - |left| ==> !Live(hits, order[i], cutoff)
  {
    if order != [] && !Live(hits, order[0], cutoff) {
      FromFirstLiveIs(order[1..], hits, cutoff);
      var left := FromFirstLive(order, hits, cutoff);
      forall i | 0 <= i < |order| - |left| ensures !Live(hits, order[i], cutoff) {
        if i > 0 { assert order[i] == order[1..][i - 1]; }
      }
    }
  }

  /** The client at `j` survives exactly when its window or one before it is live. */
  lemma SurvivesWhen(order: seq<string>, hits: map<string, seq<real>>, touched: map<string, real>, cutoff: real, j: nat)
    requires ByTouch(order, touched) && j < |order|
    ensures order[j] in FromFirstLive(order, hits, cutoff) <==> exists i :: 0 <= i <= j && Live(hits, order[i], cutoff)
  {
    hide Live;
    var left := FromFirstLive(order, hits, cutoff);
    FromFirstLiveIs(order, hits, cutoff);
    var k := |order| - |left|;
    if order[j] in left {
      var m :| 0 <= m < |left| && left[m] == order[j];
      assert order[k + m] == order[j];
      assert k + m == j;
      assert Live(hits, order[k], cutoff);
    }
    if i :| 0 <= i <= j && Live(hits, order[i], cutoff) {
      assert i >= k;
      assert left[j - k] == order[j];
    }
  }

  /** The client was seen since `cutoff` and holds no hit since: its last request was refused. */
  predicate RefusedSince(hits: map<string, seq<real>>, touched: map<string, real>, c: string, cutoff: real) {
    c in touched && touched[c] >= cutoff && !Live(hits, c, cutoff)
  }

  /** The sweep is said to drop every window whose newest hit has aged out, since a window further
      along was touched later.  It does exactly when no live window stands before one whose client
      was last refused: a refusal moves a client to the back and leaves its newest hit as old. */
  lemma SweepIsCompleteWhen(order: seq<string>, hits: map<string, seq<real>>, touched: map<string, real>, clock: real,
                            cutoff: real)
    requires Seated(order, hits, touched, clock)
    ensures (forall c :: c in FromFirstLive(order, hits, cutoff) ==> Live(hits, c, cutoff)) <==>
            !(exists i, j ::
                0 <= i < j < |order| && Live(hits, order[i], cutoff) && RefusedSince(hits, touched, order[j], cutoff))
  {
    hide Seated, ByTouch, Live, FromFirstLive;
    SeatedTouch(order, hits, touched, clock);
    var left := FromFirstLive(order, hits, cutoff);
    if i, j :| 0 <= i < j < |order| && Live(hits, order[i], cutoff) && RefusedSince(hits, touched, order[j], cutoff) {
      SurvivesWhen(order, hits, touched, cutoff, j);
    }
    if c :| c in left && !Live(hits, c, cutoff) {
      DeadSurvivor(order, hits, touched, clock, cutoff, c);
    }
  }

  lemma DeadSurvivor(order: seq<string>, hits: map<string, seq<real>>, touched: map<string, real>, clock: real,
                     cutoff: real, c: string)
    requires Seated(order, hits, touched, clock) && c in FromFirstLive(order, hits, cutoff) && !Live(hits, c, cutoff)
    ensures exists i, j ::
        0 <= i < j < |order| && Live(hits, order[i], cutoff) && RefusedSince(hits, touched, order[j], cutoff)
  {
    hide Seated, ByTouch, Live, FromFirstLive;
    var left := FromFirstLive(order, hits, cutoff);
    FromFirstLiveIs(order, hits, cutoff);
    var k := |order| - |left|;
    var m :| 0 <= m < |left| && left[m] == c;
    assert order[k] == left[0] && order[k + m] == c;
    assert m != 0;
    LiveWasTouched(order, hits, touched, clock, cutoff, k, k + m);
    assert k < k + m && RefusedSince(hits, touched, order[k + m], cutoff);
  }

  /** Whoever stands behind a live window was seen since the cutoff. */
  lemma LiveWasTouched(order: seq<string>, hits: map<string, seq<real>>, touched: map<string, real>, clock: real,
                       cutoff: real, i: nat, j: nat)
    requires Seated(order, hits, touched, clock) && i <= j < |order| && Live(hits, order[i], cutoff)
    ensures order[j] in touched && touched[order[j]] >= cutoff
  {
    var dq := hits[order[i]];
    assert order[i] in order && order[j] in order && dq[|dq| - 1] in dq;
  }

  lemma {:induction false} FromFirstLiveSame(order: seq<string>, hits: map<string, seq<real>>,
                                             other: map<string, seq<real>>, cutoff: real)
    requires forall c :: c in order ==> Live(hits, c, cutoff) == Live(other, c, cutoff)
    ensures FromFirstLive(order, hits, cutoff) == FromFirstLive(order, other, cutoff)
  {
    if order != [] {
      assert order[0] in order && forall c :: c in order[1..] ==> c in order;
      FromFirstLiveSame(order[1..], hits, other, cutoff);
    }
  }

  lemma SweptWindows(hits0: map<string, seq<real>>, hits: map<string, seq<real>>, log: seq<Hit>, floor: real,
                     cutoff: real, now: real)
    requires Windows(hits0, log, floor) && floor <= cutoff && InOrder(log) && forall h :: h in log ==> h.time <= now
    requires forall c :: c in hits ==> c in hits0 && hits[c] == hits0[c]
    requires forall c :: c in hits0 && c !in hits ==> !Live(hits0, c, cutoff)
    ensures Windows(hits, log, cutoff)
  {
    forall c ensures Tail(Times(log, c), Kept(hits, c), cutoff) {
      var ts, kept := Times(log, c), Kept(hits0, c);
      assert Tail(ts, kept, floor);
      TimesRise(log, c, now);
      if c in hits0 && c !in hits && kept != [] {
        forall i | 0 <= i < |kept| ensures kept[i] < cutoff {
          assert kept[i] == ts[|ts| - |kept| + i] && kept[|kept| - 1] == ts[|ts| - 1];
        }
      }
      TailShrinks(ts, kept, floor, Kept(hits, c), cutoff);
    }
  }

  /** The order without one client, which is then seated at the back. */
  function Without(order: seq<string>, c: string): seq<string> {
    if order == [] then [] else (if order[0] == c then [] else [order[0]]) + Without(order[1..], c)
  }

  lemma PutOver(hits: map<string, seq<real>>, c: string, a: seq<real>, b: seq<real>)
    ensures hits[c := a][c := b] == hits[c := b]
  {
  }

  lemma SameAgain(hits: map<string, seq<real>>, c: string)
    ensures if c in hits then Kept(hits, c) == hits[c] && hits[c := hits[c]] == hits else Kept(hits, c) == []
  {
  }

  lemma {:induction false} WithoutAbsent(order: seq<string>, c: string)
    requires c !in order
    ensures Without(order, c) == order
  {
    if order != [] {
      assert order[0] in order && forall x :: x in order[1..] ==> x in order;
      WithoutAbsent(order[1..], c);
    }
  }

  /** The hits that are left when those before the first recent one are dropped. */
  function Trimmed(ts: seq<real>, cutoff: real): (left: seq<real>)
    ensures |left| <= |ts| && left == ts[|ts| - |left|..]
    ensures forall i :: 0 <= i < |ts| - |left| ==> ts[i] < cutoff
    ensures left != [] ==> left[0] >= cutoff
  {
    if ts == [] || ts[0] >= cutoff then ts else Trimmed(ts[1..], cutoff)
  }

  ghost predicate ByTouch(order: seq<string>, touched: map<string, real>) {
    (forall c :: c in order ==> c in touched) &&
    forall i, j :: 0 <= i < j < |order| ==> order[i] != order[j] && touched[order[i]] <= touched[order[j]]
  }

  lemma {:induction false} WithoutIs(order: seq<string>, c: string, touched: map<string, real>)
    requires ByTouch(order, touched)
    ensures ByTouch(Without(order, c), touched) && forall x :: x in Without(order, c) <==> x in order && x != c
  {
    if order != [] {
      var rest := order[1..];
      WithoutIs(rest, c, touched);
      var left := Without(rest, c);
      assert forall x :: x in order <==> x == order[0] || x in rest;
      forall x | x in left ensures x != order[0] && touched[order[0]] <= touched[x] {
        var j :| 0 <= j < |rest| && rest[j] == x;
        assert order[j + 1] == x;
      }
      if order[0] != c {
        var all := [order[0]] + left;
        forall i, j | 0 <= i < j < |all| ensures all[i] != all[j] && touched[all[i]] <= touched[all[j]] {
          if i == 0 { assert all[j] == left[j - 1] && left[j - 1] in left; }
        }
      }
    }
  }

  lemma SeatedLast(front: seq<string>, client: string, touched: map<string, real>, clock: real, now: real)
    requires ByTouch(front, touched) && client !in front && clock <= now && forall c :: c in front ==>
        touched[c] <= clock
    ensures ByTouch(front + [client], touched[client := now])
  {
    var all, t1 := front + [client], touched[client := now];
    forall i, j | 0 <= i < j < |all| ensures all[i] != all[j] && t1[all[i]] <= t1[all[j]] {
      assert all[i] in front;
      if j < |front| { assert all[j] in front; }
    }
  }

  lemma LegalMore(max: nat, log: seq<Hit>, client: string, now: real, log1: seq<Hit>)
    requires Legal(max, log) && (forall h :: h in log ==> h.time <= now) && Admits(max, log, client, now)
    requires log1 == log + [Hit(client, now)]
    ensures Legal(max, log1)
  {
    forall i | 0 <= i < |log1| ensures Admits(max, log1[..i], log1[i].client, log1[i].time) {
      if i < |log| { assert log1[..i] == log[..i]; } else { assert log1[..i] == log; }
    }
    forall i, j | 0 <= i < j < |log1| ensures log1[i].time <= log1[j].time {
      assert log1[i] in log;
    }
  }

  lemma TailMore(ts: seq<real>, kept: seq<real>, floor: real, t: real)
    requires Tail(ts, kept, floor)
    ensures Tail(ts + [t], kept + [t], floor)
  {
    var all, left := ts + [t], kept + [t];
    assert all[|all| - |left|..] == left;
  }

  lemma NextWindows(max: nat, hits: map<string, seq<real>>, log: seq<Hit>, cutoff: real, client: string,
                    dq: seq<real>, now: real, ok: bool, hits1: map<string, seq<real>>, log1: seq<Hit>)
    requires Windows(hits, log, cutoff) && Tail(Times(log, client), dq, cutoff)
    requires hits1 == hits[client := if ok then dq + [now] else dq]
    requires log1 == Logged(max, log, client, now) && (ok <==> Admits(max, log, client, now))
    ensures Windows(hits1, log1, cutoff)
  {
    hide Tail, Times, Admits;
    forall c ensures Tail(Times(log1, c), Kept(hits1, c), cutoff) {
      assert Tail(Times(log, c), Kept(hits, c), cutoff);
      if ok {
        TimesMore(log, Hit(client, now), log1, c);
        TailMore(Times(log, client), dq, cutoff, now);
        assert Times(log, c) + [] == Times(log, c);
      }
    }
  }

  /** The order lists the stored clients by last touch, and no hit is newer than a touch. */
  ghost predicate Seated(order: seq<string>, hits: map<string, seq<real>>, touched: map<string, real>, clock: real) {
    (forall c :: c in order <==> c in hits) && ByTouch(order, touched) &&
    (forall c :: c in order ==> touched[c] <= clock) &&
    (forall c :: c in hits ==> NoneAfter(hits[c], touched[c]))
  }

  ghost predicate Past(log: seq<Hit>, clock: real) { forall h :: h in log ==> h.time <= clock }

  ghost predicate NoneAfter(ts: seq<real>, t: real) { forall x :: x in ts ==> x <= t }

  lemma SeatNew(order: seq<string>, hits: map<string, seq<real>>, touched: map<string, real>, clock: real,
                client: string, now: real)
    requires Seated(order, hits, touched, clock) && clock <= now && client !in hits
    ensures Seated(order + [client], hits[client := []], touched[client := now], now)
  {
    hide ByTouch, NoneAfter;
    SeatedLast(order, client, touched, clock, now);
    assert NoneAfter([], now) by { NoneAtAll(now); }
  }

  lemma NoneAtAll(t: real)
    ensures NoneAfter([], t)
  {
  }

  lemma NoneLater(ts: seq<real>, t: real, now: real)
    requires NoneAfter(ts, t) && t <= now
    ensures NoneAfter(ts, now)
  {
  }

  lemma SeatAgain(order: seq<string>, hits: map<string, seq<real>>, touched: map<string, real>, clock: real,
                  client: string, now: real)
    requires Seated(order, hits, touched, clock) && clock <= now && client in hits
    ensures Seated(Without(order, client) + [client], hits, touched[client := now], now)
  {
    assert client in order && client in touched;
    hide ByTouch, NoneAfter, Without;
    WithoutIs(order, client, touched);
    SeatedLast(Without(order, client), client, touched, clock, now);
    NoneLater(hits[client], touched[client], now);
  }

  lemma SeatShorter(order: seq<string>, hits: map<string, seq<real>>, touched: map<string, real>, clock: real,
                    client: string, dq: seq<real>)
    requires Seated(order, hits, touched, clock) && client in hits && NoneAfter(dq, touched[client])
    ensures Seated(order, hits[client := dq], touched, clock)
  {
    hide ByTouch, NoneAfter;
  }

  lemma SeatPopped(order: seq<string>, hits: map<string, seq<real>>, touched: map<string, real>, clock: real)
    requires Seated(order, hits, touched, clock) && order != []
    ensures order[0] in hits && Seated(order[1..], hits - {order[0]}, touched, clock)
  {
    assert order[0] in order && order == [order[0]] + order[1..];
    TouchPopped(order, touched);
    hide NoneAfter, ByTouch;
  }

  lemma TouchPopped(order: seq<string>, touched: map<string, real>)
    requires ByTouch(order, touched) && order != []
    ensures ByTouch(order[1..], touched) && order[0] !in order[1..]
  {
    forall x | x in order[1..] ensures x != order[0] {
      var i :| 0 <= i < |order[1..]| && order[1..][i] == x;
      assert order[i + 1] == x;
    }
  }

  lemma SweepPop(order: seq<string>, hits: map<string, seq<real>>, touched: map<string, real>, cutoff: real)
    requires order != [] && !Live(hits, order[0], cutoff) && ByTouch(order, touched)
    ensures FromFirstLive(order, hits, cutoff) == FromFirstLive(order[1..], hits - {order[0]}, cutoff)
  {
    forall c | c in order[1..] ensures Live(hits, c, cutoff) == Live(hits - {order[0]}, c, cutoff) {
      var i :| 0 <= i < |order[1..]| && order[1..][i] == c;
      assert order[0] != order[i + 1];
    }
    FromFirstLiveSame(order[1..], hits, hits - {order[0]}, cutoff);
  }

  lemma FrontTouched(order: seq<string>, hits: map<string, seq<real>>, touched: map<string, real>, clock: real,
                     cutoff: real)
    requires Seated(order, hits, touched, clock) && order != [] && Live(hits, order[0], cutoff)
    ensures forall c :: c in order ==> touched[c] >= cutoff
  {
    var dq := hits[order[0]];
    assert order[0] in order && dq[|dq| - 1] in dq;
    forall c | c in order ensures touched[c] >= cutoff {
      var i :| 0 <= i < |order| && order[i] == c;
    }
  }

  /** Order and windows after one request: the dead front is gone, the client sits at the back with
      its recent hits, and with this one when it was admitted. */
  ghost predicate AfterHit(max: nat, order0: seq<string>, hits0: map<string, seq<real>>, client: string, now: real,
                           ok: bool, order: seq<string>, hits: map<string, seq<real>>) {
    var cutoff := now - WINDOW;
    var left := FromFirstLive(order0, hits0, cutoff);
    var stay := Surviving(hits0, left);
    var dq := Trimmed(Kept(stay, client), cutoff);
    order == Without(left, client) + [client] && (ok <==> |dq| < max) &&
    hits == stay[client := if ok then dq + [now] else dq]
  }

  function Surviving(hits: map<string, seq<real>>, left: seq<string>): map<string, seq<real>> {
    map c | c in hits && c in left :: hits[c]
  }

  lemma SurvivingIs(hits0: map<string, seq<real>>, hits: map<string, seq<real>>, order: seq<string>)
    requires (forall c :: c in order <==> c in hits) && forall c :: c in hits ==> c in hits0 && hits[c] == hits0[c]
    ensures hits == Surviving(hits0, order)
  {
  }

  class Limiter {
    const max: nat
    var order: seq<string>                    // clients by last touch, oldest first
    var hits: map<string, seq<real>>
    ghost var log: seq<Hit>                   // every admitted hit
    ghost var touched: map<string, real>      // when each client was last seen
    ghost var clock: real

    constructor (max: nat, now: real)
      ensures Valid() && this.max == max && log == [] && clock == now && order == [] && hits == map[] &&
          touched == map[]
    {
      this.max := max;
      order, hits, log, touched, clock := [], map[], [], map[], now;
    }

    ghost predicate Valid()
      reads this
    {
      Seated(order, hits, touched, clock) && Windows(hits, log, clock - WINDOW) && Legal(max, log) &&
      Past(log, clock)
    }

    /** Drop the dead windows at the front, up to the first live one. */
    method EvictExpired(cutoff: real)
      requires Seated(order, hits, touched, clock)
      modifies this`order, this`hits
      ensures Seated(order, hits, touched, clock)
      ensures order == FromFirstLive(old(order), old(hits), cutoff)
      ensures forall c :: c in hits ==> c in old(hits) && hits[c] == old(hits)[c]
      ensures forall c :: c in old(hits) && c !in hits ==> !Live(old(hits), c, cutoff)
      ensures forall c :: c in order ==> c in touched && touched[c] >= cutoff
    {
      hide Seated, ByTouch;
      while order != []
        invariant Seated(order, hits, touched, clock)
        invariant FromFirstLive(order, hits, cutoff) == FromFirstLive(old(order), old(hits), cutoff)
        invariant forall c :: c in hits ==> c in old(hits) && hits[c] == old(hits)[c]
        invariant forall c :: c in old(hits) && c !in hits ==> !Live(old(hits), c, cutoff)
        decreases |order|
      {
        SeatPopped(order, hits, touched, clock);
        SeatedTouch(order, hits, touched, clock);
        var dq := hits[order[0]];
        if dq != [] && dq[|dq| - 1] >= cutoff {
          FrontTouched(order, hits, touched, clock, cutoff);
          return;
        }
        SweepPop(order, hits, touched, cutoff);
        hits := hits - {order[0]};
        order := order[1..];
      }
    }

    /** Seat the client at the back and drop its hits that have aged out. */
    method Seat(client: string, now: real, cutoff: real) returns (dq: seq<real>)
      requires Seated(order, hits, touched, clock) && clock <= now
      modifies this`order, this`hits, this`touched, this`clock
      ensures Seated(order, hits, touched, clock) && clock == now && touched == old(touched)[client := now]
      ensures order == Without(old(order), client) + [client]
      ensures forall c :: c in order <==> c in old(order) || c == client
      ensures hits == old(hits)[client := Kept(old(hits), client)]
      ensures dq == Trimmed(hits[client], cutoff)
    {
      hide *;
      SeatedTouch(order, hits, touched, clock);
      WithoutIs(order, client, touched);
      SameAgain(hits, client);
      if client !in hits {
        SeatNew(order, hits, touched, clock, client, now);
        WithoutAbsent(order, client);
        hits := hits[client := []];
        order := order + [client];
      } else {
        SeatAgain(order, hits, touched, clock, client, now);
        order := Without(order, client) + [client];
      }
      touched, clock := touched[client := now], now;
      dq := Recent(hits[client], cutoff);
    }

    /** The hits that have not aged out. */
    static method Recent(kept: seq<real>, cutoff: real) returns (dq: seq<real>)
      ensures dq == Trimmed(kept, cutoff)
    {
      dq := kept;
      while dq != [] && dq[0] < cutoff
        invariant Trimmed(dq, cutoff) == Trimmed(kept, cutoff)
        decreases |dq|
      {
        dq := dq[1..];
      }
    }

    /** Count one hit; false when the window is full, and then the hit is not kept. */
    method Admit(client: string, now: real) returns (ok: bool)
      requires Valid() && now >= clock && max > 0
      modifies this
      ensures Valid() && clock == now
      ensures ok == Admits(max, old(log), client, now) && log == Logged(max, old(log), client, now)
      ensures forall c :: c in order ==> c in touched && touched[c] >= now - WINDOW
      ensures touched == old(touched)[client := now]
      ensures AfterHit(max, old(order), old(hits), client, now, ok, order, hits)
    {
      hide *;
      ValidParts();
      ghost var order0, hits0, log0, clock0 := order, hits, log, clock;
      var cutoff := now - WINDOW;
      EvictExpired(cutoff);
      SeatedTouch(order, hits, touched, clock);
      SurvivingIs(hits0, hits, order);
      ghost var order1, hits1 := order, hits;
      var dq := Seat(client, now, cutoff);
      SeenSince(order1, order, old(touched), client, now);
      ok := |dq| < max;
      log := Logged(max, log, client, now);
      var kept := if ok then dq + [now] else dq;
      HitCounted(max, hits0, hits1, log0, client, dq, ok, now, clock0, order, hits, touched);
      PutOver(hits1, client, Kept(hits1, client), kept);
      hits := hits[client := kept];
      AfterHitIs(max, order0, hits0, client, now, ok, order1, hits1, dq, order, hits);
      PartsValid();
    }

    lemma ValidParts()
      requires Valid()
      ensures Seated(order, hits, touched, clock) && Windows(hits, log, clock - WINDOW) && Legal(max, log) &&
          Past(log, clock)
    {
    }

    lemma PartsValid()
      requires Seated(order, hits, touched, clock) && Windows(hits, log, clock - WINDOW) && Legal(max, log) &&
          Past(log, clock)
      ensures Valid()
    {
    }
  }

  lemma SeenSince(order: seq<string>, next: seq<string>, touched: map<string, real>, client: string, now: real)
    requires forall c :: c in order ==> c in touched && touched[c] >= now - WINDOW
    requires forall c :: c in next <==> c in order || c == client
    ensures forall c :: c in next ==> c in touched[client := now] && touched[client := now][c] >= now - WINDOW
  {
  }

  /** The answer is that of the full log, and what is stored stays its recent part. */
  lemma HitCounted(max: nat, hits0: map<string, seq<real>>, hits1: map<string, seq<real>>, log: seq<Hit>,
                   client: string, dq: seq<real>, ok: bool, now: real, clock: real, order: seq<string>,
                   hits: map<string, seq<real>>, touched: map<string, real>)
    requires Windows(hits0, log, clock - WINDOW) && Legal(max, log) && Past(log, clock) && clock <= now
    requires forall c :: c in hits1 ==> c in hits0 && hits1[c] == hits0[c]
    requires forall c :: c in hits0 && c !in hits1 ==> !Live(hits0, c, now - WINDOW)
    requires hits == hits1[client := Kept(hits1, client)] && dq == Trimmed(hits[client], now - WINDOW)
    requires Seated(order, hits, touched, now) && client in touched && touched[client] == now
    requires ok <==> |dq| < max
    ensures ok == Admits(max, log, client, now)
    ensures var log1, kept := Logged(max, log, client, now), if ok then dq + [now] else dq;
            Windows(hits1[client := kept], log1, now - WINDOW) && Legal(max, log1) && Past(log1, now) &&
            Seated(order, hits[client := kept], touched, now)
  {
    hide Legal, Tail, Live, Seated, Times, Windows, Past, Kept, Admits, Logged;
    var cutoff := now - WINDOW;
    Swept(max, hits0, hits1, log, clock, cutoff);
    FullWindow(max, hits1, log, client, dq, cutoff, clock, now);
    Shortened(order, hits, touched, now, client, dq, now);
    LogNext(max, log, client, clock, now, Logged(max, log, client, now));
    var kept := if ok then dq + [now] else dq;
    NextWindows(max, hits1, log, cutoff, client, dq, now, ok, hits1[client := kept], Logged(max, log, client, now));
  }

  lemma AfterHitIs(max: nat, order0: seq<string>, hits0: map<string, seq<real>>, client: string, now: real, ok: bool,
                   left: seq<string>, stay: map<string, seq<real>>, dq: seq<real>, order: seq<string>,
                   hits: map<string, seq<real>>)
    requires left == FromFirstLive(order0, hits0, now - WINDOW) && stay == Surviving(hits0, left)
    requires order == Without(left, client) + [client] && dq == Trimmed(Kept(stay, client), now - WINDOW)
    requires (ok <==> |dq| < max) && hits == stay[client := if ok then dq + [now] else dq]
    ensures AfterHit(max, order0, hits0, client, now, ok, order, hits)
  {
    hide FromFirstLive, Without, Trimmed, Surviving, Kept;
  }

  lemma LogNext(max: nat, log: seq<Hit>, client: string, clock: real, now: real, log1: seq<Hit>)
    requires Legal(max, log) && Past(log, clock) && clock <= now && log1 == Logged(max, log, client, now)
    ensures Legal(max, log1) && Past(log1, now)
  {
    hide Legal, Admits;
    if Admits(max, log, client, now) { LegalMore(max, log, client, now, log1); }
  }

  lemma Swept(max: nat, hits0: map<string, seq<real>>, hits: map<string, seq<real>>, log: seq<Hit>, clock: real,
              cutoff: real)
    requires Windows(hits0, log, clock - WINDOW) && clock - WINDOW <= cutoff && Legal(max, log) && Past(log, clock)
    requires forall c :: c in hits ==> c in hits0 && hits[c] == hits0[c]
    requires forall c :: c in hits0 && c !in hits ==> !Live(hits0, c, cutoff)
    ensures Windows(hits, log, cutoff)
  {
    hide Windows, Live;
    SweptWindows(hits0, hits, log, clock - WINDOW, cutoff, clock);
  }

  lemma SeatedTouch(order: seq<string>, hits: map<string, seq<real>>, touched: map<string, real>, clock: real)
    requires Seated(order, hits, touched, clock)
    ensures ByTouch(order, touched) && forall c :: c in order <==> c in hits
  {
  }

  /** What is left of the client's window is all of its hits in it. */
  lemma FullWindow(max: nat, hits: map<string, seq<real>>, log: seq<Hit>, client: string, dq: seq<real>, cutoff: real,
                   clock: real, now: real)
    requires Windows(hits, log, cutoff) && Legal(max, log) && Past(log, clock) && cutoff == now - WINDOW
    requires dq == Trimmed(Kept(hits, client), cutoff)
    ensures (Admits(max, log, client, now) <==> |dq| < max) && Tail(Times(log, client), dq, cutoff)
  {
    hide Tail, Times, CountFrom, Kept, InOrder;
    assert Tail(Times(log, client), Kept(hits, client), cutoff);
    TailShrinks(Times(log, client), Kept(hits, client), cutoff, dq, cutoff);
    TimesRise(log, client, clock);
    TailIsWindow(Times(log, client), dq, cutoff);
  }

  lemma Shortened(order: seq<string>, hits: map<string, seq<real>>, touched: map<string, real>, clock: real,
                  client: string, dq: seq<real>, now: real)
    requires Seated(order, hits, touched, clock) && client in hits && client in touched && touched[client] == now
    requires |dq| <= |hits[client]| && dq == hits[client][|hits[client]| - |dq|..]
    ensures Seated(order, hits[client := dq], touched, clock) &&
        Seated(order, hits[client := dq + [now]], touched, clock)
  {
    assert NoneAfter(hits[client], now);
    assert forall t :: t in dq ==> t in hits[client];
    SeatShorter(order, hits, touched, clock, client, dq);
    SeatShorter(order, hits, touched, clock, client, dq + [now]);
  }

  /** A run in which the sweep leaves an aged-out window behind: "a" is admitted at 0 and refused at
      40, so at 61 it stands behind "b", and stays. */
  method AgedWindowSurvives() returns (l: Limiter)
    ensures l.Valid() && l.clock == 61.0
    ensures "a" in l.hits && l.hits["a"] == [0.0] && !Live(l.hits, "a", l.clock - WINDOW)
  {
    hide *;
    ThreeNames();
    WindowIs();
    l := new Limiter(1, 0.0);
    var ok := l.Admit("a", 0.0);
    FirstHit("a", 0.0, ok, l.order, l.hits);
    ok := l.Admit("b", 30.0);
    NextHit("a", 0.0, "b", 30.0, ok, l.order, l.hits);
    ok := l.Admit("a", 40.0);
    RefusedHit("a", 0.0, "b", 30.0, 40.0, ok, l.order, l.hits);
    ok := l.Admit("c", 61.0);
    BehindLive("a", 0.0, "b", 30.0, "c", 61.0, ok, l.order, l.hits);
  }

  lemma WindowIs()
    ensures WINDOW == 60.0
  {
  }

  lemma ThreeNames()
    ensures "a" != "b" && "a" != "c" && "b" != "c"
  {
    assert "a"[0] != "b"[0] && "b"[0] != "c"[0] && "a"[0] != "c"[0];
  }

  lemma FirstHit(a: string, now: real, ok: bool, order: seq<string>, hits: map<string, seq<real>>)
    requires AfterHit(1, [], map[], a, now, ok, order, hits)
    ensures ok && order == [a] && hits == map[a := [now]]
  {
    assert FromFirstLive([], map[], now - WINDOW) == [] && Without([], a) == [];
    assert Surviving(map[], []) == map[];
    assert Trimmed([], now - WINDOW) == [] && [] + [now] == [now];
  }

  lemma NextHit(a: string, t: real, b: string, now: real, ok: bool, order: seq<string>, hits: map<string, seq<real>>)
    requires a != b && t >= now - WINDOW && AfterHit(1, [a], map[a := [t]], b, now, ok, order, hits)
    ensures ok && order == [a, b] && hits == map[a := [t], b := [now]]
  {
    hide Without, Live;
    WithoutAbsent([a], b);
    LiveFirst(a, t, [a], map[a := [t]], now - WINDOW);
    assert Surviving(map[a := [t]], [a]) == map[a := [t]] by { assert a in [a]; }
    assert Trimmed([], now - WINDOW) == [] && [] + [now] == [now];
  }

  lemma LiveFirst(c: string, t: real, order: seq<string>, hits: map<string, seq<real>>, cutoff: real)
    requires order != [] && order[0] == c && c in hits && hits[c] == [t] && t >= cutoff
    ensures FromFirstLive(order, hits, cutoff) == order
  {
  }

  lemma RefusedHit(a: string, t: real, b: string, u: real, now: real, ok: bool, order: seq<string>,
                   hits: map<string, seq<real>>)
    requires a != b && t >= now - WINDOW && AfterHit(1, [a, b], map[a := [t], b := [u]], a, now, ok, order, hits)
    ensures !ok && order == [b, a] && hits == map[a := [t], b := [u]]
  {
    var hits0 := map[a := [t], b := [u]];
    LiveFirst(a, t, [a, b], hits0, now - WINDOW);
    BothSurvive(a, [t], b, [u]);
    FirstGone(a, b);
    hide Without, FromFirstLive, Surviving;
  }

  lemma BothSurvive(a: string, ts: seq<real>, b: string, us: seq<real>)
    ensures var hits := map[a := ts, b := us]; Surviving(hits, [a, b]) == hits
  {
    assert a in [a, b] && b in [a, b];
  }

  lemma FirstGone(a: string, b: string)
    requires a != b
    ensures Without([a, b], a) == [b]
  {
    assert [a, b][1..] == [b];
    WithoutAbsent([b], a);
  }

  lemma BehindLive(a: string, t: real, b: string, u: real, c: string, now: real, ok: bool, order: seq<string>,
                   hits: map<string, seq<real>>)
    requires a != b && c != a && t < now - WINDOW <= u
    requires AfterHit(1, [b, a], map[a := [t], b := [u]], c, now, ok, order, hits)
    ensures a in hits && hits[a] == [t] && !Live(hits, a, now - WINDOW)
  {
    var hits0 := map[a := [t], b := [u]];
    LiveFirst(b, u, [b, a], hits0, now - WINDOW);
    assert a in [b, a];
  }

  // ── the sweep, told from the requests ────────────────────────────────────────

  /** Every client seen, by its last request. */
  function Recency(asked: seq<Hit>): seq<string> {
    if asked == [] then []
    else
      var last := asked[|asked| - 1];
      Without(Recency(asked[..|asked| - 1]), last.client) + [last.client]
  }

  function LastAsked(asked: seq<Hit>, c: string): Option<real> {
    if asked == [] then None
    else
      var last := asked[|asked| - 1];
      if last.client == c then Some(last.time) else LastAsked(asked[..|asked| - 1], c)
  }

  ghost predicate Suffix(a: seq<string>, b: seq<string>) { |a| <= |b| && a == b[|b| - |a|..] }

  ghost predicate Distinct(a: seq<string>) { forall i, j :: 0 <= i < j < |a| ==> a[i] != a[j] }

  /** The stored clients are the latest seen, and the touches are their last requests. */
  ghost predicate Follows(order: seq<string>, touched: map<string, real>, asked: seq<Hit>) {
    Suffix(order, Recency(asked)) && forall c :: LastAsked(asked, c) == if c in touched then Some(touched[c]) else None
  }

  lemma {:induction false} WithoutConcat(a: seq<string>, b: seq<string>, c: string)
    ensures Without(a + b, c) == Without(a, c) + Without(b, c)
  {
    if a == [] {
      assert a + b == b;
    } else {
      var first, rest := if a[0] == c then [] else [a[0]], a[1..];
      WithoutConcat(rest, b, c);
      var all := a + b;
      assert all[0] == a[0] && all[1..] == rest + b;
      Assoc(first, Without(rest, c), Without(b, c));
    }
  }

  lemma Assoc(a: seq<string>, b: seq<string>, c: seq<string>)
    ensures a + (b + c) == (a + b) + c
  {
  }

  lemma {:induction false} WithoutDistinct(a: seq<string>, c: string)
    requires Distinct(a)
    ensures Distinct(Without(a, c)) && forall x :: x in Without(a, c) <==> x in a && x != c
  {
    if a != [] {
      var rest := a[1..];
      assert a == [a[0]] + rest;
      assert forall i :: 0 <= i < |rest| ==> a[i + 1] == rest[i];
      WithoutDistinct(rest, c);
      if a[0] != c { DistinctJoined([a[0]], Without(rest, c)); }
    }
  }

  lemma DistinctJoined(a: seq<string>, b: seq<string>)
    requires Distinct(a) && Distinct(b) && forall x :: x in a ==> x !in b
    ensures Distinct(a + b)
  {
    var all := a + b;
    forall i, j | 0 <= i < j < |all| ensures all[i] != all[j] {
      if i < |a| <= j { assert all[i] in a && all[j] in b; }
    }
  }

  lemma {:induction false} RecencyDistinct(asked: seq<Hit>)
    ensures Distinct(Recency(asked))
  {
    if asked != [] {
      var front, c := asked[..|asked| - 1], asked[|asked| - 1].client;
      RecencyDistinct(front);
      WithoutDistinct(Recency(front), c);
      DistinctJoined(Without(Recency(front), c), [c]);
    }
  }

  lemma SuffixWithout(a: seq<string>, b: seq<string>, c: string)
    requires Suffix(a, b)
    ensures Suffix(Without(a, c) + [c], Without(b, c) + [c])
  {
    var head := b[..|b| - |a|];
    assert b == head + a;
    WithoutConcat(head, a, c);
    var long, short := Without(b, c) + [c], Without(a, c) + [c];
    assert long == Without(head, c) + short;
  }

  /** One request: the client moves to the end of both. */
  lemma FollowsStep(max: nat, order0: seq<string>, hits0: map<string, seq<real>>, touched0: map<string, real>,
                    asked: seq<Hit>, r: Hit, all: seq<Hit>, ok: bool, order: seq<string>,
                    hits: map<string, seq<real>>, touched: map<string, real>)
    requires Follows(order0, touched0, asked) && all == asked + [r] && touched == touched0[r.client := r.time]
    requires AfterHit(max, order0, hits0, r.client, r.time, ok, order, hits)
    ensures Follows(order, touched, all)
  {
    hide Without, Recency, Trimmed, LastAsked, FromFirstLive, Surviving, Kept, Suffix;
    var left := FromFirstLive(order0, hits0, r.time - WINDOW);
    FromFirstLiveIs(order0, hits0, r.time - WINDOW);
    SuffixOfSuffix(left, order0, Recency(asked));
    SuffixWithout(left, Recency(asked), r.client);
    RecencyMore(asked, r, all);
  }

  lemma SuffixOfSuffix(a: seq<string>, b: seq<string>, c: seq<string>)
    requires |a| <= |b| && a == b[|b| - |a|..] && Suffix(b, c)
    ensures Suffix(a, c)
  {
  }

  lemma RecencyMore(asked: seq<Hit>, r: Hit, all: seq<Hit>)
    requires all == asked + [r]
    ensures Recency(all) == Without(Recency(asked), r.client) + [r.client]
    ensures forall c :: LastAsked(all, c) == if c == r.client then Some(r.time) else LastAsked(asked, c)
  {
    assert all[..|all| - 1] == asked;
  }

  ghost predicate HitSince(log: seq<Hit>, c: string, cutoff: real) {
    exists t :: t in Times(log, c) && t >= cutoff
  }

  /** A client that was admitted since the cutoff asked last before one that asked since the cutoff
      and was refused every time. */
  ghost predicate RefusedBehind(log: seq<Hit>, asked: seq<Hit>, cutoff: real) {
    exists i, j ::
      0 <= i < j < |Recency(asked)| && HitSince(log, Recency(asked)[i], cutoff) &&
      AskedSince(asked, Recency(asked)[j], cutoff) && !HitSince(log, Recency(asked)[j], cutoff)
  }

  predicate AskedSince(asked: seq<Hit>, c: string, cutoff: real) {
    LastAsked(asked, c).Some? && LastAsked(asked, c).value >= cutoff
  }

  predicate SweepComplete(order: seq<string>, hits: map<string, seq<real>>, cutoff: real) {
    forall c :: c in FromFirstLive(order, hits, cutoff) ==> Live(hits, c, cutoff)
  }

  /** A stored window is live exactly when the client was admitted since the cutoff, and every
      client admitted since is stored. */
  lemma LiveIsHitSince(hits: map<string, seq<real>>, log: seq<Hit>, clock: real, cutoff: real, c: string)
    requires Windows(hits, log, clock - WINDOW) && InOrder(log) && Past(log, clock) && cutoff >= clock - WINDOW
    ensures Live(hits, c, cutoff) <==> HitSince(log, c, cutoff)
  {
    var ts, kept := Times(log, c), Kept(hits, c);
    assert Tail(ts, kept, clock - WINDOW);
    TimesRise(log, c, clock);
    if Live(hits, c, cutoff) { assert kept[|kept| - 1] == ts[|ts| - 1] && ts[|ts| - 1] in ts; }
    if t :| t in ts && t >= cutoff {
      var i :| 0 <= i < |ts| && ts[i] == t;
      assert i >= |ts| - |kept| && kept[|kept| - 1] == ts[|ts| - 1] >= t;
    }
  }

  /** After any run, a sweep drops every aged-out window if and only if no refused client asked
      behind an admitted one. */
  lemma SweepAfterRun(order: seq<string>, hits: map<string, seq<real>>, touched: map<string, real>, clock: real,
                      log: seq<Hit>, asked: seq<Hit>, cutoff: real)
    requires Seated(order, hits, touched, clock) && Windows(hits, log, clock - WINDOW) && InOrder(log) &&
        Past(log, clock)
    requires Follows(order, touched, asked) && cutoff >= clock - WINDOW
    ensures SweepComplete(order, hits, cutoff) <==> !RefusedBehind(log, asked, cutoff)
  {
    hide Seated, Windows, InOrder, Past, Live, HitSince, FromFirstLive, Recency, LastAsked;
    SweepIsCompleteWhen(order, hits, touched, clock, cutoff);
    forall c ensures Live(hits, c, cutoff) <==> HitSince(log, c, cutoff) {
      LiveIsHitSince(hits, log, clock, cutoff, c);
    }
    var all := Recency(asked);
    var k := |all| - |order|;
    assert forall i :: 0 <= i < |order| ==> order[i] == all[k + i];
    if i, j :| 0 <= i < j < |order| && Live(hits, order[i], cutoff) && RefusedSince(hits, touched, order[j], cutoff) {
      assert HitSince(log, all[k + i], cutoff) && AskedSince(asked, all[k + j], cutoff) &&
          !HitSince(log, all[k + j], cutoff);
    }
    if i, j :| 0 <= i < j < |all| && HitSince(log, all[i], cutoff) && AskedSince(asked, all[j], cutoff) &&
               !HitSince(log, all[j], cutoff) {
      StoredBehind(order, hits, touched, clock, asked, cutoff, i);
      assert order[i - k] == all[i] && order[j - k] == all[j];
      assert RefusedSince(hits, touched, order[j - k], cutoff);
    }
  }

  lemma StoredBehind(order: seq<string>, hits: map<string, seq<real>>, touched: map<string, real>, clock: real,
                     asked: seq<Hit>, cutoff: real, i: nat)
    requires Seated(order, hits, touched, clock) && Follows(order, touched, asked) && i < |Recency(asked)|
    requires Live(hits, Recency(asked)[i], cutoff)
    ensures i >= |Recency(asked)| - |order|
  {
    hide Recency, LastAsked;
    var all := Recency(asked);
    RecencyDistinct(asked);
    assert all[i] in order;
    var p :| 0 <= p < |order| && order[p] == all[i];
    assert all[|all| - |order| + p] == all[i];
  }

  /** Where every request was admitted no sweep leaves anything behind. */
  lemma AllAdmittedIsComplete(asked: seq<Hit>, cutoff: real)
    ensures !RefusedBehind(asked, asked, cutoff)
  {
    hide AskedSince, HitSince, Recency;
    forall c | AskedSince(asked, c, cutoff) ensures HitSince(asked, c, cutoff) { AskedIsHit(asked, c, cutoff); }
  }

  lemma AskedIsHit(asked: seq<Hit>, c: string, cutoff: real)
    requires AskedSince(asked, c, cutoff)
    ensures HitSince(asked, c, cutoff)
  {
    LastIsATime(asked, c);
  }

  lemma {:induction false} LastIsATime(asked: seq<Hit>, c: string)
    requires LastAsked(asked, c).Some?
    ensures LastAsked(asked, c).value in Times(asked, c)
  {
    var front, last := asked[..|asked| - 1], asked[|asked| - 1];
    TimesMore(front, last, asked, c);
    if last.client != c { LastIsATime(front, c); } else { assert last.time in [last.time]; }
  }

  // ── whole runs ───────────────────────────────────────────────────────────────

  /** The answers of the limiter that keeps every admitted hit forever. */
  function KeepAll(max: nat, log: seq<Hit>, requests: seq<Hit>): seq<bool>
    decreases |requests|
  {
    if requests == [] then []
    else
      var r := requests[0];
      [Admits(max, log, r.client, r.time)] + KeepAll(max, Logged(max, log, r.client, r.time), requests[1..])
  }

  /** What the limiter that keeps everything admits of a run. */
  function LogOf(max: nat, log: seq<Hit>, requests: seq<Hit>): seq<Hit>
    decreases |requests|
  {
    if requests == [] then log
    else LogOf(max, Logged(max, log, requests[0].client, requests[0].time), requests[1..])
  }

  /** For every non-decreasing clock the sliding windows give the answers of the full log, no
      closed window ever holds more than the limit, what is stored was seen in the last one, and
      when a sweep is complete is told from the requests and their answers alone. */
  method Serve(max: nat, start: real, requests: seq<Hit>) returns (answers: seq<bool>, l: Limiter)
    requires max > 0 && InOrder(requests) && forall r :: r in requests ==> r.time >= start
    ensures answers == KeepAll(max, [], requests)
    ensures fresh(l) && l.Valid() && l.log == LogOf(max, [], requests)
    ensures forall c, from :: WindowCount(l.log, c, from) <= max
    ensures requests != [] ==> forall c :: c in l.order ==>
        c in l.touched && l.touched[c] >= requests[|requests| - 1].time - WINDOW
    ensures l.clock == if requests == [] then start else requests[|requests| - 1].time
    ensures forall cutoff :: cutoff >= l.clock - WINDOW ==>
              (SweepComplete(l.order, l.hits, cutoff) <==> !RefusedBehind(l.log, requests, cutoff))
  {
    hide KeepAll, InOrder, Windows, Admits, Legal, Seated, WindowCount, Logged, Past, AfterHit, Follows, LogOf;
    l := new Limiter(max, start);
    answers := [];
    FollowsNone(l.touched);
    for i := 0 to |requests|
      invariant fresh(l) && l.Valid() && l.max == max
      invariant l.clock == if i == 0 then start else requests[i - 1].time
      invariant answers + KeepAll(max, l.log, requests[i..]) == KeepAll(max, [], requests)
      invariant LogOf(max, l.log, requests[i..]) == LogOf(max, [], requests)
      invariant Follows(l.order, l.touched, requests[..i])
      invariant i > 0 ==> forall c :: c in l.order ==> c in l.touched && l.touched[c] >= requests[i - 1].time - WINDOW
    {
      var r := requests[i];
      assert r in requests;
      if i > 0 { Ordered(requests, i); }
      ghost var log0, order0, hits0, touched0 := l.log, l.order, l.hits, l.touched;
      var ok := l.Admit(r.client, r.time);
      KeepAllStep(max, log0, requests[i..]);
      assert requests[i..][1..] == requests[i + 1..];
      assert requests[..i + 1] == requests[..i] + [r];
      FollowsStep(max, order0, hits0, touched0, requests[..i], r, requests[..i + 1], ok, l.order, l.hits, l.touched);
      answers := answers + [ok];
    }
    assert requests[..|requests|] == requests;
    KeepAllNone(max, l.log);
    forall c, from ensures WindowCount(l.log, c, from) <= max { WindowBound(max, l.log, c, from); }
    LegalOrdered(max, l.log);
    forall cutoff | cutoff >= l.clock - WINDOW
      ensures SweepComplete(l.order, l.hits, cutoff) <==> !RefusedBehind(l.log, requests, cutoff)
    {
      SweepAfterRun(l.order, l.hits, l.touched, l.clock, l.log, requests, cutoff);
    }
  }

  lemma FollowsNone(touched: map<string, real>)
    requires touched == map[]
    ensures Follows([], touched, [])
  {
  }

  lemma LegalOrdered(max: nat, log: seq<Hit>)
    requires Legal(max, log)
    ensures InOrder(log)
  {
  }

  lemma Ordered(requests: seq<Hit>, i: nat)
    requires InOrder(requests) && 0 < i < |requests|
    ensures requests[i - 1].time <= requests[i].time
  {
  }

  lemma KeepAllNone(max: nat, log: seq<Hit>)
    ensures KeepAll(max, log, []) == [] && LogOf(max, log, []) == log
  {
  }

  lemma KeepAllStep(max: nat, log: seq<Hit>, rest: seq<Hit>)
    requires rest != []
    ensures KeepAll(max, log, rest) == [Admits(max, log, rest[0].client, rest[0].time)]
                                       + KeepAll(max, Logged(max, log, rest[0].client, rest[0].time), rest[1..])
    ensures LogOf(max, log, rest) == LogOf(max, Logged(max, log, rest[0].client, rest[0].time), rest[1..])
  {
  }
}
