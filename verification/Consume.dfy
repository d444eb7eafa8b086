/**
 Mesh consume: last-writer-wins under the partial order of versions.

 `ArriveAll` is what a sequence of offered versions leaves behind.  The order is partial, so
 offers of one key by different origins do not commute; offers of one key by one origin do.
 */
module Consume {
  import opened Folds
  import opened Tables

  datatype Policy = KeepLocal | TakeRemote | Refuse

  datatype Offered<K> = Offered(key: K, version: Version)

  /** Does an offered version replace what is here? */
  predicate Accepts<K>(vs: map<K, Version>, o: Offered<K>, policy: Policy) {
    o.key !in vs ||
    match CompareVersion(o.version, vs[o.key])
    case Newer => true
    case Unordered => policy == TakeRemote
    case _ => false
  }

  function Arrive<K>(vs: map<K, Version>, o: Offered<K>, policy: Policy): map<K, Version> {
    if Accepts(vs, o, policy) then vs[o.key := o.version] else vs
  }

  function ArriveAll<K>(vs: map<K, Version>, os: seq<Offered<K>>, policy: Policy): map<K, Version> {
    if os == [] then vs
    else Arrive(ArriveAll(vs, os[..|os| - 1], policy), os[|os| - 1], policy)
  }

  lemma ArriveAppend<K>(vs: map<K, Version>, os: seq<Offered<K>>, o: Offered<K>, policy: Policy)
    ensures ArriveAll(vs, os + [o], policy) == Arrive(ArriveAll(vs, os, policy), o, policy)
  {
    assert (os + [o])[..|os|] == os;
  }

  lemma {:induction false} ArriveConcat<K>(vs: map<K, Version>, os: seq<Offered<K>>, ps: seq<Offered<K>>,
                                           policy: Policy)
    ensures ArriveAll(vs, os + ps, policy) == ArriveAll(ArriveAll(vs, os, policy), ps, policy)
    decreases |ps|
  {
    if ps == [] {
      assert os + ps == os;
    } else {
      var front, last := ps[..|ps| - 1], ps[|ps| - 1];
      ArriveConcat(vs, os, front, policy);
      ArriveAppend(vs, os + front, last, policy);
      assert os + ps == (os + front) + [last];
    }
  }

  /** The offers of one key carry one origin. */
  ghost predicate OneOriginAt<K>(os: seq<Offered<K>>, k: K) {
    forall o, p :: o in os && p in os && o.key == k && p.key == k ==> o.version.origin == p.version.origin
  }

  /** When no order of the offers of `k` can matter: they carry one origin, or the key is here
      already and an unordered offer never replaces what is here. */
  ghost predicate OrderFreeAt<K>(vs: map<K, Version>, os: seq<Offered<K>>, policy: Policy, k: K) {
    OneOriginAt(os, k) || (policy != TakeRemote && k in vs)
  }

  ghost predicate OrderFree<K(!new)>(vs: map<K, Version>, os: seq<Offered<K>>, policy: Policy) {
    forall k :: OrderFreeAt(vs, os, policy, k)
  }

  /** `r` is the version key `k` must end at, said without the order.  Where the local version
      stands against unordered offers, the newest of its own origin; otherwise the newest offer, or
      the local version when that is of the same origin and not older. */
  ghost predicate Settles<K>(vs: map<K, Version>, os: seq<Offered<K>>, policy: Policy, k: K, r: Option<Version>) {
    var before := At(vs, k);
    if forall o :: o in os ==> o.key != k then r == before
    else
      && r.Some?
      && (before == r || Offered(k, r.value) in os)
      && (before.Some? && before.value.origin == r.value.origin ==> r.value.sn >= before.value.sn)
      && if before.Some? && policy != TakeRemote then
           r.value.origin == before.value.origin &&
           forall o :: o in os && o.key == k && o.version.origin == before.value.origin ==> r.value.sn >= o.version.sn
         else
           forall o :: o in os && o.key == k ==> r.value.origin == o.version.origin && r.value.sn >= o.version.sn
  }

  lemma SettlesUnique<K>(vs: map<K, Version>, os: seq<Offered<K>>, ps: seq<Offered<K>>, policy: Policy, k: K,
                         r: Option<Version>, s: Option<Version>)
    requires forall o :: o in os <==> o in ps
    requires Settles(vs, os, policy, k, r) && Settles(vs, ps, policy, k, s)
    ensures r == s
  {
    if o :| o in os && o.key == k {
      if r != At(vs, k) { assert Offered(k, r.value) in ps; }
      if s != At(vs, k) { assert Offered(k, s.value) in os; }
      assert o in ps;
    }
  }

  lemma {:induction false} ArriveSettles<K>(vs: map<K, Version>, os: seq<Offered<K>>, policy: Policy, k: K)
    requires OrderFreeAt(vs, os, policy, k)
    ensures Settles(vs, os, policy, k, At(ArriveAll(vs, os, policy), k))
    decreases |os|
  {
    if os != [] {
      var front, last := os[..|os| - 1], os[|os| - 1];
      assert os == front + [last];
      ArriveSettles(vs, front, policy, k);
      SettleStep(vs, front, last, os, policy, k);
    }
  }

  lemma SettleStep<K>(vs: map<K, Version>, front: seq<Offered<K>>, last: Offered<K>, os: seq<Offered<K>>,
                      policy: Policy, k: K)
    requires os == front + [last] && OrderFreeAt(vs, os, policy, k)
    requires Settles(vs, front, policy, k, At(ArriveAll(vs, front, policy), k))
    ensures Settles(vs, os, policy, k, At(ArriveAll(vs, os, policy), k))
  {
    ArriveAppend(vs, front, last, policy);
    var mid, end := At(ArriveAll(vs, front, policy), k), At(ArriveAll(vs, os, policy), k);
    assert forall o :: o in os <==> o in front || o == last;
    if last.key == k {
      assert last in os && Offered(k, last.version) == last;
      if o :| o in front && o.key == k { assert o in os; }
    } else {
      assert end == mid;
    }
  }

  /** Order, repetition and batching of order-free offers do not matter. */
  lemma SameOffersSameEnd<K(!new)>(vs: map<K, Version>, os: seq<Offered<K>>, ps: seq<Offered<K>>, policy: Policy)
    requires OrderFree(vs, os, policy) && forall o :: o in os <==> o in ps
    ensures ArriveAll(vs, os, policy) == ArriveAll(vs, ps, policy)
  {
    var a, b := ArriveAll(vs, os, policy), ArriveAll(vs, ps, policy);
    forall k
      ensures At(a, k) == At(b, k)
    {
      SameOffersSameEndAt(vs, os, ps, policy, k);
    }
    assert forall k :: k in a <==> At(a, k).Some?;
    assert forall k :: k in b <==> At(b, k).Some?;
    assert forall k :: k in a ==> At(a, k) == Some(a[k]);
    assert forall k :: k in b ==> At(b, k) == Some(b[k]);
    assert a.Keys == b.Keys;
  }

  lemma SameOffersSameEndAt<K>(vs: map<K, Version>, os: seq<Offered<K>>, ps: seq<Offered<K>>, policy: Policy, k: K)
    requires OrderFreeAt(vs, os, policy, k) && forall o :: o in os <==> o in ps
    ensures At(ArriveAll(vs, os, policy), k) == At(ArriveAll(vs, ps, policy), k)
  {
    assert OrderFreeAt(vs, ps, policy, k);
    ArriveSettles(vs, os, policy, k);
    ArriveSettles(vs, ps, policy, k);
    SettlesUnique(vs, os, ps, policy, k, At(ArriveAll(vs, os, policy), k), At(ArriveAll(vs, ps, policy), k));
  }

  /** A segment that was consumed has nothing left to offer: no replayed document is accepted. */
  lemma ReplayAcceptsNothing<K>(vs: map<K, Version>, os: seq<Offered<K>>, policy: Policy, o: Offered<K>)
    requires OrderFreeAt(vs, os, policy, o.key) && o in os
    ensures !Accepts(ArriveAll(vs, os, policy), o, policy)
  {
    ArriveSettles(vs, os, policy, o.key);
  }

  // ── when order does matter ───────────────────────────────────────────────────

  /** Under TakeRemote the last arrival decides the origin. */
  lemma LastDecides<K>(vs: map<K, Version>, front: seq<Offered<K>>, o: Offered<K>)
    ensures var r := At(ArriveAll(vs, front + [o], TakeRemote), o.key); r.Some? && r.value.origin == o.version.origin
  {
    ArriveAppend(vs, front, o, TakeRemote);
  }

  /** Otherwise the first arrival of an absent key decides it, and nothing changes it after. */
  lemma {:induction false} FirstDecides<K>(vs: map<K, Version>, o: Offered<K>, rest: seq<Offered<K>>, policy: Policy)
    requires policy != TakeRemote && o.key !in vs
    ensures var r := At(ArriveAll(vs, [o] + rest, policy), o.key); r.Some? && r.value.origin == o.version.origin
    decreases |rest|
  {
    if rest == [] {
      assert [o] + rest == [] + [o];
      ArriveAppend(vs, [], o, policy);
    } else {
      var front, last := rest[..|rest| - 1], rest[|rest| - 1];
      assert [o] + rest == ([o] + front) + [last];
      FirstDecides(vs, o, front, policy);
      ArriveAppend(vs, [o] + front, last, policy);
    }
  }

  lemma TakeOut<K>(os: seq<Offered<K>>, o: Offered<K>) returns (rest: seq<Offered<K>>)
    requires o in os
    ensures multiset([o] + rest) == multiset(os) && multiset(rest + [o]) == multiset(os)
  {
    var i :| 0 <= i < |os| && os[i] == o;
    rest := os[..i] + os[i + 1..];
    assert os == os[..i] + [o] + os[i + 1..];
  }

  /** Two offers of one key and different origins, where nothing protects the key: two orders of
      the same offers end differently. */
  lemma TwoOrdersDiffer<K>(vs: map<K, Version>, os: seq<Offered<K>>, policy: Policy, k: K)
    returns (ps: seq<Offered<K>>, qs: seq<Offered<K>>)
    requires !OrderFreeAt(vs, os, policy, k)
    ensures multiset(ps) == multiset(os) == multiset(qs)
    ensures At(ArriveAll(vs, ps, policy), k) != At(ArriveAll(vs, qs, policy), k)
  {
    var a, b :| a in os && b in os && a.key == k && b.key == k && a.version.origin != b.version.origin;
    var withoutA := TakeOut(os, a);
    var withoutB := TakeOut(os, b);
    if policy == TakeRemote {
      ps, qs := withoutA + [a], withoutB + [b];
      LastDecides(vs, withoutA, a);
      LastDecides(vs, withoutB, b);
    } else {
      ps, qs := [a] + withoutA, [b] + withoutB;
      FirstDecides(vs, a, withoutA, policy);
      FirstDecides(vs, b, withoutB, policy);
    }
  }

  /** Every order of the offers leaves `k` at one version. */
  ghost predicate AllOrdersAgree<K(!new)>(vs: map<K, Version>, os: seq<Offered<K>>, policy: Policy, k: K) {
    forall ps, qs :: multiset(ps) == multiset(os) && multiset(qs) == multiset(os) ==>
      At(ArriveAll(vs, ps, policy), k) == At(ArriveAll(vs, qs, policy), k)
  }

  /** The order of arrival is irrelevant to a key exactly when its offers carry one origin, or the
      key is here already and the policy does not let an unordered offer replace it. */
  lemma OrderMattersExactlyWhen<K(!new)>(vs: map<K, Version>, os: seq<Offered<K>>, policy: Policy, k: K)
    ensures AllOrdersAgree(vs, os, policy, k) <==> OrderFreeAt(vs, os, policy, k)
  {
    if OrderFreeAt(vs, os, policy, k) {
      forall ps, qs | multiset(ps) == multiset(os) && multiset(qs) == multiset(os)
        ensures At(ArriveAll(vs, ps, policy), k) == At(ArriveAll(vs, qs, policy), k)
      {
        forall o ensures (o in os <==> o in ps) && (o in os <==> o in qs) {
          assert o in os <==> o in multiset(os);
          assert o in ps <==> o in multiset(ps);
          assert o in qs <==> o in multiset(qs);
        }
        SameOffersSameEndAt(vs, os, ps, policy, k);
        SameOffersSameEndAt(vs, os, qs, policy, k);
      }
    } else {
      var ps, qs := TwoOrdersDiffer(vs, os, policy, k);
    }
  }
}
