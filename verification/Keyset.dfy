/**
 Keyset paging: `WHERE key > :after ORDER BY key LIMIT :n`, over any strict total order.
 A walk that asks for the next page after the last key it saw visits every key exactly once.
 */
module Keyset {
  import opened Folds

  /** How many of `n` rows a `LIMIT` lets through: a negative one is no limit. */
  function SqlLimit(n: nat, limit: int): nat { if limit < 0 || n <= limit then n else limit }

  ghost predicate StrictTotal<K(!new)>(lt: (K, K) -> bool) {
    (forall a :: !lt(a, a)) &&
    (forall a, b, c :: lt(a, b) && lt(b, c) ==> lt(a, c)) &&
    (forall a, b :: a == b || lt(a, b) || lt(b, a))
  }

  predicate Above<K>(lt: (K, K) -> bool, after: Option<K>, k: K) {
    after.None? || lt(after.value, k)
  }

  ghost predicate Ascending<K>(lt: (K, K) -> bool, s: seq<K>) {
    forall i, j :: 0 <= i < j < |s| ==> lt(s[i], s[j])
  }

  /** `page` is the first `n` keys above `after`, in order. */
  ghost predicate IsPage<K>(lt: (K, K) -> bool, keys: set<K>, after: Option<K>, n: nat, page: seq<K>) {
    Ascending(lt, page) && |page| <= n &&
    (forall k :: k in page ==> k in keys && Above(lt, after, k)) &&
    (forall k :: k in keys && Above(lt, after, k) && k !in page ==>
       |page| == n && forall p :: p in page ==> lt(p, k))
  }

  /** The least key above `after`, if there is one. */
  method LeastAbove<K(==, !new)>(lt: (K, K) -> bool, keys: set<K>, after: Option<K>) returns (r: Option<K>)
    requires StrictTotal(lt)
    ensures r.None? <==> forall k :: k in keys ==> !Above(lt, after, k)
    ensures r.Some? ==> r.value in keys && Above(lt, after, r.value)
    ensures r.Some? ==> forall k :: k in keys && Above(lt, after, k) ==> k == r.value || lt(r.value, k)
  {
    r := None;
    var rest := keys;
    while rest != {}
      invariant rest <= keys
      invariant r.None? ==> forall k :: k in keys - rest ==> !Above(lt, after, k)
      invariant r.Some? ==> r.value in keys - rest && Above(lt, after, r.value)
      invariant r.Some? ==> forall k :: k in keys - rest && Above(lt, after, k) ==> k == r.value || lt(r.value, k)
      decreases |rest|
    {
      var k :| k in rest;
      if Above(lt, after, k) && (r.None? || lt(k, r.value)) { r := Some(k); }
      rest := rest - {k};
    }
  }

  method Select<K(==, !new)>(lt: (K, K) -> bool, keys: set<K>, after: Option<K>, n: nat) returns (page: seq<K>)
    requires StrictTotal(lt)
    ensures IsPage(lt, keys, after, n, page)
  {
    page := [];
    var cursor := after;
    while |page| < n
      invariant |page| <= n && Ascending(lt, page)
      invariant forall k :: k in page ==> k in keys && Above(lt, after, k)
      invariant page == [] ==> cursor == after
      invariant page != [] ==> cursor == Some(page[|page| - 1])
      invariant forall k :: k in keys && Above(lt, after, k) && k !in page ==> forall p :: p in page ==> lt(p, k)
      decreases n - |page|
    {
      var next := LeastAbove(lt, keys, cursor);
      if next.None? { return; }
      assert forall p :: p in page ==> lt(p, next.value);
      assert page != [] ==> page[|page| - 1] in page && Above(lt, after, page[|page| - 1]);
      assert Above(lt, after, next.value);
      forall k | k in keys && Above(lt, after, k) && k !in page && k != next.value
        ensures lt(next.value, k)
      {
        assert Above(lt, cursor, k);
      }
      page := page + [next.value];
      cursor := next;
    }
  }

  /** Every key above the cursor is above the last key of the page or on the page, never both. */
  lemma PageAdvances<K(!new)>(lt: (K, K) -> bool, keys: set<K>, after: Option<K>, n: nat, page: seq<K>, k: K)
    requires StrictTotal(lt) && IsPage(lt, keys, after, n, page) && page != []
    requires k in keys
    ensures Above(lt, after, k) <==> k in page || lt(page[|page| - 1], k)
    ensures !(k in page && lt(page[|page| - 1], k))
  {
    var last := page[|page| - 1];
    assert last in page;
    if k in page {
      var i :| 0 <= i < |page| && page[i] == k;
      if i < |page| - 1 { assert lt(k, last); }
    }
  }

  ghost function Beyond<K>(lt: (K, K) -> bool, keys: set<K>, after: Option<K>): set<K> {
    set k | k in keys && Above(lt, after, k)
  }

  lemma PageTakes<K(!new)>(lt: (K, K) -> bool, keys: set<K>, after: Option<K>, n: nat, page: seq<K>)
    requires StrictTotal(lt) && IsPage(lt, keys, after, n, page) && page != []
    ensures var rest := Beyond(lt, keys, Some(page[|page| - 1]));
            |Beyond(lt, keys, after)| == |page| + |rest| &&
            (|page| < n ==> rest == {})
  {
    var last := page[|page| - 1];
    var onPage := set k | k in page;
    var rest := Beyond(lt, keys, Some(last));
    forall k | k in keys
      ensures Above(lt, after, k) <==> k in onPage || k in rest
      ensures !(k in onPage && k in rest)
    {
      PageAdvances(lt, keys, after, n, page, k);
    }
    AscendingDistinct(lt, page);
    assert Beyond(lt, keys, after) == onPage + rest;
    if |page| < n {
      forall k | k in keys ensures k !in rest { PageAdvances(lt, keys, after, n, page, k); }
    }
  }

  /** What a walk has visited when its cursor stands at `after`. */
  ghost predicate Visited<K(!new)>(lt: (K, K) -> bool, keys: set<K>, after: Option<K>, visited: seq<K>) {
    Ascending(lt, visited) &&
    (forall k :: k in visited <==> k in keys && !Above(lt, after, k)) &&
    (if visited == [] then after.None? else after == Some(visited[|visited| - 1]))
  }

  lemma VisitedStep<K(!new)>(lt: (K, K) -> bool, keys: set<K>, after: Option<K>, n: nat, page: seq<K>, visited: seq<K>)
    requires StrictTotal(lt) && IsPage(lt, keys, after, n, page) && page != [] && Visited(lt, keys, after, visited)
    ensures Visited(lt, keys, Some(page[|page| - 1]), visited + page)
  {
    var all, last := visited + page, page[|page| - 1];
    forall i, j | 0 <= i < j < |all|
      ensures lt(all[i], all[j])
    {
      if i < |visited| <= j {
        assert all[j] == page[j - |visited|] && page[j - |visited|] in page;
        assert visited[i] in visited;
        assert visited[i] == after.value || lt(visited[i], visited[|visited| - 1]);
      }
    }
    forall k
      ensures k in all <==> k in keys && !lt(last, k)
    {
      if k in keys { PageAdvances(lt, keys, after, n, page, k); }
    }
  }

  /** The keyset walk: the pages, in order, are all the keys in order, whatever the page size. */
  method Walk<K(==, !new)>(lt: (K, K) -> bool, keys: set<K>, n: nat) returns (visited: seq<K>)
    requires StrictTotal(lt) && n > 0
    ensures Ascending(lt, visited)
    ensures forall k :: k in visited <==> k in keys
    ensures |visited| == |keys|
  {
    hide StrictTotal, Ascending, IsPage, Beyond;
    visited := [];
    var cursor: Option<K> := None;
    assert Ascending<K>(lt, []) by { EmptyAscending(lt); }
    while true
      invariant Visited(lt, keys, cursor, visited)
      decreases |Beyond(lt, keys, cursor)|
    {
      var page := Select(lt, keys, cursor, n);
      if page == [] {
        assert forall k :: k in keys ==> !Above(lt, cursor, k) by { EmptyPage(lt, keys, cursor, n); }
        break;
      }
      PageTakes(lt, keys, cursor, n, page);
      VisitedStep(lt, keys, cursor, n, page, visited);
      visited := visited + page;
      cursor := Some(page[|page| - 1]);
      if |page| < n {
        assert forall k :: k in keys ==> !Above(lt, cursor, k) by { NothingBeyond(lt, keys, cursor); }
        break;
      }
    }
    AscendingDistinct(lt, visited);
    assert (set k | k in visited) == keys;
  }

  lemma EmptyAscending<K>(lt: (K, K) -> bool)
    ensures Ascending<K>(lt, [])
  {
  }

  lemma EmptyPage<K>(lt: (K, K) -> bool, keys: set<K>, after: Option<K>, n: nat)
    requires IsPage(lt, keys, after, n, []) && n > 0
    ensures forall k :: k in keys ==> !Above(lt, after, k)
  {
  }

  lemma NothingBeyond<K>(lt: (K, K) -> bool, keys: set<K>, after: Option<K>)
    requires Beyond(lt, keys, after) == {}
    ensures forall k :: k in keys ==> !Above(lt, after, k)
  {
    forall k | k in keys ensures !Above(lt, after, k) { assert k !in Beyond(lt, keys, after); }
  }

  lemma {:induction false} AscendingDistinct<K(!new)>(lt: (K, K) -> bool, s: seq<K>)
    requires StrictTotal(lt) && Ascending(lt, s)
    ensures |set k | k in s| == |s|
  {
    if s != [] {
      var front, last := s[..|s| - 1], s[|s| - 1];
      assert s == front + [last];
      assert forall i, j :: 0 <= i < j < |front| ==> lt(front[i], front[j]) by {
        forall i, j | 0 <= i < j < |front| ensures lt(front[i], front[j]) { assert lt(s[i], s[j]); }
      }
      AscendingDistinct(lt, front);
      assert last !in front;
      assert (set k | k in s) == (set k | k in front) + {last};
    }
  }
}
