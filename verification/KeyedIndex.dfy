/**
 The keyed index over the list fields, against the filter scan it stands for.
 */
module KeyedIndex {
  import opened Folds
  import opened Tables
  import opened Invariants
  import opened Keyset
  import opened Writes

  // ── what the scan would find ─────────────────────────────────────────────────

  /** `v` is one of the values the field holds: an item of its list, or, in the one field that holds
      a single value, its text. */
  predicate Holds(doc: Doc, field: Key, v: Value) {
    v != Null && field in doc && ((doc[field].List? && v in doc[field].items) ||
        (field.TrashedBy? && v.Str? && doc[field] == v))
  }

  /** The document holds a value equal to `value` up to case in the field. */
  ghost predicate Carries(e: Env, doc: Doc, field: Key, value: string) {
    exists v :: Holds(doc, field, v) && e.lower(e.text(v)) == value
  }

  predicate OfType(e: Env, ct: Value, wanted: Option<string>) {
    wanted.None? || (ct != Null && e.text(ct) == wanted.value)
  }

  ghost predicate Matches(e: Env, row: VRow, field: Key, value: string, wanted: Option<string>) {
    Carries(e, row.doc, field, value) && OfType(e, row.ct, wanted)
  }

  ghost predicate HasAny(e: Env, row: VRow, field: Key) { exists v :: Holds(row.doc, field, v) }

  lemma ListValuesAre(doc: Doc, field: Key)
    ensures forall v :: Holds(doc, field, v) <==> v in ListValues(doc, field) && !v.Null?
  {
  }

  // ── what the index holds ─────────────────────────────────────────────────────

  lemma {:induction false} FieldPosted(e: Env, field: Key, vals: seq<Value>, ct: Value, p: Posting)
    ensures p in FieldPostings(e, field, vals, ct) <==>
            p.field == field && p.ct == CtText(e, ct) &&
            exists i :: 0 <= i < |vals| && !vals[i].Null? && p.value == e.lower(e.text(vals[i]))
  {
    if vals != [] {
      FieldPosted(e, field, vals[1..], ct, p);
      if i :| 0 <= i < |vals| && !vals[i].Null? && p.value == e.lower(e.text(vals[i])) {
        if i > 0 { assert vals[1..][i - 1] == vals[i]; }
      }
      if i :| 0 <= i < |vals[1..]| && !vals[1..][i].Null? && p.value == e.lower(e.text(vals[1..][i])) {
        assert vals[1..][i] == vals[i + 1];
      }
    }
  }

  lemma {:induction false} FieldsPosted(e: Env, fields: seq<Key>, doc: Doc, ct: Value, p: Posting)
    ensures p in FieldsPostings(e, fields, doc, ct) <==>
            p.field in fields && p in FieldPostings(e, p.field, ListValues(doc, p.field), ct)
  {
    hide FieldPostings, ListValues;
    if fields != [] {
      FieldsPosted(e, fields[1..], doc, ct, p);
      FieldPosted(e, fields[0], ListValues(doc, fields[0]), ct, p);
      assert p.field in fields <==> p.field == fields[0] || p.field in fields[1..];
    }
  }

  /** A posting is there exactly when the document carries its value in its field. */
  lemma PostedIff(e: Env, doc: Doc, ct: Value, p: Posting)
    ensures p in PostingsOf(e, doc, ct) <==>
            p.field in LIST_INDEX_FIELDS && p.ct == CtText(e, ct) && Carries(e, doc, p.field, p.value)
  {
    hide FieldPostings, FieldsPostings, ListValues, Holds;
    FieldsPosted(e, LIST_INDEX_FIELDS, doc, ct, p);
    FieldPosted(e, p.field, ListValues(doc, p.field), ct, p);
    ListValuesAre(doc, p.field);
    if Carries(e, doc, p.field, p.value) {
      var v :| Holds(doc, p.field, v) && e.lower(e.text(v)) == p.value;
      var i :| 0 <= i < |ListValues(doc, p.field)| && ListValues(doc, p.field)[i] == v;
    }
  }

  predicate Asked(p: Posting, field: Key, value: string, wanted: Option<string>) {
    p.field == field && p.value == value && (wanted.None? || p.ct == wanted)
  }

  /** The ids the join yields for a query: those with a matching posting and a row. */
  function Joined(d: Db, field: Key, value: string, wanted: Option<string>): set<string> {
    set id | id in d.vertex && exists p :: p in Group(d.listkey, id) && Asked(p, field, value, wanted)
  }

  function JoinedAny(d: Db, field: Key): set<string> {
    set id | id in d.vertex && exists p :: p in Group(d.listkey, id) && p.field == field
  }

  /** The index answers what the scan over all documents would. */
  lemma IndexIsScan(e: Env, d: Db, h: History, field: Key, value: string, wanted: Option<string>)
    requires SidecarsOk(e, d, h) && h.lostIds == {} && field in LIST_INDEX_FIELDS
    ensures forall id :: id in Joined(d, field, value, wanted) <==>
        id in d.vertex && Matches(e, d.vertex[id], field, value, wanted)
  {
    hide PostingsOf, TaskOf, Carries, SidecarsOk;
    forall id | id in d.vertex
      ensures id in Joined(d, field, value, wanted) <==> Matches(e, d.vertex[id], field, value, wanted)
    {
      var row := d.vertex[id];
      assert Group(d.listkey, id) == PostingsOf(e, row.doc, row.ct) by { PostingsHere(e, d, h, id); }
      var due := Posting(field, value, CtText(e, row.ct));
      PostedIff(e, row.doc, row.ct, due);
      forall p | p in Group(d.listkey, id) && Asked(p, field, value, wanted)
        ensures Matches(e, row, field, value, wanted)
      {
        PostedIff(e, row.doc, row.ct, p);
      }
    }
  }

  lemma PostingsHere(e: Env, d: Db, h: History, id: string)
    requires SidecarsOk(e, d, h) && h.lostIds == {} && id in d.vertex
    ensures Group(d.listkey, id) == PostingsOf(e, d.vertex[id].doc, d.vertex[id].ct)
  {
    hide PostingsOf, TaskOf;
    assert SidecarAt(e, d, h.lostIds, id);
  }

  lemma AnyIsScan(e: Env, d: Db, h: History, field: Key)
    requires SidecarsOk(e, d, h) && h.lostIds == {} && field in LIST_INDEX_FIELDS
    ensures forall id :: id in JoinedAny(d, field) <==> id in d.vertex && HasAny(e, d.vertex[id], field)
  {
    hide PostingsOf, TaskOf, SidecarsOk, ListValues;
    forall id | id in d.vertex
      ensures id in JoinedAny(d, field) <==> HasAny(e, d.vertex[id], field)
    {
      var row := d.vertex[id];
      assert Group(d.listkey, id) == PostingsOf(e, row.doc, row.ct) by { PostingsHere(e, d, h, id); }
      if v :| Holds(row.doc, field, v) {
        PostedIff(e, row.doc, row.ct, Posting(field, e.lower(e.text(v)), CtText(e, row.ct)));
      }
      forall p | p in Group(d.listkey, id) && p.field == field ensures HasAny(e, row, field) {
        PostedIff(e, row.doc, row.ct, p);
      }
    }
  }

  // ── the lookups ──────────────────────────────────────────────────────────────

  /** `part` is what a query meets of the postings `ps`, each as often as it is there. */
  ghost predicate IsPart(ps: multiset<Posting>, field: Key, value: string, wanted: Option<string>,
                         part: multiset<Posting>) {
    forall p :: part[p] == if Asked(p, field, value, wanted) then ps[p] else 0
  }

  /** A query meets `n` postings of `ps`. */
  ghost predicate Met(ps: multiset<Posting>, field: Key, value: string, wanted: Option<string>, n: nat) {
    exists part :: IsPart(ps, field, value, wanted, part) && |part| == n
  }

  lemma MetIs(ps: multiset<Posting>, field: Key, value: string, wanted: Option<string>, n: nat)
    requires Met(ps, field, value, wanted, n)
    ensures n > 0 <==> exists p :: p in ps && Asked(p, field, value, wanted)
  {
    hide Asked;
    var part :| IsPart(ps, field, value, wanted, part) && |part| == n;
    if n > 0 { var p :| p in part; assert p in ps && Asked(p, field, value, wanted); }
    if p :| p in ps && Asked(p, field, value, wanted) { assert p in part; }
  }

  /** How many postings of one artifact a query meets: a list holding a word twice meets it twice. */
  method Copies(ps: multiset<Posting>, field: Key, value: string, wanted: Option<string>) returns (n: nat)
    ensures Met(ps, field, value, wanted, n)
  {
    hide Asked, IsPart;
    n := 0;
    var rest := ps;
    ghost var part: multiset<Posting> := multiset{};
    PartNone(field, value, wanted);
    assert ps - rest == multiset{};
    while rest != multiset{}
      invariant rest <= ps && |part| == n
      invariant IsPart(ps - rest, field, value, wanted, part)
      decreases |rest|
    {
      var p :| p in rest;
      PartMore(ps - rest, field, value, wanted, part, p);
      if Asked(p, field, value, wanted) { n := n + 1; part := part + multiset{p}; }
      assert ps - (rest - multiset{p}) == (ps - rest) + multiset{p};
      rest := rest - multiset{p};
    }
    assert ps - rest == ps;
  }

  lemma PartNone(field: Key, value: string, wanted: Option<string>)
    ensures IsPart(multiset{}, field, value, wanted, multiset{})
  {
  }

  lemma PartMore(ps: multiset<Posting>, field: Key, value: string, wanted: Option<string>, part: multiset<Posting>,
                 p: Posting)
    requires IsPart(ps, field, value, wanted, part)
    ensures IsPart(ps + multiset{p}, field, value, wanted, if Asked(p, field, value, wanted) then part + multiset{p}
        else part)
  {
    hide Asked;
  }

  /** Python's rows[:n]. */
  function Cut<T>(rows: seq<T>, n: int): seq<T> {
    if n >= |rows| then rows else if n >= 0 then rows[..n] else if |rows| + n >= 0 then rows[..|rows| + n] else []
  }

  ghost predicate InOrder(lt: (string, string) -> bool, rows: seq<string>) {
    forall i, j :: 0 <= i < j < |rows| ==> rows[i] == rows[j] || lt(rows[i], rows[j])
  }

  function Repeat(id: string, n: nat): (r: seq<string>)
    ensures forall j :: multiset(r)[j] == if j == id then n else 0
  {
    if n == 0 then [] else Repeat(id, n - 1) + [id]
  }

  function PostingsUnder(d: Db, id: string): multiset<Posting> {
    if id in d.vertex then Group(d.listkey, id) else multiset{}
  }

  /** The rows of the join: in id order, an id as often as it has postings the query meets. */
  ghost predicate IsJoin(e: Env, d: Db, field: Key, value: string, wanted: Option<string>, rows: seq<string>) {
    InOrder(e.idBefore, rows) && forall id :: Met(PostingsUnder(d, id), field, value, wanted, multiset(rows)[id])
  }

  lemma JoinHolds(e: Env, d: Db, field: Key, value: string, wanted: Option<string>, rows: seq<string>)
    requires IsJoin(e, d, field, value, wanted, rows)
    ensures forall id :: id in rows <==> id in Joined(d, field, value, wanted)
  {
    hide Met, Asked;
    forall id ensures id in rows <==> id in Joined(d, field, value, wanted) {
      MetIs(PostingsUnder(d, id), field, value, wanted, multiset(rows)[id]);
      assert id in rows <==> id in multiset(rows);
    }
  }

  /** So far: the ids up to the cursor, each as often as it is met. */
  ghost predicate JoinedTo(e: Env, d: Db, field: Key, value: string, wanted: Option<string>, cursor: Option<string>,
                           rows: seq<string>) {
    forall id :: if Above(e.idBefore, cursor, id) then multiset(rows)[id] == 0
                 else Met(PostingsUnder(d, id), field, value, wanted, multiset(rows)[id])
  }

  lemma JoinMore(e: Env, d: Db, field: Key, value: string, wanted: Option<string>, cursor: Option<string>,
                 rows: seq<string>, next: string, n: nat)
    requires StrictTotal(e.idBefore) && JoinedTo(e, d, field, value, wanted, cursor, rows)
    requires Above(e.idBefore, cursor, next) && Met(PostingsUnder(d, next), field, value, wanted, n)
    requires forall k :: k in Joined(d, field, value, wanted) && Above(e.idBefore, cursor, k) ==>
        k == next || e.idBefore(next, k)
    ensures JoinedTo(e, d, field, value, wanted, Some(next), rows + Repeat(next, n))
  {
    hide Met, Joined;
    var all := rows + Repeat(next, n);
    forall id ensures if Above(e.idBefore, Some(next), id) then multiset(all)[id] == 0
                      else Met(PostingsUnder(d, id), field, value, wanted, multiset(all)[id])
    {
      assert multiset(all)[id] == multiset(rows)[id] + if id == next then n else 0;
      if id != next && Above(e.idBefore, cursor, id) && !Above(e.idBefore, Some(next), id) {
        NotMet(d, field, value, wanted, id);
      }
    }
  }

  lemma NotMet(d: Db, field: Key, value: string, wanted: Option<string>, id: string)
    requires id !in Joined(d, field, value, wanted)
    ensures Met(PostingsUnder(d, id), field, value, wanted, 0)
  {
    assert IsPart(PostingsUnder(d, id), field, value, wanted, multiset{});
  }

  method JoinRows(e: Env, d: Db, field: Key, value: string, wanted: Option<string>) returns (rows: seq<string>)
    requires EnvOk(e)
    ensures IsJoin(e, d, field, value, wanted, rows)
  {
    hide StrictTotal, Asked, InOrder, Met, Joined, JoinedTo, PostingsUnder;
    var hits := Joined(d, field, value, wanted);
    rows := [];
    var cursor: Option<string> := None;
    assert InOrder(e.idBefore, []) by { OrderNone(e.idBefore); }
    JoinNone(e, d, field, value, wanted);
    while true
      invariant forall id :: id in rows ==> id in hits && !Above(e.idBefore, cursor, id)
      invariant InOrder(e.idBefore, rows) && JoinedTo(e, d, field, value, wanted, cursor, rows)
      decreases |Beyond(e.idBefore, hits, cursor)|
    {
      var next := LeastAbove(e.idBefore, hits, cursor);
      if next.None? {
        JoinDone(e, d, field, value, wanted, cursor, rows);
        return;
      }
      var n := Copies(PostingsUnder(d, next.value), field, value, wanted);
      NextVisited(e.idBefore, hits, cursor, next.value);
      forall id | id in Repeat(next.value, n) ensures id == next.value { assert id in multiset(Repeat(next.value, n)); }
      OrderAppend(e.idBefore, rows, next.value, Repeat(next.value, n));
      JoinMore(e, d, field, value, wanted, cursor, rows, next.value, n);
      rows := rows + Repeat(next.value, n);
      cursor := next;
    }
  }

  lemma JoinNone(e: Env, d: Db, field: Key, value: string, wanted: Option<string>)
    ensures JoinedTo(e, d, field, value, wanted, None, [])
  {
  }

  lemma JoinDone(e: Env, d: Db, field: Key, value: string, wanted: Option<string>, cursor: Option<string>,
                 rows: seq<string>)
    requires InOrder(e.idBefore, rows) && JoinedTo(e, d, field, value, wanted, cursor, rows)
    requires forall k :: k in Joined(d, field, value, wanted) ==> !Above(e.idBefore, cursor, k)
    ensures IsJoin(e, d, field, value, wanted, rows)
  {
    hide Met, InOrder, Joined;
    forall id ensures Met(PostingsUnder(d, id), field, value, wanted, multiset(rows)[id]) {
      if Above(e.idBefore, cursor, id) { NotMet(d, field, value, wanted, id); }
    }
  }

  lemma OrderNone(lt: (string, string) -> bool)
    ensures InOrder(lt, [])
  {
  }

  lemma OrderAppend(lt: (string, string) -> bool, rows: seq<string>, next: string, more: seq<string>)
    requires InOrder(lt, rows) && (forall id :: id in rows ==> lt(id, next)) && (forall id :: id in more ==> id == next)
    ensures InOrder(lt, rows + more)
  {
    var all := rows + more;
    forall i, j | 0 <= i < j < |all| ensures all[i] == all[j] || lt(all[i], all[j]) {
      if j >= |rows| {
        assert all[j] in more;
        if i < |rows| { assert all[i] in rows; } else { assert all[i] in more; }
      }
    }
  }

  /** Moving the cursor to the least key above it passes that key alone. */
  lemma NextVisited(lt: (string, string) -> bool, keys: set<string>, cursor: Option<string>, next: string)
    requires StrictTotal(lt) && next in keys && Above(lt, cursor, next)
    requires forall k :: k in keys && Above(lt, cursor, k) ==> k == next || lt(next, k)
    ensures forall k :: k in keys ==> (!Above(lt, Some(next), k) <==> !Above(lt, cursor, k) || k == next)
    ensures forall k :: k in keys && !Above(lt, cursor, k) ==> lt(k, next)
    ensures |Beyond(lt, keys, Some(next))| < |Beyond(lt, keys, cursor)|
  {
    assert Beyond(lt, keys, cursor) == Beyond(lt, keys, Some(next)) + {next};
    assert next !in Beyond(lt, keys, Some(next));
  }

  /** A field outside the index is refused, never answered with no matches. */
  datatype Lookup = Refused | Page(ids: seq<string>, truncated: bool)

  /** The ids of one lookup: the lowest `limit` rows of the join, flagged exactly when the join has
      more.  Over a store that lost no vertex, the join is the filter scan of all documents. */
  method LookupByListField(e: Env, d: Db, ghost h: History, field: Key, asked: Value, limit: int,
                           wanted: Option<string>)
    returns (r: Lookup, ghost all: seq<string>)
    requires EnvOk(e)
    ensures r.Refused? <==> field !in {Lemmas, Calls, TrashedBy}
    ensures r.Page? ==> IsJoin(e, d, field, e.lower(e.text(asked)), wanted, all)
    ensures r.Page? && limit >= 0 ==> r.ids == all[..Min(|all|, limit)] && (r.truncated <==> |all| > limit)
    ensures r.Page? && limit < 0 ==> r.ids <= all && r.truncated
    ensures r.Page? && SidecarsOk(e, d, h) && h.lostIds == {} ==>
              forall id :: id in all <==>
                  id in d.vertex && Matches(e, d.vertex[id], field, e.lower(e.text(asked)), wanted)
  {
    hide StrictTotal, IsJoin, Joined, SidecarsOk, Matches;
    if field !in LIST_INDEX_FIELDS { return Refused, []; }
    var found := JoinRows(e, d, field, e.lower(e.text(asked)), wanted);
    var rows := found[..SqlLimit(|found|, limit + 1)];
    r := Page(Cut(rows, limit), |rows| > limit);
    all := found;
    JoinHolds(e, d, field, e.lower(e.text(asked)), wanted, found);
    if SidecarsOk(e, d, h) && h.lostIds == {} { IndexIsScan(e, d, h, field, e.lower(e.text(asked)), wanted); }
  }

  /** The ids with any value in the field, after `after`, a page of `limit`. */
  method LookupWithListField(e: Env, d: Db, field: Key, after: Option<string>, limit: nat)
    returns (page: seq<string>, truncated: bool)
    requires EnvOk(e)
    ensures IsPage(e.idBefore, JoinedAny(d, field), after, limit, page)
    ensures truncated <==> exists id :: id in JoinedAny(d, field) && Above(e.idBefore, after, id) && id !in page
  {
    hide StrictTotal, JoinedAny;
    var keys := JoinedAny(d, field);
    var rows := Select(e.idBefore, keys, after, limit + 1);
    truncated := |rows| > limit;
    page := if truncated then rows[..limit] else rows;
    CutPage(e.idBefore, keys, after, limit, rows, page);
  }

  lemma CutPage(lt: (string, string) -> bool, keys: set<string>, after: Option<string>, n: nat, rows: seq<string>,
                page: seq<string>)
    requires StrictTotal(lt) && IsPage(lt, keys, after, n + 1, rows) && page == if |rows| > n then rows[..n] else rows
    ensures IsPage(lt, keys, after, n, page)
    ensures |rows| > n <==> exists k :: k in keys && Above(lt, after, k) && k !in page
  {
    if |rows| > n {
      assert rows == page + [rows[n]] && rows[n] in rows;
      forall i | 0 <= i < n ensures page[i] != rows[n] { assert lt(rows[i], rows[n]); }
      forall k | k in keys && Above(lt, after, k) && k !in page
        ensures |page| == n && forall p :: p in page ==> lt(p, k)
      {
        if k == rows[n] {
          forall p | p in page ensures lt(p, k) { var i :| 0 <= i < n && page[i] == p; assert lt(rows[i], rows[n]); }
        }
      }
    }
  }

  /** Paging to the end visits every id with a value in the field exactly once. */
  method WalkListField(e: Env, d: Db, ghost h: History, field: Key, limit: nat) returns (visited: seq<string>)
    requires EnvOk(e) && limit > 0
    ensures Ascending(e.idBefore, visited)
    ensures forall id :: id in visited <==> id in JoinedAny(d, field)
    ensures |visited| == |JoinedAny(d, field)|
    ensures SidecarsOk(e, d, h) && h.lostIds == {} && field in LIST_INDEX_FIELDS ==>
              forall id :: id in visited <==> id in d.vertex && HasAny(e, d.vertex[id], field)
  {
    hide StrictTotal, Ascending, IsPage, Beyond, JoinedAny, SidecarsOk, HasAny;
    visited := [];
    var cursor: Option<string> := None;
    ghost var keys := JoinedAny(d, field);
    EmptyAscending(e.idBefore);
    while true
      invariant Visited(e.idBefore, keys, cursor, visited)
      decreases |Beyond(e.idBefore, keys, cursor)|
    {
      var page, truncated := LookupWithListField(e, d, field, cursor, limit);
      if page == [] {
        EmptyPage(e.idBefore, keys, cursor, limit);
        break;
      }
      PageTakes(e.idBefore, keys, cursor, limit, page);
      VisitedStep(e.idBefore, keys, cursor, limit, page, visited);
      if !truncated { AllOnPage(e.idBefore, keys, cursor, limit, page); }
      visited := visited + page;
      cursor := Some(page[|page| - 1]);
      if !truncated { break; }
    }
    AscendingDistinct(e.idBefore, visited);
    assert (set k | k in visited) == keys;
    if SidecarsOk(e, d, h) && h.lostIds == {} && field in LIST_INDEX_FIELDS { AnyIsScan(e, d, h, field); }
  }

  lemma AllOnPage(lt: (string, string) -> bool, keys: set<string>, after: Option<string>, n: nat, page: seq<string>)
    requires StrictTotal(lt) && IsPage(lt, keys, after, n, page) && page != []
    requires forall k :: k in keys && Above(lt, after, k) ==> k in page
    ensures forall k :: k in keys ==> !Above(lt, Some(page[|page| - 1]), k)
  {
    forall k | k in keys ensures !Above(lt, Some(page[|page| - 1]), k) { PageAdvances(lt, keys, after, n, page, k); }
  }
}
