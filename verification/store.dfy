/**
  The storage engine as the handlers see it: one table per document type,
  documents addressed by generated ids, and index scans.

  Ids are handed out in increasing order, so ascending id is creation order.
  An index scan returns the documents whose fields match the index's bound
  prefix, ordered by the remaining index key and then by creation order.
 */
module Store {
  import opened Results

  type Id = nat

  /** A stored document together with its id. */
  datatype Doc<R> = Doc(id: Id, value: R)

  datatype RawTable<R> = RawTable(rows: map<Id, R>, nextId: Id)

  /** Every stored id was handed out before `nextId`. */
  predicate WellFormed<R>(t: RawTable<R>) {
    forall id | id in t.rows :: id < t.nextId
  }

  type Table<R> = t: RawTable<R> | WellFormed(t) witness RawTable(map[], 0)

  /** `d` is exactly what the table holds under `d.id`. */
  predicate Stored<R(==)>(t: Table<R>, d: Doc<R>) {
    d.id in t.rows && t.rows[d.id] == d.value
  }

  /** `get(id)`: the document under `id`, or nothing. */
  function Get<R>(t: Table<R>, id: Id): (r: Option<R>)
    ensures r.Some? <==> id in t.rows
    ensures r.Some? ==> r.value == t.rows[id]
  {
    if id in t.rows then Some(t.rows[id]) else None
  }

  /** `insert(value)`: stores `value` under a fresh id, newer than every stored one. */
  function Insert<R>(t: Table<R>, value: R): (r: (Table<R>, Id))
    ensures r.1 !in t.rows
    ensures forall id | id in t.rows :: id < r.1
    ensures r.0.rows == t.rows[r.1 := value]
  {
    (RawTable(t.rows[t.nextId := value], t.nextId + 1), t.nextId)
  }

  /** `patch(id, ..)` / `replace(id, ..)` on an existing document: only `id` changes. */
  function Put<R>(t: Table<R>, id: Id, value: R): (r: Table<R>)
    requires id in t.rows
    ensures r.rows.Keys == t.rows.Keys
    ensures r.rows[id] == value
    ensures forall other | other in t.rows && other != id :: r.rows[other] == t.rows[other]
  {
    RawTable(t.rows[id := value], t.nextId)
  }

  /** `after` is `before` with one new document `value` under the fresh id `id`. */
  ghost predicate InsertedOnly<R>(before: Table<R>, after: Table<R>, id: Id, value: R) {
    id !in before.rows && after.rows == before.rows[id := value]
  }

  /** `after` is `before` with the existing document under `id` replaced by `value`. */
  ghost predicate ReplacedOnly<R>(before: Table<R>, after: Table<R>, id: Id, value: R) {
    && id in before.rows
    && after.rows.Keys == before.rows.Keys
    && after.rows[id] == value
    && forall other | other in before.rows && other != id :: after.rows[other] == before.rows[other]
  }

  /** A patched field: the supplied value when there is one, the stored one otherwise. */
  function Override<T>(stored: T, supplied: Option<T>): T {
    supplied.GetOr(stored)
  }

  /** A patched optional field: set when a value is supplied, kept otherwise (never cleared). */
  function OverrideOptional<T>(stored: Option<T>, supplied: Option<T>): Option<T> {
    if supplied.Some? then supplied else stored
  }

  // ---------------------------------------------------------------------
  // Creation-order collection

  function CollectFrom<R>(rows: map<Id, R>, p: R -> bool, lo: nat, hi: nat): seq<Doc<R>>
    decreases hi - lo
  {
    if lo >= hi then []
    else (if lo in rows && p(rows[lo]) then [Doc(lo, rows[lo])] else []) + CollectFrom(rows, p, lo + 1, hi)
  }

  /** The documents satisfying `p`, in creation order (a full table scan). */
  function Collect<R>(t: Table<R>, p: R -> bool): seq<Doc<R>> {
    CollectFrom(t.rows, p, 0, t.nextId)
  }

  lemma {:induction false} CollectFromMembers<R>(rows: map<Id, R>, p: R -> bool, lo: nat, hi: nat)
    ensures forall d | d in CollectFrom(rows, p, lo, hi) ::
      lo <= d.id < hi && d.id in rows && rows[d.id] == d.value && p(d.value)
    ensures forall id | lo <= id < hi && id in rows && p(rows[id]) :: Doc(id, rows[id]) in CollectFrom(rows, p, lo, hi)
    ensures forall i, j | 0 <= i < j < |CollectFrom(rows, p, lo, hi)| ::
      CollectFrom(rows, p, lo, hi)[i].id < CollectFrom(rows, p, lo, hi)[j].id
    decreases hi - lo
  {
    if lo < hi {
      CollectFromMembers(rows, p, lo + 1, hi);
      var head: seq<Doc<R>> := if lo in rows && p(rows[lo]) then [Doc(lo, rows[lo])] else [];
      var tail := CollectFrom(rows, p, lo + 1, hi);
      assert CollectFrom(rows, p, lo, hi) == head + tail;
      forall d | d in head + tail ensures lo <= d.id < hi && d.id in rows && rows[d.id] == d.value && p(d.value) {
        if d !in head {
          assert d in tail;
        }
      }
      forall id | lo <= id < hi && id in rows && p(rows[id]) ensures Doc(id, rows[id]) in head + tail {
        if id > lo {
          assert Doc(id, rows[id]) in tail;
        }
      }
      forall i, j | 0 <= i < j < |head + tail|
        ensures (head + tail)[i].id < (head + tail)[j].id
      {
        if i < |head| {
          assert (head + tail)[j] in tail;
        } else {
          assert (head + tail)[i] == tail[i - |head|];
          assert (head + tail)[j] == tail[j - |head|];
        }
      }
    }
  }

  /** A full scan finds exactly the stored documents satisfying `p`, in creation order. */
  lemma CollectExact<R>(t: Table<R>, p: R -> bool)
    ensures forall d :: d in Collect(t, p) <==> Stored(t, d) && p(d.value)
    ensures forall i, j | 0 <= i < j < |Collect(t, p)| :: Collect(t, p)[i].id < Collect(t, p)[j].id
  {
    CollectFromMembers(t.rows, p, 0, t.nextId);
  }

  // ---------------------------------------------------------------------
  // Index order

  /** `a` comes before `b` in an index ordered by `key`, ties broken by creation order. */
  predicate Precedes<R>(key: R -> int, a: Doc<R>, b: Doc<R>) {
    key(a.value) < key(b.value) || (key(a.value) == key(b.value) && a.id < b.id)
  }

  /** Strictly ascending in index order. */
  predicate Ascending<R>(s: seq<Doc<R>>, key: R -> int) {
    forall i, j | 0 <= i < j < |s| :: Precedes(key, s[i], s[j])
  }

  /** Strictly descending in index order (an index read with `order("desc")`). */
  predicate Descending<R>(s: seq<Doc<R>>, key: R -> int) {
    forall i, j | 0 <= i < j < |s| :: Precedes(key, s[j], s[i])
  }

  function InsertByKey<R>(d: Doc<R>, s: seq<Doc<R>>, key: R -> int): (r: seq<Doc<R>>)
    ensures multiset(r) == multiset(s) + multiset{d}
  {
    if s == [] then [d]
    else if Precedes(key, d, s[0]) then [d] + s
    else
      assert s == [s[0]] + s[1..];
      [s[0]] + InsertByKey(d, s[1..], key)
  }

  function SortByKey<R>(s: seq<Doc<R>>, key: R -> int): (r: seq<Doc<R>>)
    ensures multiset(r) == multiset(s)
  {
    if s == [] then []
    else
      assert s == [s[0]] + s[1..];
      InsertByKey(s[0], SortByKey(s[1..], key), key)
  }

  lemma {:induction false} InsertAscending<R>(d: Doc<R>, s: seq<Doc<R>>, key: R -> int)
    requires Ascending(s, key)
    requires forall e | e in s :: e.id != d.id
    ensures Ascending(InsertByKey(d, s, key), key)
  {
    if s == [] {
    } else if Precedes(key, d, s[0]) {
      var r := [d] + s;
      forall i, j | 0 <= i < j < |r| ensures Precedes(key, r[i], r[j]) {
        if i > 0 {
          assert r[i] == s[i - 1] && r[j] == s[j - 1];
        } else {
          assert r[j] == s[j - 1];
        }
      }
    } else {
      var rest := InsertByKey(d, s[1..], key);
      InsertAscending(d, s[1..], key);
      var r := [s[0]] + rest;
      forall e | e in rest ensures Precedes(key, s[0], e) {
        assert e in multiset(rest);
        if e != d {
          assert e in multiset(s[1..]);
          var k :| 0 <= k < |s[1..]| && s[1..][k] == e;
          assert s[k + 1] == e;
        }
      }
      forall i, j | 0 <= i < j < |r| ensures Precedes(key, r[i], r[j]) {
        assert r[j] == rest[j - 1];
        assert r[j] in rest;
        if i > 0 {
          assert r[i] == rest[i - 1];
        }
      }
    }
  }

  lemma {:induction false} SortAscending<R>(s: seq<Doc<R>>, key: R -> int)
    requires forall i, j | 0 <= i < j < |s| :: s[i].id != s[j].id
    ensures Ascending(SortByKey(s, key), key)
  {
    if s != [] {
      SortAscending(s[1..], key);
      var sorted := SortByKey(s[1..], key);
      forall e | e in sorted ensures e.id != s[0].id {
        assert e in multiset(s[1..]);
        var k :| 0 <= k < |s[1..]| && s[1..][k] == e;
        assert s[k + 1] == e;
      }
      InsertAscending(s[0], sorted, key);
    }
  }

  /** The first element of a non-empty sequence is one of its elements. */
  lemma HeadMember<T>(s: seq<T>)
    requires s != []
    ensures s[0] in s
  {
  }

  /** Two strictly ordered sequences with the same elements are the same sequence. */
  lemma {:induction false} AscendingUnique<R>(a: seq<Doc<R>>, b: seq<Doc<R>>, key: R -> int)
    requires Ascending(a, key) && Ascending(b, key)
    requires forall d :: d in a <==> d in b
    ensures a == b
    decreases |a|
  {
    if a == [] {
      if b != [] {
        HeadMember(b);
        assert false;
      }
    } else {
      assert a[0] in b;
      assert b != [];
      assert b[0] in a;
      assert a[0] == b[0];
      forall d ensures d in a[1..] <==> d in b[1..] {
        if d in a[1..] {
          var i :| 0 <= i < |a[1..]| && a[1..][i] == d;
          assert Precedes(key, a[0], a[i + 1]);
          assert d in b;
        }
        if d in b[1..] {
          var i :| 0 <= i < |b[1..]| && b[1..][i] == d;
          assert Precedes(key, b[0], b[i + 1]);
          assert d in a;
        }
      }
      AscendingUnique(a[1..], b[1..], key);
      assert a == [a[0]] + a[1..];
      assert b == [b[0]] + b[1..];
    }
  }

  /** Strictly increasing ids: creation order without repeats. */
  predicate CreationOrdered<R>(s: seq<Doc<R>>) {
    forall i, j | 0 <= i < j < |s| :: s[i].id < s[j].id
  }

  /** Appending rows newer than every listed row keeps a listing in creation order. */
  lemma CreationOrderedAppend<R>(before: seq<Doc<R>>, added: seq<Doc<R>>)
    requires CreationOrdered(before) && CreationOrdered(added)
    requires forall d, e | d in before && e in added :: d.id < e.id
    ensures CreationOrdered(before + added)
  {
    forall i, j | 0 <= i < j < |before + added| ensures (before + added)[i].id < (before + added)[j].id {
      if i < |before| <= j {
        assert (before + added)[i] in before && (before + added)[j] in added;
      }
    }
  }

  /** Two creation-ordered sequences with the same elements are the same sequence. */
  lemma CreationOrderUnique<R>(a: seq<Doc<R>>, b: seq<Doc<R>>)
    requires CreationOrdered(a) && CreationOrdered(b)
    requires forall d :: d in a <==> d in b
    ensures a == b
  {
    var key := (x: R) => 0;
    assert Ascending(a, key) by {
      forall i, j | 0 <= i < j < |a| ensures Precedes(key, a[i], a[j]) {
        assert a[i].id < a[j].id;
      }
    }
    assert Ascending(b, key) by {
      forall i, j | 0 <= i < j < |b| ensures Precedes(key, b[i], b[j]) {
        assert b[i].id < b[j].id;
      }
    }
    AscendingUnique(a, b, key);
  }

  // ---------------------------------------------------------------------
  // Index scans and residual filters

  /**
    A scan of an index: the documents within the index range `bound`,
    in the index order given by `key` and then creation order.
   */
  function Scan<R>(t: Table<R>, bound: R -> bool, key: R -> int): seq<Doc<R>> {
    SortByKey(Collect(t, bound), key)
  }

  /** A scan returns exactly the stored documents in range, in strict index order. */
  lemma ScanExact<R>(t: Table<R>, bound: R -> bool, key: R -> int)
    ensures forall d :: d in Scan(t, bound, key) <==> Stored(t, d) && bound(d.value)
    ensures Ascending(Scan(t, bound, key), key)
  {
    var c := Collect(t, bound);
    CollectExact(t, bound);
    SortAscending(c, key);
    forall d ensures d in Scan(t, bound, key) <==> d in c {
      assert d in Scan(t, bound, key) <==> d in multiset(Scan(t, bound, key));
      assert d in c <==> d in multiset(c);
    }
  }

  /** `filter(q)`: the residual predicate applied over a scan, order kept. */
  function Filter<R>(s: seq<Doc<R>>, q: R -> bool): (r: seq<Doc<R>>)
    ensures forall i | 0 <= i < |r| :: r[i] in s && q(r[i].value)
  {
    if s == [] then []
    else (if q(s[0].value) then [s[0]] else []) + Filter(s[1..], q)
  }

  lemma {:induction false} FilterMembers<R>(s: seq<Doc<R>>, q: R -> bool)
    ensures forall d :: d in Filter(s, q) <==> d in s && q(d.value)
  {
    if s != [] {
      FilterMembers(s[1..], q);
      assert s == [s[0]] + s[1..];
    }
  }

  /** Filtering keeps only elements and keeps their relative order. */
  lemma {:induction false} FilterKeepsOrder<R>(s: seq<Doc<R>>, q: R -> bool, key: R -> int)
    requires Ascending(s, key)
    ensures Ascending(Filter(s, q), key)
  {
    if s != [] {
      FilterKeepsOrder(s[1..], q, key);
      FilterMembers(s[1..], q);
      var head: seq<Doc<R>> := if q(s[0].value) then [s[0]] else [];
      var tail := Filter(s[1..], q);
      var r := head + tail;
      forall i, j | 0 <= i < j < |r| ensures Precedes(key, r[i], r[j]) {
        if i < |head| {
          assert r[j] == tail[j - |head|];
          assert r[j] in s[1..];
          var k :| 0 <= k < |s[1..]| && s[1..][k] == r[j];
          assert s[k + 1] == r[j];
        } else {
          assert r[i] == tail[i - |head|] && r[j] == tail[j - |head|];
        }
      }
    }
  }

  /** Filtering keeps creation order. */
  lemma FilterKeepsCreationOrder<R>(s: seq<Doc<R>>, q: R -> bool)
    requires CreationOrdered(s)
    ensures CreationOrdered(Filter(s, q))
  {
    var key := (x: R) => 0;
    assert Ascending(s, key) by {
      forall i, j | 0 <= i < j < |s| ensures Precedes(key, s[i], s[j]) {
        assert s[i].id < s[j].id;
      }
    }
    FilterKeepsOrder(s, q, key);
    var r := Filter(s, q);
    forall i, j | 0 <= i < j < |r| ensures r[i].id < r[j].id {
      assert Precedes(key, r[i], r[j]);
    }
  }

  /** Index order depends only on the key values of the documents ordered. */
  lemma AscendingSameKey<R>(s: seq<Doc<R>>, k1: R -> int, k2: R -> int)
    requires Ascending(s, k1)
    requires forall i | 0 <= i < |s| :: k1(s[i].value) == k2(s[i].value)
    ensures Ascending(s, k2)
  {
    forall i, j | 0 <= i < j < |s| ensures Precedes(k2, s[i], s[j]) {
      assert Precedes(k1, s[i], s[j]);
    }
  }

  /** A residual predicate every scanned document already meets changes nothing. */
  lemma {:induction false} FilterIdle<R>(s: seq<Doc<R>>, q: R -> bool)
    requires forall d | d in s :: q(d.value)
    ensures Filter(s, q) == s
  {
    if s != [] {
      FilterIdle(s[1..], q);
      assert s == [s[0]] + s[1..];
    }
  }

  /** `reverse()`: the same elements, in the opposite order. */
  function Reverse<R>(s: seq<Doc<R>>): (r: seq<Doc<R>>)
    ensures |r| == |s|
    ensures forall i | 0 <= i < |s| :: r[i] == s[|s| - 1 - i]
  {
    if s == [] then [] else Reverse(s[1..]) + [s[0]]
  }

  /** Reading an ascending index backwards yields the same documents in descending order. */
  lemma ReverseDescending<R>(s: seq<Doc<R>>, key: R -> int)
    requires Ascending(s, key)
    ensures Descending(Reverse(s), key)
    ensures forall d :: d in Reverse(s) <==> d in s
  {
    var r := Reverse(s);
    forall d | d in s ensures d in r {
      var i :| 0 <= i < |s| && s[i] == d;
      assert r[|s| - 1 - i] == d;
    }
    forall i, j | 0 <= i < j < |r| ensures Precedes(key, r[j], r[i]) {
      assert r[i] == s[|s| - 1 - i] && r[j] == s[|s| - 1 - j];
    }
  }
}
