/**
  Index ranges over the declared indexes: an equality-bound prefix of the
  index's key fields, optionally followed by a `gte`/`lte` range on the next
  key field, read in index order.
 */
module Index {
  import opened Results
  import opened Store
  import opened Schema

  /**
    `withIndex(index, q => q.eq(f0, eq[0]).eq(f1, eq[1])... .gte(fk, lower).lte(fk, upper))`
    where `fk` is the first key field not bound by equality.
   */
  datatype Range = Range(index: IndexDecl, eq: seq<Value>, lower: Option<int>, upper: Option<int>)

  /** The value of the first key field after the equality-bound prefix, if there is one. */
  function NextKey<R>(range: Range, get: (R, string) -> Value, r: R): Value {
    if |range.eq| < |range.index.fields| then get(r, range.index.fields[|range.eq|]) else Undefined
  }

  /** `r` lies in the range: it matches every bound key and the optional bounds on the next key. */
  predicate InRange<R>(range: Range, get: (R, string) -> Value, r: R) {
    && |range.eq| <= |range.index.fields|
    && (forall i | 0 <= i < |range.eq| :: get(r, range.index.fields[i]) == range.eq[i])
    && (range.lower.Some? ==> NextKey(range, get, r).Num? && NextKey(range, get, r).n >= range.lower.value)
    && (range.upper.Some? ==> NextKey(range, get, r).Num? && NextKey(range, get, r).n <= range.upper.value)
  }

  /** The order within a range: by the next key field when it is numeric, otherwise only by creation. */
  function RangeKey<R>(range: Range, get: (R, string) -> Value, r: R): int {
    var k := NextKey(range, get, r);
    if k.Num? then k.n else 0
  }

  function Bound<R>(range: Range, get: (R, string) -> Value): R -> bool {
    (r: R) => InRange(range, get, r)
  }

  function Key<R>(range: Range, get: (R, string) -> Value): R -> int {
    (r: R) => RangeKey(range, get, r)
  }

  /** Reads the range in ascending index order. */
  function IndexScan<R>(t: Table<R>, range: Range, get: (R, string) -> Value): seq<Doc<R>> {
    Scan(t, Bound(range, get), Key(range, get))
  }

  /** A range read returns exactly the stored documents in the range, in ascending index order. */
  lemma IndexScanExact<R>(t: Table<R>, range: Range, get: (R, string) -> Value)
    ensures forall d :: d in IndexScan(t, range, get) <==> Stored(t, d) && InRange(range, get, d.value)
    ensures Ascending(IndexScan(t, range, get), Key(range, get))
  {
    ScanExact(t, Bound(range, get), Key(range, get));
  }

  /** When every key field is bound by equality, a range read is in creation order. */
  lemma IndexScanCreationOrder<R>(t: Table<R>, range: Range, get: (R, string) -> Value)
    requires |range.eq| == |range.index.fields|
    ensures IndexScan(t, range, get) == Collect(t, Bound(range, get))
    ensures forall i, j | 0 <= i < j < |IndexScan(t, range, get)| ::
      IndexScan(t, range, get)[i].id < IndexScan(t, range, get)[j].id
  {
    var key := Key(range, get);
    var c := Collect(t, Bound(range, get));
    ScanExact(t, Bound(range, get), key);
    CollectExact(t, Bound(range, get));
    forall i, j | 0 <= i < j < |c| ensures Precedes(key, c[i], c[j]) {
      assert key(c[i].value) == 0 && key(c[j].value) == 0;
    }
    AscendingUnique(IndexScan(t, range, get), c, key);
  }

  /** A range that binds the owner as its leading key holds only the owner's documents. */
  lemma OwnerBoundRange<R>(range: Range, get: (R, string) -> Value, r: R, owner: Id)
    requires OwnerPrefixed(range.index) && |range.eq| > 0 && range.eq[0] == Ref(owner)
    requires InRange(range, get, r)
    ensures get(r, "userId") == Ref(owner)
  {
    assert get(r, range.index.fields[0]) == range.eq[0];
  }

  /** One bound key: membership is a single field comparison. */
  lemma InRange1<R>(range: Range, get: (R, string) -> Value, r: R)
    requires |range.eq| == 1 <= |range.index.fields|
    requires range.lower.None? && range.upper.None?
    ensures InRange(range, get, r) <==> get(r, range.index.fields[0]) == range.eq[0]
  {
  }

  /** Two bound keys: membership is two field comparisons. */
  lemma InRange2<R>(range: Range, get: (R, string) -> Value, r: R)
    requires |range.eq| == 2 <= |range.index.fields|
    requires range.lower.None? && range.upper.None?
    ensures InRange(range, get, r) <==>
      get(r, range.index.fields[0]) == range.eq[0] && get(r, range.index.fields[1]) == range.eq[1]
  {
    if get(r, range.index.fields[0]) == range.eq[0] && get(r, range.index.fields[1]) == range.eq[1] {
      forall i | 0 <= i < |range.eq| ensures get(r, range.index.fields[i]) == range.eq[i] {
        assert i == 0 || i == 1;
      }
    }
  }

  /** Three bound keys: membership is three field comparisons. */
  lemma InRange3<R>(range: Range, get: (R, string) -> Value, r: R)
    requires |range.eq| == 3 <= |range.index.fields|
    requires range.lower.None? && range.upper.None?
    ensures InRange(range, get, r) <==>
      && get(r, range.index.fields[0]) == range.eq[0]
      && get(r, range.index.fields[1]) == range.eq[1]
      && get(r, range.index.fields[2]) == range.eq[2]
  {
    if && get(r, range.index.fields[0]) == range.eq[0]
       && get(r, range.index.fields[1]) == range.eq[1]
       && get(r, range.index.fields[2]) == range.eq[2]
    {
      forall i | 0 <= i < |range.eq| ensures get(r, range.index.fields[i]) == range.eq[i] {
        assert i == 0 || i == 1 || i == 2;
      }
    }
  }
}
