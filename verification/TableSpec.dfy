/** The hash table as a sequence of buckets, for any bucket count and any hash function that stays in range, and its
    refinement of the store. */
module TableSpec {
  import opened CStrings
  import opened Options
  import opened Store
  import opened ListSpec
  import opened ListMap

  type Hash = (Key, int) -> int
  type Buckets = seq<seq<Pair>>

  /** What the table needs of its hash function. */
  ghost predicate InRange(hash: Hash) {
    forall k, n :: n > 0 ==> 0 <= hash(k, n) < n
  }

  /** All pairs, bucket by bucket: the order of table_get_keys. */
  function Flatten(bs: Buckets): seq<Pair> {
    if bs == [] then [] else bs[0] + Flatten(bs[1..])
  }

  function TableMap(bs: Buckets): Map {
    MapOf(Flatten(bs))
  }

  function Empty(n: nat): Buckets {
    seq(n, i => [])
  }

  /** Every key is in the bucket that the hash function names; the buckets of bs are numbered from first. */
  ghost predicate Placed(hash: Hash, n: int, bs: Buckets, first: int) {
    forall i, j :: 0 <= i < |bs| && 0 <= j < |bs[i]| ==> hash(bs[i][j].key, n) == first + i
  }

  ghost predicate TableOk(hash: Hash, bs: Buckets) {
    && bs != []
    && (forall i :: 0 <= i < |bs| ==> Sorted(bs[i]))
    && Placed(hash, |bs|, bs, 0)
  }

  // ---------- Lookup and size ----------

  lemma {:induction false} LookupConcat(a: seq<Pair>, b: seq<Pair>, k: Key)
    ensures Lookup(a + b, k) == if Lookup(a, k).Some? then Lookup(a, k) else Lookup(b, k)
  {
    if a == [] {
      assert a + b == b;
    } else {
      assert (a + b)[1..] == a[1..] + b;
      LookupConcat(a[1..], b, k);
    }
  }

  lemma {:induction false} LookupFlatten(hash: Hash, n: int, bs: Buckets, first: int, k: Key)
    requires Placed(hash, n, bs, first)
    ensures var h := hash(k, n) - first;
            Lookup(Flatten(bs), k) == if 0 <= h < |bs| then Lookup(bs[h], k) else None
  {
    if bs != [] {
      LookupConcat(bs[0], Flatten(bs[1..]), k);
      LookupFlatten(hash, n, bs[1..], first + 1, k);
      var f := Find(bs[0], k);
      assert f < |bs[0]| ==> hash(bs[0][f].key, n) == first;
    }
  }

  lemma TableLookup(hash: Hash, bs: Buckets, k: Key)
    requires InRange(hash) && TableOk(hash, bs)
    ensures Lookup(bs[hash(k, |bs|)], k) == if k in TableMap(bs) then Some(TableMap(bs)[k]) else None
  {
    LookupFlatten(hash, |bs|, bs, 0, k);
    LookupIsMap(Flatten(bs), k);
  }

  lemma {:induction false} FlattenDistinct(hash: Hash, n: int, bs: Buckets, first: int)
    requires Placed(hash, n, bs, first) && forall i :: 0 <= i < |bs| ==> Distinct(bs[i])
    ensures Distinct(Flatten(bs))
    ensures forall p :: p in Flatten(bs) ==> first <= hash(p.key, n) < first + |bs|
  {
    if bs != [] {
      FlattenDistinct(hash, n, bs[1..], first + 1);
      var rest := Flatten(bs[1..]);
      assert forall p :: p in bs[0] ==> hash(p.key, n) == first;
      forall i, j | 0 <= i < j < |Flatten(bs)| ensures Flatten(bs)[i].key != Flatten(bs)[j].key {
        if i < |bs[0]| <= j {
          assert Flatten(bs)[i] in bs[0] && Flatten(bs)[j] in rest;
        }
      }
    }
  }

  function TotalLength(bs: Buckets): nat {
    if bs == [] then 0 else |bs[0]| + TotalLength(bs[1..])
  }

  lemma {:induction false} FlattenLength(bs: Buckets)
    ensures |Flatten(bs)| == TotalLength(bs)
  {
    if bs != [] {
      FlattenLength(bs[1..]);
    }
  }

  lemma TableDistinct(hash: Hash, bs: Buckets)
    requires TableOk(hash, bs)
    ensures Distinct(Flatten(bs))
  {
    forall i | 0 <= i < |bs| ensures Distinct(bs[i]) {
      SortedIsDistinct(bs[i]);
    }
    FlattenDistinct(hash, |bs|, bs, 0);
  }

  /** table_size counts the keys of the map. */
  lemma TableSizeIsMapSize(hash: Hash, bs: Buckets)
    requires TableOk(hash, bs)
    ensures TotalLength(bs) == |TableMap(bs)|
  {
    TableDistinct(hash, bs);
    SizeOfMap(Flatten(bs));
    FlattenLength(bs);
  }

  // ---------- Writing ----------

  function BucketsAfter(cmp: Comparator, hash: Hash, bs: Buckets, w: Write): Buckets
    requires bs != [] && 0 <= hash(w.key, |bs|) < |bs|
  {
    var h := hash(w.key, |bs|);
    match w
    case Put(k, v) => if v == [] then bs else bs[h := Add(cmp, bs[h], Pair(k, v))]
    case Del(k) => bs[h := Remove(bs[h], k)]
  }

  /** The answer of table_put (0 or -1) and of table_remove (0 or 1). */
  function WriteOk(hash: Hash, bs: Buckets, w: Write): bool
    requires bs != [] && 0 <= hash(w.key, |bs|) < |bs|
  {
    match w
    case Put(_, v) => v != []
    case Del(k) => Find(bs[hash(k, |bs|)], k) < |bs[hash(k, |bs|)]|
  }

  lemma EmptyTable(hash: Hash, n: nat)
    requires n > 0
    ensures TableOk(hash, Empty(n)) && TableMap(Empty(n)) == map[]
  {
    FlattenEmpty(n);
  }

  lemma {:induction false} FlattenEmpty(n: nat)
    ensures Flatten(Empty(n)) == []
  {
    if n > 0 {
      FlattenEmpty(n - 1);
      assert Empty(n)[1..] == Empty(n - 1);
    }
  }

  /** A bucket that changes only at one key changes the map only there. */
  lemma BucketChange(hash: Hash, bs: Buckets, k: Key, b: seq<Pair>, m: Map)
    requires InRange(hash) && TableOk(hash, bs) && Sorted(b)
    requires forall j :: 0 <= j < |b| ==> hash(b[j].key, |bs|) == hash(k, |bs|)
    requires forall x: Key :: Lookup(b, x) == if x == k then (if k in m then Some(m[k]) else None)
                                              else Lookup(bs[hash(k, |bs|)], x)
    requires forall x: Key :: x != k ==>
      (x in m <==> x in TableMap(bs)) && (x in m ==> m[x] == TableMap(bs)[x])
    ensures TableOk(hash, bs[hash(k, |bs|) := b]) && TableMap(bs[hash(k, |bs|) := b]) == m
  {
    var h := hash(k, |bs|);
    var cs := bs[h := b];
    assert TableOk(hash, cs);
    forall x: Key
      ensures x in TableMap(cs) <==> x in m
      ensures x in m ==> TableMap(cs)[x] == m[x]
    {
      TableLookup(hash, cs, x);
      TableLookup(hash, bs, x);
    }
  }

  lemma PutRefines(cmp: Comparator, hash: Hash, bs: Buckets, k: Key, v: Bytes)
    requires SignCorrect(cmp) && UnitPositive(cmp) && InRange(hash) && TableOk(hash, bs)
    ensures var cs := bs[hash(k, |bs|) := Add(cmp, bs[hash(k, |bs|)], Pair(k, v))];
            TableOk(hash, cs) && TableMap(cs) == TableMap(bs)[k := v]
  {
    var h := hash(k, |bs|);
    var b := Add(cmp, bs[h], Pair(k, v));
    AddUnit(cmp, bs[h], Pair(k, v));
    SortedIsDistinct(bs[h]);
    SortedIsDistinct(b);
    forall x: Key ensures Lookup(b, x) == if x == k then Some(v) else Lookup(bs[h], x) {
      AddFind(cmp, bs[h], Pair(k, v), x);
    }
    forall j | 0 <= j < |b| ensures hash(b[j].key, |bs|) == h {
      assert b[j] == Pair(k, v) || b[j] in bs[h];
    }
    BucketChange(hash, bs, k, b, TableMap(bs)[k := v]);
  }

  lemma DelRefines(hash: Hash, bs: Buckets, k: Key)
    requires InRange(hash) && TableOk(hash, bs)
    ensures var cs := bs[hash(k, |bs|) := Remove(bs[hash(k, |bs|)], k)];
            TableOk(hash, cs) && TableMap(cs) == TableMap(bs) - {k}
  {
    var h := hash(k, |bs|);
    var b := Remove(bs[h], k);
    RemoveRefinesRemoval(bs[h], k);
    SortedIsDistinct(bs[h]);
    SortedIsDistinct(b);
    forall x: Key ensures Lookup(b, x) == if x == k then None else Lookup(bs[h], x) {
      RemoveFind(bs[h], k, x);
    }
    forall j | 0 <= j < |b| ensures hash(b[j].key, |bs|) == h {
      assert b[j] in bs[h];
    }
    BucketChange(hash, bs, k, b, TableMap(bs) - {k});
  }

  /** One table operation is one step of the store. */
  lemma WriteRefines(cmp: Comparator, hash: Hash, bs: Buckets, w: Write)
    requires SignCorrect(cmp) && UnitPositive(cmp) && InRange(hash) && TableOk(hash, bs)
    ensures TableOk(hash, BucketsAfter(cmp, hash, bs, w))
    ensures Outcome(TableMap(BucketsAfter(cmp, hash, bs, w)), WriteOk(hash, bs, w)) == Perform(TableMap(bs), w)
  {
    match w
    case Put(k, v) =>
      PutRefines(cmp, hash, bs, k, v);
    case Del(k) =>
      DelRefines(hash, bs, k);
      TableLookup(hash, bs, k);
  }

  function BucketsAfterAll(cmp: Comparator, hash: Hash, bs: Buckets, ws: seq<Write>): (r: Buckets)
    requires bs != [] && forall k: Key :: 0 <= hash(k, |bs|) < |bs|
    ensures |r| == |bs|
  {
    if ws == [] then bs
    else BucketsAfter(cmp, hash, BucketsAfterAll(cmp, hash, bs, ws[..|ws| - 1]), ws[|ws| - 1])
  }

  /** After any sequence of puts and removes on a new table of any size, the table is the map. */
  lemma {:induction false} TableRefinesStore(cmp: Comparator, hash: Hash, n: nat, ws: seq<Write>)
    requires SignCorrect(cmp) && UnitPositive(cmp) && InRange(hash) && n > 0
    ensures var bs := BucketsAfterAll(cmp, hash, Empty(n), ws);
            TableOk(hash, bs) && TableMap(bs) == Replay(ws) && TotalLength(bs) == |Replay(ws)|
  {
    var bs := BucketsAfterAll(cmp, hash, Empty(n), ws);
    if ws == [] {
      EmptyTable(hash, n);
    } else {
      TableRefinesStore(cmp, hash, n, ws[..|ws| - 1]);
      WriteRefines(cmp, hash, BucketsAfterAll(cmp, hash, Empty(n), ws[..|ws| - 1]), ws[|ws| - 1]);
    }
    TableSizeIsMapSize(hash, bs);
  }

  // ---------- Snapshots ----------

  function PutAll(cmp: Comparator, hash: Hash, bs: Buckets, ps: seq<Pair>): (r: Buckets)
    requires bs != [] && forall k: Key :: 0 <= hash(k, |bs|) < |bs|
    ensures |r| == |bs|
    decreases ps
  {
    if ps == [] then bs
    else PutAll(cmp, hash, BucketsAfter(cmp, hash, bs, Put(ps[0].key, ps[0].value)), ps[1..])
  }

  function UpdateAll(m: Map, ps: seq<Pair>): Map
    decreases ps
  {
    if ps == [] then m else UpdateAll(m[ps[0].key := ps[0].value], ps[1..])
  }

  lemma {:induction false} UpdateAllIsMapOf(m: Map, ps: seq<Pair>)
    requires Distinct(ps)
    ensures UpdateAll(m, ps) == m + MapOf(ps)
    decreases ps
  {
    if ps != [] {
      UpdateAllIsMapOf(m[ps[0].key := ps[0].value], ps[1..]);
      FindDistinct(ps, 0);
      MapOfFind(ps[1..], ps[0].key);
      assert forall i :: 0 <= i < |ps| - 1 ==> ps[1..][i] == ps[i + 1];
    }
  }

  lemma {:induction false} PutAllUpdates(cmp: Comparator, hash: Hash, bs: Buckets, ps: seq<Pair>)
    requires SignCorrect(cmp) && UnitPositive(cmp) && InRange(hash) && TableOk(hash, bs)
    requires forall i :: 0 <= i < |ps| ==> ps[i].value != []
    ensures TableOk(hash, PutAll(cmp, hash, bs, ps))
    ensures TableMap(PutAll(cmp, hash, bs, ps)) == UpdateAll(TableMap(bs), ps)
    decreases ps
  {
    if ps != [] {
      var w := Put(ps[0].key, ps[0].value);
      WriteRefines(cmp, hash, bs, w);
      PutAllUpdates(cmp, hash, BucketsAfter(cmp, hash, bs, w), ps[1..]);
    }
  }

  /** A table copied entry by entry into a new one, with another size and even another hash, is the same map. */
  lemma SnapshotRoundTrip(cmp: Comparator, hash: Hash, bs: Buckets, hash': Hash, n: nat)
    requires SignCorrect(cmp) && UnitPositive(cmp) && InRange(hash) && TableOk(hash, bs)
    requires InRange(hash') && n > 0 && forall p :: p in Flatten(bs) ==> p.value != []
    ensures TableOk(hash', PutAll(cmp, hash', Empty(n), Flatten(bs)))
    ensures TableMap(PutAll(cmp, hash', Empty(n), Flatten(bs))) == TableMap(bs)
  {
    EmptyTable(hash', n);
    TableDistinct(hash, bs);
    PutAllUpdates(cmp, hash', Empty(n), Flatten(bs));
    UpdateAllIsMapOf(map[], Flatten(bs));
  }

  // ---------- The hash function of the code ----------

  /** The product of the bytes starts at 0. */
  function CodeHash(k: Key, n: int): int { 0 }

  method HashFunction(key: Key, n: int) returns (r: int)
    requires n > 0
    ensures 0 <= r < n && r == CodeHash(key, n)
  {
    var multi := 0;
    var i := 0;
    while i < |key|
      invariant 0 <= i <= |key|
      invariant multi == 0
    {
      multi := multi * key[i];
      i := i + 1;
    }
    r := multi % n;
  }

  lemma {:induction false} OnlyFirstBucket(bs: Buckets)
    requires bs != [] && forall i :: 0 < i < |bs| ==> bs[i] == []
    ensures Flatten(bs) == bs[0]
    decreases bs
  {
    if |bs| > 1 {
      OnlyFirstBucket(bs[1..]);
    }
  }

  /** With the hash function of the code all keys share the first bucket, so table_get_keys lists them sorted. */
  lemma CodeHashSortsKeys(bs: Buckets)
    requires TableOk(CodeHash, bs)
    ensures InRange(CodeHash) && Flatten(bs) == bs[0] && Sorted(Flatten(bs))
  {
    forall i | 0 < i < |bs| ensures bs[i] == [] {
      assert bs[i] != [] ==> CodeHash(bs[i][0].key, |bs|) == i;
    }
    OnlyFirstBucket(bs);
  }
}
