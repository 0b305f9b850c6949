/** What a request asks of a table and what the reply says, on the buckets, and its refinement of the map. */
module Requests {
  import opened CStrings
  import opened Options
  import opened Store
  import opened ListSpec
  import opened ListMap
  import opened TableSpec

  datatype Request =
    | Change(write: Write)
    | GetValue(key: Key)
    | GetSize
    | GetKeys
    | GetTable
    | NoKey
    | Unknown

  datatype Reply =
    | Done
    | Got(value: Bytes)
    | SizeIs(n: nat)
    | KeysAre(keys: seq<Key>)
    | EntriesAre(pairs: seq<Pair>)
    | Error
    | Untouched

  // ---------- On the map ----------

  predicate AllDifferent(ks: seq<Key>) {
    forall i, j :: 0 <= i < j < |ks| ==> ks[i] != ks[j]
  }

  /** A reply that a sequential map may give: lists come in any order but complete and without repeats, and there is
      no way to tell an empty table from an error. */
  ghost predicate Answers(m: Map, req: Request, m': Map, reply: Reply) {
    match req
    case Change(w) => (reply.Done? || reply.Error?) && Outcome(m', reply.Done?) == Perform(m, w)
    case GetValue(k) => m' == m && reply == if k in m then Got(m[k]) else Error
    case GetSize => m' == m && reply == SizeIs(|m|)
    case GetKeys =>
      && m' == m
      && if m == map[] then reply == Error
         else reply.KeysAre? && AllDifferent(reply.keys) && forall k: Key :: k in reply.keys <==> k in m
    case GetTable =>
      && m' == m
      && if m == map[] then reply == Error
         else reply.EntriesAre? && Distinct(reply.pairs) && MapOf(reply.pairs) == m
    case NoKey => m' == m && reply == Error
    case Unknown => m' == m && reply == Untouched
  }

  /** The map after a request. */
  function After(m: Map, req: Request): Map {
    if req.Change? then Perform(m, req.write).store else m
  }

  // ---------- On the buckets ----------

  /** What the table needs: the documented comparison, a hash in range, and the state that every operation keeps. */
  ghost predicate Ready(cmp: Comparator, hash: Hash, bs: Buckets) {
    && SignCorrect(cmp) && UnitPositive(cmp) && InRange(hash)
    && TableOk(hash, bs)
    && forall p :: p in Flatten(bs) ==> p.value != []
  }

  function KeysOf(ps: seq<Pair>): seq<Key> {
    seq(|ps|, i requires 0 <= i < |ps| => ps[i].key)
  }

  datatype Served = Served(buckets: Buckets, reply: Reply)

  function Serve(cmp: Comparator, hash: Hash, bs: Buckets, req: Request): Served
    requires bs != [] && InRange(hash)
  {
    match req
    case Change(w) =>
      Served(BucketsAfter(cmp, hash, bs, w), if WriteOk(hash, bs, w) then Done else Error)
    case GetValue(k) =>
      var found := Lookup(bs[hash(k, |bs|)], k);
      Served(bs, if found.Some? then Got(found.value) else Error)
    case GetSize => Served(bs, SizeIs(TotalLength(bs)))
    case GetKeys => Served(bs, if TotalLength(bs) == 0 then Error else KeysAre(KeysOf(Flatten(bs))))
    case GetTable => Served(bs, if TotalLength(bs) == 0 then Error else EntriesAre(Flatten(bs)))
    case NoKey => Served(bs, Error)
    case Unknown => Served(bs, Untouched)
  }

  lemma {:induction false} MapOfKeys(ps: seq<Pair>, k: Key)
    requires Distinct(ps)
    ensures k in MapOf(ps) <==> k in KeysOf(ps)
    ensures k in MapOf(ps) ==> Pair(k, MapOf(ps)[k]) in ps
  {
    LookupIsMap(ps, k);
    var f := Find(ps, k);
    MapOfFind(ps, k);
    if f < |ps| {
      assert KeysOf(ps)[f] == k && ps[f] in ps;
    }
    if k in KeysOf(ps) {
      var i :| 0 <= i < |ps| && KeysOf(ps)[i] == k;
      FindDistinct(ps, i);
    }
  }

  /** Deleting a key that is not there changes nothing. */
  lemma MissChangesNothing(cmp: Comparator, hash: Hash, bs: Buckets, k: Key)
    requires bs != [] && InRange(hash) && Lookup(bs[hash(k, |bs|)], k).None?
    ensures BucketsAfter(cmp, hash, bs, Del(k)) == bs && !WriteOk(hash, bs, Del(k))
  {
  }

  lemma FullStays(cmp: Comparator, hash: Hash, bs: Buckets, w: Write)
    requires Ready(cmp, hash, bs)
    ensures Ready(cmp, hash, BucketsAfter(cmp, hash, bs, w))
  {
    var cs := BucketsAfter(cmp, hash, bs, w);
    WriteRefines(cmp, hash, bs, w);
    TableDistinct(hash, bs);
    TableDistinct(hash, cs);
    forall p | p in Flatten(cs) ensures p.value != [] {
      var i :| 0 <= i < |Flatten(cs)| && Flatten(cs)[i] == p;
      FindDistinct(Flatten(cs), i);
      MapOfFind(Flatten(cs), p.key);
      var m := Perform(TableMap(bs), w).store;
      assert m[p.key] == p.value;
      if p.key in TableMap(bs) && m[p.key] == TableMap(bs)[p.key] {
        MapOfKeys(Flatten(bs), p.key);
      }
    }
  }

  /** One request is one step of the sequential map. */
  lemma ServeAnswers(cmp: Comparator, hash: Hash, bs: Buckets, req: Request)
    requires Ready(cmp, hash, bs)
    ensures var s := Serve(cmp, hash, bs, req);
            Ready(cmp, hash, s.buckets) && Answers(TableMap(bs), req, TableMap(s.buckets), s.reply)
  {
    var ps := Flatten(bs);
    TableDistinct(hash, bs);
    TableSizeIsMapSize(hash, bs);
    assert TotalLength(bs) == 0 <==> TableMap(bs) == map[];
    match req
    case Change(w) =>
      WriteRefines(cmp, hash, bs, w);
      FullStays(cmp, hash, bs, w);
    case GetValue(k) =>
      TableLookup(hash, bs, k);
    case GetKeys =>
      forall k: Key ensures k in KeysOf(ps) <==> k in TableMap(bs) {
        MapOfKeys(ps, k);
      }
    case _ =>
  }

  // ---------- Any number of requests ----------

  function ServeAll(cmp: Comparator, hash: Hash, bs: Buckets, reqs: seq<Request>): (r: seq<Served>)
    requires bs != [] && InRange(hash)
    ensures |r| == |reqs| && forall i :: 0 <= i < |r| ==> |r[i].buckets| == |bs|
    decreases reqs
  {
    if reqs == [] then []
    else var s := Serve(cmp, hash, bs, reqs[0]); [s] + ServeAll(cmp, hash, s.buckets, reqs[1..])
  }

  /** A run of the sequential map: states ms[0], ms[1], ... and the replies between them. */
  ghost predicate MapRun(ms: seq<Map>, reqs: seq<Request>, replies: seq<Reply>)
    decreases reqs
  {
    && |ms| == |reqs| + 1 && |replies| == |reqs|
    && (reqs != [] ==> Answers(ms[0], reqs[0], ms[1], replies[0]) && MapRun(ms[1..], reqs[1..], replies[1..]))
  }

  function MapsOf(bs: Buckets, ss: seq<Served>): seq<Map> {
    [TableMap(bs)] + seq(|ss|, i requires 0 <= i < |ss| => TableMap(ss[i].buckets))
  }

  function RepliesOf(ss: seq<Served>): seq<Reply> {
    seq(|ss|, i requires 0 <= i < |ss| => ss[i].reply)
  }

  lemma WithoutFirst(bs: Buckets, s: Served, rest: seq<Served>)
    ensures MapsOf(bs, [s] + rest)[1..] == MapsOf(s.buckets, rest)
    ensures MapsOf(bs, [s] + rest)[..1] == [TableMap(bs)]
    ensures RepliesOf([s] + rest)[1..] == RepliesOf(rest)
  {
  }

  /** Every sequence of requests to a table is answered as a sequential map answers it. */
  lemma {:induction false} ServeRefinesMap(cmp: Comparator, hash: Hash, bs: Buckets, reqs: seq<Request>)
    requires Ready(cmp, hash, bs)
    ensures var ss := ServeAll(cmp, hash, bs, reqs); MapRun(MapsOf(bs, ss), reqs, RepliesOf(ss))
    decreases reqs
  {
    if reqs != [] {
      var s := Serve(cmp, hash, bs, reqs[0]);
      ServeAnswers(cmp, hash, bs, reqs[0]);
      ServeRefinesMap(cmp, hash, s.buckets, reqs[1..]);
      WithoutFirst(bs, s, ServeAll(cmp, hash, s.buckets, reqs[1..]));
    }
  }

  lemma {:induction false} PutAllReady(cmp: Comparator, hash: Hash, bs: Buckets, ps: seq<Pair>)
    requires Ready(cmp, hash, bs) && forall p :: p in ps ==> p.value != []
    ensures Ready(cmp, hash, PutAll(cmp, hash, bs, ps))
    decreases ps
  {
    if ps != [] {
      var w := Put(ps[0].key, ps[0].value);
      FullStays(cmp, hash, bs, w);
      PutAllReady(cmp, hash, BucketsAfter(cmp, hash, bs, w), ps[1..]);
    }
  }

  /** A new table is ready. */
  lemma NewTableReady(cmp: Comparator, hash: Hash, n: nat)
    requires SignCorrect(cmp) && UnitPositive(cmp) && InRange(hash) && n > 0
    ensures Ready(cmp, hash, Empty(n)) && TableMap(Empty(n)) == map[]
  {
    EmptyTable(hash, n);
    FlattenEmpty(n);
  }
}
