/** A server that joins copies the table of its predecessor, entry by entry, into its own new one. */
module Joining {
  import opened CStrings
  import opened Options
  import opened Store
  import opened ListSpec
  import opened TableSpec
  import opened Requests
  import opened Blocks
  import opened Tables
  import opened Skeleton

  /** Entry e holds the pair p in a block of its own, outside repr. */
  ghost predicate Received(e: Entry?, p: Pair, repr: set<object>)
    reads if e == null then {} else {e, e.value}, if e == null || e.value.data == null then {} else {e.value.data}
  {
    && e != null && e.Owned() && e.PairOf() == p
    && e !in repr && e.value !in repr && e.value.data !in repr
  }

  ghost predicate AllReceived(es: seq<Entry?>, ps: seq<Pair>, repr: set<object>)
    reads *
  {
    |es| == |ps| && forall i :: 0 <= i < |es| ==> Received(es[i], ps[i], repr)
  }

  /** An entry of the answer, as it arrives: packing and unpacking copy the value. */
  method Unpack(sent: EntryT, ghost repr: set<object>) returns (e: Entry?)
    requires sent.value != null && sent.value.Length > 0
    ensures Received(e, Pair(sent.key, sent.value[..]), repr)
  {
    var data := new Byte[sent.value.Length](i requires 0 <= i < sent.value.Length reads sent.value => sent.value[i]);
    var b := BlockCreate(data.Length, data);
    e := EntryCreate(sent.key, b);
    assert data[..] == sent.value[..];
  }

  /** The loop of rtable_get_table. */
  method UnpackAll(sent: array<Option<EntryT>>, ghost ps: seq<Pair>, ghost repr: set<object>)
    returns (es: array<Entry?>)
    requires MessageT.CarriesEntries(sent, |ps|, ps) && forall p :: p in ps ==> p.value != []
    ensures fresh(es) && AllReceived(es[..], ps, repr)
  {
    es := new Entry?[sent.Length](_ => null);
    var i := 0;
    while i < sent.Length
      invariant 0 <= i <= sent.Length && AllReceived(es[..i], ps[..i], repr)
    {
      assert MessageT.CarriesEntry(sent[i], ps[i]) && ps[i] in ps;
      var e := Unpack(sent[i].value, repr);
      es[i] := e;
      i := i + 1;
    }
    assert es[..i] == es[..] && ps[..i] == ps;
  }

  /** rtable_get_table: all entries of the other server's table, or NULL if it has none. */
  method RtableGetTable(table: Table, ghost repr: set<object>) returns (es: array?<Entry?>)
    requires table.Valid() && Ready(table.cmp, table.hash, table.buckets)
    ensures es == null <==> Flatten(table.buckets) == []
    ensures es != null ==> fresh(es) && AllReceived(es[..], Flatten(table.buckets), repr)
  {
    var msg := new MessageT(OP_GETTABLE, CT_NONE, None, Some([]));
    FlattenLength(table.buckets);
    var _ := InvokeGetTable(msg, table);
    if msg.opcode == OP_ERROR {
      return null;
    }
    es := UnpackAll(msg.entries, Flatten(table.buckets), repr);
  }

  method RtableSize(table: Table) returns (n: int)
    requires table.Valid() && Ready(table.cmp, table.hash, table.buckets)
    ensures n == |Flatten(table.buckets)| == |TableMap(table.buckets)|
  {
    var msg := new MessageT(OP_SIZE, CT_NONE, None, Some([]));
    FlattenLength(table.buckets);
    TableSizeIsMapSize(table.hash, table.buckets);
    var _ := InvokeRead(msg, table);
    if msg.opcode == OP_ERROR {
      return -1;
    }
    n := msg.result;
  }

  /** One turn of the loop of set_table: the entries still to come are not touched. */
  method PutEntry(table: Table, e: Entry, ghost es: seq<Entry?>, ghost ps: seq<Pair>, ghost i: nat) returns (r: int)
    requires table.Valid() && AllReceived(es, ps, table.Repr) && i < |es| && e == es[i] && ps[i].value != []
    modifies table.Repr
    ensures table.Valid() && fresh(table.Repr - old(table.Repr)) && AllReceived(es, ps, table.Repr)
    ensures r == 0
    ensures table.buckets == BucketsAfter(table.cmp, table.hash, old(table.buckets), Put(ps[i].key, ps[i].value))
  {
    assert Received(es[i], ps[i], table.Repr);
    assert e.value.Contents() == e.value.data[..];
    r := table.Put(e.Key(), e.Value());
    forall k | 0 <= k < |es| ensures Received(es[k], ps[k], table.Repr) {
      assert old(Received(es[k], ps[k], table.Repr));
    }
  }

  /** The loop of set_table. */
  method PutAllEntries(table: Table, es: array<Entry?>, ghost ps: seq<Pair>) returns (r: int)
    requires table.Valid() && forall p :: p in ps ==> p.value != []
    requires es !in table.Repr && AllReceived(es[..], ps, table.Repr)
    modifies table.Repr
    ensures table.Valid() && fresh(table.Repr - old(table.Repr))
    ensures r == 0 && table.buckets == PutAll(table.cmp, table.hash, old(table.buckets), ps)
  {
    ghost var goal := PutAll(table.cmp, table.hash, table.buckets, ps);
    ghost var all := es[..];
    var i := 0;
    while i < es.Length
      invariant 0 <= i <= es.Length && table.Valid() && fresh(table.Repr - old(table.Repr))
      invariant es !in table.Repr && es[..] == all && AllReceived(all, ps, table.Repr)
      invariant PutAll(table.cmp, table.hash, table.buckets, ps[i..]) == goal
    {
      assert Received(all[i], ps[i], table.Repr) && ps[i] in ps;
      assert ps[i..][1..] == ps[i + 1..];
      if es[i] != null {
        var put := PutEntry(table, es[i], all, ps, i);
        if put != 0 {
          return -1;
        }
      }
      i := i + 1;
    }
    r := 0;
  }

  /** Without entries there is nothing to loop over: an empty table is answered with an error and size 0. */
  method PutEntries(table: Table, es: array?<Entry?>, n: int, ghost ps: seq<Pair>) returns (r: int)
    requires table.Valid() && n == |ps| && forall p :: p in ps ==> p.value != []
    requires es == null <==> ps == []
    requires es != null ==> es !in table.Repr && AllReceived(es[..], ps, table.Repr)
    modifies table.Repr
    ensures table.Valid() && fresh(table.Repr - old(table.Repr))
    ensures r == 0 && table.buckets == PutAll(table.cmp, table.hash, old(table.buckets), ps)
  {
    if n == 0 {
      return 0;
    }
    r := PutAllEntries(table, es, ps);
  }

  /** set_table, for a server that is not the head: with any number of lists of its own, the new server ends up with
      the map of its predecessor. */
  method SetTable(table: Table, prev: Table) returns (r: int)
    requires table.Valid() && SignCorrect(table.cmp) && UnitPositive(table.cmp) && table.buckets == Empty(|table.lists|)
    requires prev.Valid() && Ready(prev.cmp, prev.hash, prev.buckets) && prev.Repr !! table.Repr
    modifies table.Repr
    ensures r == 0 && table.Valid() && Ready(table.cmp, table.hash, table.buckets)
    ensures TableMap(table.buckets) == TableMap(prev.buckets) && prev.Valid() && prev.buckets == old(prev.buckets)
  {
    ghost var bs := prev.buckets;
    var es := RtableGetTable(prev, table.Repr);
    var n := RtableSize(prev);
    r := PutEntries(table, es, n, Flatten(bs));
    NewTableReady(table.cmp, table.hash, |table.lists|);
    PutAllReady(table.cmp, table.hash, Empty(|table.lists|), Flatten(bs));
    SnapshotRoundTrip(table.cmp, prev.hash, bs, table.hash, |table.lists|);
  }
}
