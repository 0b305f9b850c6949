/** The hash table on the heap: a row of lists, fixed when the table is created. Each method computes what TableSpec
    says of the buckets. */
module Tables {
  import opened CStrings
  import opened Options
  import opened Store
  import opened ListSpec
  import opened TableSpec
  import opened Blocks
  import opened Lists

  class Table {
    const cmp: Comparator
    const hash: Hash
    const lists: seq<List>
    ghost var live: bool
    ghost var buckets: Buckets
    ghost var Repr: set<object>

    /** List l holds the pairs ps. */
    static ghost predicate Holds(l: List, cmp: Comparator, ps: seq<Pair>)
      reads l, l.Repr
    {
      l.Valid() && l.cmp == cmp && l.pairs == ps
    }

    /** The lists hold the buckets and share nothing. */
    static ghost predicate Row(ls: seq<List>, cmp: Comparator, bs: Buckets)
      reads ls, (set i | 0 <= i < |ls| :: ls[i])`Repr, (set i, o | 0 <= i < |ls| && o in ls[i].Repr :: o)
    {
      && |ls| == |bs|
      && (forall i :: 0 <= i < |ls| ==> Holds(ls[i], cmp, bs[i]))
      && (forall i, j :: 0 <= i < j < |ls| ==> ls[i].Repr !! ls[j].Repr)
    }

    ghost predicate Valid()
      reads this, Repr
      ensures Valid() ==> this in Repr
    {
      && this in Repr && live
      && lists != [] && InRange(hash)
      && (forall i :: 0 <= i < |lists| ==> lists[i] in Repr && lists[i].Repr <= Repr && this !in lists[i].Repr)
      && Row(lists, cmp, buckets)
    }

    /** table_create, once the size has been found positive. */
    constructor (n: nat, cmp: Comparator, hash: Hash)
      requires n > 0 && InRange(hash)
      ensures Valid() && fresh(Repr) && buckets == Empty(n) && this.cmp == cmp && this.hash == hash
    {
      var row: seq<List> := [];
      ghost var repr: set<object> := {};
      var i := 0;
      while i < n
        invariant 0 <= i <= n && |row| == i && fresh(repr)
        invariant forall k :: 0 <= k < i ==> row[k] in repr && row[k].Repr <= repr && fresh(row[k].Repr)
        invariant Row(row, cmp, Empty(i))
      {
        var l := new List(cmp);
        row := row + [l];
        repr := repr + l.Repr;
        i := i + 1;
      }
      this.cmp, this.hash, lists, live := cmp, hash, row, true;
      buckets := Empty(n);
      Repr := repr + {this};
    }

    /** table_get: a copy of the block, or NULL. */
    method Get(key: Key) returns (b: Block?)
      requires Valid()
      ensures b == null <==> Lookup(buckets[hash(key, |lists|)], key).None?
      ensures b != null ==> fresh(b) && fresh(b.data) && b.Owned()
      ensures b != null ==> Lookup(buckets[hash(key, |lists|)], key) == Some(b.data[..])
    {
      var index := hash(key, |lists|);
      assert Holds(lists[index], cmp, buckets[index]);
      var e := lists[index].Get(key);
      if e == null {
        return null;
      }
      b := BlockDuplicate(e.Value());
      assert e.value.Contents() == e.value.data[..];
    }

    /** table_size */
    method Size() returns (count: int)
      requires Valid()
      ensures count == TotalLength(buckets)
    {
      count := 0;
      var i := 0;
      while i < |lists|
        invariant 0 <= i <= |lists|
        invariant count == TotalLength(buckets[..i])
      {
        assert Holds(lists[i], cmp, buckets[i]);
        count := count + lists[i].Size();
        TotalLengthSnoc(buckets, i);
        i := i + 1;
      }
      assert buckets[..|lists|] == buckets;
    }

    /** One list has changed; whatever it owns now was its own or nobody's. */
    static lemma RowChanges(ls: seq<List>, cmp: Comparator, bs: Buckets, index: nat, cs: Buckets)
      requires |ls| == |bs| && index < |ls| && cs == bs[index := ls[index].pairs]
      requires ls[index].Valid() && ls[index].cmp == cmp
      requires forall i :: 0 <= i < |ls| && i != index ==> Holds(ls[i], cmp, bs[i])
      requires forall i, j :: 0 <= i < j < |ls| ==> ls[i].Repr !! ls[j].Repr
      ensures Row(ls, cmp, cs)
    {
    }

    /** The other lists do not notice what happens in list index. */
    static lemma OthersApart(ls: seq<List>, cmp: Comparator, bs: Buckets, index: nat)
      requires Row(ls, cmp, bs) && index < |ls|
      ensures forall i :: 0 <= i < |ls| && i != index ==>
        Holds(ls[i], cmp, bs[i]) && ls[i].Repr !! ls[index].Repr && ls[i] !in ls[index].Repr
    {
      forall i | 0 <= i < |ls| && i != index ensures ls[i].Repr !! ls[index].Repr && ls[i] in ls[i].Repr {
        assert Holds(ls[i], cmp, bs[i]);
        assert if i < index then ls[i].Repr !! ls[index].Repr else ls[index].Repr !! ls[i].Repr;
      }
    }

    static method AddToRow(ls: seq<List>, ghost cmp: Comparator, ghost bs: Buckets, index: nat, e: Entry)
      returns (r: int)
      requires Row(ls, cmp, bs) && index < |ls|
      requires e.Owned() && forall i :: 0 <= i < |ls| ==>
        e !in ls[i].Repr && e.value !in ls[i].Repr && e.value.data !in ls[i].Repr
      modifies ls[index].Repr
      ensures r >= 0 && Row(ls, cmp, bs[index := ListSpec.Add(cmp, bs[index], old(e.PairOf()))])
      ensures forall i :: 0 <= i < |ls| && i != index ==> ls[i].Repr == old(ls[i].Repr)
      ensures fresh(ls[index].Repr - old(ls[index].Repr) - {e, e.value, e.value.data})
    {
      OthersApart(ls, cmp, bs, index);
      assert Holds(ls[index], cmp, bs[index]);
      r := ls[index].Add(e);
      RowChanges(ls, cmp, bs, index, bs[index := ls[index].pairs]);
    }

    /** Hand a new entry to list index. */
    method AddTo(index: nat, e: Entry) returns (r: int)
      requires Valid() && index < |lists|
      requires e.Owned() && e !in Repr && e.value !in Repr && e.value.data !in Repr
      modifies Repr
      ensures Valid() && Repr == old(Repr) + lists[index].Repr
      ensures fresh(Repr - old(Repr) - {e, e.value, e.value.data})
      ensures r >= 0 && buckets == old(buckets)[index := ListSpec.Add(cmp, old(buckets)[index], old(e.PairOf()))]
    {
      ghost var p := e.PairOf();
      r := AddToRow(lists, cmp, buckets, index, e);
      buckets := buckets[index := ListSpec.Add(cmp, buckets[index], p)];
      Repr := Repr + lists[index].Repr;
    }

    /** table_put: the entry with copies of the key and of the data. */
    static method CopyEntry(key: Key, value: Block?) returns (copyEntry: Entry?)
      requires value != null ==> value.live && value.WellFormed()
      ensures copyEntry != null <==> Copyable(value)
      ensures copyEntry != null ==> fresh(copyEntry) && fresh(copyEntry.value) && fresh(copyEntry.value.data)
      ensures copyEntry != null ==> copyEntry.Owned() && copyEntry.PairOf() == Pair(key, value.Contents())
    {
      var copy := BlockDuplicate(value);
      var newEntry := EntryCreate(key, copy);
      copyEntry := EntryDuplicate(newEntry);
      var _ := EntryDestroy(newEntry);
      assert copyEntry != null ==> copy.Contents() == copy.data[..];
    }

    /** table_put: 0, or -1 for a block that cannot be copied. The table never shares anything with the caller. */
    method Put(key: Key, value: Block?) returns (r: int)
      requires Valid() && (value != null ==> value.live && value.WellFormed())
      modifies Repr
      ensures Valid() && fresh(Repr - old(Repr))
      ensures r == if Copyable(value) then 0 else -1
      ensures buckets == if Copyable(value) then
                           BucketsAfter(cmp, hash, old(buckets), Store.Put(key, old(value.Contents())))
                         else old(buckets)
    {
      var copyEntry := CopyEntry(key, value);
      if copyEntry == null {
        return -1;  // list_add refuses NULL
      }
      var added := AddTo(hash(key, |lists|), copyEntry);
      r := if added == -1 then -1 else 0;
    }

    static method RemoveFromRow(ls: seq<List>, ghost cmp: Comparator, ghost bs: Buckets, index: nat, key: Key)
      returns (r: int)
      requires Row(ls, cmp, bs) && index < |ls|
      modifies ls[index].Repr
      ensures Row(ls, cmp, bs[index := ListSpec.Remove(bs[index], key)])
      ensures r == if Find(bs[index], key) < |bs[index]| then 0 else 1
      ensures forall i :: 0 <= i < |ls| ==> ls[i].Repr <= old(ls[i].Repr)
    {
      OthersApart(ls, cmp, bs, index);
      assert Holds(ls[index], cmp, bs[index]);
      r := ls[index].Remove(key);
      RowChanges(ls, cmp, bs, index, bs[index := ls[index].pairs]);
    }

    /** table_remove: 0 if the key was found and removed, 1 if not. */
    method Remove(key: Key) returns (r: int)
      requires Valid()
      modifies Repr
      ensures Valid() && Repr == old(Repr)
      ensures buckets == BucketsAfter(cmp, hash, old(buckets), Del(key))
      ensures r == if WriteOk(hash, old(buckets), Del(key)) then 0 else 1
    {
      r := RemoveFromRow(lists, cmp, buckets, hash(key, |lists|), key);
      buckets := BucketsAfter(cmp, hash, buckets, Del(key));
    }

    // ---------- table_get_keys ----------

    /** The inner loop: copy a NULL-terminated array of keys to a, from idx on. */
    static method CopyKeys(a: array<Option<Key>>, idx: nat, listKeys: array<Option<Key>>, ghost ps: seq<Pair>)
      returns (next: nat)
      requires a != listKeys && idx + |ps| < a.Length
      requires listKeys.Length == |ps| + 1 && listKeys[|ps|] == None
      requires forall j :: 0 <= j < |ps| ==> listKeys[j] == Some(ps[j].key)
      modifies a
      ensures next == idx + |ps|
      ensures forall k :: idx <= k < next ==> a[k] == Some(ps[k - idx].key)
      ensures forall k :: 0 <= k < a.Length && !(idx <= k < idx + |ps|) ==> a[k] == old(a[k])
    {
      var j := 0;
      while listKeys[j] != None
        invariant 0 <= j <= |ps|
        invariant forall k :: idx <= k < idx + j ==> a[k] == Some(ps[k - idx].key)
        invariant forall k :: 0 <= k < a.Length && !(idx <= k < idx + j) ==> a[k] == old(a[k])
        decreases |ps| - j
      {
        a[idx + j] := listKeys[j];
        j := j + 1;
      }
      next := idx + j;
    }

    /** The slots after one list: its keys from idx on, all else as before. */
    static ghost predicate Appended(before: seq<Option<Key>>, after: seq<Option<Key>>, idx: nat, ps: seq<Pair>) {
      && idx + |ps| <= |before| == |after|
      && (forall k :: idx <= k < idx + |ps| ==> after[k] == Some(ps[k - idx].key))
      && (forall k :: 0 <= k < idx ==> after[k] == before[k])
    }

    /** The first n slots hold the keys of the first n pairs. */
    static ghost predicate Filled(slots: seq<Option<Key>>, all: seq<Pair>, n: nat) {
      n <= |slots| && n <= |all| && forall k :: 0 <= k < n ==> slots[k] == Some(all[k].key)
    }

    static lemma FilledFurther(before: seq<Option<Key>>, after: seq<Option<Key>>, bs: Buckets, i: nat, idx: nat)
      requires i < |bs| && idx == TotalLength(bs[..i]) && Filled(before, Flatten(bs), idx)
      requires Appended(before, after, idx, bs[i])
      ensures Filled(after, Flatten(bs), TotalLength(bs[..i + 1]))
    {
      FlattenSlice(bs, i);
    }

    /** One turn of the loop of table_get_keys. */
    static method AppendKeys(a: array<Option<Key>>, idx: nat, l: List) returns (next: nat)
      requires l.Valid() && idx + |l.pairs| < a.Length && a !in l.Repr
      modifies a
      ensures next == idx + |l.pairs| && Appended(old(a[..]), a[..], idx, l.pairs)
    {
      var listKeys := l.GetKeys();
      if l.Size() > 0 {
        next := CopyKeys(a, idx, listKeys, l.pairs);
      } else {
        next := idx;
      }
    }

    static method FillKeys(ls: seq<List>, ghost cmp: Comparator, ghost bs: Buckets, a: array<Option<Key>>)
      returns (idx: nat)
      requires Row(ls, cmp, bs) && a.Length == |Flatten(bs)| + 1
      requires forall i :: 0 <= i < |ls| ==> a !in ls[i].Repr
      modifies a
      ensures idx == |Flatten(bs)| && Filled(a[..], Flatten(bs), idx)
    {
      FlattenLength(bs);
      idx := 0;
      var i := 0;
      while i < |ls|
        invariant 0 <= i <= |ls|
        invariant idx == TotalLength(bs[..i])
        invariant Filled(a[..], Flatten(bs), idx)
      {
        assert Holds(ls[i], cmp, bs[i]);
        FlattenSlice(bs, i);
        ghost var before := a[..];
        var next := AppendKeys(a, idx, ls[i]);
        FilledFurther(before, a[..], bs, i, idx);
        idx := next;
        i := i + 1;
      }
      assert bs[..|ls|] == bs;
    }

    /** table_get_keys: exactly table_size keys, list by list, and a NULL; NULL for an empty table. */
    method GetKeys() returns (keys: array?<Option<Key>>)
      requires Valid()
      ensures keys == null <==> TotalLength(buckets) == 0
      ensures keys != null ==> fresh(keys) && keys.Length == |Flatten(buckets)| + 1
      ensures keys != null ==> keys[|Flatten(buckets)|] == None
      ensures keys != null ==> forall i :: 0 <= i < |Flatten(buckets)| ==> keys[i] == Some(Flatten(buckets)[i].key)
    {
      var size := Size();
      ghost var all := Flatten(buckets);
      FlattenLength(buckets);
      if size <= 0 {
        return null;
      }
      var a := new Option<Key>[size + 1];
      var idx := FillKeys(lists, cmp, buckets, a);
      a[idx] := None;
      keys := a;
    }

    // ---------- table_destroy ----------

    /** List l has been freed together with its nodes ns, its entries es and their blocks. */
    static ghost predicate Gone(l: List, ns: seq<Node>, es: seq<Entry>)
      reads l, ns, es, (set i | 0 <= i < |es| :: es[i].value)
    {
      !l.live && l.nodes == ns && |ns| == |es| && List.FreedUpTo(ns, es, |ns|)
    }

    /** Before index i the lists are gone, from i on they are as they were. */
    static ghost predicate GoneUpTo(ls: seq<List>, cmp: Comparator, bs: Buckets, reprs: seq<set<object>>,
        nss: seq<seq<Node>>, ess: seq<seq<Entry>>, i: nat)
      requires |ls| == |bs| == |reprs| == |nss| == |ess|
      reads *
    {
      && (forall k :: 0 <= k < |ls| && k < i ==> Gone(ls[k], nss[k], ess[k]))
      && (forall k :: i <= k < |ls| ==> Holds(ls[k], cmp, bs[k]))
      && (forall k :: i <= k < |ls| ==> ls[k].Repr == reprs[k] && ls[k].nodes == nss[k] && ls[k].Entries() == ess[k])
    }

    /** The lists own different things. */
    static ghost predicate Apart(ls: seq<List>, reprs: seq<set<object>>, nss: seq<seq<Node>>, ess: seq<seq<Entry>>) {
      && |ls| == |reprs| == |nss| == |ess|
      && (forall k :: 0 <= k < |ls| ==> ls[k] in reprs[k] && List.Inventory(reprs[k], nss[k], ess[k]))
      && (forall j, k :: 0 <= j < k < |ls| ==> reprs[j] !! reprs[k])
    }

    static method DestroyList(ls: seq<List>, ghost cmp: Comparator, ghost bs: Buckets, ghost reprs: seq<set<object>>,
        ghost nss: seq<seq<Node>>, ghost ess: seq<seq<Entry>>, i: nat)
      requires |ls| == |bs| && Apart(ls, reprs, nss, ess) && i < |ls|
      requires GoneUpTo(ls, cmp, bs, reprs, nss, ess, i)
      modifies reprs[i]
      ensures GoneUpTo(ls, cmp, bs, reprs, nss, ess, i + 1)
    {
      assert forall k :: 0 <= k < |ls| && k != i ==> reprs[k] !! reprs[i];
      var _ := ls[i].Destroy();
    }

    static method DestroyRow(ls: seq<List>, ghost cmp: Comparator, ghost bs: Buckets, ghost repr: set<object>)
      requires Row(ls, cmp, bs) && forall i :: 0 <= i < |ls| ==> ls[i].Repr <= repr
      modifies repr
      ensures forall i :: 0 <= i < |ls| ==> Gone(ls[i], old(ls[i].nodes), old(ls[i].Entries()))
    {
      ghost var reprs := seq(|ls|, k requires 0 <= k < |ls| reads ls => ls[k].Repr);
      ghost var nss := seq(|ls|, k requires 0 <= k < |ls| reads ls => ls[k].nodes);
      ghost var ess := seq(|ls|, k requires 0 <= k < |ls| && ls[k].Valid()
        reads ls, if 0 <= k < |ls| then ls[k].Repr else {} => ls[k].Entries());
      var i := 0;
      while i < |ls|
        invariant 0 <= i <= |ls| && GoneUpTo(ls, cmp, bs, reprs, nss, ess, i)
      {
        DestroyList(ls, cmp, bs, reprs, nss, ess, i);
        i := i + 1;
      }
    }

    /** table_destroy: every list with all its nodes, entries and blocks is freed, and none of them twice. */
    method Destroy() returns (r: int)
      requires Valid()
      modifies Repr
      ensures r == 0 && !live
      ensures forall i :: 0 <= i < |lists| ==> Gone(lists[i], old(lists[i].nodes), old(lists[i].Entries()))
    {
      DestroyRow(lists, cmp, buckets, Repr - {this});
      live := false;
      r := 0;
    }
  }

  /** table_create: NULL unless the number of lists is positive. */
  method TableCreate(n: int, cmp: Comparator, hash: Hash) returns (t: Table?)
    requires InRange(hash)
    ensures t == null <==> n <= 0
    ensures t != null ==> t.Valid() && fresh(t.Repr) && t.buckets == Empty(n) && t.cmp == cmp && t.hash == hash
  {
    if n <= 0 {
      return null;
    }
    t := new Table(n, cmp, hash);
  }

  /** Bucket i is a slice of all pairs. */
  lemma {:induction false} FlattenSlice(bs: Buckets, i: nat)
    requires i < |bs|
    ensures var n := TotalLength(bs[..i]);
            && TotalLength(bs[..i + 1]) == n + |bs[i]| <= |Flatten(bs)|
            && forall k :: n <= k < n + |bs[i]| ==> Flatten(bs)[k] == bs[i][k - n]
  {
    if i > 0 {
      FlattenSlice(bs[1..], i - 1);
      assert bs[1..][..i] == bs[..i + 1][1..] && bs[1..][..i - 1] == bs[..i][1..];
    } else {
      assert bs[..1][1..] == [];
    }
  }

  lemma {:induction false} TotalLengthSnoc(bs: Buckets, i: nat)
    requires i < |bs|
    ensures TotalLength(bs[..i + 1]) == TotalLength(bs[..i]) + |bs[i]|
  {
    if i > 0 {
      TotalLengthSnoc(bs[1..], i - 1);
      assert bs[1..][..i] == bs[..i + 1][1..] && bs[1..][..i - 1] == bs[..i][1..];
    }
  }
}
