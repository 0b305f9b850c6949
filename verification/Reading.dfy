/** What a client is told that reads from a server: the stub's requests for a value and for the keys, from the message
    that it builds to what it hands to its caller, and the reads of the chain in terms of the server's replies. */
module Reading {
  import opened CStrings
  import opened Options
  import opened Store
  import opened ListSpec
  import opened TableSpec
  import opened Requests
  import opened Blocks
  import opened Tables
  import opened Skeleton

  /** The value as it arrives: packing and unpacking copy it. */
  method Arrived(value: array<Byte>) returns (copy: array<Byte>)
    ensures fresh(copy) && copy[..] == value[..]
  {
    copy := new Byte[value.Length](i requires 0 <= i < value.Length reads value => value[i]);
  }

  /** rtable_get: a block of its own with the value that the table has for the key, or NULL. */
  method RtableGet(table: Table, key: Option<Key>) returns (b: Block?)
    requires table.Valid() && Ready(table.cmp, table.hash, table.buckets)
    ensures b == null <==> key.None? || key.value !in TableMap(table.buckets)
    ensures b != null ==> fresh(b) && b.live && b.data != null && fresh(b.data) && b.datasize == b.data.Length
    ensures b != null ==> b.data[..] == TableMap(table.buckets)[key.value]
  {
    if key == None {
      return null;
    }
    var msg := new MessageT(OP_GET, CT_KEY, None, key);
    GetAnswer(table, key.value);
    var _ := InvokeRead(msg, table);
    if msg.opcode == OP_ERROR {
      return null;
    }
    if msg.ctype == CT_VALUE {
      var data := Arrived(msg.value);
      b := BlockCreate(data.Length, data);
      return;
    }
    b := null;
  }

  lemma GetAnswer(table: Table, k: Key)
    requires table.Valid() && Ready(table.cmp, table.hash, table.buckets)
    ensures var m, reply := TableMap(table.buckets), Serve(table.cmp, table.hash, table.buckets, GetValue(k)).reply;
            reply == (if k in m then Got(m[k]) else Error) && (k in m ==> m[k] != [])
  {
    ServeAnswers(table.cmp, table.hash, table.buckets, GetValue(k));
    TableDistinct(table.hash, table.buckets);
    MapOfKeys(Flatten(table.buckets), k);
  }

  lemma KeysAnswer(table: Table)
    requires table.Valid() && Ready(table.cmp, table.hash, table.buckets)
    ensures var m, ks := TableMap(table.buckets), KeysOf(Flatten(table.buckets));
            && Serve(table.cmp, table.hash, table.buckets, GetKeys).reply == (if m == map[] then Error else KeysAre(ks))
            && |ks| == |m| && AllDifferent(ks) && forall k: Key :: k in ks <==> k in m
  {
    var m, ks := TableMap(table.buckets), KeysOf(Flatten(table.buckets));
    FlattenLength(table.buckets);
    TableSizeIsMapSize(table.hash, table.buckets);
    TableDistinct(table.hash, table.buckets);
    forall k: Key ensures k in ks <==> k in m {
      MapOfKeys(Flatten(table.buckets), k);
    }
  }

  /** The loop of rtable_get_keys. */
  method CopyKeys(sent: array<Option<Key>>, n: nat, ghost ks: seq<Key>) returns (keys: array<Key>)
    requires MessageT.CarriesKeys(sent, n, ks)
    ensures fresh(keys) && keys[..] == ks
  {
    keys := new Key[n](_ => []);
    var i := 0;
    while i < n
      invariant 0 <= i <= n && keys[..i] == ks[..i]
    {
      keys[i] := sent[i].value;
      i := i + 1;
    }
  }

  /** rtable_get_keys: every key of the table once, or NULL if it has none. There is no NULL behind the keys. */
  method RtableGetKeys(table: Table) returns (keys: array?<Key>)
    requires table.Valid() && Ready(table.cmp, table.hash, table.buckets)
    ensures keys == null <==> TableMap(table.buckets) == map[]
    ensures keys != null ==> fresh(keys) && keys.Length == |TableMap(table.buckets)|
    ensures keys != null ==> forall k: Key :: k in keys[..] <==> k in TableMap(table.buckets)
    ensures keys != null ==> forall i, j :: 0 <= i < j < keys.Length ==> keys[i] != keys[j]
  {
    var msg := new MessageT(OP_GETKEYS, CT_NONE, None, Some([]));
    KeysAnswer(table);
    ghost var ks := KeysOf(Flatten(table.buckets));
    var _ := InvokeRead(msg, table);
    if msg.opcode == OP_ERROR {
      return null;
    }
    keys := CopyKeys(msg.keys, msg.nKeys, ks);
  }

  /** What the chain tells a reader is what the server's code replies, from any table in order that stands for the
      store: the value exactly if the reply carries it, nothing exactly if it is an error, and the same size. */
  lemma ReadsAreServed(cmp: Comparator, hash: Hash, bs: Buckets, k: Key)
    requires Ready(cmp, hash, bs)
    ensures forall v ::
      Ask(TableMap(bs), Get(k)) == Value(Some(v)) <==> Serve(cmp, hash, bs, GetValue(k)).reply == Got(v)
    ensures Ask(TableMap(bs), Get(k)) == Value(None) <==> Serve(cmp, hash, bs, GetValue(k)).reply == Error
    ensures forall n :: Ask(TableMap(bs), Size) == Count(n) <==> Serve(cmp, hash, bs, GetSize).reply == SizeIs(n)
  {
    ServeAnswers(cmp, hash, bs, GetValue(k));
    ServeAnswers(cmp, hash, bs, GetSize);
  }
}
