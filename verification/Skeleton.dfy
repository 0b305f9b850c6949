/** The server's skeleton: one message is decoded, carried out on the table and overwritten with the reply. */
module Skeleton {
  import opened CStrings
  import opened Options
  import opened Store
  import opened ListSpec
  import opened ListMap
  import opened TableSpec
  import opened Requests
  import opened Blocks
  import opened Tables

  const OP_BAD := 0
  const OP_PUT := 10
  const OP_GET := 20
  const OP_DEL := 30
  const OP_SIZE := 40
  const OP_GETKEYS := 50
  const OP_GETTABLE := 60
  const OP_STATS := 70
  const OP_ERROR := 99

  const CT_ENTRY := 10
  const CT_KEY := 20
  const CT_VALUE := 30
  const CT_RESULT := 40
  const CT_KEYS := 50
  const CT_TABLE := 60
  const CT_NONE := 70
  const CT_STATS := 80

  datatype EntryT = EntryT(key: Key, value: array?<Byte>)

  class MessageT {
    var opcode: int
    var ctype: int
    var entry: Option<EntryT>
    var key: Option<Key>
    var value: array?<Byte>
    var result: int
    var ops: int
    var clients: int
    var nKeys: int
    var keys: array?<Option<Key>>
    var nEntries: int
    var entries: array?<Option<EntryT>>

    constructor (opcode: int, ctype: int, entry: Option<EntryT>, key: Option<Key>)
      ensures this.opcode == opcode && this.ctype == ctype && this.entry == entry && this.key == key
    {
      this.opcode, this.ctype, this.entry, this.key := opcode, ctype, entry, key;
      value, keys, entries := null, null, null;
      result, ops, clients, nKeys, nEntries := 0, 0, 0, 0, 0;
    }

    method Fail()
      modifies this`opcode, this`ctype
      ensures opcode == OP_ERROR && ctype == CT_NONE
    {
      opcode, ctype := OP_ERROR, CT_NONE;
    }

    method Succeed(op: int, ct: int)
      modifies this`opcode, this`ctype
      ensures opcode == op + 1 && ctype == ct
    {
      opcode, ctype := op + 1, ct;
    }

    /** The request that the message stands for. */
    ghost function Asks(): Request
      requires opcode == OP_PUT ==> entry.Some?
      reads this, if entry.Some? && entry.value.value != null then {entry.value.value} else {}
    {
      if opcode == OP_PUT then
        Change(Put(entry.value.key, if entry.value.value == null then [] else entry.value.value[..]))
      else if opcode == OP_GET then (if key.Some? then GetValue(key.value) else NoKey)
      else if opcode == OP_DEL then (if key.Some? then Change(Del(key.value)) else NoKey)
      else if opcode == OP_SIZE then GetSize
      else if opcode == OP_GETKEYS then GetKeys
      else if opcode == OP_GETTABLE then GetTable
      else Unknown
    }

    /** A key array as the message carries it: the keys and a NULL. */
    static ghost predicate CarriesKeys(a: array?<Option<Key>>, n: int, ks: seq<Key>)
      reads a
    {
      && n == |ks| && a != null && a.Length == n + 1 && a[n] == None
      && forall i :: 0 <= i < n ==> a[i] == Some(ks[i])
    }

    static ghost predicate CarriesEntry(e: Option<EntryT>, p: Pair)
      reads if e.Some? && e.value.value != null then {e.value.value} else {}
    {
      e.Some? && e.value.key == p.key && e.value.value != null && e.value.value[..] == p.value
    }

    static ghost function Buffers(a: array?<Option<EntryT>>): set<object>
      reads a
    {
      if a == null then {}
      else set i | 0 <= i < a.Length && a[i].Some? && a[i].value.value != null :: a[i].value.value
    }

    static ghost predicate CarriesEntries(a: array?<Option<EntryT>>, n: int, ps: seq<Pair>)
      reads a, Buffers(a)
    {
      && n == |ps| && a != null && a.Length == n
      && forall i :: 0 <= i < n ==> CarriesEntry(a[i], ps[i])
    }

    /** The message is the reply to a request with code op. */
    ghost predicate Says(op: int, reply: Reply)
      reads this, value, keys, entries, Buffers(entries)
    {
      match reply
      case Done => opcode == op + 1 && ctype == CT_NONE
      case Got(v) => opcode == op + 1 && ctype == CT_VALUE && key == None && value != null && value[..] == v
      case SizeIs(n) => opcode == op + 1 && ctype == CT_RESULT && result == n
      case KeysAre(ks) => opcode == op + 1 && ctype == CT_KEYS && CarriesKeys(keys, nKeys, ks)
      case EntriesAre(ps) => opcode == op + 1 && ctype == CT_TABLE && CarriesEntries(entries, nEntries, ps)
      case Error => opcode == OP_ERROR && ctype == CT_NONE
      case Untouched => opcode == op
    }

    method GiveKeys(keys: array<Option<Key>>, n: nat, ghost ks: seq<Key>)
      requires CarriesKeys(keys, n, ks)
      modifies this`opcode, this`ctype, this`nKeys, this`keys
      ensures Says(OP_GETKEYS, KeysAre(ks))
    {
      nKeys, this.keys := n, keys;
      Succeed(OP_GETKEYS, CT_KEYS);
    }

    method GiveEntries(entries: array<Option<EntryT>>, n: nat, ghost ps: seq<Pair>)
      requires CarriesEntries(entries, n, ps)
      modifies this`opcode, this`ctype, this`nEntries, this`entries
      ensures Says(OP_GETTABLE, EntriesAre(ps))
    {
      nEntries, this.entries := n, entries;
      Succeed(OP_GETTABLE, CT_TABLE);
    }
  }

  /** The table and the message have nothing in common. */
  ghost predicate Apart(table: Table, msg: MessageT)
    reads table, table.Repr, msg
  {
    && table.Valid()
    && msg !in table.Repr
    && (msg.entry.Some? && msg.entry.value.value != null ==> msg.entry.value.value !in table.Repr)
    && (msg.opcode == OP_PUT ==> msg.entry.Some?)
  }

  /** And the table is in order. */
  ghost predicate Serving(table: Table, msg: MessageT)
    reads table, table.Repr, msg
  {
    Apart(table, msg) && Ready(table.cmp, table.hash, table.buckets)
  }

  method InvokePut(msg: MessageT, table: Table) returns (r: int)
    requires Apart(table, msg) && msg.opcode == OP_PUT
    modifies msg`opcode, msg`ctype, table.Repr
    ensures table.Valid() && fresh(table.Repr - old(table.Repr))
    ensures var s := Serve(table.cmp, table.hash, old(table.buckets), old(msg.Asks()));
            table.buckets == s.buckets && (s.reply == Done || s.reply == Error) &&
            msg.ctype == CT_NONE && r == (if s.reply == Done then 0 else -1) &&
            msg.opcode == if s.reply == Done then OP_PUT + 1 else OP_ERROR
  {
    var e := msg.entry.value;
    var b := BlockCreate(if e.value == null then 0 else e.value.Length, e.value);
    if b == null {
      msg.Fail();
      return -1;
    }
    assert b.Contents() == e.value[..];
    var result := table.Put(e.key, b);
    assert result == 0;  // so the code's test for a failed table_put never holds here
    msg.Succeed(OP_PUT, CT_NONE);
    r := 0;
  }

  method InvokeGet(msg: MessageT, table: Table) returns (r: int)
    requires Apart(table, msg) && msg.opcode == OP_GET
    modifies msg`opcode, msg`ctype, msg`key, msg`value
    ensures var s := Serve(table.cmp, table.hash, table.buckets, old(msg.Asks()));
            msg.Says(OP_GET, s.reply) && r == if s.reply.Error? then -1 else 0
  {
    if msg.key == None {
      msg.Fail();
      return -1;  // table_get refuses NULL
    }
    var b := table.Get(msg.key.value);
    if b == null {
      msg.Fail();
      return -1;
    }
    msg.Succeed(OP_GET, CT_VALUE);
    msg.key := None;
    msg.value := b.Data();
    r := 0;
  }

  /** The test and the removal of OP_DEL. As long as no other thread runs, a key that table_get has found is there for
      table_remove. */
  method TestAndRemove(table: Table, key: Key) returns (ok: bool)
    requires table.Valid()
    modifies table.Repr
    ensures table.Valid() && fresh(table.Repr - old(table.Repr))
    ensures ok == WriteOk(table.hash, old(table.buckets), Del(key))
    ensures table.buckets == BucketsAfter(table.cmp, table.hash, old(table.buckets), Del(key))
  {
    var b := table.Get(key);
    if b == null {
      MissChangesNothing(table.cmp, table.hash, table.buckets, key);
      return false;
    }
    var result := table.Remove(key);
    assert result == 0;
    ok := true;
  }

  method InvokeDel(msg: MessageT, table: Table) returns (r: int)
    requires Apart(table, msg) && msg.opcode == OP_DEL
    modifies msg`opcode, msg`ctype, table.Repr
    ensures table.Valid() && fresh(table.Repr - old(table.Repr))
    ensures var s := Serve(table.cmp, table.hash, old(table.buckets), old(msg.Asks()));
            table.buckets == s.buckets && (s.reply == Done || s.reply == Error) &&
            msg.ctype == CT_NONE && r == (if s.reply == Done then 0 else -1) &&
            msg.opcode == if s.reply == Done then OP_DEL + 1 else OP_ERROR
  {
    var ok := false;
    if msg.key != None {
      ok := TestAndRemove(table, msg.key.value);
    }
    if !ok {
      msg.Fail();
      return -1;
    }
    msg.Succeed(OP_DEL, CT_NONE);
    r := 0;
  }

  method InvokeGetKeys(msg: MessageT, table: Table) returns (r: int)
    requires Apart(table, msg) && msg.opcode == OP_GETKEYS
    modifies msg`opcode, msg`ctype, msg`nKeys, msg`keys
    ensures var s := Serve(table.cmp, table.hash, table.buckets, GetKeys);
            msg.Says(OP_GETKEYS, s.reply) && r == if s.reply.Error? then -1 else 0
  {
    var keys := table.GetKeys();
    if keys == null {
      msg.Fail();
      return -1;
    }
    FlattenLength(table.buckets);
    var n := table.Size();
    msg.GiveKeys(keys, n, KeysOf(Flatten(table.buckets)));
    r := 0;
  }

  /** Each key that table_get_keys lists is found by table_get: the loop of OP_GETTABLE never gives up. */
  lemma ListedKeyFound(hash: Hash, bs: Buckets, i: nat)
    requires InRange(hash) && TableOk(hash, bs) && i < |Flatten(bs)|
    ensures Lookup(bs[hash(Flatten(bs)[i].key, |bs|)], Flatten(bs)[i].key) == Some(Flatten(bs)[i].value)
  {
    var k := Flatten(bs)[i].key;
    TableLookup(hash, bs, k);
    TableDistinct(hash, bs);
    FindDistinct(Flatten(bs), i);
    MapOfFind(Flatten(bs), k);
  }

  /** One turn of the loop of OP_GETTABLE. */
  method CopyOut(table: Table, key: Key, ghost i: nat) returns (e: Option<EntryT>)
    requires table.Valid() && Ready(table.cmp, table.hash, table.buckets)
    requires i < |Flatten(table.buckets)| && key == Flatten(table.buckets)[i].key
    ensures MessageT.CarriesEntry(e, Flatten(table.buckets)[i])
  {
    ListedKeyFound(table.hash, table.buckets, i);
    var b := table.Get(key);
    var entry := EntryCreate(key, b);
    e := Some(EntryT(entry.Key(), entry.Value().Data()));
  }

  /** The first n slots carry the first n pairs. */
  ghost predicate CarriedUpTo(slots: seq<Option<EntryT>>, ps: seq<Pair>, n: nat)
    reads *
  {
    n <= |slots| && n <= |ps| && forall k :: 0 <= k < n ==> MessageT.CarriesEntry(slots[k], ps[k])
  }

  method CopySlot(table: Table, key: Key, entries: array<Option<EntryT>>, i: nat)
    requires table.Valid() && Ready(table.cmp, table.hash, table.buckets)
    requires i < |Flatten(table.buckets)| && key == Flatten(table.buckets)[i].key
    requires i < entries.Length && CarriedUpTo(entries[..], Flatten(table.buckets), i)
    requires entries !in table.Repr
    modifies entries
    ensures CarriedUpTo(entries[..], Flatten(table.buckets), i + 1)
  {
    ghost var before := entries[..];
    var e := CopyOut(table, key, i);
    entries[i] := e;
    assert forall k :: 0 <= k < i ==> entries[k] == before[k];
  }

  method CopyAll(table: Table, keys: array<Option<Key>>, entries: array<Option<EntryT>>)
    requires table.Valid() && Ready(table.cmp, table.hash, table.buckets)
    requires MessageT.CarriesKeys(keys, entries.Length, KeysOf(Flatten(table.buckets)))
    requires entries !in table.Repr
    modifies entries
    ensures MessageT.CarriesEntries(entries, entries.Length, Flatten(table.buckets))
  {
    var i := 0;
    while i < entries.Length
      invariant 0 <= i <= entries.Length && CarriedUpTo(entries[..], Flatten(table.buckets), i)
    {
      CopySlot(table, keys[i].value, entries, i);
      i := i + 1;
    }
  }

  /** A new array with all entries of a table that is not empty. */
  method NewEntries(table: Table, keys: array<Option<Key>>, n: nat) returns (entries: array<Option<EntryT>>)
    requires table.Valid() && Ready(table.cmp, table.hash, table.buckets)
    requires MessageT.CarriesKeys(keys, n, KeysOf(Flatten(table.buckets)))
    ensures fresh(entries) && MessageT.CarriesEntries(entries, n, Flatten(table.buckets))
  {
    entries := new Option<EntryT>[n](_ => None);
    CopyAll(table, keys, entries);
  }

  method InvokeGetTable(msg: MessageT, table: Table) returns (r: int)
    requires Serving(table, msg) && msg.opcode == OP_GETTABLE
    modifies msg`opcode, msg`ctype, msg`nEntries, msg`entries
    ensures var s := Serve(table.cmp, table.hash, table.buckets, GetTable);
            msg.Says(OP_GETTABLE, s.reply) && r == if s.reply.Error? then -1 else 0
  {
    ghost var ps, reply := Flatten(table.buckets), Serve(table.cmp, table.hash, table.buckets, GetTable).reply;
    FlattenLength(table.buckets);
    var keys := table.GetKeys();
    if keys == null {
      msg.Fail();
      return -1;
    }
    assert reply == EntriesAre(ps);
    var n := table.Size();
    var entries := NewEntries(table, keys, n);
    msg.GiveEntries(entries, n, ps);
    r := 0;
  }

  /** The fields of a request that the server still needs once the request has been carried out. */
  twostate predicate RequestKept(msg: MessageT)
    reads *
  {
    && msg.entry == old(msg.entry)
    && (msg.entry.Some? && msg.entry.value.value != null ==>
          msg.entry.value.value[..] == old(msg.entry.value.value[..]))
    && (old(msg.opcode) != OP_GET ==> msg.key == old(msg.key))
  }

  /** What the reply and the table must be after a message that was carried out. */
  ghost predicate CarriedOut(msg: MessageT, table: Table, op: int, bs: Buckets, req: Request, r: int)
    requires bs != [] && InRange(table.hash)
    reads table, msg, msg.value, msg.keys, msg.entries, MessageT.Buffers(msg.entries)
  {
    var s := Serve(table.cmp, table.hash, bs, req);
    table.buckets == s.buckets && msg.Says(op, s.reply) && r == if s.reply.Error? then -1 else 0
  }

  /** invoke, for the requests that only read the table. */
  method InvokeRead(msg: MessageT, table: Table) returns (r: int)
    requires Serving(table, msg) && msg.opcode != OP_PUT && msg.opcode != OP_DEL
    modifies msg
    ensures Serving(table, msg) && RequestKept(msg)
    ensures CarriedOut(msg, table, old(msg.opcode), old(table.buckets), old(msg.Asks()), r)
  {
    if msg.opcode == OP_GET {
      r := InvokeGet(msg, table);
    } else if msg.opcode == OP_SIZE {
      msg.result := table.Size();
      msg.Succeed(OP_SIZE, CT_RESULT);
      r := 0;
    } else if msg.opcode == OP_GETKEYS {
      r := InvokeGetKeys(msg, table);
    } else if msg.opcode == OP_GETTABLE {
      r := InvokeGetTable(msg, table);
    } else {
      r := 0;
    }
  }

  /** invoke, for the requests that change the table. */
  method InvokeChange(msg: MessageT, table: Table) returns (r: int)
    requires Serving(table, msg) && (msg.opcode == OP_PUT || msg.opcode == OP_DEL)
    modifies msg`opcode, msg`ctype, table.Repr
    ensures Serving(table, msg) && fresh(table.Repr - old(table.Repr)) && RequestKept(msg)
    ensures CarriedOut(msg, table, old(msg.opcode), old(table.buckets), old(msg.Asks()), r)
  {
    ServeAnswers(table.cmp, table.hash, table.buckets, msg.Asks());
    if msg.opcode == OP_PUT {
      r := InvokePut(msg, table);
    } else {
      r := InvokeDel(msg, table);
    }
  }

  /** invoke, for any message: the table changes and the message is overwritten as `Serve` says. */
  method Invoke(msg: MessageT, table: Table) returns (r: int)
    requires Serving(table, msg)
    modifies msg, table.Repr
    ensures Serving(table, msg) && fresh(table.Repr - old(table.Repr)) && RequestKept(msg)
    ensures CarriedOut(msg, table, old(msg.opcode), old(table.buckets), old(msg.Asks()), r)
  {
    if msg.opcode == OP_PUT || msg.opcode == OP_DEL {
      r := InvokeChange(msg, table);
    } else {
      r := InvokeRead(msg, table);
    }
  }
}
