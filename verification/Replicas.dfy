/** A chain of servers on the heap, without crashes: each carries out a request on its own table and forwards a
    successful put or delete to its successor before it answers. */
module Replicas {
  import opened CStrings
  import opened Options
  import opened Store
  import opened ListSpec
  import opened TableSpec
  import opened Requests
  import opened Blocks
  import opened Tables
  import opened Skeleton

  class Replica {
    const table: Table
    var successor: Replica?

    constructor (table: Table)
      ensures this.table == table && successor == null
    {
      this.table, successor := table, null;
    }

    /** The table is in order and stands for m. */
    static ghost predicate Stores(t: Table, m: Map)
      reads t, t.Repr
    {
      t.Valid() && Ready(t.cmp, t.hash, t.buckets) && TableMap(t.buckets) == m
    }

    /** The tables of the chain: each stands for m, and they share nothing. */
    static ghost predicate Agreeing(ts: seq<Table>, m: Map)
      reads ts, set i, o | 0 <= i < |ts| && o in ts[i].Repr :: o
    {
      && (forall i :: 0 <= i < |ts| ==> Stores(ts[i], m))
      && (forall i, j :: 0 <= i < j < |ts| ==> ts[i].Repr !! ts[j].Repr)
    }

    /** The servers are linked in order, r first, and have these tables. */
    static ghost predicate Linked(r: Replica, rs: seq<Replica>, ts: seq<Table>)
      reads r, rs
    {
      && |rs| == |ts|
      && r.successor == (if rs == [] then null else rs[0])
      && (forall i :: 0 <= i < |rs| ==> rs[i].table == ts[i])
      && (forall i {:trigger rs[i].successor} :: 0 <= i < |rs| ==>
            rs[i].successor == if i + 1 < |rs| then rs[i + 1] else null)
    }

    /** None of these objects belongs to one of the tables. */
    static ghost predicate Apart(s: set<object>, ts: seq<Table>)
      reads ts
    {
      forall i :: 0 <= i < |ts| ==> s !! ts[i].Repr
    }

    /** A put has its entry, which the code does not test; nor does it when the code is that of the reply. */
    static ghost predicate HasEntry(msg: MessageT)
      reads msg
    {
      msg.opcode == OP_PUT || msg.opcode == OP_PUT + 1 ==> msg.entry.Some?
    }

    /** After invoke: the reply to a put or a delete that succeeded, or a message that came with that code. */
    static predicate Forwards(msg: MessageT)
      reads msg
    {
      msg.opcode == OP_PUT + 1 || msg.opcode == OP_DEL + 1
    }

    static ghost function Value(msg: MessageT): Bytes
      reads msg, if msg.entry.Some? && msg.entry.value.value != null then {msg.entry.value.value} else {}
    {
      if msg.entry.Some? && msg.entry.value.value != null then msg.entry.value.value[..] else []
    }

    /** What the message, after invoke, makes the server ask of its successor. */
    static ghost function Forwarded(msg: MessageT): Request
      requires msg.opcode == OP_PUT + 1 ==> msg.entry.Some?
      reads msg, if msg.entry.Some? && msg.entry.value.value != null then {msg.entry.value.value} else {}
    {
      if msg.opcode == OP_PUT + 1 then Change(Put(msg.entry.value.key, Value(msg)))
      else if msg.opcode == OP_DEL + 1 && msg.key.Some? then Change(Del(msg.key.value))
      else Unknown
    }

    /** What a request makes of the rest of the chain: invoke does not know the codes of replies, but the handler
        passes on a message that comes with one of them. */
    static ghost function PassedOn(msg: MessageT): Request
      requires HasEntry(msg)
      reads msg, if msg.entry.Some? && msg.entry.value.value != null then {msg.entry.value.value} else {}
    {
      if Forwards(msg) then Forwarded(msg) else msg.Asks()
    }

    /** The request does not have the code of a reply, or what is passed on changes nothing. */
    static ghost predicate Harmless(msg: MessageT, m: Map)
      requires HasEntry(msg)
      reads msg, if msg.entry.Some? && msg.entry.value.value != null then {msg.entry.value.value} else {}
    {
      && (msg.opcode == OP_PUT + 1 ==>
            Value(msg) == [] || (msg.entry.value.key in m && m[msg.entry.value.key] == Value(msg)))
      && (msg.opcode == OP_DEL + 1 ==> msg.key == None || msg.key.value !in m)
    }

    static lemma HarmlessIff(msg: MessageT, m: Map)
      requires HasEntry(msg)
      ensures After(m, msg.Asks()) == After(m, PassedOn(msg)) <==> Harmless(msg, m)
    {
    }

    /** All tables, t's and the others, stand for one and the same map. */
    static ghost predicate OneMap(t: Table, ts: seq<Table>)
      reads t, t.Repr, ts, set i, o | 0 <= i < |ts| && o in ts[i].Repr :: o
    {
      exists n :: Stores(t, n) && Agreeing(ts, n)
    }

    static lemma OneMapIff(t: Table, ts: seq<Table>, a: Map, b: Map)
      requires Stores(t, a) && Agreeing(ts, b) && ts != []
      ensures OneMap(t, ts) <==> a == b
    {
      assert Stores(ts[0], b);
      if OneMap(t, ts) {
        var n :| Stores(t, n) && Agreeing(ts, n);
        assert Stores(ts[0], n);
      }
    }

    /** The fields of the message still say what the request req with code op was. */
    static ghost predicate Recalls(msg: MessageT, op: int, req: Request)
      reads msg, if msg.entry.Some? && msg.entry.value.value != null then {msg.entry.value.value} else {}
    {
      if op == OP_PUT then
        && msg.entry.Some?
        && req == Change(Put(msg.entry.value.key,
                             if msg.entry.value.value == null then [] else msg.entry.value.value[..]))
      else if op == OP_DEL then req == if msg.key.Some? then Change(Del(msg.key.value)) else NoKey
      else !req.Change?
    }

    static lemma AskedIsRecalled(msg: MessageT)
      requires HasEntry(msg)
      ensures Recalls(msg, msg.opcode, msg.Asks())
    {
    }

    /** The reply code and the fields that are left tell the server what it has done. */
    static lemma ReplyTells(msg: MessageT, op: int, req: Request, m: Map, reply: Reply)
      requires op != OP_PUT + 1 && op != OP_DEL + 1
      requires Recalls(msg, op, req) && msg.Says(op, reply) && Answers(m, req, After(m, req), reply)
      ensures (msg.opcode == OP_PUT + 1 ==> msg.entry.Some?) && After(m, Forwarded(msg)) == After(m, req)
      ensures Forwards(msg) ==> reply == Done
    {
    }

    /** invoke, on a table that stands for m: the reply is one that the sequential map may give. */
    static method InvokeOn(table: Table, msg: MessageT, ghost m: Map) returns (r: int, ghost reply: Reply)
      requires Stores(table, m) && HasEntry(msg) && Serving(table, msg)
      modifies msg, table.Repr
      ensures Stores(table, After(m, old(msg.Asks()))) && fresh(table.Repr - old(table.Repr)) && msg !in table.Repr
      ensures (msg.opcode == OP_PUT + 1 ==> msg.entry.Some?) && msg.entry == old(msg.entry)
      ensures After(m, Forwarded(msg)) == After(m, old(PassedOn(msg)))
      ensures Answers(m, old(msg.Asks()), After(m, old(msg.Asks())), reply) && msg.Says(old(msg.opcode), reply)
      ensures (Forwards(msg) ==> reply.Done? || reply.Untouched?) && r == if reply.Error? then -1 else 0
    {
      ghost var op, req := msg.opcode, msg.Asks();
      reply := Serve(table.cmp, table.hash, table.buckets, req).reply;
      ServeAnswers(table.cmp, table.hash, table.buckets, req);
      AskedIsRecalled(msg);
      r := Invoke(msg, table);
      if op != OP_PUT + 1 && op != OP_DEL + 1 {
        ReplyTells(msg, op, req, m, reply);
      }
    }

    /** The tables ts of the other servers do not notice. */
    method HandleSelf(msg: MessageT, ghost ts: seq<Table>, ghost m: Map) returns (r: int, ghost reply: Reply)
      requires Stores(table, m) && Agreeing(ts, m) && Apart(table.Repr + {msg}, ts)
      requires HasEntry(msg) && Serving(table, msg)
      modifies msg, table.Repr
      ensures Stores(table, After(m, old(msg.Asks()))) && Agreeing(ts, m) && Apart(table.Repr, ts)
      ensures (msg.opcode == OP_PUT + 1 ==> msg.entry.Some?) && msg.entry == old(msg.entry)
      ensures After(m, Forwarded(msg)) == After(m, old(PassedOn(msg)))
      ensures !Forwards(msg) ==> After(m, old(PassedOn(msg))) == m
      ensures fresh(table.Repr - old(table.Repr)) && forall i :: 0 <= i < |ts| ==> ts[i].Repr == old(ts[i].Repr)
      ensures Answers(m, old(msg.Asks()), After(m, old(msg.Asks())), reply) && msg.Says(old(msg.opcode), reply)
      ensures (Forwards(msg) ==> reply.Done? || reply.Untouched?) && r == if reply.Error? then -1 else 0
    {
      assert forall i :: 0 <= i < |ts| ==> Stores(ts[i], m) && ts[i] in ts[i].Repr;
      r, reply := InvokeOn(table, msg, m);
    }

    static lemma LinkedRest(r: Replica, rs: seq<Replica>, ts: seq<Table>)
      requires Linked(r, rs, ts) && rs != []
      ensures r.successor == rs[0] && rs[0].table == ts[0] && Linked(rs[0], rs[1..], ts[1..])
    {
    }

    static lemma HeadAndRest(ts: seq<Table>, m: Map)
      requires ts != []
      ensures Agreeing(ts, m) <==> Stores(ts[0], m) && Agreeing(ts[1..], m) && Apart(ts[0].Repr, ts[1..])
    {
      assert forall i :: 0 <= i < |ts| - 1 ==> ts[1..][i] == ts[i + 1];
      assert forall i :: 0 < i < |ts| ==> ts[i] == ts[1..][i - 1];
    }

    static lemma RestApart(ts: seq<Table>, keep: set<object>)
      requires ts != []
      ensures Apart(keep, ts) <==> keep !! ts[0].Repr && Apart(keep, ts[1..])
    {
      assert forall i :: 0 <= i < |ts| - 1 ==> ts[1..][i] == ts[i + 1];
      assert forall i :: 0 < i < |ts| ==> ts[i] == ts[1..][i - 1];
    }

    /** The tables own no more than repr, and repr has nothing to do with the servers themselves. */
    static ghost predicate Within(repr: set<object>, r: Replica, rs: seq<Replica>, ts: seq<Table>)
      reads ts
    {
      && (forall i :: 0 <= i < |ts| ==> ts[i].Repr <= repr)
      && r !in repr && forall x :: x in rs ==> x !in repr
    }

    static ghost predicate Foreign(repr: set<object>, msg: MessageT)
      reads msg
    {
      msg !in repr && (msg.entry.Some? && msg.entry.value.value != null ==> msg.entry.value.value !in repr)
    }

    /** One pass of client_handler. The tables agree afterwards exactly if the message is harmless. */
    method Handle(msg: MessageT, ghost rs: seq<Replica>, ghost ts: seq<Table>, ghost m: Map, ghost repr: set<object>,
        ghost keep: set<object>)
      returns (r: int, ghost reply: Reply)
      requires Linked(this, rs, ts) && Stores(table, m) && Agreeing(ts, m)
      requires Apart(table.Repr + keep, ts) && table.Repr !! keep
      requires HasEntry(msg) && Serving(table, msg) && Foreign(repr, msg)
      requires Within(repr, this, rs, ts) && Within(table.Repr, this, rs, []) && table.Repr !! repr
      modifies msg, table.Repr, repr
      ensures Stores(table, After(m, old(msg.Asks()))) && Agreeing(ts, After(m, old(PassedOn(msg))))
      ensures ts != [] ==> (OneMap(table, ts) <==> old(Harmless(msg, m)))
      ensures Answers(m, old(msg.Asks()), After(m, old(msg.Asks())), reply) && msg.Says(old(msg.opcode), reply)
      ensures r == if reply.Error? then -1 else 0
      decreases |rs|, 5
    {
      ghost var m1, m2 := After(m, msg.Asks()), After(m, PassedOn(msg));
      HarmlessIff(msg, m);
      r, reply := Pass(msg, rs, ts, m, repr, keep);
      if ts != [] {
        OneMapIff(table, ts, m1, m2);
      }
    }

    /** First the server's own table, then the rest of the chain. Whatever is kept apart from the tables stays apart. */
    method Pass(msg: MessageT, ghost rs: seq<Replica>, ghost ts: seq<Table>, ghost m: Map, ghost repr: set<object>,
        ghost keep: set<object>)
      returns (r: int, ghost reply: Reply)
      requires Linked(this, rs, ts) && Stores(table, m) && Agreeing(ts, m)
      requires Apart(table.Repr + keep, ts) && table.Repr !! keep
      requires HasEntry(msg) && Serving(table, msg) && Foreign(repr, msg)
      requires Within(repr, this, rs, ts) && Within(table.Repr, this, rs, []) && table.Repr !! repr
      modifies msg, table.Repr, repr
      ensures Stores(table, After(m, old(msg.Asks()))) && Agreeing(ts, After(m, old(PassedOn(msg))))
      ensures Apart(table.Repr + keep, ts) && table.Repr !! keep
      ensures Answers(m, old(msg.Asks()), After(m, old(msg.Asks())), reply) && msg.Says(old(msg.opcode), reply)
      ensures r == if reply.Error? then -1 else 0
      decreases |rs|, 4
    {
      ghost var op, n, m1 := msg.opcode, After(m, msg.Asks()), After(m, PassedOn(msg));
      r, reply := HandleSelf(msg, ts, m);
      PassOn(msg, rs, ts, m, n, m1, repr, keep, op, reply);
    }

    /** The handler's test for a successor and for the reply to a put or a delete. */
    method PassOn(msg: MessageT, ghost rs: seq<Replica>, ghost ts: seq<Table>, ghost m: Map, ghost n: Map,
        ghost m1: Map, ghost repr: set<object>, ghost keep: set<object>, ghost op: int, ghost reply: Reply)
      requires Linked(this, rs, ts) && Stores(table, n) && Agreeing(ts, m)
      requires Apart(table.Repr + keep, ts) && table.Repr !! keep
      requires (msg.opcode == OP_PUT + 1 ==> msg.entry.Some?) && m1 == After(m, Forwarded(msg))
      requires Foreign(repr, msg) && Within(repr, this, rs, ts) && table.Repr !! repr
      requires msg.Says(op, reply) && (Forwards(msg) ==> reply.Done? || reply.Untouched?)
      modifies repr
      ensures Stores(table, n) && Agreeing(ts, m1) && Apart(table.Repr + keep, ts) && msg.Says(op, reply)
      ensures table.Repr == old(table.Repr)
      decreases |rs|, 3
    {
      if successor != null && Forwards(msg) {
        Forward(msg, rs, ts, m, m1, repr, table.Repr + keep);
      }
    }

    method Forward(msg: MessageT, ghost rs: seq<Replica>, ghost ts: seq<Table>, ghost m: Map, ghost m1: Map,
        ghost repr: set<object>, ghost keep: set<object>)
      requires successor != null && Linked(this, rs, ts) && Agreeing(ts, m) && Apart(keep, ts)
      requires Forwards(msg) && (msg.opcode == OP_PUT + 1 ==> msg.entry.Some?) && m1 == After(m, Forwarded(msg))
      requires Foreign(repr, msg) && Within(repr, this, rs, ts)
      modifies repr
      ensures Agreeing(ts, m1) && Apart(keep, ts)
      decreases |rs|, 2
    {
      LinkedRest(this, rs, ts);
      if msg.opcode == OP_PUT + 1 {
        var e := msg.entry.value;
        var b := BlockCreate(if e.value == null then 0 else e.value.Length, e.value);
        var entry := EntryCreate(e.key, b);
        assert entry != null ==> entry.value.Contents() == e.value[..];
        assert m1 == if entry == null then m else m[entry.key := entry.value.Contents()];
        var _ := RtablePut(successor, entry, rs, ts, m, repr, keep);
      } else {
        assert m1 == if msg.key.Some? then m - {msg.key.value} else m;
        var _ := RtableDel(successor, msg.key, rs, ts, m, repr, keep);
      }
    }

    /** A request to the first server of a chain. */
    static method Send(rtable: Replica, msg: MessageT, ghost rs: seq<Replica>, ghost ts: seq<Table>, ghost m: Map,
        ghost repr: set<object>, ghost keep: set<object>)
      requires rs != [] && rs[0] == rtable && |ts| == |rs| && rtable.table == ts[0] && Linked(rtable, rs[1..], ts[1..])
      requires Agreeing(ts, m) && Within(repr, rtable, rs, ts) && Apart(keep, ts)
      requires HasEntry(msg) && !Forwards(msg) && Foreign(repr, msg) && msg.Asks().Change?
      modifies msg, repr
      ensures Agreeing(ts, After(m, old(msg.Asks()))) && Apart(keep, ts)
      ensures msg.opcode == if Perform(m, old(msg.Asks()).write).ok then old(msg.opcode) + 1 else OP_ERROR
      decreases |rs|, 0
    {
      ghost var m1 := After(m, msg.Asks());
      HeadAndRest(ts, m);
      RestApart(ts, keep);
      var _, reply := rtable.Pass(msg, rs[1..], ts[1..], m, repr - ts[0].Repr, keep);
      HeadAndRest(ts, m1);
      RestApart(ts, keep);
    }

    /** The message as the successor receives it: packing and unpacking copy the value. */
    static method PutMessage(entry: Entry) returns (msg: MessageT)
      requires entry.live && entry.value.live && Copyable(entry.value) && entry.value.WellFormed()
      ensures fresh(msg) && msg.opcode == OP_PUT && msg.entry.Some?
      ensures msg.entry.value.value != null && fresh(msg.entry.value.value)
      ensures msg.Asks() == Change(Put(entry.key, entry.value.Contents()))
    {
      var wire := new Byte[entry.value.datasize](i requires 0 <= i < entry.value.datasize reads entry.value.data =>
        entry.value.data[i]);
      assert wire[..] == entry.value.Contents();
      msg := new MessageT(OP_PUT, CT_ENTRY, Some(EntryT(entry.key, wire)), None);
    }

    static method DelMessage(key: Option<Key>) returns (msg: MessageT)
      requires key.Some?
      ensures fresh(msg) && msg.opcode == OP_DEL && msg.entry.None? && msg.key == key
      ensures msg.Asks() == Change(Del(key.value))
    {
      msg := new MessageT(OP_DEL, CT_KEY, None, key);
    }

    /** rtable_put: the reply is not looked at, and need not be: the successor has done the put. */
    static method RtablePut(rtable: Replica, entry: Entry?, ghost rs: seq<Replica>, ghost ts: seq<Table>, ghost m: Map,
        ghost repr: set<object>, ghost keep: set<object>)
      returns (r: int)
      requires rs != [] && rs[0] == rtable && |ts| == |rs| && rtable.table == ts[0] && Linked(rtable, rs[1..], ts[1..])
      requires Agreeing(ts, m) && Within(repr, rtable, rs, ts) && Apart(keep, ts)
      requires entry != null ==> entry.live && entry.value.live && Copyable(entry.value) && entry.value.WellFormed()
      modifies repr
      ensures r == (if entry == null then -1 else 0) && Apart(keep, ts)
      ensures Agreeing(ts, if entry == null then m else m[entry.key := old(entry.value.Contents())])
      decreases |rs|, 1
    {
      if entry == null {
        return -1;
      }
      var msg := PutMessage(entry);
      Send(rtable, msg, rs, ts, m, repr, keep);
      assert msg.opcode == OP_PUT + 1;
      r := 0;
    }

    /** rtable_del: OP_ERROR comes back exactly if the key is not there. */
    static method RtableDel(rtable: Replica, key: Option<Key>, ghost rs: seq<Replica>, ghost ts: seq<Table>,
        ghost m: Map, ghost repr: set<object>, ghost keep: set<object>)
      returns (r: int)
      requires rs != [] && rs[0] == rtable && |ts| == |rs| && rtable.table == ts[0] && Linked(rtable, rs[1..], ts[1..])
      requires Agreeing(ts, m) && Within(repr, rtable, rs, ts) && Apart(keep, ts)
      modifies repr
      ensures r == (if key.Some? && key.value in m then 0 else -1) && Apart(keep, ts)
      ensures Agreeing(ts, if key.Some? then m - {key.value} else m)
      decreases |rs|, 1
    {
      if key == None {
        return -1;
      }
      var msg := DelMessage(key);
      Send(rtable, msg, rs, ts, m, repr, keep);
      assert key.value !in m ==> m - {key.value} == m;
      r := if msg.opcode == OP_ERROR then -1 else 0;
    }
  }

  /** In particular a put of a new key that comes with the code of the reply leaves the first table without the key and
      the others with it. */
  lemma ReplyCodeDisagrees(msg: MessageT, t: Table, ts: seq<Table>, m: Map)
    requires msg.opcode == OP_PUT + 1 && msg.entry.Some? && Replica.Value(msg) != [] && msg.entry.value.key !in m
    requires Replica.Stores(t, After(m, msg.Asks())) && Replica.Agreeing(ts, After(m, Replica.PassedOn(msg)))
    requires ts != []
    ensures !Replica.OneMap(t, ts)
    ensures msg.entry.value.key !in TableMap(t.buckets) && msg.entry.value.key in TableMap(ts[0].buckets)
  {
    Replica.HarmlessIff(msg, m);
    Replica.OneMapIff(t, ts, After(m, msg.Asks()), After(m, Replica.PassedOn(msg)));
    assert Replica.Stores(ts[0], After(m, Replica.PassedOn(msg)));
  }
}
