/** The exact conditions for crashes and forwards in terms of the tail's table, and runs in which users notice. */
module ChainNoticed {
  import opened CStrings
  import opened Options
  import opened Store
  import opened Chain
  import opened ChainHistory
  import opened ChainInvariant
  import opened ChainLinks
  import opened ChainSafety
  import opened ChainExact

  // ---------- In terms of the tail ----------

  /** The head has carried out the client's write with success. */
  ghost predicate HeadHas(s: State, m: Message) {
    && s.chain != [] && s.client.Pending? && m == Message(s.client.id, s.client.op)
    && (s.chain[0].phase.Invoked? || s.chain[0].phase.Waiting? || (s.chain[0].phase.Replying? && s.chain[0].phase.ok))
  }

  lemma AppendedEffect(w: seq<Message>, m: Message)
    ensures m in Effects(w + [m]) || Same(Result(w + [m]), m.op)
  {
    EffectsAppend(w, m);
    ResultAppend(w, m);
  }

  /** The last write in order changed the store, or would change nothing now. */
  lemma LastEffect(order: seq<Message>, m: Message)
    requires Increasing(order) && m in order && forall p :: 0 <= p < |order| ==> order[p].id <= m.id
    ensures m in Effects(order) || Same(Result(order), m.op)
  {
    LastInOrder(order, m);
    AppendedEffect(order[..|order| - 1], m);
    assert order[..|order| - 1] + [m] == order;
  }

  /** The client's write has taken effect exactly if the tail has been changed by it or would not be. */
  lemma EffectAtTail(s: State, m: Message)
    requires Inv(s) && HeadHas(s, m)
    ensures m in s.order <==> m in Tail(s).log || Same(Tail(s).table, m.op)
  {
    EffectsMembers(s.order);
    TailHasNow(s);
    if Settled(s) {
      assert ClientSettled(s);
      assert forall p :: 0 <= p < |s.order| ==> s.order[p].id <= m.id;
      LastEffect(s.order, m);
    } else {
      var b, sent, x :| InFlight(s, b, sent, x);
      NotInOrder(s, b, sent, x);
    }
  }

  /** A server strictly inside the chain stops while it handles the write that the client waits for: users can notice
      unless the tail has the write or would not be changed by it. */
  lemma CrashNoticedIff(s: State, c: nat, m: Message)
    requires Inv(s) && Links(s) && HeadHas(s, m) && 0 < c < |s.chain| - 1
    requires s.chain[c].phase == Recv(m) || s.chain[c].phase == Invoked(m) ||
             (s.chain[c].phase.Waiting? && s.chain[c].phase.msg == m)
    ensures AlwaysLinearizable(DoCrash(s, c)) <==> m in Tail(s).log || Same(Tail(s).table, m.op)
  {
    CrashSafeIsExact(s, c);
    EffectAtTail(s, m);
  }

  /** A server that is not the last one forwards that write without being linked to the next server: users can notice
      unless the tail has the write or would not be changed by it. */
  lemma ForwardNoticedIff(s: State, i: nat, m: Message)
    requires Inv(s) && Links(s) && HeadHas(s, m) && CanForward(s, i) && i < |s.chain| - 1
    requires s.chain[i].phase == Invoked(m) && s.chain[i].succ != Some(s.chain[i + 1].name)
    ensures AlwaysLinearizable(DoForward(s, i)) <==> m in Tail(s).log || Same(Tail(s).table, m.op)
  {
    ForwardSafeIsExact(s, i);
    EffectAtTail(s, m);
  }

  // ---------- Runs that get there ----------

  /** Three servers; the head has applied a new write and sent it on. */
  ghost predicate OnItsWay(s: State, op: Write) {
    && CanCrash(s, 1) && |s.chain| == 3 && HeadHas(s, Message(0, op)) && s.chain[1].phase == Recv(Message(0, op))
    && Tail(s).log == [] && Tail(s).table == map[]
  }

  lemma SentToSecond(s: State, op: Write)
    requires |s.chain| == 3 && s.chain[0].name == 0 && s.chain[0].succ == Some(1)
    requires s.chain[0].phase == Invoked(Message(0, op)) && s.client.Pending? && s.client.id == 0 && s.client.op == op
    requires s.chain[1] == Server(1, map[], [], Some(2), Idle) && s.chain[2] == Server(2, map[], [], None, Idle)
    ensures exists t :: Leads(s, t) && OnItsWay(t, op)
  {
    assert s.chain[1].name == 1 && IndexOf(s.chain, 1) == 1;
    var t := DoForward(s, 0);
    StepLeads(s, Forward(0), t);
  }

  lemma ReachesMiddle(op: Write)
    requires op.Put? && op.value != []
    ensures exists s :: Reachable(s) && OnItsWay(s, op)
  {
    var s0 := Init(3);
    assert s0.chain == [Server(0, map[], [], Some(1), Idle), Server(1, map[], [], Some(2), Idle),
                        Server(2, map[], [], None, Idle)];
    var s1 := DoSend(s0, op);
    assert op.key in Perform(map[], op).store;
    var s2 := DoInvoke(s1, 0);
    SentToSecond(s2, op);
    var s :| Leads(s2, s) && OnItsWay(s, op);
    ThenLeads(s1, Invoke(0), s);
    ThenLeads(s0, ClientSend(op), s);
  }

  /** The middle one of three servers stops too early: the client's acknowledged put may be lost. */
  lemma CrashNoticed(k: Key, v: Bytes)
    requires v != []
    ensures exists s :: Reachable(s) && CanCrash(s, 1) && !AlwaysLinearizable(DoCrash(s, 1))
  {
    ReachesMiddle(Put(k, v));
    var s :| Reachable(s) && OnItsWay(s, Put(k, v));
    ReachableInv(s);
    ReachableLinks(s);
    assert k in Perform(map[], Put(k, v)).store;
    CrashNoticedIff(s, 1, Message(0, Put(k, v)));
  }

  /** Two servers; the head has applied a new write and has no link yet. */
  ghost predicate NotLinked(s: State, op: Write) {
    && CanForward(s, 0) && |s.chain| == 2 && s.chain[0].succ == None && HeadHas(s, Message(0, op))
    && s.chain[0].phase == Invoked(Message(0, op)) && Tail(s).log == [] && Tail(s).table == map[]
  }

  lemma ReachesUnlinked(op: Write)
    requires op.Put? && op.value != []
    ensures exists s :: Reachable(s) && NotLinked(s, op)
  {
    var s0 := Init(1);
    assert s0.chain == [Server(0, map[], [], None, Idle)];
    var s1 := DoJoin(s0);
    var s2 := DoSnapshot(s1);
    var s3 := DoSend(s2, op);
    assert op.key in Perform(map[], op).store;
    var s := DoInvoke(s3, 0);
    StepLeads(s3, Invoke(0), s);
    ThenLeads(s2, ClientSend(op), s);
    ThenLeads(s1, Snapshot, s);
    ThenLeads(s0, Join, s);
    assert Reachable(s) && NotLinked(s, op);
  }

  /** A server joins, and the head answers a put before its watcher has run: the put may be lost. */
  lemma ForwardNoticed(k: Key, v: Bytes)
    requires v != []
    ensures exists s :: Reachable(s) && CanForward(s, 0) && !AlwaysLinearizable(DoForward(s, 0))
  {
    ReachesUnlinked(Put(k, v));
    var s :| Reachable(s) && NotLinked(s, Put(k, v));
    ReachableInv(s);
    ReachableLinks(s);
    assert k in Perform(map[], Put(k, v)).store;
    ForwardNoticedIff(s, 0, Message(0, Put(k, v)));
  }
}
