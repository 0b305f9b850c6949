/** The timing assumption about new writes is exact: while somebody still holds an old write that would undo the new
    one, a joiner can replay it over a snapshot that already has the new one, and readers can notice. */
module ChainDraining {
  import opened CStrings
  import opened Options
  import opened Store
  import opened Chain
  import opened ChainHistory
  import opened ChainInvariant
  import opened ChainRuns
  import opened ChainSafety
  import opened ChainReaders

  // ---------- Making the chain shorter ----------

  /** Server c may stop at any time without a trace. */
  ghost predicate Droppable(s: State, c: nat) {
    && 0 < c < |s.chain| && CrashSafe(s, c)
    && |s.chain[c].log| == |s.chain[0].log|
  }

  ghost predicate AllDroppable(s: State) {
    forall k :: 0 < k < |s.chain| ==> Droppable(s, k)
  }

  lemma DropOne(s: State, c: nat) returns (t: State)
    requires AllDroppable(s) && 0 < c < |s.chain|
    ensures Leads(s, t) && t == s.(chain := Without(s.chain, c), clock := s.clock + 1) && AllDroppable(t)
  {
    var last := |s.chain| - 1;
    assert Droppable(s, c) && (c == last ==> last == 1 || Droppable(s, last - 1));
    t := DoCrash(s, c);
    StepLeads(s, Crash(c), t);
    forall k | 0 < k < |t.chain| ensures Droppable(t, k) {
      assert Droppable(s, if k < c then k else k + 1);
    }
  }

  /** The head and server i. */
  function Kept(c: seq<Server>, i: nat): seq<Server>
    requires i < |c|
  {
    if i == 0 then [c[0]] else [c[0], c[i]]
  }

  lemma KeptWithout(c: seq<Server>, i: nat, k: nat)
    requires i < |c| && 0 < k < |c| && k != i
    ensures Kept(Without(c, k), if k < i then i - 1 else i) == Kept(c, i)
  {
  }

  /** All other servers stop. */
  lemma {:induction false} KeepServer(s: State, i: nat) returns (t: State)
    requires i < |s.chain| && AllDroppable(s)
    ensures Leads(s, t) && t == s.(chain := Kept(s.chain, i), clock := t.clock) && t.clock >= s.clock
    decreases |s.chain|
  {
    var last := |s.chain| - 1;
    if last == 0 || (last == 1 && i == 1) {
      t := s;
      Stays(s);
    } else {
      var c := if i < last then last else 1;
      var u := DropOne(s, c);
      KeptWithout(s.chain, i, c);
      t := KeepServer(u, if c < i then i - 1 else i);
      LeadsOn(s, u, t);
    }
  }

  lemma {:induction false} KeepJoiner(s: State, j: nat) returns (t: State)
    requires j < |s.joiners|
    ensures Leads(s, t) && t.clock >= s.clock
    ensures t == s.(joiners := [s.joiners[j]], clock := t.clock)
    decreases |s.joiners|
  {
    if |s.joiners| == 1 {
      t := s;
      Stays(s);
    } else {
      var c := if j == 0 then 1 else 0;
      t := KeepJoiner(DoJoinerCrash(s, c), if c < j then j - 1 else j);
      ThenLeads(s, JoinerCrash(c), t);
    }
  }

  // ---------- A write that waits in a joiner's socket ----------

  /** One server, about to apply the write n, and one joiner, which has m in its socket. */
  ghost predicate Replays(s: State, n: Message, m: Message) {
    && |s.chain| == 1 && s.chain[0].phase == Recv(n)
    && |s.joiners| == 1 && s.joiners[0].inbox == Some(m)
  }

  /** The server applies n, and the joiner copies its table. */
  lemma JoinerCopies(u: State, n: Message, m: Message) returns (t: State)
    requires Replays(u, n, m)
    ensures Leads(u, t) && t.done == u.done && t.sent == u.sent && t.clock >= u.clock
    ensures |t.chain| == 2 && t.chain[1].phase == Recv(m)
    ensures t.chain[1].table == Perform(u.chain[0].table, n.op).store
  {
    var v := DoInvoke(u, 0);
    t := DoSnapshot(v);
    StepLeads(v, Snapshot, t);
    ThenLeads(u, Invoke(0), t);
  }

  /** Somebody reads, the newcomer applies m, and somebody reads. */
  lemma ReadsAround(u: State, m: Message) returns (t: State, d: Done, e: Done)
    requires |u.chain| == 2 && u.chain[1].phase == Recv(m)
    ensures Leads(u, t) && t.done == u.done + [d, e] && t.sent == u.sent
    ensures d == ReadDone(Table, Whole(u.chain[1].table), d.begin, d.end)
    ensures e == ReadDone(Table, Whole(Perform(u.chain[1].table, m.op).store), e.begin, e.end)
    ensures u.clock <= d.begin <= d.end < e.begin
  {
    var v, begin := SomebodyReads(u, Table);
    var v1 := DoInvoke(v, 1);
    var more;
    t, more := SomebodyReads(v1, Table);
    d := ReadDone(Table, Ask(Tail(u).table, Table), begin, begin + 1);
    e := ReadDone(Table, Ask(Tail(v1).table, Table), more, more + 1);
    ThenLeads(v, Invoke(1), t);
    LeadsOn(u, v, t);
  }

  lemma ReplayIsSeen(u: State, n: Message, m: Message) returns (t: State, d: Done, e: Done)
    requires Replays(u, n, m)
    ensures Leads(u, t) && t.done == u.done + [d, e] && t.sent == u.sent
    ensures var store := Perform(u.chain[0].table, n.op).store;
            && d == ReadDone(Table, Whole(store), d.begin, d.end)
            && e == ReadDone(Table, Whole(Perform(store, m.op).store), e.begin, e.end)
    ensures u.clock <= d.begin <= d.end < e.begin
  {
    var v := JoinerCopies(u, n, m);
    t, d, e := ReadsAround(v, m);
    LeadsOn(u, v, t);
  }

  /** If at most one write may come after v, two reads that both do not see the store of v see the same store. */
  lemma TwoNewStores(v: seq<Message>, w: seq<Message>, d: Done, e: Done, a: nat, b: nat)
    requires v <= w && |w| <= |v| + 1 && |v| <= a <= b <= |w|
    requires d.ReadDone? && e.ReadDone? && d.q == e.q
    requires d.answer != Ask(Result(v), d.q) && d.answer != e.answer
    ensures !(Fits(w, d, a) && Fits(w, e, b))
  {
    assert w[..|v|] == v;
  }

  lemma ReplayUnexplained(s: State, sent: seq<Call>, x: nat, done: seq<Done>, w: seq<Message>, at: seq<nat>)
    requires OneOpen(s, sent, x) && s.done <= done && |done| == |s.done| + 2
    requires var d, e := done[|s.done|], done[|s.done| + 1];
             && d.ReadDone? && e.ReadDone? && d.q == e.q && d.answer != e.answer && d.answer != Ask(Now(s), d.q)
             && d.begin <= d.end < e.begin
             && forall i :: 0 <= i < |s.done| && s.done[i].WriteDone? ==> s.done[i].end < d.begin
    ensures !Explains(sent, done, w, at)
  {
    var r := |s.done|;
    if Explains(sent, done, w, at) {
      OpenCall(s, sent, x, done, w, at);
      TwoPlaces(s, sent, x, done, r, w, at);
      TwoNewStores(s.order, w, done[r], done[r + 1], at[r], at[r + 1]);
    }
  }

  /** The second reader sees that m undid n. */
  lemma ReplayBreaks(s: State, u: State, n: Message, m: Message)
    requires OneOpen(s, u.sent, n.id) && u.done == s.done && Replays(u, n, m)
    requires forall i :: 0 <= i < |s.done| ==> s.done[i].end < u.clock
    requires u.chain[0].table == Now(s) && !Same(Now(s), n.op) && !Same(Perform(Now(s), n.op).store, m.op)
    ensures !AlwaysLinearizable(u)
  {
    var t, d, e := ReplayIsSeen(u, n, m);
    forall w, at ensures !Explains(t.sent, t.done, w, at) {
      ReplayUnexplained(s, u.sent, n.id, t.done, w, at);
    }
    BadRun(u, t);
  }

  // ---------- From any holder to the joiner's socket ----------

  /** The head is about to apply n, and the last server still holds m, which it will forward. */
  ghost predicate Holds(s: State, n: Message, m: Message) {
    && |s.chain| == 2 && s.chain[0].phase == Recv(n)
    && ((s.chain[1].phase == Recv(m) && m.op.Put? && m.op.value != []) || s.chain[1].phase == Invoked(m))
    && Same(s.chain[1].table, m.op) && s.chain[0].log == s.chain[1].log
    && s.chain[0].name < s.nextName && s.chain[1].name < s.nextName
  }

  lemma HolderInvokes(s: State, n: Message, m: Message) returns (t: State)
    requires Holds(s, n, m) && s.joiners == []
    ensures Leads(s, t) && t.clock >= s.clock
    ensures t == s.(chain := AtPhase(s.chain, 1, Invoked(m)), clock := t.clock)
  {
    if s.chain[1].phase.Invoked? {
      t := s;
      Stays(s);
    } else {
      t := DoInvoke(s, 1);
      StepLeads(s, Invoke(1), t);
    }
  }

  /** A newcomer's znode appears, the holder's watcher connects to it, and the holder forwards m and stops. */
  lemma HolderForwards(s: State, n: Message, m: Message, j: Joiner) returns (t: State)
    requires Holds(s, n, m) && s.joiners == [] && s.chain[1].phase == Invoked(m)
    requires j == Joiner(s.nextName, None, Some(m))
    ensures Leads(s, t)
    ensures t == s.(chain := [s.chain[0]], joiners := [j], nextName := s.nextName + 1, clock := s.clock + 4)
  {
    var s1 := DoJoin(s);
    var s2 := DoWatch(s1, 1, true);
    assert IndexOf(s2.chain, s.nextName) == -1 && JoinerIndexOf(s2.joiners, s.nextName) == 0;
    var s3 := DoForward(s2, 1);
    assert s3.joiners == [j];
    t := DoCrash(s3, 1);
    StepLeads(s3, Crash(1), t);
    ThenLeads(s2, Forward(1), t);
    ThenLeads(s1, Watch(1, true), t);
    ThenLeads(s, Join, t);
  }

  /** After the send: every server but the head can stop without a trace, and n is a new write at the head. */
  ghost predicate Sent(s: State, u: State, n: Message) {
    && u.chain != [] && OneOpen(s, u.sent, n.id) && u.done == s.done
    && (forall i :: 0 <= i < |s.done| ==> s.done[i].end < u.clock)
    && u.chain[0].phase == Recv(n) && u.chain[0].table == Now(s) && !Same(Now(s), n.op)
    && (forall k :: 0 < k < |u.chain| ==> Droppable(u, k) && u.chain[k].log == u.chain[0].log)
    && (forall k :: 0 <= k < |u.chain| ==> u.chain[k].name < u.nextName)
  }

  lemma JoinerHolds(s: State, u: State, n: Message, m: Message, j: nat)
    requires Sent(s, u, n) && j < |u.joiners| && u.joiners[j].inbox == Some(m)
    requires !Same(Perform(Now(s), n.op).store, m.op)
    ensures !AlwaysLinearizable(u)
  {
    var v := KeepServer(u, 0);
    var t := KeepJoiner(v, j);
    ReplayBreaks(s, t, n, m);
    BadAfter(v, t);
    BadAfter(u, v);
  }

  lemma ServerHolds(s: State, u: State, n: Message, m: Message, i: nat)
    requires Sent(s, u, n) && 0 < i < |u.chain| && Same(u.chain[i].table, m.op)
    requires (u.chain[i].phase == Recv(m) && m.op.Put?) || u.chain[i].phase == Invoked(m)
    requires !Same(Perform(Now(s), n.op).store, m.op)
    ensures !AlwaysLinearizable(u)
  {
    var v1 := KeepServer(u, i);
    var v2 := ClearJoiners(v1);
    var v3 := HolderInvokes(v2, n, m);
    var v4 := HolderForwards(v3, n, m, Joiner(v3.nextName, None, Some(m)));
    ReplayBreaks(s, v4, n, m);
    BadAfter(v3, v4);
    BadAfter(v2, v3);
    BadAfter(v1, v2);
    BadAfter(u, v1);
  }

  // ---------- The assumption is exact ----------

  lemma NothingPending(s: State)
    requires Inv(s) && CanSend(s) && s.abandoned == {}
    ensures Settled(s) && AllNoise(s)
  {
  }

  lemma NothingOpen(s: State, c: Call)
    requires Inv(s) && CanSend(s) && s.abandoned == {} && c.begin >= s.clock
    ensures OneOpen(s, s.sent + [c], |s.sent|) && forall i :: 0 <= i < |s.done| ==> s.done[i].end < s.clock
  {
    assert Calls(s) && Genuine(s.sent, s.order);
    AnsweredBefore(s, c);
  }

  lemma AnsweredBefore(s: State, c: Call)
    requires Clock(s) && c.begin >= s.clock
    ensures forall i, k :: 0 <= i < |s.done| && !s.done[i].ReadDone? && s.done[i].id < k < |s.sent + [c]| ==>
      s.done[i].end < (s.sent + [c])[k].begin
  {
  }

  lemma SendIsSent(s: State, op: Write)
    requires Inv(s) && CanSend(s) && s.abandoned == {} && !Same(Now(s), op)
    ensures Sent(s, DoSend(s, op), Message(|s.sent|, op))
  {
    NothingPending(s);
    NothingOpen(s, Call(op, s.clock));
    var u := DoSend(s, op);
    forall k | 0 < k < |u.chain| ensures Droppable(u, k) && u.chain[k].log == u.chain[0].log {
      assert Noise(s.chain[k].phase, s.order) && u.chain[k] == s.chain[k];
    }
  }

  lemma UnsafeServer(s: State, op: Write, i: nat)
    requires Inv(s) && CanSend(s) && s.abandoned == {} && 0 < i < |s.chain| && Perform(Now(s), op).ok
    requires !Spares(s.chain[i].phase, Perform(Now(s), op).store)
    ensures !AlwaysLinearizable(DoSend(s, op))
  {
    NothingPending(s);
    assert Noise(s.chain[i].phase, s.order) && DoSend(s, op).chain[i] == s.chain[i];
    SendIsSent(s, op);
    ServerHolds(s, DoSend(s, op), Message(|s.sent|, op), s.chain[i].phase.msg, i);
  }

  lemma UnsafeJoiner(s: State, op: Write, j: nat)
    requires Inv(s) && CanSend(s) && s.abandoned == {} && j < |s.joiners| && Perform(Now(s), op).ok
    requires !InboxSpares(s.joiners[j], Perform(Now(s), op).store)
    ensures !AlwaysLinearizable(DoSend(s, op))
  {
    NothingPending(s);
    assert InboxStale(s.joiners[j], s.order);
    SendIsSent(s, op);
    JoinerHolds(s, DoSend(s, op), Message(|s.sent|, op), s.joiners[j].inbox.value, j);
  }

  lemma UnsafeSendBreaks(s: State, op: Write)
    requires Inv(s) && CanSend(s) && s.abandoned == {} && !SendSafe(s, op)
    ensures !AlwaysLinearizable(DoSend(s, op))
  {
    TailHasNow(s);
    if i :| 0 < i < |s.chain| && !Spares(s.chain[i].phase, Perform(Now(s), op).store) {
      UnsafeServer(s, op, i);
    } else {
      var j :| 0 <= j < |s.joiners| && !InboxSpares(s.joiners[j], Perform(Now(s), op).store);
      UnsafeJoiner(s, op, j);
    }
  }

  /** If no call was abandoned, a new write is harmless in every continuation exactly when whatever old write is still
      held somewhere, and may yet be applied by a joiner, would not change the store that the new one makes. */
  lemma SendSafeIsExact(s: State, op: Write)
    requires Inv(s) && CanSend(s) && s.abandoned == {}
    ensures SendSafe(s, op) <==> AlwaysLinearizable(DoSend(s, op))
  {
    if SendSafe(s, op) {
      SendKeeps(s, op);
      InvMeansAlways(DoSend(s, op));
    } else {
      UnsafeSendBreaks(s, op);
    }
  }

  // ---------- A run that gets there ----------

  /** The head has applied the write and waits for the tail, which is linked to a joiner. */
  ghost predicate Halfway(s: State, op: Write) {
    var m := Message(0, op);
    && s.chain == [Server(0, Perform(map[], op).store, [m], Some(1), Waiting(m, 1)),
                   Server(1, map[], [], Some(2), Recv(m))]
    && s.joiners == [Joiner(2, None, None)] && s.client.Pending? && s.order == [] && s.abandoned == {}
  }

  lemma Linked(op: Write)
    requires op.Put? && op.value != []
    ensures exists s :: Leads(Init(2), s) && Halfway(s, op)
  {
    var s0 := Init(2);
    assert s0.chain == [Server(0, map[], [], Some(1), Idle), Server(1, map[], [], None, Idle)];
    var s1 := DoJoin(s0);
    var s2 := DoWatch(s1, 1, true);
    assert s2.chain == [Server(0, map[], [], Some(1), Idle), Server(1, map[], [], Some(2), Idle)];
    Forwarding(s2, op);
    var s :| Leads(s2, s) && Halfway(s, op);
    ThenLeads(s1, Watch(1, true), s);
    ThenLeads(s0, Join, s);
  }

  lemma Forwarding(s: State, op: Write)
    requires op.Put? && op.value != [] && s.client.Ready? && s.sent == [] && s.order == [] && s.abandoned == {}
    requires s.chain == [Server(0, map[], [], Some(1), Idle), Server(1, map[], [], Some(2), Idle)]
    requires s.joiners == [Joiner(2, None, None)]
    ensures exists t :: Leads(s, t) && Halfway(t, op)
  {
    var m := Message(0, op);
    var s3 := DoSend(s, op);
    assert op.key in Perform(map[], op).store;
    var s4 := DoInvoke(s3, 0);
    assert s4.chain[0] == Server(0, Perform(map[], op).store, [] + [m], Some(1), Invoked(m));
    assert [] + [m] == [m];
    ForwardedOn(s4, op);
    var t :| Leads(s4, t) && Halfway(t, op);
    ThenLeads(s3, Invoke(0), t);
    ThenLeads(s, ClientSend(op), t);
  }

  lemma ForwardedOn(s: State, op: Write)
    requires var m := Message(0, op);
             s.chain == [Server(0, Perform(map[], op).store, [m], Some(1), Invoked(m)),
                         Server(1, map[], [], Some(2), Idle)]
    requires s.joiners == [Joiner(2, None, None)] && s.client.Pending? && s.order == [] && s.abandoned == {}
    ensures exists t :: Leads(s, t) && Halfway(t, op)
  {
    assert s.chain[1].name == 1 && IndexOf(s.chain, 1) == 1;
    var t := DoForward(s, 0);
    StepLeads(s, Forward(0), t);
  }

  /** An idle server, and a joiner that has the write in its socket. */
  ghost predicate Orphaned(s: State, op: Write) {
    && |s.chain| == 1 && CanSend(s) && s.abandoned == {} && Tail(s).table == Perform(map[], op).store
    && |s.joiners| == 1 && s.joiners[0].inbox.Some? && s.joiners[0].inbox.value.op == op
  }

  /** The tail has forwarded the write to the joiner, which has it in its socket. */
  ghost predicate InSocket(s: State, op: Write) {
    var m := Message(0, op);
    && |s.chain| == 2 && s.client.Pending? && s.order == [m] && s.abandoned == {}
    && s.chain[0] == Server(0, Perform(map[], op).store, [m], Some(1), Waiting(m, 1))
    && s.chain[1].name == 1 && s.chain[1].log == [m] && s.joiners == [Joiner(2, None, Some(m))]
  }

  lemma TailForwards(s: State, op: Write)
    requires op.Put? && op.value != [] && Halfway(s, op)
    ensures exists t :: Leads(s, t) && InSocket(t, op)
  {
    assert op.key in Perform(map[], op).store;
    var u := DoInvoke(s, 1);
    assert u.chain[1].succ == Some(2) && IndexOf(u.chain, 2) == -1 && JoinerIndexOf(u.joiners, 2) == 0;
    var t := DoForward(u, 1);
    StepLeads(u, Forward(1), t);
    ThenLeads(s, Invoke(1), t);
  }

  lemma TailStops(s: State, op: Write)
    requires InSocket(s, op)
    ensures exists t :: Leads(s, t) && Orphaned(t, op)
  {
    var s1 := DoCrash(s, 1);
    assert IndexOf(s1.chain, 1) == -1 && JoinerIndexOf(s1.joiners, 1) == -1;
    var s2 := DoWaitFail(s1, 0);
    var t := DoReply(s2, 0);
    StepLeads(s2, Reply(0), t);
    ThenLeads(s1, WaitFail(0), t);
    ThenLeads(s, Crash(1), t);
  }

  /** A timely run gets there: the old tail forwards to the joiner and stops before it has answered. */
  lemma OrphanReachable(op: Write)
    requires op.Put? && op.value != []
    ensures exists s :: Reachable(s) && Orphaned(s, op)
  {
    Linked(op);
    var h :| Leads(Init(2), h) && Halfway(h, op);
    TailForwards(h, op);
    var u :| Leads(h, u) && InSocket(u, op);
    TailStops(u, op);
    var s :| Leads(u, s) && Orphaned(s, op);
    LeadsOn(Init(2), h, u);
    LeadsOn(Init(2), u, s);
  }

  /** A client that overwrites the key too early may find the old value again. */
  lemma OldValueReturns(k: Key, v: Bytes, w: Bytes)
    requires v != [] && w != [] && v != w
    ensures exists s :: Reachable(s) && CanSend(s) && !AlwaysLinearizable(DoSend(s, Put(k, w)))
  {
    OrphanReachable(Put(k, v));
    var s :| Reachable(s) && Orphaned(s, Put(k, v));
    ReachableInv(s);
    var m := Perform(Tail(s).table, Put(k, w)).store;
    assert m[k] == w && Perform(m, Put(k, v)).store[k] == v;
    assert !InboxSpares(s.joiners[0], m);
    UnsafeSendBreaks(s, Put(k, w));
  }
}
