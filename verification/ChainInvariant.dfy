/** The inductive invariant of the chain, and the proof that every timely step keeps it. */
module ChainInvariant {
  import opened Options
  import opened Store
  import opened Chain
  import opened ChainHistory

  // ---------- The invariant ----------

  /** The writes that changed the tail. */
  function Base(s: State): seq<Message>
    requires s.chain != []
  {
    Tail(s).log
  }

  /** The store after all writes that have taken effect, and after one more. */
  function Now(s: State): Map {
    Result(s.order)
  }

  function Then(s: State, m: Message): Map {
    Perform(Now(s), m.op).store
  }

  ghost predicate Names(s: State) {
    && (forall i, k :: 0 <= i < k < |s.chain| ==> s.chain[i].name < s.chain[k].name)
    && (forall i, k :: 0 <= i < k < |s.joiners| ==> s.joiners[i].name < s.joiners[k].name)
    && (forall i, k :: 0 <= i < |s.chain| && 0 <= k < |s.joiners| ==> s.chain[i].name < s.joiners[k].name)
    && (forall i :: 0 <= i < |s.chain| ==> s.chain[i].name < s.nextName)
    && (forall k :: 0 <= k < |s.joiners| ==> s.joiners[k].name < s.nextName)
  }

  /** The tail has been changed by exactly the writes in order that change something. */
  ghost predicate Data(s: State) {
    s.chain != [] && Names(s) && Base(s) == Effects(s.order)
  }

  /** Everything has happened by now, and a call that was answered had been answered before the next one was made. */
  ghost predicate Clock(s: State) {
    && (forall i :: 0 <= i < |s.done| ==> s.done[i].begin <= s.done[i].end < s.clock)
    && (forall c :: 0 <= c < |s.sent| ==> s.sent[c].begin < s.clock)
    && (forall id :: id in s.requests ==> s.requests[id].begin < s.clock)
    && (forall i, c :: 0 <= i < |s.done| && !s.done[i].ReadDone? && s.done[i].id < c < |s.sent| ==>
          s.done[i].end < s.sent[c].begin)
  }

  /** The answer belongs to a call that was made, and that is neither pending nor abandoned. */
  ghost predicate AnswersCall(s: State, d: Done) {
    !d.ReadDone? ==>
      && d.id < |s.sent| && s.sent[d.id] == Call(d.op, d.begin)
      && d.id !in s.abandoned && (s.client.Pending? ==> d.id < s.client.id)
  }

  ghost predicate Answered(s: State, id: nat) {
    exists i :: 0 <= i < |s.done| && !s.done[i].ReadDone? && s.done[i].id == id
  }

  /** Every call is answered once, or pending, or abandoned. */
  ghost predicate Calls(s: State) {
    && (s.client.Pending? ==> s.client.id + 1 == |s.sent| && s.sent[s.client.id] == Call(s.client.op, s.client.begin))
    && (s.client.Pending? ==> s.client.id !in s.abandoned)
    && (forall i :: 0 <= i < |s.done| ==> AnswersCall(s, s.done[i]))
    && (forall i, j :: 0 <= i < j < |s.done| && !s.done[i].ReadDone? && !s.done[j].ReadDone? ==>
          s.done[i].id != s.done[j].id)
    && (forall id :: 0 <= id < |s.sent| ==>
          id in s.abandoned || (s.client.Pending? && s.client.id == id) || Answered(s, id))
    && (forall id :: id in s.abandoned ==> id < |s.sent|)
  }

  ghost predicate History(s: State) {
    Explains(s.sent, s.done, s.order, s.places) && Increasing(s.order) && Clock(s) && Calls(s)
  }

  /** The write has taken effect, and doing it again changes nothing. */
  ghost predicate Stale(m: Message, order: seq<Message>) {
    m in order && Same(Result(order), m.op)
  }

  ghost predicate InboxStale(j: Joiner, order: seq<Message>) {
    j.inbox.Some? ==> Stale(j.inbox.value, order)
  }

  /** The thread is idle, or busy with a write that has taken effect. */
  ghost predicate Noise(p: Phase, order: seq<Message>) {
    match p
    case Idle => true
    case Recv(m) => Stale(m, order)
    case Invoked(m) => Stale(m, order)
    case Waiting(m, _) => m in order
    case Replying(m, ok) => ok ==> m in order
  }

  ghost predicate Fresh(order: seq<Message>, id: nat) {
    forall p :: 0 <= p < |order| ==> order[p].id < id
  }

  /** The head has read the client's new write; what others still hold does not interfere with it. */
  ghost predicate NewAtHead(s: State)
    requires s.chain != []
  {
    && s.client.Pending?
    && s.chain[0].phase == Recv(Message(s.client.id, s.client.op)) && Fresh(s.order, s.client.id)
    && (forall i :: 0 < i < |s.chain| ==> Noise(s.chain[i].phase, s.order))
    && (Perform(Now(s), s.client.op).ok ==>
          var m := Perform(Now(s), s.client.op).store;
          && (forall i :: 0 < i < |s.chain| ==> Spares(s.chain[i].phase, m))
          && (forall j :: 0 <= j < |s.joiners| ==> InboxSpares(s.joiners[j], m)))
  }

  /** The writing client's call has been decided at the head. */
  ghost predicate ClientSettled(s: State)
    requires s.chain != []
  {
    s.client.Pending? ==>
      var p := s.chain[0].phase;
      && (p.Invoked? || p.Waiting? || p.Replying?)
      && p.msg == Message(s.client.id, s.client.op)
      && (if p.Replying? && !p.ok then !Perform(Now(s), s.client.op).ok && Fresh(s.order, s.client.id)
          else p.msg in s.order)
  }

  ghost predicate AllNoise(s: State) {
    forall i :: 0 <= i < |s.chain| ==> Noise(s.chain[i].phase, s.order)
  }

  /** All servers have the same table; whatever still moves has taken effect. */
  ghost predicate Settled(s: State)
    requires s.chain != []
  {
    && (forall i :: 0 <= i < |s.chain| ==> s.chain[i].log == Base(s) && s.chain[i].table == Now(s))
    && (forall j :: 0 <= j < |s.joiners| ==> InboxStale(s.joiners[j], s.order))
    && (NewAtHead(s) || (AllNoise(s) && ClientSettled(s)))
  }

  /** The write m, which changes the store, is on its way down: the first b servers have applied it, the others have
      not. It has been sent to server b, or server b - 1 is about to send it. What others still hold does not
      interfere with it. */
  ghost predicate InFlight(s: State, b: nat, sent: bool, m: Message)
    requires s.chain != []
  {
    && b < |s.chain| && (sent || b > 0)
    && m.id + 1 == |s.sent| && s.sent[m.id].op == m.op && Fresh(s.order, m.id)
    && !Same(Now(s), m.op)
    && (forall i :: 0 <= i < b ==> s.chain[i].log == Base(s) + [m] && s.chain[i].table == Then(s, m))
    && (forall i :: b <= i < |s.chain| ==> s.chain[i].log == Base(s) && s.chain[i].table == Now(s))
    && (forall i {:trigger s.chain[i].phase} :: 0 <= i < b ==> s.chain[i].phase == PhaseAbove(s.chain, b, sent, m, i))
    && (sent ==> s.chain[b].phase == Recv(m))
    && (forall i :: b <= i < |s.chain| && (sent ==> i > b) ==>
          Noise(s.chain[i].phase, s.order) && Spares(s.chain[i].phase, Then(s, m)))
    && (forall j :: 0 <= j < |s.joiners| ==>
          InboxStale(s.joiners[j], s.order) && InboxSpares(s.joiners[j], Then(s, m)))
    && (if s.client.Pending? then b > 0 && m == Message(s.client.id, s.client.op) else m.id in s.abandoned)
  }

  function PhaseAbove(c: seq<Server>, b: nat, sent: bool, m: Message, i: nat): Phase
    requires i < b < |c|
  {
    if i + 1 < b || sent then Waiting(m, c[i + 1].name) else Invoked(m)
  }

  ghost predicate Inv(s: State) {
    && Data(s) && History(s)
    && (Settled(s) || exists b, sent, m :: InFlight(s, b, sent, m))
  }

  lemma InitHistory(s: State)
    requires s.sent == [] && s.done == [] && s.order == [] && s.places == [] && s.abandoned == {}
    requires s.client.Ready? && s.requests == map[]
    ensures History(s) && Effects(s.order) == [] && Now(s) == map[]
  {
    assert Ops(s.order) == [];
  }

  lemma SettledInv(s: State)
    requires Data(s) && History(s) && Settled(s)
    ensures Inv(s)
  {
  }

  lemma InFlightInv(s: State, b: nat, sent: bool, m: Message)
    requires Data(s) && History(s) && InFlight(s, b, sent, m)
    ensures Inv(s)
  {
  }

  lemma InitSettled(n: nat, s: State)
    requires n > 0 && s == Init(n) && Effects(s.order) == [] && Now(s) == map[]
    ensures Data(s) && Settled(s)
  {
    assert AllNoise(s) && ClientSettled(s);
  }

  lemma InitInv(n: nat)
    requires n > 0
    ensures Inv(Init(n))
  {
    InitHistory(Init(n));
    InitSettled(n, Init(n));
    SettledInv(Init(n));
  }

  // ---------- The history, step by step ----------

  lemma ClockFrame(s: State, t: State)
    requires Clock(s) && t.clock >= s.clock && t.sent == s.sent && t.done == s.done
    requires forall id :: id in t.requests ==>
      (id in s.requests && t.requests[id] == s.requests[id]) || t.requests[id].begin < t.clock
    ensures Clock(t)
  {
  }

  lemma CallsFrame(s: State, t: State)
    requires Calls(s) && t.client == s.client
    requires t.sent == s.sent && t.abandoned == s.abandoned && t.done == s.done
    ensures Calls(t)
  {
    forall i | 0 <= i < |t.done| ensures AnswersCall(t, t.done[i]) {
      assert AnswersCall(s, s.done[i]);
    }
    assert forall id :: Answered(s, id) ==> Answered(t, id);
  }

  lemma HistoryFrame(s: State, t: State)
    requires History(s) && t.clock == s.clock + 1 && t.client == s.client
    requires t.sent == s.sent && t.abandoned == s.abandoned && t.order == s.order
    requires t.done == s.done && t.places == s.places
    requires forall id :: id in t.requests ==>
      (id in s.requests && t.requests[id] == s.requests[id]) || t.requests[id].begin == s.clock
    ensures History(t)
  {
    ClockFrame(s, t);
    CallsFrame(s, t);
  }

  lemma ClockSend(s: State, op: Write)
    requires Clock(s) && CanSend(s)
    ensures Clock(DoSend(s, op))
  {
  }

  lemma CallsSend(s: State, op: Write)
    requires Calls(s) && CanSend(s)
    ensures Calls(DoSend(s, op))
  {
    var t := DoSend(s, op);
    forall i | 0 <= i < |t.done| ensures AnswersCall(t, t.done[i]) {
      assert AnswersCall(s, s.done[i]);
    }
    assert forall id :: Answered(s, id) ==> Answered(t, id);
  }

  lemma HistorySend(s: State, op: Write)
    requires History(s) && CanSend(s)
    ensures History(DoSend(s, op)) && Fresh(s.order, |s.sent|)
  {
    ExplainsSend(s.sent, s.done, s.order, s.places, Call(op, s.clock));
    ClockSend(s, op);
    CallsSend(s, op);
  }

  lemma NotAnsweredYet(s: State, id: nat)
    requires Calls(s) && (id in s.abandoned || (s.client.Pending? && s.client.id == id))
    ensures forall i :: 0 <= i < |s.done| && !s.done[i].ReadDone? ==> s.done[i].id != id
  {
    assert forall i :: 0 <= i < |s.done| ==> AnswersCall(s, s.done[i]);
  }

  /** The last call takes effect. */
  lemma HistoryEffect(s: State, t: State, m: Message)
    requires History(s) && t.clock >= s.clock && t.client == s.client && t.requests == s.requests
    requires t.sent == s.sent && t.abandoned == s.abandoned && t.done == s.done && t.places == s.places
    requires t.order == s.order + [m]
    requires m.id + 1 == |s.sent| && s.sent[m.id].op == m.op && Fresh(s.order, m.id) && Perform(Now(s), m.op).ok
    requires m.id in s.abandoned || (s.client.Pending? && s.client.id == m.id)
    ensures History(t)
  {
    NotAnsweredYet(s, m.id);
    ExplainsEffect(s.sent, s.done, s.order, s.places, m);
    ClockFrame(s, t);
    CallsFrame(s, t);
  }

  lemma CallsAbandon(s: State, t: State)
    requires Calls(s) && t.client.Ready? && t.sent == s.sent && t.done == s.done
    requires t.abandoned == if s.client.Pending? then s.abandoned + {s.client.id} else s.abandoned
    ensures Calls(t)
  {
    forall i | 0 <= i < |t.done| ensures AnswersCall(t, t.done[i]) {
      assert AnswersCall(s, s.done[i]);
    }
    assert forall id :: Answered(s, id) ==> Answered(t, id);
  }

  /** The head stops; its client gets no answer. */
  lemma HistoryAbandon(s: State, t: State)
    requires History(s) && t.clock == s.clock + 1 && t.client.Ready? && t.requests == s.requests
    requires t.sent == s.sent && t.order == s.order && t.done == s.done && t.places == s.places
    requires t.abandoned == if s.client.Pending? then s.abandoned + {s.client.id} else s.abandoned
    ensures History(t)
  {
    ClockFrame(s, t);
    CallsAbandon(s, t);
  }

  lemma AnsweredMore(s: State, t: State, d: Done)
    requires t.done == s.done + [d]
    ensures forall id :: Answered(s, id) ==> Answered(t, id)
    ensures !d.ReadDone? ==> Answered(t, d.id)
  {
    forall id | Answered(s, id) ensures Answered(t, id) {
      var i :| 0 <= i < |s.done| && !s.done[i].ReadDone? && s.done[i].id == id;
      assert t.done[i] == s.done[i];
    }
    assert t.done[|s.done|] == d;
  }

  lemma ClockAnswer(s: State, t: State, d: Done)
    requires Clock(s) && t.clock == s.clock + 1 && t.sent == s.sent && t.done == s.done + [d]
    requires forall id :: id in t.requests ==> id in s.requests && t.requests[id] == s.requests[id]
    requires d.begin <= d.end == s.clock && (!d.ReadDone? ==> d.id + 1 == |s.sent|)
    ensures Clock(t)
  {
  }

  lemma CallsAnswer(s: State, t: State, d: Done)
    requires Calls(s) && s.client.Pending? && t.client.Ready?
    requires t.sent == s.sent && t.abandoned == s.abandoned && t.done == s.done + [d]
    requires !d.ReadDone? && d.id == s.client.id && d.op == s.client.op && d.begin == s.client.begin
    ensures Calls(t)
  {
    assert forall i :: 0 <= i < |s.done| ==> AnswersCall(s, s.done[i]);
    AnsweredMore(s, t, d);
    forall i | 0 <= i < |t.done| ensures AnswersCall(t, t.done[i]) {
    }
  }

  lemma CallsRead(s: State, t: State, d: Done)
    requires Calls(s) && t.client == s.client && d.ReadDone?
    requires t.sent == s.sent && t.abandoned == s.abandoned && t.done == s.done + [d]
    ensures Calls(t)
  {
    AnsweredMore(s, t, d);
    forall i | 0 <= i < |t.done| ensures AnswersCall(t, t.done[i]) {
      assert i < |s.done| ==> AnswersCall(s, s.done[i]);
    }
  }

  /** The explanation of one more answer, given now. */
  lemma ExplainsNow(s: State, d: Done)
    requires Explains(s.sent, s.done, s.order, s.places) && Clock(s) && Fits(s.order, d, |s.order|)
    requires d.begin <= d.end == s.clock
    requires d.WriteDone? ==> d.id < |s.sent| && s.sent[d.id].begin == d.begin
    ensures Explains(s.sent, s.done + [d], s.order, s.places + [|s.order|])
  {
    ExplainsAnswer(s.sent, s.done, s.order, s.places, d);
  }

  /** The head answers its client. */
  lemma HistoryAnswer(s: State, t: State, d: Done)
    requires History(s) && s.client.Pending? && t.client.Ready? && t.clock == s.clock + 1 && t.requests == s.requests
    requires t.sent == s.sent && t.abandoned == s.abandoned && t.order == s.order
    requires t.done == s.done + [d] && t.places == s.places + [|s.order|]
    requires !d.ReadDone? && d.id == s.client.id && d.op == s.client.op && d.begin == s.client.begin && d.end == s.clock
    requires Fits(s.order, d, |s.order|)
    ensures History(t)
  {
    ExplainsNow(s, d);
    ClockAnswer(s, t, d);
    CallsAnswer(s, t, d);
  }

  lemma HistoryRead(s: State, t: State, d: Done)
    requires History(s) && t.client == s.client && t.clock == s.clock + 1
    requires t.sent == s.sent && t.abandoned == s.abandoned && t.order == s.order
    requires t.done == s.done + [d] && t.places == s.places + [|s.order|]
    requires forall id :: id in t.requests ==> id in s.requests && t.requests[id] == s.requests[id]
    requires d.ReadDone? && d.begin < s.clock == d.end && Fits(s.order, d, |s.order|)
    ensures History(t)
  {
    ExplainsNow(s, d);
    ClockAnswer(s, t, d);
    CallsRead(s, t, d);
  }

  // ---------- What most steps leave alone ----------

  /** The servers are the same ones, with the same tables and logs. */
  ghost predicate SameData(c: seq<Server>, d: seq<Server>) {
    && |c| == |d|
    && (forall i :: 0 <= i < |c| ==> d[i].name == c[i].name && d[i].table == c[i].table && d[i].log == c[i].log)
  }

  ghost predicate SameJoiners(c: seq<Joiner>, d: seq<Joiner>) {
    && |c| == |d|
    && (forall i :: 0 <= i < |c| ==> d[i].name == c[i].name)
  }

  /** Only phases, links and inboxes change. */
  ghost predicate OnlyMoves(s: State, t: State) {
    && SameData(s.chain, t.chain) && SameJoiners(s.joiners, t.joiners) && t.nextName == s.nextName
    && t.clock == s.clock + 1 && t.client == s.client && t.requests == s.requests
    && t.sent == s.sent && t.abandoned == s.abandoned && t.order == s.order
    && t.done == s.done && t.places == s.places
  }

  lemma DataFrame(s: State, t: State)
    requires Data(s) && OnlyMoves(s, t)
    ensures Data(t) && Base(t) == Base(s)
  {
  }

  lemma CoreFrame(s: State, t: State)
    requires Data(s) && History(s) && OnlyMoves(s, t)
    ensures Data(t) && History(t) && Base(t) == Base(s)
  {
    DataFrame(s, t);
    HistoryFrame(s, t);
  }

  lemma NameIndex(s: State, i: nat)
    requires Names(s) && i < |s.chain|
    ensures IndexOf(s.chain, s.chain[i].name) == i
  {
    var r := IndexOf(s.chain, s.chain[i].name);
    if 0 <= r < i {
    } else if i < r {
    }
  }

  /** Committing a write that changes the store. */
  lemma DataCommit(s: State, t: State, m: Message)
    requires Data(s) && !Same(Now(s), m.op)
    requires t.chain != [] && Names(t) && Base(t) == Base(s) + [m] && t.order == s.order + [m]
    ensures Data(t) && Now(t) == Then(s, m)
  {
    EffectsAppend(s.order, m);
    ResultAppend(s.order, m);
  }

  /** A write that changes nothing. */
  lemma DataNoChange(s: State, t: State, m: Message)
    requires Data(s) && Same(Now(s), m.op)
    requires t.chain != [] && Names(t) && Base(t) == Base(s) && t.order == s.order + [m]
    ensures Data(t) && Now(t) == Now(s)
  {
    EffectsAppend(s.order, m);
    ResultAppend(s.order, m);
  }

  /** A write that changes the store succeeds, and done again it changes nothing. */
  lemma ChangeFacts(m: Map, op: Write)
    requires !Same(m, op)
    ensures Perform(m, op).ok && Same(Perform(m, op).store, op)
  {
    RepeatedWrite(m, op);
  }

  /** More writes in order: what was noise remains noise if the new store is spared. */
  lemma NoiseLonger(p: Phase, order: seq<Message>, m: Message)
    requires Noise(p, order) && (p.Recv? || p.Invoked? ==> Same(Result(order + [m]), p.msg.op))
    ensures Noise(p, order + [m])
  {
  }

  // ---------- Sending ----------

  lemma SendSettled(s: State, op: Write)
    requires CanSend(s) && SendSafe(s, op) && Settled(s) && Fresh(s.order, |s.sent|)
    ensures Settled(DoSend(s, op))
  {
    var t := DoSend(s, op);
    assert Base(t) == Base(s) && Now(t) == Now(s);
    assert NewAtHead(t);
  }

  lemma SendData(s: State, op: Write)
    requires Data(s) && CanSend(s)
    ensures Data(DoSend(s, op))
  {
  }

  lemma SendKeeps(s: State, op: Write)
    requires Inv(s) && CanSend(s) && SendSafe(s, op)
    ensures Inv(DoSend(s, op))
  {
    HistorySend(s, op);
    HeadBusyInFlight(s);
    SendSettled(s, op);
    SendData(s, op);
    SettledInv(DoSend(s, op));
  }

  lemma HeadBusyInFlight(s: State)
    requires s.chain != [] && s.chain[0].phase.Idle?
    ensures forall b, sent, m :: !InFlight(s, b, sent, m)
  {
  }

  // ---------- Invoking ----------

  /** A write that has taken effect, done again. */
  lemma InvokeStale(sv: Server, order: seq<Message>)
    requires sv.phase.Recv? && Stale(sv.phase.msg, order) && sv.table == Result(order)
    ensures var t := AfterInvoke(sv);
            && t.name == sv.name && t.table == sv.table && t.log == sv.log && t.succ == sv.succ
            && Noise(t.phase, order)
            && (t.phase.Invoked? ==> t.phase.msg == sv.phase.msg && sv.phase.msg.op.Put?)
            && (sv.phase.msg.op.Del? ==> t.phase.Replying?)
  {
  }

  lemma InvokeSettled(s: State, i: nat)
    requires s.chain != [] && Settled(s) && !(NewAtHead(s) && i == 0) && CanInvoke(s, i)
    ensures SameData(s.chain, DoInvoke(s, i).chain) && DoInvoke(s, i).order == s.order && Settled(DoInvoke(s, i))
  {
    InvokeStale(s.chain[i], s.order);
    var t := DoInvoke(s, i);
    assert Base(t) == Base(s) && Now(t) == Now(s);
    if NewAtHead(s) {
      assert NewAtHead(t);
    } else {
      assert AllNoise(t) && ClientSettled(t);
    }
  }

  lemma InvokeNewMiss(s: State)
    requires s.chain != [] && Settled(s) && NewAtHead(s) && !Perform(Now(s), s.client.op).ok
    ensures SameData(s.chain, DoInvoke(s, 0).chain) && DoInvoke(s, 0).order == s.order && Settled(DoInvoke(s, 0))
  {
    var t := DoInvoke(s, 0);
    assert Base(t) == Base(s) && Now(t) == Now(s);
    assert AllNoise(t) && ClientSettled(t);
  }

  /** What others hold is noise for the longer order too. */
  lemma OthersStayNoise(s: State, m: Message)
    requires s.chain != [] && Settled(s) && NewAtHead(s) && m == s.chain[0].phase.msg && Perform(Now(s), m.op).ok
    ensures forall i :: 0 < i < |s.chain| ==> Noise(s.chain[i].phase, s.order) && Spares(s.chain[i].phase, Then(s, m))
    ensures forall j :: 0 <= j < |s.joiners| ==>
      InboxStale(s.joiners[j], s.order) && InboxSpares(s.joiners[j], Then(s, m))
    ensures Result(s.order + [m]) == Then(s, m)
    ensures forall j :: 0 <= j < |s.joiners| ==> InboxStale(s.joiners[j], s.order + [m])
  {
    ResultAppend(s.order, m);
  }

  lemma InvokeNewSame(s: State)
    requires s.chain != [] && Settled(s) && NewAtHead(s) && Perform(Now(s), s.client.op).ok && Same(Now(s), s.client.op)
    ensures var t := DoInvoke(s, 0);
            SameData(s.chain, t.chain) && t.order == s.order + [s.chain[0].phase.msg] && Settled(t)
  {
    var t := DoInvoke(s, 0);
    var m := s.chain[0].phase.msg;
    OthersStayNoise(s, m);
    assert t.order == s.order + [m] && t.order[|s.order|] == m;
    assert Base(t) == Base(s) && Now(t) == Now(s);
    forall i | 0 <= i < |t.chain| ensures Noise(t.chain[i].phase, t.order) {
      if i > 0 {
        NoiseLonger(s.chain[i].phase, s.order, m);
      }
    }
    assert AllNoise(t) && ClientSettled(t);
  }

  lemma InvokeNewAlone(s: State)
    requires |s.chain| == 1 && Settled(s) && NewAtHead(s) && !Same(Now(s), s.client.op)
    ensures var t := DoInvoke(s, 0); var m := s.chain[0].phase.msg;
            t.order == s.order + [m] && Base(t) == Base(s) + [m] && Settled(t)
  {
    var t := DoInvoke(s, 0);
    var m := s.chain[0].phase.msg;
    ChangeFacts(Now(s), m.op);
    OthersStayNoise(s, m);
    assert t.order == s.order + [m] && t.order[|s.order|] == m;
    assert Now(t) == Then(s, m);
    assert AllNoise(t) && ClientSettled(t);
  }

  lemma InvokeNewChain(s: State)
    requires |s.chain| > 1 && Settled(s) && NewAtHead(s) && !Same(Now(s), s.client.op)
    requires s.client.id + 1 == |s.sent| && s.sent[s.client.id].op == s.client.op
    ensures var t := DoInvoke(s, 0);
            t.order == s.order && Base(t) == Base(s) && InFlight(t, 1, false, s.chain[0].phase.msg)
  {
    var m := s.chain[0].phase.msg;
    ChangeFacts(Now(s), m.op);
    OthersStayNoise(s, m);
  }

  /** invoke leaves everything alone but one server and the order. */
  lemma InvokeNames(s: State, i: nat, t: State)
    requires Names(s) && CanInvoke(s, i) && t == DoInvoke(s, i)
    ensures t == s.(chain := t.chain, order := t.order, clock := s.clock + 1) && t.chain != [] && Names(t)
  {
    assert |t.chain| == |s.chain| && forall k :: 0 <= k < |s.chain| ==> t.chain[k].name == s.chain[k].name;
  }

  lemma InvokeNewSameKeeps(s: State, t: State)
    requires Data(s) && History(s) && Settled(s) && NewAtHead(s) && t == DoInvoke(s, 0)
    requires Perform(Now(s), s.client.op).ok && Same(Now(s), s.client.op)
    ensures Data(t) && History(t) && Settled(t)
  {
    var m := s.chain[0].phase.msg;
    InvokeNewSame(s);
    DataNoChange(s, t, m);
    HistoryEffect(s, t, m);
  }

  lemma InvokeNewAloneKeeps(s: State, t: State)
    requires Data(s) && History(s) && Settled(s) && NewAtHead(s) && t == DoInvoke(s, 0)
    requires |s.chain| == 1 && !Same(Now(s), s.client.op)
    ensures Data(t) && History(t) && Settled(t)
  {
    var m := s.chain[0].phase.msg;
    ChangeFacts(Now(s), m.op);
    InvokeNewAlone(s);
    InvokeNames(s, 0, t);
    DataCommit(s, t, m);
    HistoryEffect(s, t, m);
  }

  lemma InvokeCore(s: State, i: nat, t: State)
    requires Data(s) && History(s) && CanInvoke(s, i) && t == DoInvoke(s, i)
    requires t.order == s.order && Base(t) == Base(s)
    ensures Data(t) && History(t)
  {
    InvokeNames(s, i, t);
    HistoryFrame(s, t);
  }

  lemma InvokeNewChainKeeps(s: State, t: State)
    requires Data(s) && History(s) && Settled(s) && NewAtHead(s) && t == DoInvoke(s, 0)
    requires |s.chain| > 1 && !Same(Now(s), s.client.op)
    ensures Data(t) && History(t) && InFlight(t, 1, false, s.chain[0].phase.msg)
  {
    InvokeNewChain(s);
    InvokeCore(s, 0, t);
  }

  lemma InvokeNewKeeps(s: State)
    requires Data(s) && History(s) && Settled(s) && NewAtHead(s)
    ensures Inv(DoInvoke(s, 0))
  {
    var t := DoInvoke(s, 0);
    if !Perform(Now(s), s.client.op).ok {
      InvokeNewMiss(s);
      CoreFrame(s, t);
    } else if Same(Now(s), s.client.op) {
      InvokeNewSameKeeps(s, t);
    } else if |s.chain| == 1 {
      InvokeNewAloneKeeps(s, t);
    } else {
      InvokeNewChainKeeps(s, t);
    }
  }

  /** The server that the write in flight has been sent to. */
  lemma InvokeApplies(sv: Server, m: Message)
    requires sv.phase == Recv(m) && !Same(sv.table, m.op)
    ensures var t := AfterInvoke(sv);
            t == sv.(table := Perform(sv.table, m.op).store, log := sv.log + [m], phase := Invoked(m))
  {
    ChangeFacts(sv.table, m.op);
  }

  lemma InvokeInFlight(s: State, b: nat, m: Message)
    requires b < |s.chain| - 1 && InFlight(s, b, true, m)
    ensures CanInvoke(s, b) && InFlight(DoInvoke(s, b), b + 1, false, m)
  {
    InvokeApplies(s.chain[b], m);
    var t := DoInvoke(s, b);
    assert t.order == s.order && Base(t) == Base(s);
  }

  lemma InvokeAtTail(s: State, m: Message)
    requires s.chain != [] && InFlight(s, |s.chain| - 1, true, m)
    ensures CanInvoke(s, |s.chain| - 1)
    ensures var t := DoInvoke(s, |s.chain| - 1);
            t.order == s.order + [m] && Base(t) == Base(s) + [m] && Settled(t)
  {
    InvokeApplies(s.chain[|s.chain| - 1], m);
    ChangeFacts(Now(s), m.op);
    ResultAppend(s.order, m);
    var t := DoInvoke(s, |s.chain| - 1);
    assert t.order == s.order + [m] && t.order[|s.order|] == m;
    assert Now(t) == Then(s, m);
    assert AllNoise(t) && ClientSettled(t);
  }

  /** A thread below the write in flight goes on with what it holds. */
  lemma InFlightAtPhase(s: State, t: State, b: nat, sent: bool, m: Message, i: nat, p: Phase)
    requires s.chain != [] && InFlight(s, b, sent, m) && b <= i < |s.chain| && (sent ==> i > b)
    requires Noise(p, s.order) && Spares(p, Then(s, m))
    requires t == s.(chain := AtPhase(s.chain, i, p), clock := t.clock)
    ensures InFlight(t, b, sent, m) && SameData(s.chain, t.chain)
  {
    assert Base(t) == Base(s) && Now(t) == Now(s);
  }

  /** Somebody else invokes while the write is on its way. */
  lemma InvokeNoise(s: State, b: nat, sent: bool, m: Message, i: nat)
    requires s.chain != [] && InFlight(s, b, sent, m) && CanInvoke(s, i) && !(i == b && sent)
    ensures SameData(s.chain, DoInvoke(s, i).chain) && DoInvoke(s, i).order == s.order
    ensures InFlight(DoInvoke(s, i), b, sent, m)
  {
    assert i >= b && i > 0;
    InvokeStale(s.chain[i], s.order);
    InFlightAtPhase(s, DoInvoke(s, i), b, sent, m, i, AfterInvoke(s.chain[i]).phase);
  }

  lemma InvokeAtTailKeeps(s: State, m: Message, t: State)
    requires Data(s) && History(s) && InFlight(s, |s.chain| - 1, true, m) && t == DoInvoke(s, |s.chain| - 1)
    ensures Data(t) && History(t) && Settled(t)
  {
    ChangeFacts(Now(s), m.op);
    InvokeApplies(s.chain[|s.chain| - 1], m);
    InvokeAtTail(s, m);
    InvokeNames(s, |s.chain| - 1, t);
    DataCommit(s, t, m);
    HistoryEffect(s, t, m);
  }

  lemma InvokeBelowIs(s: State, b: nat, m: Message)
    requires b < |s.chain| - 1 && InFlight(s, b, true, m)
    ensures CanInvoke(s, b) && DoInvoke(s, b).order == s.order && Base(DoInvoke(s, b)) == Base(s)
  {
    InvokeApplies(s.chain[b], m);
  }

  lemma InvokeBelowKeeps(s: State, b: nat, m: Message, t: State)
    requires Data(s) && History(s) && b < |s.chain| - 1 && InFlight(s, b, true, m) && t == DoInvoke(s, b)
    ensures Data(t) && History(t) && InFlight(t, b + 1, false, m)
  {
    InvokeInFlight(s, b, m);
    InvokeBelowIs(s, b, m);
    InvokeCore(s, b, t);
  }

  lemma InvokeInFlightKeeps(s: State, b: nat, sent: bool, m: Message, i: nat)
    requires Data(s) && History(s) && CanInvoke(s, i) && InFlight(s, b, sent, m)
    ensures Inv(DoInvoke(s, i))
  {
    var t := DoInvoke(s, i);
    if !(i == b && sent) {
      InvokeNoise(s, b, sent, m, i);
      CoreFrame(s, t);
    } else if b == |s.chain| - 1 {
      InvokeAtTailKeeps(s, m, t);
    } else {
      InvokeBelowKeeps(s, b, m, t);
    }
  }

  lemma InvokeSettledKeeps(s: State, i: nat)
    requires Data(s) && History(s) && Settled(s) && CanInvoke(s, i)
    ensures Inv(DoInvoke(s, i))
  {
    if NewAtHead(s) && i == 0 {
      InvokeNewKeeps(s);
    } else {
      InvokeSettled(s, i);
      CoreFrame(s, DoInvoke(s, i));
      SettledInv(DoInvoke(s, i));
    }
  }

  lemma InvokeKeeps(s: State, i: nat)
    requires Inv(s) && CanInvoke(s, i)
    ensures Inv(DoInvoke(s, i))
  {
    if Settled(s) {
      InvokeSettledKeeps(s, i);
    } else {
      var b, sent, m :| InFlight(s, b, sent, m);
      InvokeInFlightKeeps(s, b, sent, m, i);
    }
  }

  // ---------- Forwarding ----------

  /** Where a forwarded write goes. */
  ghost predicate Forwarded(s: State, t: State, i: nat)
    requires CanForward(s, i)
  {
    var m := s.chain[i].phase.msg;
    && |t.chain| == |s.chain| && |t.joiners| == |s.joiners| && t.order == s.order && t.client == s.client
    && t.sent == s.sent && t.abandoned == s.abandoned
    && SameData(s.chain, t.chain)
    && (t.chain[i].phase == Replying(m, true) || exists n :: t.chain[i].phase == Waiting(m, n))
    && (forall k :: 0 <= k < |s.chain| && k != i ==>
          t.chain[k].phase == s.chain[k].phase || (s.chain[k].phase.Idle? && t.chain[k].phase == Recv(m)))
    && SameJoiners(s.joiners, t.joiners)
    && (forall j :: 0 <= j < |s.joiners| ==>
          t.joiners[j].inbox == s.joiners[j].inbox || t.joiners[j].inbox == Some(m))
  }

  lemma ForwardGoes(s: State, i: nat)
    requires CanForward(s, i)
    ensures Forwarded(s, DoForward(s, i), i) && OnlyMoves(s, DoForward(s, i))
  {
  }

  lemma ForwardSettled(s: State, t: State, i: nat)
    requires s.chain != [] && Settled(s) && CanForward(s, i) && Forwarded(s, t, i)
    ensures Settled(t)
  {
    assert Base(t) == Base(s) && Now(t) == Now(s);
    if NewAtHead(s) {
      assert i > 0;
      assert NewAtHead(t);
    } else {
      assert Noise(s.chain[i].phase, s.order);
      assert AllNoise(t);
      assert ClientSettled(t);
    }
  }

  lemma ForwardNoise(s: State, t: State, b: nat, sent: bool, m: Message, i: nat)
    requires s.chain != [] && InFlight(s, b, sent, m) && CanForward(s, i) && i >= b && Forwarded(s, t, i)
    ensures InFlight(t, b, sent, m)
  {
    assert Base(t) == Base(s) && Now(t) == Now(s);
    assert Noise(s.chain[i].phase, s.order) && Spares(s.chain[i].phase, Then(s, m));
  }

  lemma ForwardInFlight(s: State, b: nat, m: Message)
    requires s.chain != [] && InFlight(s, b, false, m) && CanForward(s, b - 1)
    requires s.chain[b - 1].succ == Some(s.chain[b].name) && IndexOf(s.chain, s.chain[b].name) == b
    ensures InFlight(DoForward(s, b - 1), b, true, m)
  {
    SentOn(s, b, m, DoForward(s, b - 1));
  }

  lemma SentOn(s: State, b: nat, m: Message, t: State)
    requires s.chain != [] && InFlight(s, b, false, m)
    requires t == s.(chain := AtPhase(AtPhase(s.chain, b - 1, Waiting(m, s.chain[b].name)), b, Recv(m)),
                     clock := t.clock)
    ensures t.chain != [] && InFlight(t, b, true, m)
  {
    assert Base(t) == Base(s);
  }

  lemma NotInOrder(s: State, b: nat, sent: bool, m: Message)
    requires s.chain != [] && InFlight(s, b, sent, m)
    ensures m !in s.order
  {
  }

  lemma ForwardSafeLink(s: State, b: nat, sent: bool, m: Message, i: nat)
    requires s.chain != [] && InFlight(s, b, sent, m) && CanForward(s, i) && i < b
    ensures i == b - 1 && !sent && s.chain[i].phase.msg == m
    ensures ForwardSafe(s, i) <==> s.chain[i].succ == Some(s.chain[b].name)
  {
    NotInOrder(s, b, sent, m);
  }

  lemma ForwardInFlightKeeps(s: State, b: nat, sent: bool, m: Message, i: nat)
    requires Names(s) && s.chain != [] && InFlight(s, b, sent, m) && CanForward(s, i) && ForwardSafe(s, i)
    ensures InFlight(DoForward(s, i), b, sent || i < b, m)
  {
    if i >= b {
      ForwardGoes(s, i);
      ForwardNoise(s, DoForward(s, i), b, sent, m, i);
    } else {
      ForwardSafeLink(s, b, sent, m, i);
      NameIndex(s, b);
      ForwardInFlight(s, b, m);
    }
  }

  lemma ForwardKeeps(s: State, i: nat)
    requires Inv(s) && CanForward(s, i) && ForwardSafe(s, i)
    ensures Inv(DoForward(s, i))
  {
    var t := DoForward(s, i);
    ForwardGoes(s, i);
    CoreFrame(s, t);
    if Settled(s) {
      ForwardSettled(s, t, i);
      SettledInv(t);
    } else {
      var b, sent, m :| InFlight(s, b, sent, m);
      ForwardInFlightKeeps(s, b, sent, m, i);
      InFlightInv(t, b, sent || i < b, m);
    }
  }

  // ---------- Failed waits and answers ----------

  /** A thread other than the client's goes on to answer, or becomes idle, with a write that has taken effect. */
  lemma SettledAtPhase(s: State, t: State, i: nat, p: Phase)
    requires s.chain != [] && Settled(s) && i < |s.chain| && Noise(p, s.order) && (p.Idle? || p.Replying? || p.Waiting?)
    requires i == 0 ==> !NewAtHead(s)
    requires i == 0 && s.client.Pending? ==> s.chain[0].phase.Waiting? && p == Replying(s.chain[0].phase.msg, true)
    requires t == s.(chain := AtPhase(s.chain, i, p), clock := t.clock)
    ensures Settled(t) && SameData(s.chain, t.chain) && (i != 0 ==> NewAtHead(s) == NewAtHead(t))
  {
    assert Base(t) == Base(s) && Now(t) == Now(s);
    if NewAtHead(s) {
      assert NewAtHead(t);
    } else {
      assert AllNoise(t) && ClientSettled(t);
    }
  }

  lemma WaitFailCore(s: State, i: nat, t: State)
    requires Data(s) && History(s) && CanWaitFail(s, i) && t == DoWaitFail(s, i)
    ensures Data(t) && History(t)
  {
    assert OnlyMoves(s, t);
    CoreFrame(s, t);
  }

  lemma WaitFailSettled(s: State, i: nat, t: State)
    requires s.chain != [] && Settled(s) && CanWaitFail(s, i) && t == DoWaitFail(s, i)
    ensures t.chain != [] && Settled(t)
  {
    SettledAtPhase(s, t, i, Replying(s.chain[i].phase.msg, true));
  }

  lemma WaitFailInFlight(s: State, b: nat, sent: bool, m: Message, i: nat, t: State)
    requires s.chain != [] && InFlight(s, b, sent, m) && CanWaitFail(s, i) && t == DoWaitFail(s, i)
    ensures t.chain != [] && InFlight(t, b, sent, m)
  {
    NoWaitFailAbove(s, b, sent, m, i);
    InFlightAtPhase(s, t, b, sent, m, i, Replying(s.chain[i].phase.msg, true));
  }

  lemma WaitFailKeeps(s: State, i: nat)
    requires Inv(s) && CanWaitFail(s, i)
    ensures Inv(DoWaitFail(s, i))
  {
    var t := DoWaitFail(s, i);
    WaitFailCore(s, i, t);
    if Settled(s) {
      WaitFailSettled(s, i, t);
      SettledInv(t);
    } else {
      var b, sent, m :| InFlight(s, b, sent, m);
      WaitFailInFlight(s, b, sent, m, i, t);
      InFlightInv(t, b, sent, m);
    }
  }

  lemma NextIsAlive(s: State, i: nat)
    requires i + 1 < |s.chain|
    ensures Alive(s, s.chain[i + 1].name)
  {
  }

  lemma NoWaitFailAbove(s: State, b: nat, sent: bool, m: Message, i: nat)
    requires s.chain != [] && InFlight(s, b, sent, m) && CanWaitFail(s, i)
    ensures i >= b && (sent ==> i > b)
  {
    if i + 1 < |s.chain| {
      NextIsAlive(s, i);
    }
  }

  /** What the head tells the client fits the history. */
  lemma HeadAnswerFits(s: State)
    requires Data(s) && History(s) && Settled(s) && CanReply(s, 0) && s.client.Pending?
    ensures Fits(s.order, HeadAnswer(s), |s.order|)
  {
    var m := s.chain[0].phase.msg;
    assert s.order[..|s.order|] == s.order;
    if s.chain[0].phase.ok {
      assert forall p :: 0 <= p < |s.order| ==> s.order[p].id <= m.id;
      LastInOrder(s.order, m);
    }
  }

  lemma HeadReplySettled(s: State)
    requires s.chain != [] && Settled(s) && CanReply(s, 0) && s.client.Pending?
    ensures Settled(DoReply(s, 0))
  {
    var t := DoReply(s, 0);
    assert Base(t) == Base(s) && Now(t) == Now(s);
    assert AllNoise(t) && ClientSettled(t);
  }

  lemma HeadReplyIs(s: State, t: State)
    requires CanReply(s, 0) && s.client.Pending? && t == DoReply(s, 0)
    ensures t == s.(chain := AtPhase(s.chain, 0, Idle), client := Ready, done := s.done + [HeadAnswer(s)],
                    places := s.places + [|s.order|], clock := s.clock + 1)
    ensures var d := HeadAnswer(s);
            !d.ReadDone? && d.id == s.client.id && d.op == s.client.op && d.begin == s.client.begin && d.end == s.clock
  {
  }

  lemma HeadReplyData(s: State, t: State)
    requires Data(s) && s.chain != [] && t == s.(chain := AtPhase(s.chain, 0, Idle), client := t.client, done := t.done,
                                                 places := t.places, clock := t.clock)
    ensures Data(t)
  {
  }

  lemma HeadReplyCore(s: State, t: State)
    requires Data(s) && History(s) && CanReply(s, 0) && s.client.Pending? && t == DoReply(s, 0)
    requires Fits(s.order, HeadAnswer(s), |s.order|)
    ensures Data(t) && History(t)
  {
    HeadReplyIs(s, t);
    HeadReplyData(s, t);
    HistoryAnswer(s, t, HeadAnswer(s));
  }

  lemma HeadReplyKeeps(s: State)
    requires Data(s) && History(s) && Settled(s) && CanReply(s, 0) && s.client.Pending?
    ensures Inv(DoReply(s, 0))
  {
    HeadAnswerFits(s);
    HeadReplyCore(s, DoReply(s, 0));
    HeadReplySettled(s);
    SettledInv(DoReply(s, 0));
  }

  lemma ReplySettled(s: State, i: nat)
    requires s.chain != [] && Settled(s) && CanReply(s, i) && (i == 0 ==> !s.client.Pending?)
    ensures Settled(DoReply(s, i)) && SameData(s.chain, DoReply(s, i).chain)
  {
    var t := DoReply(s, i);
    var u := s.(chain := AtPhase(s.chain, i, Idle));
    SettledAtPhase(s, u, i, Idle);
    if u.chain == t.chain {
      assert t == u.(clock := t.clock);
      SettledAtPhase(s, t, i, Idle);
    } else {
      assert Noise(s.chain[i - 1].phase, s.order);
      SettledAtPhase(u, t, i - 1, Replying(s.chain[i - 1].phase.msg, true));
    }
  }

  lemma ReplyInFlight(s: State, b: nat, sent: bool, m: Message, i: nat)
    requires s.chain != [] && InFlight(s, b, sent, m) && CanReply(s, i)
    ensures i > 0 && InFlight(DoReply(s, i), b, sent, m) && SameData(s.chain, DoReply(s, i).chain)
  {
    assert i >= b && (sent ==> i > b);
    var t := DoReply(s, i);
    var u := s.(chain := AtPhase(s.chain, i, Idle));
    InFlightAtPhase(s, u, b, sent, m, i, Idle);
    if u.chain == t.chain {
      InFlightAtPhase(s, t, b, sent, m, i, Idle);
    } else {
      assert i - 1 >= b;
      InFlightAtPhase(u, t, b, sent, m, i - 1, Replying(s.chain[i - 1].phase.msg, true));
    }
  }

  lemma ReplyMoves(s: State, i: nat)
    requires CanReply(s, i) && (i == 0 ==> !s.client.Pending?)
    ensures OnlyMoves(s, DoReply(s, i))
  {
  }

  lemma ReplyKeeps(s: State, i: nat)
    requires Inv(s) && CanReply(s, i)
    ensures Inv(DoReply(s, i))
  {
    var t := DoReply(s, i);
    if Settled(s) {
      if i == 0 && s.client.Pending? {
        HeadReplyKeeps(s);
      } else {
        ReplySettled(s, i);
        ReplyMoves(s, i);
        CoreFrame(s, t);
        SettledInv(t);
      }
    } else {
      var b, sent, m :| InFlight(s, b, sent, m);
      ReplyInFlight(s, b, sent, m, i);
      ReplyMoves(s, i);
      CoreFrame(s, t);
      InFlightInv(t, b, sent, m);
    }
  }

  // ---------- Links and readers ----------

  /** Links and readers do not matter to the phases. */
  ghost predicate SamePhases(s: State, t: State) {
    && s.chain != [] && SameData(s.chain, t.chain) && |t.joiners| == |s.joiners|
    && (forall i :: 0 <= i < |s.chain| ==> t.chain[i].phase == s.chain[i].phase)
    && (forall j :: 0 <= j < |s.joiners| ==> t.joiners[j].inbox == s.joiners[j].inbox)
    && t.client == s.client && t.order == s.order && t.sent == s.sent && t.abandoned == s.abandoned
  }

  lemma SettledFrame(s: State, t: State)
    requires SamePhases(s, t) && Settled(s)
    ensures Settled(t)
  {
    assert Base(t) == Base(s) && Now(t) == Now(s);
    if NewAtHead(s) {
      assert NewAtHead(t);
    } else {
      assert AllNoise(t) && ClientSettled(t);
    }
  }

  lemma InFlightFrame(s: State, t: State, b: nat, sent: bool, m: Message)
    requires SamePhases(s, t) && InFlight(s, b, sent, m)
    ensures InFlight(t, b, sent, m)
  {
    assert Base(t) == Base(s) && Now(t) == Now(s);
  }

  lemma PhaseFrame(s: State, t: State)
    requires Inv(s) && SamePhases(s, t) && Data(t) && History(t)
    ensures Inv(t)
  {
    if Settled(s) {
      SettledFrame(s, t);
      SettledInv(t);
    } else {
      var b, sent, m :| InFlight(s, b, sent, m);
      InFlightFrame(s, t, b, sent, m);
      InFlightInv(t, b, sent, m);
    }
  }

  lemma WatchMoves(s: State, i: nat, ok: bool)
    requires CanWatch(s, i, ok)
    ensures OnlyMoves(s, DoWatch(s, i, ok)) && SamePhases(s, DoWatch(s, i, ok))
  {
  }

  lemma WatchKeeps(s: State, i: nat, ok: bool)
    requires Inv(s) && CanWatch(s, i, ok)
    ensures Inv(DoWatch(s, i, ok))
  {
    WatchMoves(s, i, ok);
    CoreFrame(s, DoWatch(s, i, ok));
    PhaseFrame(s, DoWatch(s, i, ok));
  }

  lemma WatchJoinerMoves(s: State, j: nat, ok: bool)
    requires s.chain != [] && CanWatchJoiner(s, j, ok)
    ensures OnlyMoves(s, DoWatchJoiner(s, j, ok)) && SamePhases(s, DoWatchJoiner(s, j, ok))
  {
  }

  lemma WatchJoinerKeeps(s: State, j: nat, ok: bool)
    requires Inv(s) && CanWatchJoiner(s, j, ok)
    ensures Inv(DoWatchJoiner(s, j, ok))
  {
    WatchJoinerMoves(s, j, ok);
    CoreFrame(s, DoWatchJoiner(s, j, ok));
    PhaseFrame(s, DoWatchJoiner(s, j, ok));
  }

  lemma ReaderFrame(s: State, t: State)
    requires Inv(s) && t == s.(links := t.links, requests := t.requests, clock := s.clock + 1)
    requires forall id :: id in t.requests ==>
      (id in s.requests && t.requests[id] == s.requests[id]) || t.requests[id].begin == s.clock
    ensures Inv(t)
  {
    HistoryFrame(s, t);
    ReaderData(s, t);
    PhaseFrame(s, t);
  }

  lemma ReaderData(s: State, t: State)
    requires Data(s) && t == s.(links := t.links, requests := t.requests, clock := s.clock + 1)
    ensures Data(t) && SamePhases(s, t)
  {
  }

  lemma TailHasNow(s: State)
    requires Inv(s)
    ensures Tail(s).table == Now(s)
  {
  }

  lemma ReadServeFits(s: State, id: nat)
    requires CanRead(s, id) && ReadSafe(s, id) && Tail(s).table == Now(s)
    ensures Fits(s.order, ReadAnswer(s, id), |s.order|)
  {
    assert s.order[..|s.order|] == s.order;
  }

  lemma ReadServeHistory(s: State, id: nat, t: State)
    requires History(s) && CanRead(s, id) && Fits(s.order, ReadAnswer(s, id), |s.order|) && t == DoReadServe(s, id)
    ensures History(t)
  {
    HistoryRead(s, t, ReadAnswer(s, id));
  }

  lemma ReadServeData(s: State, id: nat, t: State)
    requires Data(s) && CanRead(s, id) && t == DoReadServe(s, id)
    ensures Data(t) && SamePhases(s, t)
  {
  }

  lemma ReadServeKeeps(s: State, id: nat)
    requires Inv(s) && CanRead(s, id) && ReadSafe(s, id)
    ensures Inv(DoReadServe(s, id))
  {
    var t := DoReadServe(s, id);
    TailHasNow(s);
    ReadServeFits(s, id);
    ReadServeHistory(s, id, t);
    ReadServeData(s, id, t);
    PhaseFrame(s, t);
  }

  // ---------- Crashes ----------

  lemma CrashNames(s: State, c: nat)
    requires Names(s) && CanCrash(s, c)
    ensures Names(DoCrash(s, c))
  {
  }

  /** What a crash does to the history if no write takes effect by it. */
  lemma CrashHistory(s: State, c: nat, t: State)
    requires History(s) && CanCrash(s, c) && t == DoCrash(s, c) && t.order == s.order
    ensures History(t)
  {
    if c == 0 {
      HistoryAbandon(s, t);
    } else {
      HistoryFrame(s, t);
    }
  }

  lemma CrashSettled(s: State, c: nat)
    requires s.chain != [] && Settled(s) && CanCrash(s, c)
    ensures var t := DoCrash(s, c); t.order == s.order && Base(t) == Base(s) && Settled(t)
  {
    var t := DoCrash(s, c);
    assert Base(t) == Base(s) && Now(t) == Now(s);
    if NewAtHead(s) && c > 0 {
      assert NewAtHead(t);
    } else {
      assert AllNoise(t) && ClientSettled(t);
    }
  }

  lemma CrashSettledKeeps(s: State, c: nat)
    requires Data(s) && History(s) && Settled(s) && CanCrash(s, c)
    ensures Inv(DoCrash(s, c))
  {
    var t := DoCrash(s, c);
    CrashSettled(s, c);
    CrashNames(s, c);
    CrashHistory(s, c, t);
    SettledInv(t);
  }

  /** The tail stops while it is the only server that lacks the write: the write takes effect. */
  lemma CrashCommits(s: State, sent: bool, m: Message)
    requires s.chain != [] && CanCrash(s, |s.chain| - 1) && InFlight(s, |s.chain| - 1, sent, m)
    ensures var t := DoCrash(s, |s.chain| - 1);
            t.order == s.order + [m] && Base(t) == Base(s) + [m] && Settled(t)
  {
    var t := DoCrash(s, |s.chain| - 1);
    ChangeFacts(Now(s), m.op);
    ResultAppend(s.order, m);
    assert t.order == s.order + [m] && t.order[|s.order|] == m;
    assert Now(t) == Then(s, m);
    assert AllNoise(t) && ClientSettled(t);
  }

  lemma CrashCommitsKeeps(s: State, sent: bool, m: Message, t: State)
    requires Data(s) && History(s) && CanCrash(s, |s.chain| - 1) && InFlight(s, |s.chain| - 1, sent, m)
    requires t == DoCrash(s, |s.chain| - 1)
    ensures Data(t) && History(t) && Settled(t)
  {
    CrashCommits(s, sent, m);
    CrashNames(s, |s.chain| - 1);
    ChangeFacts(Now(s), m.op);
    DataCommit(s, t, m);
    HistoryEffect(s, t, m);
  }

  /** The head stops before any other server has the write: the write is dropped. */
  lemma CrashDrops(s: State, b: nat, sent: bool, m: Message)
    requires s.chain != [] && CanCrash(s, 0) && InFlight(s, b, sent, m) && (b == 0 || (b == 1 && !sent))
    ensures var t := DoCrash(s, 0); t.order == s.order && Base(t) == Base(s) && Settled(t)
  {
    var t := DoCrash(s, 0);
    assert Base(t) == Base(s) && Now(t) == Now(s);
    assert AllNoise(t) && ClientSettled(t);
  }

  lemma CrashHeadInFlight(s: State, b: nat, sent: bool, m: Message)
    requires s.chain != [] && CanCrash(s, 0) && InFlight(s, b, sent, m) && b > 0 && (b > 1 || sent)
    ensures var t := DoCrash(s, 0); t.order == s.order && Base(t) == Base(s) && InFlight(t, b - 1, sent, m)
  {
    var t := DoCrash(s, 0);
    assert Base(t) == Base(s) && Now(t) == Now(s);
  }

  lemma CrashBelowInFlight(s: State, b: nat, sent: bool, m: Message, c: nat)
    requires s.chain != [] && CanCrash(s, c) && InFlight(s, b, sent, m) && c > 0
    requires b < c || (b == c && !sent && c < |s.chain| - 1)
    ensures var t := DoCrash(s, c); t.order == s.order && Base(t) == Base(s) && InFlight(t, b, sent, m)
  {
    var t := DoCrash(s, c);
    assert Base(t) == Base(s) && Now(t) == Now(s);
  }

  /** Where a safe crash can hit while a write is on its way down. */
  lemma SafeCrashPlaces(s: State, b: nat, sent: bool, m: Message, c: nat)
    requires s.chain != [] && CanCrash(s, c) && InFlight(s, b, sent, m)
    ensures CrashSafe(s, c) <==> (c == 0 || c == |s.chain| - 1 || b < c || (b == c && !sent))
  {
    NotInOrder(s, b, sent, m);
  }

  lemma CrashInFlightKeeps(s: State, b: nat, sent: bool, m: Message, c: nat)
    requires Data(s) && History(s) && InFlight(s, b, sent, m) && CanCrash(s, c) && CrashSafe(s, c)
    ensures Inv(DoCrash(s, c))
  {
    SafeCrashPlaces(s, b, sent, m, c);
    var t := DoCrash(s, c);
    if c == |s.chain| - 1 && b == c {
      CrashCommitsKeeps(s, sent, m, t);
      SettledInv(t);
    } else {
      CrashNames(s, c);
      if c > 0 {
        CrashBelowInFlight(s, b, sent, m, c);
        CrashHistory(s, c, t);
        InFlightInv(t, b, sent, m);
      } else if b == 0 || (b == 1 && !sent) {
        CrashDrops(s, b, sent, m);
        CrashHistory(s, c, t);
        SettledInv(t);
      } else {
        CrashHeadInFlight(s, b, sent, m);
        CrashHistory(s, c, t);
        InFlightInv(t, b - 1, sent, m);
      }
    }
  }

  lemma CrashKeeps(s: State, c: nat)
    requires Inv(s) && CanCrash(s, c) && CrashSafe(s, c)
    ensures Inv(DoCrash(s, c))
  {
    if Settled(s) {
      CrashSettledKeeps(s, c);
    } else {
      var b, sent, m :| InFlight(s, b, sent, m);
      CrashInFlightKeeps(s, b, sent, m, c);
    }
  }

  // ---------- Joiners ----------

  /** Joiners come and go without a trace as long as none gets a message. */
  ghost predicate OnlyJoiners(s: State, t: State) {
    && t.chain == s.chain && t.client == s.client && t.order == s.order && t.sent == s.sent
    && t.abandoned == s.abandoned && t.done == s.done && t.places == s.places && t.requests == s.requests
    && t.clock == s.clock + 1
    && forall j :: 0 <= j < |t.joiners| ==> t.joiners[j] in s.joiners || t.joiners[j].inbox.None?
  }

  lemma JoinersSettled(s: State, t: State)
    requires s.chain != [] && OnlyJoiners(s, t) && Settled(s)
    ensures Settled(t)
  {
    assert Base(t) == Base(s) && Now(t) == Now(s);
    if NewAtHead(s) {
      assert NewAtHead(t);
    } else {
      assert AllNoise(t) && ClientSettled(t);
    }
  }

  lemma JoinersInFlight(s: State, t: State, b: nat, sent: bool, m: Message)
    requires s.chain != [] && OnlyJoiners(s, t) && InFlight(s, b, sent, m)
    ensures InFlight(t, b, sent, m)
  {
    assert Base(t) == Base(s) && Now(t) == Now(s);
  }

  lemma JoinersFrame(s: State, t: State)
    requires Inv(s) && OnlyJoiners(s, t) && Data(t)
    ensures Inv(t)
  {
    HistoryFrame(s, t);
    if Settled(s) {
      JoinersSettled(s, t);
      SettledInv(t);
    } else {
      var b, sent, m :| InFlight(s, b, sent, m);
      JoinersInFlight(s, t, b, sent, m);
      InFlightInv(t, b, sent, m);
    }
  }

  lemma JoinData(s: State)
    requires Data(s)
    ensures Data(DoJoin(s)) && OnlyJoiners(s, DoJoin(s))
  {
  }

  lemma JoinerCrashData(s: State, j: nat)
    requires Data(s) && j < |s.joiners|
    ensures Data(DoJoinerCrash(s, j)) && OnlyJoiners(s, DoJoinerCrash(s, j))
  {
  }

  lemma SnapshotData(s: State)
    requires Data(s) && CanSnapshot(s)
    ensures Data(DoSnapshot(s)) && Base(DoSnapshot(s)) == Base(s)
  {
  }

  lemma SnapshotSettled(s: State)
    requires s.chain != [] && Settled(s) && CanSnapshot(s)
    ensures Settled(DoSnapshot(s))
  {
    var t := DoSnapshot(s);
    assert Base(t) == Base(s) && Now(t) == Now(s);
    assert InboxStale(s.joiners[0], s.order);
    if NewAtHead(s) {
      assert Perform(Now(s), s.client.op).ok ==> InboxSpares(s.joiners[0], Perform(Now(s), s.client.op).store);
      assert NewAtHead(t);
    } else {
      assert AllNoise(t) && ClientSettled(t);
    }
  }

  lemma SnapshotInFlight(s: State, b: nat, sent: bool, m: Message)
    requires s.chain != [] && InFlight(s, b, sent, m) && CanSnapshot(s)
    ensures InFlight(DoSnapshot(s), b, sent, m)
  {
    var t := DoSnapshot(s);
    assert Base(t) == Base(s) && Now(t) == Now(s);
    assert InboxStale(s.joiners[0], s.order) && InboxSpares(s.joiners[0], Then(s, m));
  }

  lemma SnapshotKeeps(s: State)
    requires Inv(s) && CanSnapshot(s)
    ensures Inv(DoSnapshot(s))
  {
    var t := DoSnapshot(s);
    SnapshotData(s);
    HistoryFrame(s, t);
    if Settled(s) {
      SnapshotSettled(s);
      SettledInv(t);
    } else {
      var b, sent, m :| InFlight(s, b, sent, m);
      SnapshotInFlight(s, b, sent, m);
      InFlightInv(t, b, sent, m);
    }
  }

  // ---------- All steps and all runs ----------

  lemma JoinerStepKeeps(s: State, step: Step)
    requires Inv(s) && Enabled(s, step) && (step.Join? || step.JoinerCrash? || step.Snapshot? || step.WatchJoiner?)
    ensures Inv(Apply(s, step))
  {
    match step
    case Join =>
      JoinData(s);
      JoinersFrame(s, DoJoin(s));
    case JoinerCrash(j) =>
      JoinerCrashData(s, j);
      JoinersFrame(s, DoJoinerCrash(s, j));
    case Snapshot => SnapshotKeeps(s);
    case WatchJoiner(j, ok) => WatchJoinerKeeps(s, j, ok);
  }

  lemma ReaderMoves(s: State, step: Step)
    requires Enabled(s, step) && (step.Relink? || step.ReadBegin? || step.ReadFail?)
    ensures var t := Apply(s, step);
            && t == s.(links := t.links, requests := t.requests, clock := s.clock + 1)
            && forall id :: id in t.requests ==>
                 (id in s.requests && t.requests[id] == s.requests[id]) || t.requests[id].begin == s.clock
  {
  }

  lemma ReaderStepKeeps(s: State, step: Step)
    requires Inv(s) && Enabled(s, step) && Timely(s, step)
    requires step.Relink? || step.ReadBegin? || step.ReadServe? || step.ReadFail?
    ensures Inv(Apply(s, step))
  {
    if step.ReadServe? {
      ReadServeKeeps(s, step.id);
    } else {
      ReaderMoves(s, step);
      ReaderFrame(s, Apply(s, step));
    }
  }

  lemma WriteStepKeeps(s: State, step: Step)
    requires Inv(s) && Enabled(s, step) && Timely(s, step)
    requires step.ClientSend? || step.Invoke? || step.Forward? || step.WaitFail? || step.Reply?
    ensures Inv(Apply(s, step))
  {
    match step
    case ClientSend(op) => SendKeeps(s, op);
    case Invoke(i) => InvokeKeeps(s, i);
    case Forward(i) => ForwardKeeps(s, i);
    case WaitFail(i) => WaitFailKeeps(s, i);
    case Reply(i) => ReplyKeeps(s, i);
  }

  /** Every timely step keeps the invariant. */
  lemma StepKeeps(s: State, step: Step)
    requires Inv(s) && Enabled(s, step) && Timely(s, step)
    ensures Inv(Apply(s, step))
  {
    if step.Watch? {
      WatchKeeps(s, step.i, step.ok);
    } else if step.Crash? {
      CrashKeeps(s, step.i);
    } else if step.Join? || step.JoinerCrash? || step.Snapshot? || step.WatchJoiner? {
      JoinerStepKeeps(s, step);
    } else if step.Relink? || step.ReadBegin? || step.ReadServe? || step.ReadFail? {
      ReaderStepKeeps(s, step);
    } else {
      WriteStepKeeps(s, step);
    }
  }

  lemma {:induction false} RunKeeps(s: State, steps: seq<Step>, t: State)
    requires Inv(s) && Run(s, steps, t)
    ensures Inv(t)
    decreases |steps|
  {
    if steps != [] {
      StepKeeps(s, steps[0]);
      RunKeeps(Apply(s, steps[0]), steps[1..], t);
    }
  }
}
