/** The timing assumptions about crashes and forwards are exact: after a step that breaks them the head has a write that
    the tail lacks and can never be told of. Users notice sooner or later: the head can answer the same write again and
    again while readers at the tail see the store without it. */
module ChainExact {
  import opened Options
  import opened Store
  import opened Chain
  import opened ChainHistory
  import opened ChainInvariant
  import opened ChainLinks
  import opened ChainRuns
  import opened ChainSafety

  // ---------- Answers that contradict each other ----------

  /** The write was carried out, or refused. */
  predicate Acks(d: Done, op: Write) {
    !d.ReadDone? && d.op == op
  }

  predicate Shows(d: Done, m: Map) {
    d.ReadDone? && d.q == Table && d.answer == Whole(m)
  }

  /** From the answer number k on there are n rounds, one after the other: an answer to op, and a reader who is shown
      the store m. */
  ghost predicate Alternates(done: seq<Done>, k: nat, n: nat, op: Write, m: Map)
    decreases n
  {
    n > 0 ==>
      && k + 1 < |done| && Acks(done[k], op) && Shows(done[k + 1], m) && done[k].end < done[k + 1].begin
      && Alternates(done, k + 2, n - 1, op, m)
      && (n > 1 ==> done[k + 1].end < done[k + 2].begin)
  }

  lemma {:induction false} EachOk(w: seq<Message>, p: nat)
    requires AllOk(Ops(w)) && p < |w|
    ensures Perform(Result(w[..p]), w[p].op).ok
    ensures Result(w[..p + 1]) == Perform(Result(w[..p]), w[p].op).store
    decreases |w|
  {
    var k := |w| - 1;
    assert w[..k] + [w[k]] == w;
    ResultAppend(w[..k], w[k]);
    if p < k {
      EachOk(w[..k], p);
      assert w[..k][..p] == w[..p] && w[..k][..p + 1] == w[..p + 1];
    } else {
      assert w[..p + 1] == w;
    }
  }

  /** The store that op would change is not there where op has just been answered. */
  lemma NotBoth(w: seq<Message>, d: Done, e: Done, at: nat, op: Write, m: Map)
    requires AllOk(Ops(w)) && Acks(d, op) && Shows(e, m) && !Same(m, op)
    ensures !(Fits(w, d, at) && Fits(w, e, at))
  {
    ChangeFacts(m, op);
    if Fits(w, d, at) && d.WriteDone? {
      EachOk(w, at - 1);
      NotBackAtOnce(m, op, Result(w[..at - 1]));
    }
  }

  lemma StepUp(sent: seq<Call>, done: seq<Done>, w: seq<Message>, at: seq<nat>, k: nat, op: Write, m: Map)
    requires Explains(sent, done, w, at) && !Same(m, op) && k + 1 < |done| && done[k].end < done[k + 1].begin
    requires (Acks(done[k], op) && Shows(done[k + 1], m)) || (Shows(done[k], m) && Acks(done[k + 1], op))
    ensures at[k] < at[k + 1] <= |w|
  {
    assert Fits(w, done[k], at[k]) && Fits(w, done[k + 1], at[k + 1]);
    assert Before(at[k], done[k + 1], at[k + 1]);
    if Acks(done[k], op) {
      NotBoth(w, done[k], done[k + 1], at[k], op, m);
    } else {
      NotBoth(w, done[k + 1], done[k], at[k], op, m);
    }
  }

  /** Each of these answers has a place of its own in an explanation. */
  lemma {:induction false} Climb(sent: seq<Call>, done: seq<Done>, w: seq<Message>, at: seq<nat>, k: nat, n: nat,
      op: Write, m: Map)
    requires Explains(sent, done, w, at) && !Same(m, op) && n > 0 && Alternates(done, k, n, op, m)
    ensures |w| >= at[k] + 2 * n - 1
    decreases n
  {
    StepUp(sent, done, w, at, k, op, m);
    if n > 1 {
      StepUp(sent, done, w, at, k + 1, op, m);
      Climb(sent, done, w, at, k + 2, n - 1, op, m);
    }
  }

  lemma {:induction false} FewWrites(w: seq<Message>, n: nat)
    requires Different(w) && forall p :: 0 <= p < |w| ==> w[p].id < n
    ensures |w| <= n
    decreases n
  {
    if w != [] {
      assert 0 <= w[0].id < n;
      if p :| 0 <= p < |w| && w[p].id == n - 1 {
        FewWrites(Without(w, p), n - 1);
      } else {
        FewWrites(w, n - 1);
      }
    }
  }

  /** With more rounds than there were calls before there are not enough writes for all these places. */
  lemma RoundsUnexplained(sent: seq<Call>, done: seq<Done>, k: nat, n: nat, op: Write, m: Map)
    requires Alternates(done, k, n, op, m) && !Same(m, op) && 2 * n > |sent| + 1
    ensures forall w, at :: !Explains(sent, done, w, at)
  {
    forall w, at ensures !Explains(sent, done, w, at) {
      if Explains(sent, done, w, at) {
        Climb(sent, done, w, at, k, n, op, m);
        FewWrites(w, |sent|);
      }
    }
  }

  // ---------- A head that is cut off ----------

  /** The idle head has applied op, and the tail, which op would change, has the store m. The head is linked to nobody
      who is alive, and op does not interfere with what others hold. */
  ghost predicate CutOff(s: State, op: Write, m: Map) {
    && |s.chain| > 1 && s.client.Ready? && s.chain[0].phase.Idle?
    && (s.chain[0].succ.Some? ==> !Alive(s, s.chain[0].succ.value))
    && Tail(s).table == m && s.chain[0].table == Perform(m, op).store && !Same(m, op) && SendSafe(s, op)
  }

  /** The history goes on with one more call and its answer; chain and joiners are as before. */
  ghost predicate OneMoreCall(s: State, t: State, op: Write, d: Done) {
    && t.chain == s.chain && t.joiners == s.joiners && t.client == s.client
    && t.sent == s.sent + [Call(op, s.clock)] && t.done == s.done + [d]
    && Acks(d, op) && s.clock <= d.begin <= d.end < t.clock
  }

  /** The head has applied op again, which changed nothing, and so op counts as done. */
  lemma PutApplied(s: State, op: Write, m: Map) returns (t: State)
    requires CutOff(s, op, m) && op.Put?
    ensures Leads(s, t)
    ensures t == s.(chain := AtPhase(s.chain, 0, Invoked(Message(|s.sent|, op))),
                    client := Pending(|s.sent|, op, s.clock), sent := s.sent + [Call(op, s.clock)],
                    order := s.order + [Message(|s.sent|, op)], clock := s.clock + 2)
  {
    ChangeFacts(m, op);
    var u := DoSend(s, op);
    t := DoInvoke(u, 0);
    StepLeads(u, Invoke(0), t);
    ThenLeads(s, ClientSend(op), t);
  }

  lemma HeadAnswers(s: State, m: Message) returns (t: State, d: Done)
    requires |s.chain| > 1 && s.chain[0].phase == Invoked(m) && s.client.Pending? && m in s.order
    requires s.chain[0].succ.Some? ==> !Alive(s, s.chain[0].succ.value)
    ensures Leads(s, t)
    ensures d == WriteDone(s.client.id, s.client.op, s.client.begin, s.clock + 1)
    ensures t == s.(chain := AtPhase(s.chain, 0, Idle), client := Ready, done := s.done + [d],
                    places := s.places + [|s.order|], clock := s.clock + 2)
  {
    var u := DoForward(s, 0);
    t := DoReply(u, 0);
    d := HeadAnswer(u);
    StepLeads(u, Reply(0), t);
    ThenLeads(s, Forward(0), t);
  }

  /** A delete that finds nothing is refused by the head alone. */
  lemma DelAgain(s: State, op: Write, m: Map)
    requires CutOff(s, op, m) && op.Del?
    ensures exists t, d :: Leads(s, t) && OneMoreCall(s, t, op, d)
  {
    ChangeFacts(m, op);
    var s1 := DoSend(s, op);
    var s2 := DoInvoke(s1, 0);
    var t := DoReply(s2, 0);
    assert t.chain == s.chain;
    assert OneMoreCall(s, t, op, HeadAnswer(s2));
    StepLeads(s2, Reply(0), t);
    ThenLeads(s1, Invoke(0), t);
    ThenLeads(s, ClientSend(op), t);
  }

  /** So is a put that changes nothing. */
  lemma CallAgain(s: State, op: Write, m: Map)
    requires CutOff(s, op, m)
    ensures exists t, d :: Leads(s, t) && OneMoreCall(s, t, op, d)
  {
    if op.Put? {
      var u := PutApplied(s, op, m);
      assert u.order[|s.order|] == Message(|s.sent|, op);
      var t, d := HeadAnswers(u, Message(|s.sent|, op));
      assert t.chain == s.chain;
      LeadsOn(s, u, t);
      assert OneMoreCall(s, t, op, d);
    } else {
      DelAgain(s, op, m);
    }
  }

  /** The reader comes after the answer, and the head is still cut off. */
  lemma RoundShows(s: State, u: State, t: State, op: Write, m: Map, d: Done, e: Done)
    requires CutOff(s, op, m) && OneMoreCall(s, u, op, d)
    requires t.chain == u.chain && t.client == u.client && t.joiners == [] && t.sent == u.sent
    requires t.done == u.done + [e] && e.ReadDone? && e.q == Table && e.answer == Ask(Tail(u).table, Table)
    ensures CutOff(t, op, m) && |t.sent| == |s.sent| + 1 && t.done == s.done + [d, e]
    ensures Acks(d, op) && Shows(e, m) && s.clock <= d.begin && d.end < u.clock
  {
  }

  /** One round: the head answers, and then a reader is shown the tail's table. */
  lemma OneRound(s: State, op: Write, m: Map) returns (t: State, d: Done, e: Done)
    requires CutOff(s, op, m)
    ensures Leads(s, t) && CutOff(t, op, m) && |t.sent| == |s.sent| + 1 && t.done == s.done + [d, e]
    ensures Acks(d, op) && Shows(e, m) && s.clock <= d.begin && d.end < e.begin && e.end < t.clock
  {
    CallAgain(s, op, m);
    var u, ack :| Leads(s, u) && OneMoreCall(s, u, op, ack);
    var begin;
    d := ack;
    t, begin := SomebodyReads(u, Table);
    e := ReadDone(Table, Ask(Tail(u).table, Table), begin, begin + 1);
    RoundShows(s, u, t, op, m, d, e);
    LeadsOn(s, u, t);
  }

  lemma {:induction false} ManyRounds(s: State, op: Write, m: Map, n: nat) returns (t: State)
    requires CutOff(s, op, m)
    ensures Leads(s, t) && |t.sent| == |s.sent| + n && |t.done| == |s.done| + 2 * n && s.done <= t.done
    ensures Alternates(t.done, |s.done|, n, op, m) && (n > 0 ==> t.done[|s.done|].begin >= s.clock)
    decreases n
  {
    if n == 0 {
      t := s;
      Stays(s);
    } else {
      var u, d, e := OneRound(s, op, m);
      t := ManyRounds(u, op, m, n - 1);
      assert t.done[|s.done|] == u.done[|s.done|] == d && t.done[|s.done| + 1] == u.done[|s.done| + 1] == e;
      LeadsOn(s, u, t);
    }
  }

  /** The head has a write that the tail lacks, and will not be told of. */
  ghost predicate Lost(s: State) {
    exists op, m :: CutOff(s, op, m)
  }

  lemma LostBreaks(s: State)
    requires Lost(s)
    ensures !AlwaysLinearizable(s)
  {
    var op, m :| CutOff(s, op, m);
    var n := |s.sent| + 2;
    var t := ManyRounds(s, op, m, n);
    RoundsUnexplained(t.sent, t.done, |s.done|, n, op, m);
    BadRun(s, t);
  }

  // ---------- Answers travel up ----------

  predicate WaitsForNext(c: seq<Server>, k: nat) {
    k + 1 < |c| && c[k].phase.Waiting? && c[k].phase.on == c[k + 1].name
  }

  /** Server i is about to answer, and everybody above it is waiting for the answer of the next one. */
  ghost predicate Unwinding(s: State, i: nat) {
    && i + 1 < |s.chain| && s.chain[i].phase.Replying? && forall k :: 0 <= k < i ==> WaitsForNext(s.chain, k)
  }

  /** The head, idle, and the servers below server i. */
  function HeadAndBelow(c: seq<Server>, i: nat): seq<Server>
    requires i < |c|
  {
    [c[0].(phase := Idle)] + c[i + 1..]
  }

  ghost predicate Unwound(s: State, i: nat, t: State)
    requires i < |s.chain|
  {
    t.chain == HeadAndBelow(s.chain, i) && t.joiners == s.joiners && t.client.Ready?
  }

  /** Server i answers and stops. */
  lemma OneUp(s: State, i: nat) returns (t: State)
    requires Unwinding(s, i) && i > 0
    ensures Leads(s, t) && Unwinding(t, i - 1)
    ensures t.chain[0].(phase := Idle) == s.chain[0].(phase := Idle) && t.chain[i..] == s.chain[i + 1..]
    ensures t.joiners == s.joiners
  {
    assert WaitsForNext(s.chain, i - 1);
    var u := DoReply(s, i);
    t := DoCrash(u, i);
    StepLeads(u, Crash(i), t);
    ThenLeads(s, Reply(i), t);
    forall k | 0 <= k < i - 1 ensures WaitsForNext(t.chain, k) {
      assert WaitsForNext(s.chain, k);
    }
  }

  /** The answers travel up, and those who have answered stop. */
  lemma {:induction false} Unwind(s: State, i: nat)
    requires Unwinding(s, i)
    ensures exists t :: Leads(s, t) && Unwound(s, i, t)
    decreases i
  {
    if i == 0 {
      StepLeads(s, Reply(0), DoReply(s, 0));
      assert Unwound(s, i, DoReply(s, 0));
    } else {
      var u := OneUp(s, i);
      Unwind(u, i - 1);
      var t :| Leads(u, t) && Unwound(u, i - 1, t);
      LeadsOn(s, u, t);
      assert Unwound(s, i, t);
    }
  }

  /** What is left when the answers have travelled up and those who answered have stopped. */
  function Remains(s: State, i: nat): State
    requires i < |s.chain|
  {
    s.(chain := HeadAndBelow(s.chain, i), client := Ready)
  }

  lemma LostStays(s: State, t: State)
    requires Lost(s) && t.chain == s.chain && t.joiners == s.joiners && t.client == s.client
    ensures Lost(t)
  {
    var op, m :| CutOff(s, op, m);
    assert CutOff(t, op, m);
  }

  /** A server is about to answer although this leaves the head cut off. */
  ghost predicate AnswersTooEarly(s: State) {
    exists i :: Unwinding(s, i) && Lost(Remains(s, i))
  }

  lemma EarlyAnswerBreaks(s: State)
    requires AnswersTooEarly(s)
    ensures !AlwaysLinearizable(s)
  {
    var i :| Unwinding(s, i) && Lost(Remains(s, i));
    Unwind(s, i);
    var t :| Leads(s, t) && Unwound(s, i, t);
    LostStays(Remains(s, i), t);
    LostBreaks(t);
    BadAfter(s, t);
  }

  // ---------- What an unsafe step cuts off ----------

  /** The head's link does not reach beyond the servers that are gone. */
  lemma LinkIsDead(s: State, i: nat, t: State)
    requires Names(s) && Links(s) && i + 1 < |s.chain|
    requires i == 0 && s.chain[0].succ.Some? ==> !Alive(s, s.chain[0].succ.value)
    requires t.chain == HeadAndBelow(s.chain, i) && t.joiners == s.joiners
    ensures t.chain[0].succ.Some? ==> !Alive(t, t.chain[0].succ.value)
  {
    if t.chain[0].succ.Some? {
      var n := t.chain[0].succ.value;
      assert s.chain[0].name < n && (i > 0 ==> n <= s.chain[1].name);
      forall k | 0 <= k < |t.chain| ensures t.chain[k].name != n {
        if k > 0 {
          assert t.chain[k] == s.chain[i + k];
        }
      }
      assert i == 0 ==> IndexOf(s.chain, n) < 0 && JoinerIndexOf(s.joiners, n) < 0;
      assert forall j :: 0 <= j < |s.joiners| ==> s.joiners[j].name != n;
    }
  }

  lemma BelowSpares(s: State, b: nat, sent: bool, m: Message, i: nat, t: State)
    requires s.chain != [] && InFlight(s, b, sent, m) && i + 1 < |s.chain|
    requires t.chain == HeadAndBelow(s.chain, i) && t.joiners == s.joiners
    ensures Tail(t).table == Now(s) && SendSafe(t, m.op)
  {
    ChangeFacts(Now(s), m.op);
    assert Tail(t) == Tail(s);
    forall k | 0 < k < |t.chain| ensures Spares(t.chain[k].phase, Then(s, m)) {
      assert t.chain[k] == s.chain[i + k];
      PhaseSpares(s, b, sent, m, i + k);
    }
  }

  lemma PhaseSpares(s: State, b: nat, sent: bool, m: Message, k: nat)
    requires s.chain != [] && InFlight(s, b, sent, m) && k < |s.chain|
    ensures Spares(s.chain[k].phase, Then(s, m))
  {
    ChangeFacts(Now(s), m.op);
    if k < b {
      assert s.chain[k].phase == PhaseAbove(s.chain, b, sent, m, k);
    }
  }

  /** Everything between the head and server i + 1 is gone, and the head has the write in flight. */
  lemma FlightIsLost(s: State, b: nat, sent: bool, m: Message, i: nat, t: State)
    requires Names(s) && Links(s) && b > 0 && i + 1 < |s.chain| && InFlight(s, b, sent, m)
    requires i == 0 && s.chain[0].succ.Some? ==> !Alive(s, s.chain[0].succ.value)
    requires t.chain == HeadAndBelow(s.chain, i) && t.joiners == s.joiners && t.client.Ready?
    ensures Lost(t)
  {
    LinkIsDead(s, i, t);
    BelowSpares(s, b, sent, m, i, t);
    assert CutOff(t, m.op, Now(s));
  }

  // ---------- Crashes ----------

  lemma GoneAfterCrash(s: State, c: nat)
    requires Names(s) && CanCrash(s, c)
    ensures !Alive(DoCrash(s, c), s.chain[c].name)
  {
  }

  lemma UnsafeCrashPlace(s: State, b: nat, sent: bool, m: Message, c: nat)
    requires s.chain != [] && CanCrash(s, c) && InFlight(s, b, sent, m) && !CrashSafe(s, c)
    ensures 0 < c < |s.chain| - 1 && c <= b
    ensures forall k :: 0 <= k < c ==> WaitsForNext(s.chain, k)
  {
    SafeCrashPlaces(s, b, sent, m, c);
    forall k | 0 <= k < c ensures WaitsForNext(s.chain, k) {
      assert s.chain[k].phase == PhaseAbove(s.chain, b, sent, m, k);
    }
  }

  /** The predecessor of a server that has stopped takes the broken connection for an answer. */
  lemma CrashUnwinds(s: State, c: nat) returns (t: State)
    requires Names(s) && CanCrash(s, c) && 0 < c < |s.chain| - 1
    requires forall k :: 0 <= k < c ==> WaitsForNext(s.chain, k)
    ensures Leads(DoCrash(s, c), t) && Unwinding(t, c - 1)
    ensures HeadAndBelow(t.chain, c - 1) == HeadAndBelow(s.chain, c) && t.joiners == s.joiners
  {
    var u := DoCrash(s, c);
    GoneAfterCrash(s, c);
    assert WaitsForNext(s.chain, c - 1);
    t := DoWaitFail(u, c - 1);
    StepLeads(u, WaitFail(c - 1), t);
    FailedWaitUnwinds(s, c, t);
  }

  lemma FailedWaitUnwinds(s: State, c: nat, t: State)
    requires 0 < c < |s.chain| - 1 && forall k :: 0 <= k < c ==> WaitsForNext(s.chain, k)
    requires s.chain[c - 1].phase.Waiting?
    requires t.chain == AtPhase(Without(s.chain, c), c - 1, Replying(s.chain[c - 1].phase.msg, true))
    ensures Unwinding(t, c - 1) && HeadAndBelow(t.chain, c - 1) == HeadAndBelow(s.chain, c)
  {
    forall k | 0 <= k < c - 1 ensures WaitsForNext(t.chain, k) {
      assert WaitsForNext(s.chain, k);
    }
  }

  lemma CrashLoses(s: State, b: nat, sent: bool, m: Message, c: nat)
    requires Names(s) && Links(s) && CanCrash(s, c) && InFlight(s, b, sent, m) && !CrashSafe(s, c)
    ensures exists t :: Leads(DoCrash(s, c), t) && AnswersTooEarly(t)
  {
    UnsafeCrashPlace(s, b, sent, m, c);
    var t := CrashUnwinds(s, c);
    FlightIsLost(s, b, sent, m, c, Remains(t, c - 1));
    assert AnswersTooEarly(t);
  }

  lemma CrashBreaks(s: State, b: nat, sent: bool, m: Message, c: nat)
    requires Names(s) && Links(s) && CanCrash(s, c) && InFlight(s, b, sent, m) && !CrashSafe(s, c)
    ensures !AlwaysLinearizable(DoCrash(s, c))
  {
    CrashLoses(s, b, sent, m, c);
    var t :| Leads(DoCrash(s, c), t) && AnswersTooEarly(t);
    EarlyAnswerBreaks(t);
    BadAfter(DoCrash(s, c), t);
  }

  lemma SettledCrashSafe(s: State, c: nat)
    requires s.chain != [] && Settled(s) && c < |s.chain|
    ensures CrashSafe(s, c)
  {
    assert c > 0 ==> Noise(s.chain[c].phase, s.order);
  }

  /** A crash is harmless in every continuation exactly when it is safe. */
  lemma CrashSafeIsExact(s: State, c: nat)
    requires Inv(s) && Links(s) && CanCrash(s, c)
    ensures CrashSafe(s, c) <==> AlwaysLinearizable(DoCrash(s, c))
  {
    if CrashSafe(s, c) {
      CrashKeeps(s, c);
      InvMeansAlways(DoCrash(s, c));
    } else if Settled(s) {
      SettledCrashSafe(s, c);
    } else {
      var b, sent, m :| InFlight(s, b, sent, m);
      CrashBreaks(s, b, sent, m, c);
    }
  }

  // ---------- Forwards ----------

  lemma UnsafeForwardPlace(s: State, b: nat, sent: bool, m: Message, i: nat)
    requires s.chain != [] && CanForward(s, i) && InFlight(s, b, sent, m) && !ForwardSafe(s, i)
    ensures i + 1 == b && s.chain[i].succ != Some(s.chain[b].name)
    ensures forall k :: 0 <= k < i ==> WaitsForNext(s.chain, k)
  {
    assert i >= b ==> Noise(s.chain[i].phase, s.order);
    ForwardSafeLink(s, b, sent, m, i);
    forall k | 0 <= k < i ensures WaitsForNext(s.chain, k) {
      assert s.chain[k].phase == PhaseAbove(s.chain, b, sent, m, k);
    }
  }

  /** The link is absent or broken, so the server answers at once. */
  lemma ForwardAnswers(s: State, i: nat, u: State)
    requires Names(s) && Links(s) && CanForward(s, i) && i + 1 < |s.chain|
    requires s.chain[i].succ != Some(s.chain[i + 1].name) && u == DoForward(s, i)
    ensures s.chain[i].succ.Some? ==> !Alive(s, s.chain[i].succ.value)
    ensures u == s.(chain := AtPhase(s.chain, i, Replying(s.chain[i].phase.msg, true)), clock := s.clock + 1)
  {
    if s.chain[i].succ.Some? && Alive(s, s.chain[i].succ.value) {
      LiveLinkIsNext(s, i);
    }
  }

  lemma AnswersUnwind(s: State, i: nat, m: Message, u: State)
    requires i + 1 < |s.chain| && forall k :: 0 <= k < i ==> WaitsForNext(s.chain, k)
    requires u == s.(chain := AtPhase(s.chain, i, Replying(m, true)), clock := s.clock + 1)
    ensures Unwinding(u, i) && HeadAndBelow(u.chain, i) == HeadAndBelow(s.chain, i)
  {
    forall k | 0 <= k < i ensures WaitsForNext(u.chain, k) {
      assert WaitsForNext(s.chain, k);
    }
  }

  lemma ForwardBreaks(s: State, b: nat, sent: bool, m: Message, i: nat)
    requires Names(s) && Links(s) && s.chain != [] && CanForward(s, i) && InFlight(s, b, sent, m) && !ForwardSafe(s, i)
    ensures !AlwaysLinearizable(DoForward(s, i))
  {
    var u := DoForward(s, i);
    UnsafeForwardPlace(s, b, sent, m, i);
    ForwardAnswers(s, i, u);
    AnswersUnwind(s, i, s.chain[i].phase.msg, u);
    FlightIsLost(s, b, sent, m, i, Remains(u, i));
    EarlyAnswerBreaks(u);
  }

  lemma SettledForwardSafe(s: State, i: nat)
    requires s.chain != [] && Settled(s) && CanForward(s, i)
    ensures ForwardSafe(s, i)
  {
    assert Noise(s.chain[i].phase, s.order);
  }

  /** A forward is harmless in every continuation exactly when it is safe. */
  lemma ForwardSafeIsExact(s: State, i: nat)
    requires Inv(s) && Links(s) && CanForward(s, i)
    ensures ForwardSafe(s, i) <==> AlwaysLinearizable(DoForward(s, i))
  {
    if ForwardSafe(s, i) {
      ForwardKeeps(s, i);
      InvMeansAlways(DoForward(s, i));
    } else if Settled(s) {
      SettledForwardSafe(s, i);
    } else {
      var b, sent, m :| InFlight(s, b, sent, m);
      ForwardBreaks(s, b, sent, m, i);
    }
  }

  lemma ReachableLinks(s: State)
    requires Reachable(s)
    ensures Links(s)
  {
    var n: nat :| n > 0 && Leads(Init(n), s);
    var steps :| Run(Init(n), steps, s);
    InitInv(n);
    InitLinks(n);
    RunLinks(Init(n), steps, s);
  }
}
