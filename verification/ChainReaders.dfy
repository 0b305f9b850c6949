/** Readers that are not linked to the last server: when their answers can be told from those of a sequential map. */
module ChainReaders {
  import opened CStrings
  import opened Options
  import opened Store
  import opened Chain
  import opened ChainHistory
  import opened ChainInvariant
  import opened ChainRuns
  import opened ChainSafety

  // ---------- What the answered calls leave open ----------

  /** All calls but the last one, x, have been answered; it has not taken effect. */
  ghost predicate OneOpen(s: State, sent: seq<Call>, x: nat) {
    && History(s) && s.abandoned == {} && s.sent <= sent && x + 1 == |sent| && Fresh(s.order, x)
    && (forall id :: 0 <= id < x ==> Answered(s, id))
    && (forall i, c :: 0 <= i < |s.done| && !s.done[i].ReadDone? && s.done[i].id < c < |sent| ==>
          s.done[i].end < sent[c].begin)
  }

  /** Whether a write with an answer belongs to an explanation can be told from the answer alone. */
  lemma SameVerdict(sent: seq<Call>, v: seq<Message>, w: seq<Message>, d: Done, a: nat, b: nat, m: Message)
    requires Fits(v, d, a) && Fits(w, d, b) && !d.ReadDone? && d.id == m.id
    requires Genuine(sent, v) && Genuine(sent, w)
    ensures m in w <==> m in v
  {
    if m in w {
      var p :| 0 <= p < |w| && w[p] == m;
      assert d.WriteDone?;
      assert v[a - 1] in v && v[a - 1].op == sent[m.id].op;
    }
    if m in v {
      var p :| 0 <= p < |v| && v[p] == m;
      assert d.WriteDone?;
      assert w[b - 1] in w && w[b - 1].op == sent[m.id].op;
    }
  }

  lemma AnsweredInOrder(s: State, sent: seq<Call>, x: nat, done: seq<Done>, w: seq<Message>, at: seq<nat>, m: Message)
    requires OneOpen(s, sent, x) && s.done <= done && Explains(sent, done, w, at) && m.id < x
    ensures m in w <==> m in s.order
  {
    var i := AnswerOf(s, sent, x, m.id);
    OrderFits(s, sent, x, i);
    assert Fits(w, done[i], at[i]);
    SameVerdict(sent, s.order, w, s.done[i], s.places[i], at[i], m);
  }

  lemma AnswerOf(s: State, sent: seq<Call>, x: nat, id: nat) returns (i: nat)
    requires OneOpen(s, sent, x) && id < x
    ensures i < |s.done| && !s.done[i].ReadDone? && s.done[i].id == id
  {
    assert Answered(s, id);
    i :| 0 <= i < |s.done| && !s.done[i].ReadDone? && s.done[i].id == id;
  }

  lemma OrderFits(s: State, sent: seq<Call>, x: nat, i: nat)
    requires OneOpen(s, sent, x) && i < |s.done|
    ensures i < |s.places| && Fits(s.order, s.done[i], s.places[i]) && Genuine(sent, s.order) && Increasing(s.order)
  {
  }

  /** A write that is followed by a later call was answered before that call was made. */
  lemma AnsweredFirst(s: State, sent: seq<Call>, x: nat, done: seq<Done>, w: seq<Message>, at: seq<nat>, p: nat, q: nat)
    requires OneOpen(s, sent, x) && s.done <= done && Explains(sent, done, w, at)
    requires p < |w| && q < |w| && w[q].id < w[p].id
    ensures q < p
  {
    assert w[p].id < |sent|;
    var i := AnswerOf(s, sent, x, w[q].id);
    assert done[i] == s.done[i] && Fits(w, done[i], at[i]);
    WrittenAt(w, done[i], at[i], q);
    assert done[i].end < sent[w[p].id].begin;
  }

  lemma WrittenAt(w: seq<Message>, d: Done, a: nat, q: nat)
    requires Different(w) && q < |w| && Fits(w, d, a) && !d.ReadDone? && d.id == w[q].id
    ensures d.WriteDone? && a == q + 1
  {
  }

  /** When all calls are answered, an explanation runs them in the order in which they were made. */
  lemma InSendingOrder(s: State, sent: seq<Call>, x: nat, done: seq<Done>, w: seq<Message>, at: seq<nat>)
    requires OneOpen(s, sent, x) && s.done <= done && Explains(sent, done, w, at)
    ensures Increasing(w)
  {
    forall p, q | 0 <= p < q < |w| ensures w[p].id < w[q].id {
      if w[q].id < w[p].id {
        AnsweredFirst(s, sent, x, done, w, at, p, q);
      }
    }
  }

  lemma AnswersMembers(s: State, sent: seq<Call>, x: nat, done: seq<Done>, w: seq<Message>, at: seq<nat>)
    requires OneOpen(s, sent, x) && s.done <= done && Explains(sent, done, w, at)
    ensures forall m: Message :: m.id < x ==> (m in w <==> m in s.order)
  {
    forall m: Message | m.id < x ensures m in w <==> m in s.order {
      AnsweredInOrder(s, sent, x, done, w, at, m);
    }
  }

  /** Two increasing sequences that agree below x. */
  lemma AgreeBelow(v: seq<Message>, w: seq<Message>, x: nat)
    requires Increasing(v) && Increasing(w) && Fresh(v, x) && forall p :: 0 <= p < |w| ==> w[p].id <= x
    requires forall m: Message :: m.id < x ==> (m in w <==> m in v)
    ensures v <= w && |w| <= |v| + 1 && (|w| == |v| + 1 ==> w[|v|].id == x)
  {
    var k := if w != [] && w[|w| - 1].id == x then |w| - 1 else |w|;
    forall p | 0 <= p < k ensures w[p].id < x {
      assert w[p].id <= w[|w| - 1].id;
    }
    forall m ensures m in w[..k] <==> m in v {
      if m.id < x && m in w {
        var p :| 0 <= p < |w| && w[p] == m;
        assert p < k && w[..k][p] == m;
      }
    }
    SameMembers(w[..k], v);
  }

  /** Every explanation of a longer history runs the writes that have taken effect, and perhaps the open call. */
  lemma OpenCall(s: State, sent: seq<Call>, x: nat, done: seq<Done>, w: seq<Message>, at: seq<nat>)
    requires OneOpen(s, sent, x) && s.done <= done && Explains(sent, done, w, at)
    ensures s.order <= w && |w| <= |s.order| + 1
    ensures |w| == |s.order| + 1 ==> w[|s.order|] == Message(x, sent[x].op)
  {
    InSendingOrder(s, sent, x, done, w, at);
    AnswersMembers(s, sent, x, done, w, at);
    AgreeBelow(s.order, w, x);
  }

  /** A read that began after all writes had been answered sees what had taken effect before. */
  lemma ReadAfterWrites(s: State, sent: seq<Call>, x: nat, done: seq<Done>, w: seq<Message>, at: seq<nat>, r: nat)
    requires OneOpen(s, sent, x) && s.done <= done && Explains(sent, done, w, at)
    requires r < |done| && done[r].ReadDone?
    requires forall i :: 0 <= i < |s.done| && s.done[i].WriteDone? ==> s.done[i].end < done[r].begin
    ensures |s.order| <= at[r] <= |w|
  {
    assert Fits(w, done[r], at[r]);
    if s.order != [] {
      OpenCall(s, sent, x, done, w, at);
      var k := |s.order| - 1;
      var i := AnswerOf(s, sent, x, s.order[k].id);
      OrderFits(s, sent, x, i);
      assert done[i] == s.done[i] && Fits(w, done[i], at[i]);
      WrittenAt(w, done[i], at[i], k);
      assert Before(at[i], done[r], at[r]);
    }
  }

  // ---------- Reading from a server that is ahead ----------

  /** Every acknowledged write was acknowledged before the read began. */
  ghost predicate AfterWrites(s: State, id: nat)
    requires id in s.requests
  {
    forall i :: 0 <= i < |s.done| && s.done[i].WriteDone? ==> s.done[i].end < s.requests[id].begin
  }

  /** If only m may come after v, one read does not see the store of v, and a later one does, there is no place. */
  lemma NoPlaces(v: seq<Message>, w: seq<Message>, m: Message, d: Done, e: Done, a: nat, b: nat)
    requires v <= w && |w| <= |v| + 1 && (|w| == |v| + 1 ==> w[|v|] == m) && !Same(Result(v), m.op)
    requires |v| <= a <= b <= |w| && d.ReadDone? && e.ReadDone?
    requires d.answer != Ask(Result(v), d.q) && e.q == Table && e.answer == Whole(Result(v))
    ensures !(Fits(w, d, a) && Fits(w, e, b))
  {
    assert w[..|v|] == v;
    ResultAppend(v, m);
    assert b > |v| ==> w[..b] == v + [m];
  }

  /** A reader who has seen the write in flight, and another one who then reads at the tail and has not. */
  lemma AheadUnexplained(s: State, sent: seq<Call>, m: Message, done: seq<Done>, r: nat, w: seq<Message>, at: seq<nat>)
    requires OneOpen(s, sent, m.id) && sent[m.id].op == m.op && !Same(Now(s), m.op)
    requires s.done <= done && r + 1 < |done| && done[r].ReadDone? && done[r + 1].ReadDone?
    requires done[r].answer != Ask(Now(s), done[r].q)
    requires done[r + 1].q == Table && done[r + 1].answer == Whole(Now(s))
    requires done[r].begin <= done[r].end < done[r + 1].begin
    requires forall i :: 0 <= i < |s.done| && s.done[i].WriteDone? ==> s.done[i].end < done[r].begin
    ensures !Explains(sent, done, w, at)
  {
    if Explains(sent, done, w, at) {
      OpenCall(s, sent, m.id, done, w, at);
      TwoPlaces(s, sent, m.id, done, r, w, at);
      NoPlaces(s.order, w, m, done[r], done[r + 1], at[r], at[r + 1]);
    }
  }

  lemma TwoPlaces(s: State, sent: seq<Call>, x: nat, done: seq<Done>, r: nat, w: seq<Message>, at: seq<nat>)
    requires OneOpen(s, sent, x) && s.done <= done && Explains(sent, done, w, at)
    requires r + 1 < |done| && done[r].ReadDone? && done[r + 1].ReadDone?
    requires done[r].begin <= done[r].end < done[r + 1].begin
    requires forall i :: 0 <= i < |s.done| && s.done[i].WriteDone? ==> s.done[i].end < done[r].begin
    ensures |s.order| <= at[r] <= at[r + 1] <= |w|
    ensures Fits(w, done[r], at[r]) && Fits(w, done[r + 1], at[r + 1])
  {
    ReadAfterWrites(s, sent, x, done, w, at, r);
    assert Fits(w, done[r], at[r]) && Fits(w, done[r + 1], at[r + 1]);
    assert Before(at[r], done[r + 1], at[r + 1]);
  }

  lemma InFlightOpen(s: State, b: nat, sent: bool, m: Message)
    requires Inv(s) && InFlight(s, b, sent, m) && s.abandoned == {}
    ensures OneOpen(s, s.sent, m.id) && s.sent[m.id].op == m.op && !Same(Now(s), m.op)
  {
  }

  lemma RequestTimes(s: State, id: nat)
    requires Inv(s) && id in s.requests
    ensures s.requests[id].begin < s.clock
  {
  }

  lemma AheadShows(s: State, m: Message, d: Done, u: State)
    requires OneOpen(s, s.sent, m.id) && s.sent[m.id].op == m.op && !Same(Now(s), m.op)
    requires u.chain != [] && Tail(u).table == Now(s) && u.sent == s.sent && u.done == s.done + [d]
    requires d.ReadDone? && d.begin <= d.end < u.clock && d.answer != Ask(Now(s), d.q)
    requires forall i :: 0 <= i < |s.done| && s.done[i].WriteDone? ==> s.done[i].end < d.begin
    ensures !AlwaysLinearizable(u)
  {
    var t, begin := SomebodyReads(u, Table);
    assert t.done[|s.done|] == d && s.done <= t.done;
    forall w, at ensures !Explains(t.sent, t.done, w, at) {
      AheadUnexplained(s, s.sent, m, t.done, |s.done|, w, at);
    }
    BadRun(u, t);
  }

  /** If no call was abandoned, and the read began after the last acknowledgement, serving it is harmless in every
      continuation exactly when the reader's server answers as the tail would. */
  lemma ReadSafeIsExact(s: State, id: nat)
    requires Inv(s) && CanRead(s, id) && s.abandoned == {} && AfterWrites(s, id)
    ensures ReadSafe(s, id) <==> AlwaysLinearizable(DoReadServe(s, id))
  {
    if ReadSafe(s, id) {
      ReadServeKeeps(s, id);
      InvMeansAlways(DoReadServe(s, id));
    } else {
      SettledReads(s, id);
      var b, sent, m :| InFlight(s, b, sent, m);
      TailHasNow(s);
      InFlightOpen(s, b, sent, m);
      RequestTimes(s, id);
      AheadShows(s, m, ReadAnswer(s, id), DoReadServe(s, id));
    }
  }

  lemma SettledReads(s: State, id: nat)
    requires s.chain != [] && CanRead(s, id) && !ReadSafe(s, id)
    ensures !Settled(s)
  {
  }

  /** In particular a read is safe if no write is on its way between the reader's server and the tail. */
  lemma NothingBelowIsSafe(s: State, id: nat)
    requires Inv(s) && CanRead(s, id) && ReadFrom(s, id).log == Tail(s).log
    ensures ReadSafe(s, id)
  {
    PropagationHolds(s);
  }

  // ---------- A run that gets there ----------

  /** Two servers without data; reader 0 is linked to the first one. */
  ghost predicate OldLink(s: State) {
    && s.chain == [Server(0, map[], [], Some(1), Idle), Server(1, map[], [], None, Idle)]
    && s.joiners == [] && s.client.Ready? && s.links == map[0 := 0] && s.requests == map[]
    && s.sent == [] && s.done == [] && s.abandoned == {}
  }

  lemma Joined()
    ensures exists s :: Leads(Init(1), s) && OldLink(s)
  {
    var s0 := Init(1);
    assert s0.chain == [Server(0, map[], [], None, Idle)];
    var s1 := DoRelink(s0, 0);
    var s2 := DoJoin(s1);
    var s3 := DoSnapshot(s2);
    var s := DoWatch(s3, 0, true);
    StepLeads(s3, Watch(0, true), s);
    ThenLeads(s2, Snapshot, s);
    ThenLeads(s1, Join, s);
    ThenLeads(s0, Relink(0), s);
  }

  /** Reader 0 is about to be told what the tail does not know. */
  ghost predicate Ahead(s: State) {
    CanRead(s, 0) && !ReadSafe(s, 0) && s.done == [] && s.abandoned == {}
  }

  lemma HeadIsAhead(s: State, k: Key, v: Bytes)
    requires v != [] && OldLink(s)
    ensures exists t :: Leads(s, t) && Ahead(t)
  {
    var s1 := DoSend(s, Put(k, v));
    var s2 := DoInvoke(s1, 0);
    var t := DoReadBegin(s2, 0, Get(k));
    assert t.chain[0].table == map[k := v] && t.chain[1].table == map[] && t.chain[1].name == 1;
    assert IndexOf(t.chain, 0) == 0;
    StepLeads(s2, ReadBegin(0, Get(k)), t);
    ThenLeads(s1, Invoke(0), t);
    ThenLeads(s, ClientSend(Put(k, v)), t);
  }

  /** A reader whose watcher has not run since a server joined sees a write that later readers do not see. */
  lemma StaleRead(k: Key, v: Bytes)
    requires v != []
    ensures exists s :: Reachable(s) && CanRead(s, 0) && !AlwaysLinearizable(DoReadServe(s, 0))
  {
    Joined();
    var u :| Leads(Init(1), u) && OldLink(u);
    HeadIsAhead(u, k, v);
    var s :| Leads(u, s) && Ahead(s);
    LeadsOn(Init(1), u, s);
    ReachableInv(s);
    ReadSafeIsExact(s, 0);
  }
}
