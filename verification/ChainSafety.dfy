/** What the invariant means for the users of the chain: statements about every reachable state and every run. */
module ChainSafety {
  import opened Options
  import opened Store
  import opened Chain
  import opened ChainHistory
  import opened ChainInvariant

  /** Any timely run of a chain of any length. */
  ghost predicate Reachable(t: State) {
    exists n: nat :: n > 0 && Leads(Init(n), t)
  }

  lemma LeadsKeeps(s: State, t: State)
    requires Inv(s) && Leads(s, t)
    ensures Inv(t)
  {
    var steps :| Run(s, steps, t);
    RunKeeps(s, steps, t);
  }

  lemma ReachableInv(t: State)
    requires Reachable(t)
    ensures Inv(t)
  {
    var n: nat :| n > 0 && Leads(Init(n), t);
    InitInv(n);
    LeadsKeeps(Init(n), t);
  }

  // ---------- Update propagation ----------

  /** Each server has been changed by a prefix of what has changed its predecessors, at most one write behind, and its
      table is the result of exactly those writes, all of which succeeded. */
  ghost predicate Propagated(s: State) {
    && s.chain != []
    && (forall i, k :: 0 <= i <= k < |s.chain| ==>
          s.chain[k].log <= s.chain[i].log && |s.chain[i].log| <= |s.chain[k].log| + 1)
    && (forall i :: 0 <= i < |s.chain| ==> AllOk(Ops(s.chain[i].log)) && s.chain[i].table == Result(s.chain[i].log))
  }

  lemma PropagatedSettled(s: State)
    requires Data(s) && Settled(s)
    ensures Propagated(s)
  {
    EffectsResult(s.order);
  }

  lemma PropagatedInFlight(s: State, b: nat, sent: bool, m: Message)
    requires Data(s) && InFlight(s, b, sent, m)
    ensures Propagated(s)
  {
    EffectsResult(s.order);
    ResultAppend(Base(s), m);
    ChangeFacts(Now(s), m.op);
    assert Base(s) <= Base(s) + [m];
    forall i | 0 <= i < |s.chain| ensures s.chain[i].log == if i < b then Base(s) + [m] else Base(s) {
    }
  }

  lemma PropagationHolds(s: State)
    requires Inv(s)
    ensures Propagated(s)
  {
    if Settled(s) {
      PropagatedSettled(s);
    } else {
      var b, sent, m :| InFlight(s, b, sent, m);
      PropagatedInFlight(s, b, sent, m);
    }
  }

  /** Update propagation, over all runs: with joins, with crashes, at every moment. */
  lemma UpdatePropagation(t: State)
    requires Reachable(t)
    ensures Propagated(t)
  {
    ReachableInv(t);
    PropagationHolds(t);
  }

  /** Whenever a server is about to answer, no server below it lacks a write that it has; when the head answers, all
      tables are the same. */
  lemma AnswerMeansAgreement(t: State, i: nat)
    requires Reachable(t) && CanReply(t, i)
    ensures forall k :: i <= k < |t.chain| ==> t.chain[k].table == t.chain[i].table
  {
    ReachableInv(t);
    if !Settled(t) {
      var b, sent, m :| InFlight(t, b, sent, m);
      assert i >= b;
    }
  }

  // ---------- Where the writes come from ----------

  /** The call was answered with success, or is pending, or was abandoned; it was not answered with an error. */
  ghost predicate Lives(s: State, id: nat) {
    && (|| (exists i :: 0 <= i < |s.done| && s.done[i].WriteDone? && s.done[i].id == id)
        || (s.client.Pending? && s.client.id == id)
        || id in s.abandoned)
    && forall i :: 0 <= i < |s.done| && s.done[i].MissDone? ==> s.done[i].id != id
  }

  /** The writes are calls of the client, in the order in which it made them and none twice. */
  ghost predicate WereSent(s: State, w: seq<Message>) {
    Increasing(w) && Genuine(s.sent, w) && forall p :: 0 <= p < |w| ==> Lives(s, w[p].id)
  }

  lemma SentLives(s: State, id: nat)
    requires History(s) && id < |s.sent|
    requires forall i :: 0 <= i < |s.done| && s.done[i].MissDone? ==> s.done[i].id != id
    ensures Lives(s, id)
  {
    if id !in s.abandoned && !(s.client.Pending? && s.client.id == id) {
      assert Answered(s, id);
      var i :| 0 <= i < |s.done| && !s.done[i].ReadDone? && s.done[i].id == id;
      assert s.done[i].WriteDone?;
    }
  }

  lemma OrderWasSent(s: State)
    requires History(s)
    ensures WereSent(s, s.order)
  {
    forall p | 0 <= p < |s.order| ensures Lives(s, s.order[p].id) {
      forall i | 0 <= i < |s.done| && s.done[i].MissDone? ensures s.done[i].id != s.order[p].id {
        assert Fits(s.order, s.done[i], s.places[i]);
      }
      SentLives(s, s.order[p].id);
    }
  }

  lemma BaseWasSent(s: State)
    requires Data(s) && History(s)
    ensures WereSent(s, Base(s)) && forall p :: 0 <= p < |Base(s)| ==> Base(s)[p] in s.order
  {
    OrderWasSent(s);
    EffectsIncreasing(s.order);
    EffectsMembers(s.order);
    forall p | 0 <= p < |Base(s)|
      ensures Base(s)[p] in s.order && Lives(s, Base(s)[p].id)
      ensures Base(s)[p].id < |s.sent| && s.sent[Base(s)[p].id].op == Base(s)[p].op
    {
      assert Base(s)[p] in Effects(s.order);
      var q :| 0 <= q < |s.order| && s.order[q] == Base(s)[p];
    }
  }

  lemma InFlightWasSent(s: State, b: nat, sent: bool, m: Message)
    requires Data(s) && History(s) && InFlight(s, b, sent, m)
    ensures WereSent(s, Base(s) + [m])
  {
    BaseWasSent(s);
    forall i | 0 <= i < |s.done| && s.done[i].MissDone? ensures s.done[i].id != m.id {
      assert AnswersCall(s, s.done[i]);
    }
    SentLives(s, m.id);
    forall p | 0 <= p < |Base(s)| ensures Base(s)[p].id < m.id {
      assert Base(s)[p] in s.order;
    }
  }

  /** No server, and no reader, ever sees a write that the client did not send, or one twice, or two in another order
      than they were sent, or one whose call was answered with an error. */
  lemma CommittedWereSent(t: State)
    requires Reachable(t)
    ensures WereSent(t, t.order) && forall i :: 0 <= i < |t.chain| ==> WereSent(t, t.chain[i].log)
  {
    ReachableInv(t);
    OrderWasSent(t);
    BaseWasSent(t);
    if !Settled(t) {
      var b, sent, m :| InFlight(t, b, sent, m);
      InFlightWasSent(t, b, sent, m);
    }
  }

  // ---------- Linearizability ----------

  /** The writes that have taken effect explain every answer, and the tail has their result. */
  lemma OrderExplains(t: State)
    requires Reachable(t)
    ensures t.chain != [] && Explains(t.sent, t.done, t.order, t.places) && Tail(t).table == Result(t.order)
    ensures Base(t) == Effects(t.order)
  {
    ReachableInv(t);
    TailHasNow(t);
  }

  lemma ChainLinearizable(t: State)
    requires Reachable(t)
    ensures Linearizable(t)
  {
    OrderExplains(t);
  }

  lemma InvMeansAlways(s: State)
    requires Inv(s)
    ensures AlwaysLinearizable(s)
  {
    forall t | Leads(s, t) ensures Linearizable(t) {
      LeadsKeeps(s, t);
    }
  }

  /** What a reader is told is the store after some of the writes that the client sent: among them every write
      acknowledged before the read began, and every write that an earlier read has seen. */
  lemma ReadsAreFresh(t: State, i: nat)
    requires Reachable(t) && i < |t.done| && t.done[i].ReadDone?
    ensures |t.places| == |t.done| && t.places[i] <= |t.order| && WereSent(t, t.order)
    ensures var m, d := Result(t.order[..t.places[i]]), t.done[i];
            && (d.q.Get? && d.q.key in m ==> d.answer == Value(Some(m[d.q.key])))
            && (d.q.Get? && d.q.key !in m ==> d.answer == Value(None))
            && (d.q.Size? ==> d.answer == Count(|m|))
            && (d.q.Table? ==> d.answer == Whole(m))
    ensures forall j :: 0 <= j < |t.done| && t.done[j].WriteDone? && t.done[j].end < t.done[i].begin ==>
      Message(t.done[j].id, t.done[j].op) in t.order[..t.places[i]]
    ensures forall j :: 0 <= j < |t.done| && t.done[j].ReadDone? && t.done[j].end < t.done[i].begin ==>
      t.places[j] <= t.places[i]
  {
    OrderExplains(t);
    CommittedWereSent(t);
    assert Fits(t.order, t.done[i], t.places[i]);
    forall j | 0 <= j < |t.done| && t.done[j].WriteDone? && t.done[j].end < t.done[i].begin
      ensures Message(t.done[j].id, t.done[j].op) in t.order[..t.places[i]]
    {
      assert Fits(t.order, t.done[j], t.places[j]) && Before(t.places[j], t.done[i], t.places[i]);
      assert t.order[..t.places[i]][t.places[j] - 1] == Message(t.done[j].id, t.done[j].op);
    }
    forall j | 0 <= j < |t.done| && t.done[j].ReadDone? && t.done[j].end < t.done[i].begin
      ensures t.places[j] <= t.places[i]
    {
      assert Before(t.places[j], t.done[i], t.places[i]);
    }
  }

  // ---------- Nothing is lost ----------

  lemma StepAppends(s: State, step: Step)
    requires Enabled(s, step)
    ensures s.order <= Apply(s, step).order && s.done <= Apply(s, step).done && s.sent <= Apply(s, step).sent
  {
  }

  lemma {:induction false} EffectsPrefix(v: seq<Message>, w: seq<Message>)
    requires v <= w
    ensures Effects(v) <= Effects(w)
    decreases |w|
  {
    if |v| < |w| {
      EffectsPrefix(v, w[..|w| - 1]);
    } else {
      assert v == w;
    }
  }

  /** What has taken effect, and what clients were told, is never taken back. */
  lemma {:induction false} NothingIsLost(s: State, steps: seq<Step>, t: State)
    requires Run(s, steps, t)
    ensures s.order <= t.order && s.done <= t.done && s.sent <= t.sent && Effects(s.order) <= Effects(t.order)
    decreases |steps|
  {
    if steps != [] {
      StepAppends(s, steps[0]);
      NothingIsLost(Apply(s, steps[0]), steps[1..], t);
    }
    EffectsPrefix(s.order, t.order);
  }

  lemma AcknowledgedInOrder(s: State, d: Done)
    requires History(s) && d in s.done && d.WriteDone?
    ensures Message(d.id, d.op) in s.order
  {
    var k :| 0 <= k < |s.done| && s.done[k] == d;
    assert Fits(s.order, s.done[k], s.places[k]);
    assert s.order[s.places[k] - 1] == Message(d.id, d.op);
  }

  lemma EffectsAtServer(t: State, i: nat)
    requires Inv(t) && i < |t.chain|
    ensures Effects(t.order) <= t.chain[i].log && |t.chain[i].log| <= |Effects(t.order)| + 1
    ensures t.chain[i].table == Result(t.chain[i].log)
  {
    PropagationHolds(t);
  }

  /** A write that the client has seen acknowledged has taken effect, whatever happens later; and every server's table
      is the result of the writes that have taken effect, or of these and one more. */
  lemma AcknowledgedSurvives(s: State, t: State, d: Done, i: nat)
    requires Reachable(s) && Leads(s, t)
    requires d in s.done && d.WriteDone? && i < |t.chain|
    ensures Message(d.id, d.op) in t.order
    ensures Effects(t.order) <= t.chain[i].log && |t.chain[i].log| <= |Effects(t.order)| + 1
    ensures t.chain[i].table == Result(t.chain[i].log)
  {
    ReachableInv(s);
    AcknowledgedInOrder(s, d);
    var steps :| Run(s, steps, t);
    NothingIsLost(s, steps, t);
    LeadsKeeps(s, t);
    EffectsAtServer(t, i);
  }

  // ---------- Forwarded writes do not fail ----------

  /** The write that server i is about to apply is new to it and succeeds, or its effect is in the table already. */
  ghost predicate OutcomeKnown(s: State, i: nat)
    requires CanInvoke(s, i)
  {
    var m := s.chain[i].phase.msg;
    var r := Perform(s.chain[i].table, m.op);
    if m in s.order then r.store == s.chain[i].table && (m.op.Del? ==> !r.ok)
    else r.ok && (i > 0 ==> r.store == s.chain[i - 1].table)
  }

  lemma OutcomeSettled(t: State, i: nat)
    requires t.chain != [] && Settled(t) && CanInvoke(t, i) && (i > 0 || t.client.Ready?)
    ensures OutcomeKnown(t, i)
  {
    assert Noise(t.chain[i].phase, t.order);
  }

  lemma OutcomeInFlight(t: State, b: nat, sent: bool, m: Message, i: nat)
    requires t.chain != [] && InFlight(t, b, sent, m) && CanInvoke(t, i)
    ensures OutcomeKnown(t, i)
  {
    if i == b && sent {
      NotInOrder(t, b, sent, m);
      ChangeFacts(Now(t), m.op);
    } else {
      assert i >= b && Noise(t.chain[i].phase, t.order);
    }
  }

  /** A forwarded write makes its server's table that of the predecessor. Otherwise it is an old one that changes
      nothing; it is refused then if it is a delete, and the table is right without it. */
  lemma ForwardedWriteOutcome(t: State, i: nat)
    requires Reachable(t) && CanInvoke(t, i) && (i > 0 || t.client.Ready?)
    ensures OutcomeKnown(t, i)
  {
    ReachableInv(t);
    if Settled(t) {
      OutcomeSettled(t, i);
    } else {
      var b, sent, m :| InFlight(t, b, sent, m);
      OutcomeInFlight(t, b, sent, m, i);
    }
  }

  // ---------- Joining ----------

  /** The server before server k has sent it the write m, or is about to, and k has not applied it. */
  ghost predicate Between(s: State, k: nat, m: Message)
    requires 0 < k < |s.chain|
  {
    && (s.chain[k - 1].phase == Invoked(m) || s.chain[k - 1].phase == Waiting(m, s.chain[k].name))
    && s.chain[k - 1].log == s.chain[k].log + [m]
    && s.chain[k - 1].table == Perform(s.chain[k].table, m.op).store
  }

  lemma NeighboursAgree(s: State, k: nat)
    requires Inv(s) && 0 < k < |s.chain|
    ensures (s.chain[k].table == s.chain[k - 1].table && s.chain[k].log == s.chain[k - 1].log) ||
            exists m :: Between(s, k, m)
  {
    if !Settled(s) {
      var b, sent, m :| InFlight(s, b, sent, m);
      if k == b {
        assert Between(s, k, m);
      }
    }
  }

  /** A newcomer keeps up: after its snapshot, along every timely continuation, its table is its predecessor's unless
      one write is between the two. A write that waited in its socket makes no difference. */
  lemma JoinSafety(s: State, t: State, k: nat)
    requires Reachable(s) && CanSnapshot(s) && Leads(DoSnapshot(s), t)
    requires 0 < k < |t.chain| && t.chain[k].name == s.joiners[0].name
    ensures (t.chain[k].table == t.chain[k - 1].table && t.chain[k].log == t.chain[k - 1].log) ||
            exists m :: Between(t, k, m)
  {
    ReachableInv(s);
    SnapshotKeeps(s);
    LeadsKeeps(DoSnapshot(s), t);
    NeighboursAgree(t, k);
  }

  /** In particular the waiting write, applied right after the snapshot, leaves the newcomer with its predecessor's
      table. */
  lemma ReplayAfterSnapshot(s: State)
    requires Reachable(s) && CanSnapshot(s) && s.joiners[0].inbox.Some?
    ensures var t := DoSnapshot(s); var k := |s.chain|;
            && CanInvoke(t, k)
            && DoInvoke(t, k).chain[k].table == DoInvoke(t, k).chain[k - 1].table == Tail(s).table
            && DoInvoke(t, k).order == s.order
  {
    ReachableInv(s);
    SnapshotKeeps(s);
    TailHasNow(s);
    var t := DoSnapshot(s);
    assert InboxStale(s.joiners[0], s.order);
    assert t.chain[|s.chain|].phase == Recv(s.joiners[0].inbox.value);
  }
}
