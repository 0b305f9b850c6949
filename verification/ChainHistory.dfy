/** When a sequential map explains what clients were told, and facts about sequences of writes. Nothing here looks at
    how the chain works. */
module ChainHistory {
  import opened Options
  import opened Store
  import opened Chain

  // ---------- Explaining a history ----------

  /** The writes are different calls. */
  ghost predicate Different(w: seq<Message>) {
    forall p, q :: 0 <= p < q < |w| ==> w[p].id != w[q].id
  }

  /** And they come in the order in which they were sent. */
  ghost predicate Increasing(w: seq<Message>) {
    forall p, q :: 0 <= p < q < |w| ==> w[p].id < w[q].id
  }

  /** Each write is a call that the client made. */
  ghost predicate Genuine(sent: seq<Call>, w: seq<Message>) {
    forall p :: 0 <= p < |w| ==> w[p].id < |sent| && sent[w[p].id].op == w[p].op
  }

  /** The operation was answered as a map answers it after the first `at` writes of w. */
  ghost predicate Fits(w: seq<Message>, d: Done, at: nat) {
    && at <= |w|
    && match d
       case WriteDone(id, op, _, _) => at > 0 && w[at - 1] == Message(id, op)
       case MissDone(id, op, _, _) =>
         !Perform(Result(w[..at]), op).ok && forall p :: 0 <= p < |w| ==> w[p].id != id
       case ReadDone(q, answer, _, _) => answer == Ask(Result(w[..at]), q)
  }

  /** The order of the places: a write comes directly before the reads of the state it makes. */
  predicate Before(a: nat, e: Done, b: nat) {
    if e.WriteDone? then a < b else a <= b
  }

  /** A sequential map that runs the writes w, each of them a call of the client and none twice, explains every answer;
      and nothing takes effect before an operation that ended before it began. A call without an answer may take effect
      at any time after it was made, or never. */
  ghost predicate Explains(sent: seq<Call>, done: seq<Done>, w: seq<Message>, at: seq<nat>) {
    && Different(w) && Genuine(sent, w) && AllOk(Ops(w))
    && |at| == |done|
    && (forall i :: 0 <= i < |done| ==> Fits(w, done[i], at[i]))
    && (forall i, j :: 0 <= i < |done| && 0 <= j < |done| && done[i].end < done[j].begin ==>
          Before(at[i], done[j], at[j]))
    && (forall i, p :: 0 <= i < |done| && 0 <= p < |w| && done[i].end < sent[w[p].id].begin ==> at[i] <= p)
  }

  /** What clients were told can be explained. Logs, order and places of the model play no part in this. */
  ghost predicate Linearizable(s: State) {
    exists w, at :: Explains(s.sent, s.done, w, at)
  }

  /** No continuation ever shows its users anything but a sequential map. */
  ghost predicate AlwaysLinearizable(s: State) {
    forall t :: Leads(s, t) ==> Linearizable(t)
  }

  lemma BadRun(s: State, t: State)
    requires Leads(s, t) && !Linearizable(t)
    ensures !AlwaysLinearizable(s)
  {
  }

  // ---------- Longer histories ----------

  lemma FitsLonger(w: seq<Message>, m: Message, d: Done, at: nat)
    requires Fits(w, d, at) && (d.MissDone? ==> d.id != m.id)
    ensures Fits(w + [m], d, at)
  {
    assert (w + [m])[..at] == w[..at];
  }

  /** A write that was sent last takes effect. */
  lemma ExplainsEffect(sent: seq<Call>, done: seq<Done>, w: seq<Message>, at: seq<nat>, m: Message)
    requires Explains(sent, done, w, at)
    requires m.id < |sent| && sent[m.id].op == m.op && forall p :: 0 <= p < |w| ==> w[p].id < m.id
    requires Perform(Result(w), m.op).ok && forall i :: 0 <= i < |done| && done[i].MissDone? ==> done[i].id != m.id
    ensures Explains(sent, done, w + [m], at)
  {
    ResultAppend(w, m);
    forall i | 0 <= i < |done| ensures Fits(w + [m], done[i], at[i]) {
      FitsLonger(w, m, done[i], at[i]);
    }
  }

  /** An operation is answered after all the effects so far. */
  lemma ExplainsAnswer(sent: seq<Call>, done: seq<Done>, w: seq<Message>, at: seq<nat>, d: Done)
    requires Explains(sent, done, w, at) && Fits(w, d, |w|)
    requires forall i :: 0 <= i < |done| ==> d.end >= done[i].begin
    requires d.begin <= d.end && forall c :: 0 <= c < |sent| ==> sent[c].begin <= d.end
    requires d.WriteDone? ==> d.id < |sent| && sent[d.id].begin == d.begin
    ensures Explains(sent, done + [d], w, at + [|w|])
  {
    var e, b := done + [d], at + [|w|];
    forall i, j | 0 <= i < |e| && 0 <= j < |e| && e[i].end < e[j].begin ensures Before(b[i], e[j], b[j]) {
      if i < |done| && j == |done| && d.WriteDone? {
        assert done[i].end < sent[w[|w| - 1].id].begin;
      }
    }
  }

  lemma ExplainsSend(sent: seq<Call>, done: seq<Done>, w: seq<Message>, at: seq<nat>, c: Call)
    requires Explains(sent, done, w, at)
    ensures Explains(sent + [c], done, w, at)
  {
  }

  // ---------- The writes that change something ----------

  /** The writes of w that changed the store when their turn came. */
  function Effects(w: seq<Message>): seq<Message> {
    if w == [] then []
    else
      var k := |w| - 1;
      if Same(Result(w[..k]), w[k].op) then Effects(w[..k]) else Effects(w[..k]) + [w[k]]
  }

  lemma EffectsAppend(w: seq<Message>, m: Message)
    ensures Effects(w + [m]) == if Same(Result(w), m.op) then Effects(w) else Effects(w) + [m]
  {
    assert (w + [m])[..|w|] == w;
  }

  lemma {:induction false} EffectsResult(w: seq<Message>)
    ensures Result(Effects(w)) == Result(w) && AllOk(Ops(Effects(w)))
  {
    if w != [] {
      var k := |w| - 1;
      EffectsResult(w[..k]);
      ResultAppend(w[..k], w[k]);
      assert w[..k] + [w[k]] == w;
      ResultAppend(Effects(w[..k]), w[k]);
    }
  }

  lemma {:induction false} EffectsMembers(w: seq<Message>)
    ensures forall m :: m in Effects(w) ==> m in w
  {
    if w != [] {
      EffectsMembers(w[..|w| - 1]);
    }
  }

  lemma {:induction false} EffectsIncreasing(w: seq<Message>)
    requires Increasing(w)
    ensures Increasing(Effects(w))
  {
    if w != [] {
      var k := |w| - 1;
      EffectsIncreasing(w[..k]);
      EffectsMembers(w[..k]);
      forall m | m in Effects(w[..k]) ensures m.id < w[k].id {
        var p :| 0 <= p < k && w[..k][p] == m;
        assert w[p] == m;
      }
    }
  }

  // ---------- Increasing sequences ----------

  lemma LastInOrder(w: seq<Message>, m: Message)
    requires Increasing(w) && m in w && forall p :: 0 <= p < |w| ==> w[p].id <= m.id
    ensures w[|w| - 1] == m
  {
    var p :| 0 <= p < |w| && w[p] == m;
  }

  lemma {:induction false} SameMembers(v: seq<Message>, w: seq<Message>)
    requires Increasing(v) && Increasing(w) && forall m :: m in v <==> m in w
    ensures v == w
    decreases |v|
  {
    if v != [] && w != [] {
      var k, l := |v| - 1, |w| - 1;
      assert v[k] in w && w[l] in v;
      var p :| 0 <= p < |w| && w[p] == v[k];
      var q :| 0 <= q < |v| && v[q] == w[l];
      assert v[k] == w[l];
      forall m ensures m in v[..k] <==> m in w[..l] {
        assert m in v[..k] <==> m in v && m != v[k];
        assert m in w[..l] <==> m in w && m != w[l];
      }
      SameMembers(v[..k], w[..l]);
      assert v == v[..k] + [v[k]] && w == w[..l] + [w[l]];
    } else {
      HasMember(v);
      HasMember(w);
    }
  }

  lemma HasMember(w: seq<Message>)
    ensures w == [] || exists m :: m in w
  {
    if w != [] {
      assert w[0] in w;
    }
  }

  // ---------- What one write does to the store ----------

  /** After a write that changes the store m, no store is m. */
  lemma NotBackAtOnce(m: Map, op: Write, n: Map)
    requires !Same(m, op) && Perform(n, op).ok
    ensures Perform(n, op).store != m
  {
    match op
    case Put(k, v) => assert k in m ==> m[k] != v || m[k := v] == m;
    case Del(k) => assert k in m;
  }
}
