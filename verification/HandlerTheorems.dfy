/** What the handler threads of one server guarantee in every interleaving. */
module HandlerTheorems {
  import opened CStrings
  import opened Options
  import opened Store
  import opened ListSpec
  import opened ListMap
  import opened Requests
  import opened Handlers

  /** At most one thread is inside table_put or table_remove, and at most one works on the counters. */
  lemma MutualExclusion(m: Map, s: State, t: nat, u: nat)
    requires Reachable(m, s) && t < |s.threads| && u < |s.threads|
    ensures HoldsTable(s.threads[t]) && HoldsTable(s.threads[u]) ==> t == u
    ensures HoldsStats(s.threads[t]) && HoldsStats(s.threads[u]) ==> t == u
  {
    ReachableInv(m, s);
    assert LockedBy(s, t, s.threads[t]) && LockedBy(s, u, s.threads[u]);
  }

  // ---------- Linearizability ----------

  lemma {:induction false} EffectAnswers(m: Map, lin: seq<Effect>, i: nat)
    requires Legal(m, lin) && i < |lin|
    ensures Legal(m, lin[..i])
    ensures Answers(MapAfter(m, lin[..i]), lin[i].req, MapAfter(m, lin[..i + 1]), lin[i].reply)
    decreases |lin|
  {
    var k := |lin| - 1;
    if i < k {
      EffectAnswers(m, lin[..k], i);
      assert lin[..k][..i] == lin[..i] && lin[..k][..i + 1] == lin[..i + 1];
    } else {
      assert lin[..k + 1] == lin;
    }
  }

  /** The reply was right when its request took effect, which was after the request came and before the reply left. */
  ghost predicate AnsweredInTime(m: Map, s: State, d: Done)
    requires d.OpDone?
  {
    && d.begin <= d.at < d.end <= |s.lin|
    && Answers(MapAfter(m, s.lin[..d.at]), d.req, MapAfter(m, s.lin[..d.at + 1]), d.reply)
  }

  // ---------- Whose effect it is ----------

  /** The effect with number e is that of a request whose reply, number i, has been sent. */
  ghost predicate Replied(s: State, e: nat, i: nat)
    requires e < |s.lin|
  {
    i < |s.done| && s.done[i].OpDone? && s.done[i].at == e && s.lin[e] == Effect(s.done[i].req, s.done[i].reply)
  }

  /** The effect with number e is that of the request that thread t is busy with. */
  ghost predicate Carried(s: State, e: nat, t: nat)
    requires e < |s.lin|
  {
    && t < |s.threads| && HasEffect(s.threads[t]) && s.threads[t].at == e
    && s.lin[e] == Effect(s.threads[t].req, s.threads[t].reply)
  }

  ghost predicate HasOwner(s: State, e: nat)
    requires e < |s.lin|
  {
    (exists i :: Replied(s, e, i)) || (exists t :: Carried(s, e, t))
  }

  /** Every effect belongs to a request, and to one only. */
  ghost predicate Owned(s: State) {
    && (forall e :: 0 <= e < |s.lin| ==> HasOwner(s, e))
    && (forall e: nat, i: nat, j: nat :: e < |s.lin| && Replied(s, e, i) && Replied(s, e, j) ==> i == j)
    && (forall e: nat, t: nat, u: nat :: e < |s.lin| && Carried(s, e, t) && Carried(s, e, u) ==> t == u)
    && (forall e: nat, i: nat, t: nat :: e < |s.lin| && Replied(s, e, i) ==> !Carried(s, e, t))
  }

  ghost predicate RepliedIn(ds: seq<Done>, e: nat) {
    exists i :: 0 <= i < |ds| && ds[i].OpDone? && ds[i].at == e
  }

  ghost predicate CarriedIn(ps: seq<Pc>, e: nat) {
    exists t :: 0 <= t < |ps| && HasEffect(ps[t]) && ps[t].at == e
  }

  /** As many different effects as there are replies to requests. */
  lemma {:induction false} RepliedCount(ds: seq<Done>) returns (xs: set<nat>)
    requires forall i, j :: 0 <= i < j < |ds| && ds[i].OpDone? && ds[j].OpDone? ==> ds[i].at != ds[j].at
    ensures |xs| == OpsDone(ds) && forall e :: e in xs ==> RepliedIn(ds, e)
  {
    if ds == [] {
      xs := {};
    } else {
      var k := |ds| - 1;
      var ys := RepliedCount(ds[..k]);
      forall e | e in ys ensures RepliedIn(ds, e) && (ds[k].OpDone? ==> e != ds[k].at) {
        var i :| 0 <= i < k && ds[..k][i].OpDone? && ds[..k][i].at == e;
        assert ds[i] == ds[..k][i];
      }
      xs := if ds[k].OpDone? then ys + {ds[k].at} else ys;
    }
  }

  /** As many different effects as there are threads that have had one. */
  lemma {:induction false} CarriedCount(ps: seq<Pc>) returns (xs: set<nat>)
    requires forall t, u :: 0 <= t < u < |ps| ==> Differ(ps[t], ps[u])
    ensures |xs| == CountIf(ps, HasEffect) && forall e :: e in xs ==> CarriedIn(ps, e)
  {
    if ps == [] {
      xs := {};
    } else {
      var k := |ps| - 1;
      var ys := CarriedCount(ps[..k]);
      forall e | e in ys ensures CarriedIn(ps, e) && (HasEffect(ps[k]) ==> e != ps[k].at) {
        var t :| 0 <= t < k && HasEffect(ps[..k][t]) && ps[..k][t].at == e;
        assert ps[t] == ps[..k][t] && Differ(ps[t], ps[k]);
      }
      xs := if HasEffect(ps[k]) then ys + {ps[k].at} else ys;
    }
  }

  lemma {:induction false} AtMost(n: nat, xs: set<nat>)
    requires forall x :: x in xs ==> x < n
    ensures |xs| <= n
  {
    if n == 0 {
      assert xs == {};
    } else {
      AtMost(n - 1, xs - {n - 1});
    }
  }

  /** Every one of the first n numbers is in a set of n numbers below n. */
  lemma AllNumbers(n: nat, xs: set<nat>, x: nat)
    requires |xs| == n && x < n && forall y :: y in xs ==> y < n
    ensures x in xs
  {
    if x !in xs {
      AtMost(n, xs + {x});
    }
  }

  lemma CarriedIsCarried(s: State, e: nat)
    requires Threads(s) && CarriedIn(s.threads, e)
    ensures e < |s.lin| && HasOwner(s, e)
  {
    var t :| 0 <= t < |s.threads| && HasEffect(s.threads[t]) && s.threads[t].at == e;
    assert Recorded(s, s.threads[t]);
    assert Carried(s, e, t);
  }

  lemma RepliedIsReplied(s: State, e: nat)
    requires Replies(s) && RepliedIn(s.done, e)
    ensures e < |s.lin| && HasOwner(s, e)
  {
    var i :| 0 <= i < |s.done| && s.done[i].OpDone? && s.done[i].at == e;
    assert Answered(s, s.done[i]);
    assert Replied(s, e, i);
  }

  lemma NotBoth(s: State, e: nat)
    requires Unshared(s) && RepliedIn(s.done, e)
    ensures !CarriedIn(s.threads, e)
  {
    var i :| 0 <= i < |s.done| && s.done[i].OpDone? && s.done[i].at == e;
    assert forall t :: 0 <= t < |s.threads| ==> DifferDone(s.threads[t], s.done[i]);
  }

  /** There are as many effects as requests that had one, so none is left over. */
  lemma EveryEffectHasOwner(s: State, e: nat)
    requires Threads(s) && Replies(s) && Counters(s) && Unshared(s) && e < |s.lin|
    ensures HasOwner(s, e)
  {
    var r := RepliedCount(s.done);
    var c := CarriedCount(s.threads);
    forall x | x in r ensures x < |s.lin| && x !in c && HasOwner(s, x) {
      RepliedIsReplied(s, x);
      NotBoth(s, x);
    }
    forall x | x in c ensures x < |s.lin| && HasOwner(s, x) {
      CarriedIsCarried(s, x);
    }
    assert r !! c;
    AllNumbers(|s.lin|, r + c, e);
  }

  lemma EffectsAreOwned(s: State)
    requires Threads(s) && Replies(s) && Counters(s) && Unshared(s)
    ensures Owned(s)
  {
    forall e | 0 <= e < |s.lin| ensures HasOwner(s, e) {
      EveryEffectHasOwner(s, e);
    }
    forall e: nat, i: nat, t: nat | e < |s.lin| && Replied(s, e, i) ensures !Carried(s, e, t) {
      assert t < |s.threads| ==> DifferDone(s.threads[t], s.done[i]);
    }
  }

  /** Every reply is explained by one sequence of effects on a sequential map: each request has an effect of its own,
      between its arrival and its reply, so a request that came after another reply also takes effect after it. There
      are no other effects than those of requests. */
  lemma Linearizable(m: Map, s: State)
    requires Reachable(m, s)
    ensures s.table == MapAfter(m, s.lin) && Owned(s)
    ensures forall i :: 0 <= i < |s.done| && s.done[i].OpDone? ==> AnsweredInTime(m, s, s.done[i])
    ensures forall i, j :: 0 <= i < j < |s.done| && s.done[i].OpDone? && s.done[j].OpDone? ==>
      s.done[i].at != s.done[j].at
    ensures forall i, j ::
      0 <= i < |s.done| && 0 <= j < |s.done| && s.done[i].OpDone? && s.done[j].OpDone? ==>
        s.done[i].end <= s.done[j].begin ==> s.done[i].at < s.done[j].at
  {
    ReachableInv(m, s);
    EffectsAreOwned(s);
    forall i | 0 <= i < |s.done| && s.done[i].OpDone? ensures AnsweredInTime(m, s, s.done[i]) {
      assert Answered(s, s.done[i]);
      EffectAnswers(m, s.lin, s.done[i].at);
    }
  }

  // ---------- Deleting ----------

  /** A delete that is answered with OP_DEL + 1 removed the key itself; one that is answered with OP_ERROR took effect
      when the key was not there, at its table_get or, if another thread was faster, at its table_remove. */
  lemma DeleteDecided(m: Map, s: State, i: nat, k: Key)
    requires Reachable(m, s) && i < |s.done| && s.done[i].OpDone? && s.done[i].req == Change(Del(k))
    ensures s.done[i].at < |s.lin|
    ensures var before, after := MapAfter(m, s.lin[..s.done[i].at]), MapAfter(m, s.lin[..s.done[i].at + 1]);
            && (s.done[i].reply == Requests.Done <==> k in before)
            && (s.done[i].reply == Error <==> k !in before)
            && after == before - {k}
  {
    Linearizable(m, s);
    assert AnsweredInTime(m, s, s.done[i]);
  }

  /** A put is carried out exactly if its value is not empty. A get is answered with the value exactly if the key was
      there when it took effect, and with OP_ERROR otherwise; a size with the number of keys; and the lists are complete
      and without repeats, or OP_ERROR if there is nothing to list. */
  lemma ReplyDecided(m: Map, s: State, i: nat)
    requires Reachable(m, s) && i < |s.done| && s.done[i].OpDone?
    ensures s.done[i].at < |s.lin|
    ensures var now, d := MapAfter(m, s.lin[..s.done[i].at]), s.done[i];
            && (d.req.GetValue? && d.req.key in now ==> d.reply == Got(now[d.req.key]))
            && (d.req.GetValue? && d.req.key !in now ==> d.reply == Error)
            && (d.req.GetSize? ==> d.reply == SizeIs(|now|))
            && (d.req.GetKeys? && now == map[] ==> d.reply == Error)
            && (d.req.GetKeys? && now != map[] ==>
                  && d.reply.KeysAre?
                  && (forall i, j :: 0 <= i < j < |d.reply.keys| ==> d.reply.keys[i] != d.reply.keys[j])
                  && forall k: Key :: k in d.reply.keys <==> k in now)
            && (d.req.GetTable? && now == map[] ==> d.reply == Error)
            && (d.req.GetTable? && now != map[] ==>
                  d.reply.EntriesAre? && Distinct(d.reply.pairs) && MapOf(d.reply.pairs) == now)
            && (d.req.Change? && d.req.write.Put? ==>
                  && (d.reply == Requests.Done <==> d.req.write.value != [])
                  && (d.reply == Error <==> d.req.write.value == [])
                  && MapAfter(m, s.lin[..d.at + 1])
                       == if d.req.write.value == [] then now else now[d.req.write.key := d.req.write.value])
  {
    Linearizable(m, s);
    assert AnsweredInTime(m, s, s.done[i]);
  }

  /** Thread t goes from table_get's success to the release of the mutex without interruption. */
  ghost function RemoveNow(s: State, t: nat): State
    requires t < |s.threads| && s.threads[t].Checked? && s.tableLock == None
  {
    Next(Next(Next(s, Lock(t)), Apply(t)), Unlock(t))
  }

  lemma RemoveNowIs(s: State, t: nat, k: Key, reply: Reply, n: State)
    requires t < |s.threads| && s.threads[t].Checked? && s.threads[t].key == k && s.tableLock == None
    requires reply == (if k in s.table then Requests.Done else Error) && n == RemoveNow(s, t)
    ensures n.threads == s.threads[t := Invoked(Change(Del(k)), reply, s.threads[t].since, |s.lin|)]
    ensures n.tableLock == None && n.table == s.table - {k}
  {
  }

  /** Two deletes of one key that both passed the test: the first wins, the second one fails. */
  lemma TwoDeletes(s: State, t: nat, u: nat, k: Key)
    requires s.tableLock == None && t < |s.threads| && u < |s.threads| && t != u && k in s.table
    requires s.threads[t].Checked? && s.threads[u].Checked? && s.threads[t].key == s.threads[u].key == k
    ensures var n := RemoveNow(s, t);
            && n.tableLock == None && n.table == s.table - {k} && n.threads[u] == s.threads[u]
            && n.threads[t].Invoked? && n.threads[t].reply == Requests.Done
            && var o := RemoveNow(n, u);
               o.threads[u].Invoked? && o.threads[u].reply == Error && o.table == n.table
  {
    var n := RemoveNow(s, t);
    RemoveNowIs(s, t, k, Requests.Done, n);
    RemoveNowIs(n, u, k, Error, RemoveNow(n, u));
  }

  // ---------- Size ----------

  /** How many puts added a new key. */
  function Additions(m: Map, lin: seq<Effect>): nat {
    if lin == [] then 0
    else
      var k := |lin| - 1;
      Additions(m, lin[..k]) + if Adds(MapAfter(m, lin[..k]), lin[k].req) then 1 else 0
  }

  predicate Adds(m: Map, req: Request) {
    req.Change? && req.write.Put? && req.write.value != [] && req.write.key !in m
  }

  lemma SizeStep(m: Map, req: Request, reply: Reply)
    requires Answers(m, req, After(m, req), reply)
    ensures |After(m, req)| == |m| + (if Adds(m, req) then 1 else 0) - (if Deletes(req, reply) then 1 else 0)
  {
    if req.Change? && req.write.Put? && req.write.value != [] {
      var n := m[req.write.key := req.write.value];
      assert n.Keys == m.Keys + {req.write.key};
      assert |n| == |n.Keys| && |m| == |m.Keys|;
    } else if req.Change? && req.write.Del? && req.write.key in m {
      var n := m - {req.write.key};
      assert n.Keys == m.Keys - {req.write.key};
      assert |n| == |n.Keys| && |m| == |m.Keys|;
    }
  }

  lemma {:induction false} SizeAfter(m: Map, lin: seq<Effect>)
    requires Legal(m, lin)
    ensures |MapAfter(m, lin)| == |m| + Additions(m, lin) - Deletions(lin)
  {
    if lin != [] {
      var k := |lin| - 1;
      SizeAfter(m, lin[..k]);
      SizeStep(MapAfter(m, lin[..k]), lin[k].req, lin[k].reply);
    }
  }

  /** The size is what it was, plus the puts of new keys, minus the replies OP_DEL + 1 sent and still to be sent. */
  lemma SizeConserved(m: Map, s: State)
    requires Reachable(m, s)
    ensures |s.table| == |m| + Additions(m, s.lin) - DeletesDone(s.done) - CountIf(s.threads, HasDeleted)
  {
    ReachableInv(m, s);
    SizeAfter(m, s.lin);
  }

  // ---------- Statistics ----------

  /** n_clients counts the threads between their increment and their decrement; n_ops counts the passes that are not
      for statistics: the replies sent and those about to be sent. */
  lemma StatisticsExact(m: Map, s: State)
    requires Reachable(m, s)
    ensures s.clients == CountIf(s.threads, Inside)
    ensures s.ops == OpsDone(s.done) + CountIf(s.threads, CountedPass)
  {
    ReachableInv(m, s);
  }

  /** A later statistics request is never told a smaller value of n_ops. */
  lemma StatisticsNeverDecrease(m: Map, s: State, i: nat, j: nat)
    requires Reachable(m, s) && i < |s.done| && j < |s.done| && s.done[i].StatsDone? && s.done[j].StatsDone?
    requires s.done[i].end <= s.done[j].begin
    ensures s.done[i].ops <= s.done[j].ops <= s.ops
  {
    ReachableInv(m, s);
    assert Answered(s, s.done[i]) && Answered(s, s.done[j]);
  }

  lemma {:induction false} CountedOnce(ps: seq<Pc>, t: nat, f: Pc -> bool)
    requires t < |ps| && f(ps[t])
    ensures CountIf(ps, f) >= 1
  {
    if t < |ps| - 1 {
      CountedOnce(ps[..|ps| - 1], t, f);
    }
  }

  /** Each report was made in one state of the run, by a thread that held stats_mutex and loaded n_clients. */
  lemma {:induction false} ReportedWhen(m: Map, steps: seq<Step>, s: State, at: nat)
    returns (k: nat, u: State, t: nat)
    requires Run(m, steps, s) && at < |s.reports|
    ensures k < |steps| && Run(m, steps[..k], u) && steps[k] == LoadClients(t)
    ensures t < |u.threads| && u.threads[t].Loaded?
    ensures |u.reports| == at && s.reports[at] == Counts(u.ops, u.clients)
    decreases |steps|
  {
    var l := |steps| - 1;
    var p :| Run(m, steps[..l], p) && Enabled(p, steps[l]) && s == Next(p, steps[l]);
    if at < |p.reports| {
      k, u, t := ReportedWhen(m, steps[..l], p, at);
      assert steps[..l][..k] == steps[..k];
    } else {
      k, u, t := l, p, steps[l].t;
    }
  }

  /** A statistics reply tells both counters as they were in one state of the run, while the asking thread held
      stats_mutex: n_clients is the number of handlers between their increment and their decrement, itself among them,
      and n_ops the number of passes that had been counted. */
  lemma StatisticsMoment(m: Map, steps: seq<Step>, s: State, i: nat) returns (k: nat, u: State, t: nat)
    requires Run(m, steps, s) && i < |s.done| && s.done[i].StatsDone?
    ensures k < |steps| && Run(m, steps[..k], u) && steps[k] == LoadClients(t)
    ensures t < |u.threads| && u.threads[t].Loaded? && u.statsLock == Some(t)
    ensures s.done[i].clients == CountIf(u.threads, Inside) >= 1
    ensures s.done[i].ops == OpsDone(u.done) + CountIf(u.threads, CountedPass)
    ensures s.done[i].begin <= |u.reports| == s.done[i].at < s.done[i].end
  {
    RunKeeps(m, steps, s);
    assert Answered(s, s.done[i]);
    k, u, t := ReportedWhen(m, steps, s, s.done[i].at);
    RunKeeps(m, steps[..k], u);
    assert LockedBy(u, t, u.threads[t]);
    CountedOnce(u.threads, t, Inside);
  }

  // ---------- When requests come and replies leave ----------

  /** The request that a thread is busy with. */
  function WorkOf(p: Pc): Option<Work> {
    match p
    case Asked(work, _) => Some(work)
    case Reporting(_) => Some(Stats)
    case Loaded(_, _) => Some(Stats)
    case SendingStats(_, _, _, _) => Some(Stats)
    case Checked(k, _) => Some(Op(Change(Del(k))))
    case Holding(w, _) => Some(Op(Change(w)))
    case Performed(req, _, _, _) => Some(Op(req))
    case Invoked(req, _, _, _) => Some(Op(req))
    case Counting(_, req, _, _, _) => Some(Op(req))
    case Sending(req, _, _, _) => Some(Op(req))
    case _ => None
  }

  /** The length of the history that the times of such a request refer to. */
  function Length(s: State, work: Work): nat {
    if work.Op? then |s.lin| else |s.reports|
  }

  /** A thread keeps its request and its time until it sends the reply. */
  lemma RequestStays(s: State, step: Step, n: State, t: nat)
    requires Enabled(s, step) && n == Next(s, step) && t < |n.threads| && WorkOf(n.threads[t]).Some?
    requires !step.Receive? || step.t != t
    ensures t < |s.threads| && WorkOf(s.threads[t]) == WorkOf(n.threads[t])
    ensures s.threads[t].since == n.threads[t].since && step != Send(t)
  {
  }

  lemma RequestComes(s: State, step: Step, n: State)
    requires Enabled(s, step) && n == Next(s, step) && step.Receive?
    ensures step.t < |n.threads| && n.threads[step.t] == Asked(step.work, Length(s, step.work))
  {
  }

  /** The request came at step k, and the thread has sent nothing since. */
  ghost predicate Came(m: Map, steps: seq<Step>, t: nat, p: Pc, k: nat, u: State) {
    && k < |steps| && Run(m, steps[..k], u) && WorkOf(p).Some?
    && steps[k] == Receive(t, WorkOf(p).value) && p.since == Length(u, WorkOf(p).value)
    && forall j :: k < j < |steps| ==> steps[j] != Send(t)
  }

  lemma CameEarlier(m: Map, steps: seq<Step>, t: nat, p: Pc, k: nat, u: State, q: Pc)
    requires steps != [] && Came(m, steps[..|steps| - 1], t, p, k, u) && steps[|steps| - 1] != Send(t)
    requires WorkOf(q) == WorkOf(p) && q.since == p.since
    ensures Came(m, steps, t, q, k, u)
  {
    var l := |steps| - 1;
    assert steps[..l][..k] == steps[..k];
    assert forall j :: k < j < l ==> steps[j] == steps[..l][j];
  }

  lemma {:induction false} CameAt(m: Map, steps: seq<Step>, s: State, t: nat) returns (k: nat, u: State)
    requires Run(m, steps, s) && t < |s.threads| && WorkOf(s.threads[t]).Some?
    ensures Came(m, steps, t, s.threads[t], k, u)
    decreases |steps|
  {
    var l := |steps| - 1;
    var p :| Run(m, steps[..l], p) && Enabled(p, steps[l]) && s == Next(p, steps[l]);
    if steps[l].Receive? && steps[l].t == t {
      RequestComes(p, steps[l], s);
      k, u := l, p;
    } else {
      RequestStays(p, steps[l], s, t);
      k, u := CameAt(m, steps[..l], p, t);
      CameEarlier(m, steps, t, p.threads[t], k, u, s.threads[t]);
    }
  }

  /** The request of a reply, and the work that it was. */
  predicate RepliesTo(d: Done, work: Work) {
    if d.OpDone? then work == Op(d.req) else work == Stats
  }

  lemma CameBefore(m: Map, steps: seq<Step>, l: nat, s: State, t: nat) returns (k: nat, u: State)
    requires l <= |steps| && Run(m, steps[..l], s) && t < |s.threads| && WorkOf(s.threads[t]).Some?
    ensures k < l && Run(m, steps[..k], u) && steps[k] == Receive(t, WorkOf(s.threads[t]).value)
    ensures s.threads[t].since == Length(u, WorkOf(s.threads[t]).value)
    ensures forall j :: k < j < l ==> steps[j] != Send(t)
  {
    k, u := CameAt(m, steps[..l], s, t);
    assert steps[..l][..k] == steps[..k];
    assert forall j :: k < j < l ==> steps[j] == steps[..l][j];
  }

  /** The reply left at step l. */
  lemma {:induction false} SentAt(m: Map, steps: seq<Step>, s: State, i: nat) returns (t: nat, l: nat, v: State)
    requires Run(m, steps, s) && i < |s.done|
    ensures l < |steps| && Run(m, steps[..l], v) && steps[l] == Send(t) && t < |v.threads| && |v.done| == i
    ensures (v.threads[t].Sending? || v.threads[t].SendingStats?) && s.done[i] == DoneOf(v, v.threads[t])
    decreases |steps|
  {
    var n := |steps| - 1;
    var p :| Run(m, steps[..n], p) && Enabled(p, steps[n]) && s == Next(p, steps[n]);
    if i < |p.done| {
      t, l, v := SentAt(m, steps[..n], p, i);
      assert steps[..n][..l] == steps[..l];
    } else {
      t, l, v := steps[n].t, n, p;
    }
  }

  /** The times of a reply are those of its request's arrival and of its own departure: some thread received the
      request at step k, sent the reply at step l, and nothing between. */
  lemma ReplyTimes(m: Map, steps: seq<Step>, s: State, i: nat)
    returns (t: nat, work: Work, k: nat, u: State, l: nat, v: State)
    requires Run(m, steps, s) && i < |s.done|
    ensures k < l < |steps| && Run(m, steps[..k], u) && Run(m, steps[..l], v)
    ensures steps[k] == Receive(t, work) && steps[l] == Send(t) && forall j :: k < j < l ==> steps[j] != Send(t)
    ensures RepliesTo(s.done[i], work) && |v.done| == i
    ensures s.done[i].begin == Length(u, work) && s.done[i].end == Length(v, work)
  {
    t, l, v := SentAt(m, steps, s, i);
    work := WorkOf(v.threads[t]).value;
    k, u := CameBefore(m, steps, l, v, t);
  }
}
