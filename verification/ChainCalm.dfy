/** While no znode comes or goes: a reader whose watcher has run since the last change is served by the tail, and once
    all watchers have run the chain needs no assumption about timing at all. */
module ChainCalm {
  import opened Options
  import opened Store
  import opened Chain
  import opened ChainHistory
  import opened ChainInvariant
  import opened ChainLinks
  import opened ChainCrashFree
  import opened ChainSafety

  // ---------- Where watchers connect ----------

  /** The names of all live znodes, in order. */
  function Znodes(s: State): seq<Name> {
    ServerNames(s.chain) + JoinerNames(s.joiners)
  }

  ghost predicate IsLast(s: State, n: Name) {
    n in Znodes(s) && forall z :: z in Znodes(s) ==> z <= n
  }

  /** No connection for the last znode, and the next greater one for every other. */
  ghost predicate IsNext(s: State, own: Name, link: Option<Name>) {
    if link.None? then forall z :: z in Znodes(s) ==> z <= own
    else link.value in Znodes(s) && own < link.value && forall z :: z in Znodes(s) ==> z <= own || link.value <= z
  }

  /** Every znode belongs to a server or to a joiner. */
  lemma WhoseZnode(s: State, z: Name) returns (k: nat)
    requires z in Znodes(s)
    ensures k < |s.chain| ==> s.chain[k].name == z
    ensures k >= |s.chain| ==> k - |s.chain| < |s.joiners| && s.joiners[k - |s.chain|].name == z
  {
    k :| 0 <= k < |Znodes(s)| && Znodes(s)[k] == z;
  }

  lemma ServerHasZnode(s: State, i: nat)
    requires i < |s.chain|
    ensures s.chain[i].name in Znodes(s)
  {
    assert Znodes(s)[i] == s.chain[i].name;
  }

  lemma JoinerHasZnode(s: State, j: nat)
    requires j < |s.joiners|
    ensures s.joiners[j].name in Znodes(s)
  {
    assert Znodes(s)[|s.chain| + j] == s.joiners[j].name;
  }

  lemma LastIsLast(s: State)
    requires Names(s) && s.chain != []
    ensures IsLast(s, LastZnode(s))
  {
    if s.joiners != [] {
      JoinerHasZnode(s, |s.joiners| - 1);
    } else {
      ServerHasZnode(s, |s.chain| - 1);
    }
    forall z | z in Znodes(s) ensures z <= LastZnode(s) {
      var k := WhoseZnode(s, z);
    }
  }

  /** A reader's watcher connects to the greatest live znode, whether or not its server has its table yet; a request on
      a connection that is closed is lost, and other readers are left alone. */
  lemma RelinkConnectsToLast(s: State, id: nat)
    requires Reachable(s) && s.chain != []
    ensures var t := DoRelink(s, id);
            && id in t.links && IsLast(s, t.links[id])
            && (id in t.requests <==> id in s.requests && id in s.links && s.links[id] == t.links[id])
            && forall k :: k != id ==>
                 (k in t.links <==> k in s.links) && (k in s.links ==> t.links[k] == s.links[k]) &&
                 (k in t.requests <==> k in s.requests)
  {
    ReachableInv(s);
    LastIsLast(s);
  }

  /** A reader whose server is gone gets no answer, and can ask again as soon as its watcher has run. */
  lemma BrokenReaderAsksAgain(s: State, id: nat)
    requires CanReadFail(s, id) && s.chain != []
    ensures var t := DoReadFail(s, id);
            && t.done == s.done && CanReadBegin(DoRelink(t, id), id)
            && forall k :: k != id ==> (k in t.requests <==> k in s.requests)
  {
  }

  lemma NextIsNext(s: State, i: nat)
    requires Names(s) && i < |s.chain|
    ensures IsNext(s, s.chain[i].name, NextOf(s, i))
  {
    if i + 1 < |s.chain| {
      ServerHasZnode(s, i + 1);
    } else if s.joiners != [] {
      JoinerHasZnode(s, 0);
    }
    forall z | z in Znodes(s)
      ensures z <= s.chain[i].name || (NextOf(s, i).Some? && NextOf(s, i).value <= z)
    {
      var k := WhoseZnode(s, z);
    }
  }

  lemma JoinersNextIsNext(s: State, j: nat)
    requires Names(s) && j < |s.joiners|
    ensures IsNext(s, s.joiners[j].name, NextOfJoiner(s, j))
  {
    if j + 1 < |s.joiners| {
      JoinerHasZnode(s, j + 1);
    }
    forall z | z in Znodes(s)
      ensures z <= s.joiners[j].name || (NextOfJoiner(s, j).Some? && NextOfJoiner(s, j).value <= z)
    {
      var k := WhoseZnode(s, z);
    }
  }

  /** The watcher of a server, and that of a joiner, connects to the next greater live znode. */
  lemma WatchersConnectToNext(s: State, i: nat, j: nat)
    requires Reachable(s)
    ensures i < |s.chain| ==> IsNext(s, s.chain[i].name, DoWatch(s, i, true).chain[i].succ)
    ensures j < |s.joiners| ==> IsNext(s, s.joiners[j].name, DoWatchJoiner(s, j, true).joiners[j].succ)
  {
    ReachableInv(s);
    if i < |s.chain| {
      NextIsNext(s, i);
    }
    if j < |s.joiners| {
      JoinersNextIsNext(s, j);
    }
  }

  // ---------- Readers, while no znode comes or goes ----------

  predicate ChangesZnodes(step: Step) {
    step.Join? || step.Crash? || step.JoinerCrash?
  }

  /** Steps that the code can make, timely or not, none of which creates or removes a znode. */
  predicate Steady(s: State, steps: seq<Step>, t: State)
    decreases |steps|
  {
    if steps == [] then s == t
    else Enabled(s, steps[0]) && !ChangesZnodes(steps[0]) && Steady(Apply(s, steps[0]), steps[1..], t)
  }

  lemma SameNames(s: State, t: State)
    requires Names(s) && s.chain != [] && t.nextName == s.nextName
    requires |t.chain| == |s.chain| && |t.joiners| == |s.joiners|
    requires forall i :: 0 <= i < |s.chain| ==> t.chain[i].name == s.chain[i].name
    requires forall j :: 0 <= j < |s.joiners| ==> t.joiners[j].name == s.joiners[j].name
    ensures Names(t) && t.chain != [] && LastZnode(t) == LastZnode(s)
  {
  }

  lemma SnapshotKeepsNames(s: State)
    requires CanSnapshot(s) && Names(s)
    ensures var t := DoSnapshot(s); Names(t) && t.chain != [] && LastZnode(t) == LastZnode(s)
  {
  }

  lemma StepKeepsNames(s: State, step: Step)
    requires Enabled(s, step) && !ChangesZnodes(step) && Names(s) && s.chain != []
    ensures var t := Apply(s, step); Names(t) && t.chain != [] && LastZnode(t) == LastZnode(s)
  {
    if step.Snapshot? {
      SnapshotKeepsNames(s);
    } else if step.Watch? {
      SameNames(s, DoWatch(s, step.i, step.ok));
    } else if step.WatchJoiner? {
      SameNames(s, DoWatchJoiner(s, step.i, step.ok));
    } else {
      DataStepKeepsLinks(s, step);
      SameNames(s, Apply(s, step));
    }
  }

  lemma {:induction false} SteadyKeepsLink(s: State, steps: seq<Step>, t: State, id: nat)
    requires Steady(s, steps, t) && Names(s) && s.chain != [] && id in s.links && s.links[id] == LastZnode(s)
    ensures Names(t) && t.chain != [] && id in t.links && t.links[id] == LastZnode(t)
    decreases |steps|
  {
    if steps != [] {
      StepKeepsNames(s, steps[0]);
      SteadyKeepsLink(Apply(s, steps[0]), steps[1..], t, id);
    }
  }

  /** Whoever is connected to the last znode is served by the tail, if by anybody. */
  lemma LastIsTail(s: State, id: nat)
    requires Names(s) && CanRead(s, id) && s.links[id] == LastZnode(s)
    ensures ReadFrom(s, id) == Tail(s) && s.joiners == [] && ReadSafe(s, id)
  {
  }

  /** A reader whose watcher has run since the last change of the znodes, and whose server has its table, is served by
      the tail: its reads are safe, whatever else happens. */
  lemma RelinkedReaderIsSafe(s: State, id: nat, steps: seq<Step>, t: State)
    requires Reachable(s) && s.chain != [] && Steady(DoRelink(s, id), steps, t) && CanRead(t, id)
    ensures ReadFrom(t, id) == t.chain[|t.chain| - 1] && ReadSafe(t, id)
  {
    ReachableInv(s);
    SteadyKeepsLink(DoRelink(s, id), steps, t, id);
    LastIsTail(t, id);
  }

  // ---------- Runs without any assumption ----------

  /** All watchers have run. */
  ghost predicate Calm(s: State) {
    && s.chain != []
    && (forall i :: 0 <= i < |s.chain| ==> s.chain[i].succ == NextOf(s, i))
    && (forall j :: 0 <= j < |s.joiners| ==> s.joiners[j].succ == NextOfJoiner(s, j))
    && (forall id :: id in s.links ==> s.links[id] == LastZnode(s))
  }

  lemma SnapshotKeepsCalm(s: State)
    requires CanSnapshot(s) && Calm(s)
    ensures Calm(DoSnapshot(s))
  {
  }

  lemma LinksKeepCalm(s: State, t: State)
    requires Calm(s) && SameLinks(s, t) && forall id :: id in t.links ==> t.links[id] == LastZnode(s)
    ensures Calm(t)
  {
  }

  /** A watcher that has run already has nothing to do. */
  lemma WatchDoesNothing(s: State, i: nat, ok: bool)
    requires Calm(s)
    ensures CanWatch(s, i, ok) ==> DoWatch(s, i, ok) == s.(clock := s.clock + 1)
    ensures CanWatchJoiner(s, i, ok) ==> DoWatchJoiner(s, i, ok) == s.(clock := s.clock + 1)
  {
    assert i < |s.chain| ==> s.chain[i := s.chain[i].(succ := NextOf(s, i))] == s.chain;
    assert i < |s.joiners| ==> s.joiners[i := s.joiners[i].(succ := NextOfJoiner(s, i))] == s.joiners;
  }

  lemma StepKeepsCalm(s: State, step: Step)
    requires Calm(s) && Enabled(s, step) && !ChangesZnodes(step)
    ensures Calm(Apply(s, step))
  {
    if step.Snapshot? {
      SnapshotKeepsCalm(s);
    } else if step.Watch? || step.WatchJoiner? {
      WatchDoesNothing(s, step.i, step.ok);
    } else {
      DataStepKeepsLinks(s, step);
      LinksKeepCalm(s, Apply(s, step));
    }
  }

  lemma CalmForward(s: State, i: nat)
    requires Calm(s) && CanForward(s, i)
    ensures ForwardSafe(s, i)
  {
    assert i + 1 < |s.chain| ==> NextOf(s, i) == Some(s.chain[i + 1].name);
  }

  lemma CalmIsPlain(s: State, step: Step)
    requires Calm(s) && Names(s) && Enabled(s, step) && !ChangesZnodes(step)
    ensures PlainStep(s, step)
  {
    if step.ReadServe? {
      LastIsTail(s, step.id);
    } else if step.Forward? {
      CalmForward(s, step.i);
    }
  }

  lemma {:induction false} CalmRunIsPlain(s: State, steps: seq<Step>, t: State)
    requires Calm(s) && Names(s) && Steady(s, steps, t)
    ensures PlainRun(s, steps, t)
    decreases |steps|
  {
    if steps != [] {
      CalmIsPlain(s, steps[0]);
      StepKeepsCalm(s, steps[0]);
      StepKeepsNames(s, steps[0]);
      CalmRunIsPlain(Apply(s, steps[0]), steps[1..], t);
    }
  }

  /** Once all watchers have run, and as long as no server comes or goes, everything that the code can do is timely, and
      all answers are linearizable. */
  lemma CalmRunsAreTimely(s: State, steps: seq<Step>, t: State)
    requires Inv(s) && Links(s) && Disciplined(s) && Calm(s) && Steady(s, steps, t)
    ensures Run(s, steps, t) && Linearizable(t)
  {
    CalmRunIsPlain(s, steps, t);
    PlainRunIsTimely(s, steps, t);
    RunKeeps(s, steps, t);
  }

  lemma InitCalm(n: nat)
    requires n > 0
    ensures Calm(Init(n))
  {
  }

  lemma InitReady(n: nat, s: State)
    requires n > 0 && s == Init(n)
    ensures Inv(s) && Links(s) && Disciplined(s) && Calm(s)
  {
    InitInv(n);
    InitLinks(n);
    InitDisciplined(n);
    InitCalm(n);
  }

  /** In particular from the start, for every length of the chain. */
  lemma SteadyChainIsLinearizable(n: nat, steps: seq<Step>, t: State)
    requires n > 0 && Steady(Init(n), steps, t)
    ensures Run(Init(n), steps, t) && Linearizable(t)
  {
    var s := Init(n);
    InitReady(n, s);
    CalmRunsAreTimely(s, steps, t);
  }
}
