/** The successor links that the watchers leave behind, whether or not their connections succeed: absent, broken, or
    right; never past a live server. */
module ChainLinks {
  import opened Options
  import opened Store
  import opened Chain
  import opened ChainInvariant

  /** No live znode lies strictly between a server and the server it is linked to. */
  ghost predicate Links(s: State) {
    && (forall i :: 0 <= i < |s.chain| && s.chain[i].succ.Some? ==>
          s.chain[i].name < s.chain[i].succ.value < s.nextName)
    && (forall i, k :: 0 <= i < k < |s.chain| && s.chain[i].succ.Some? ==> s.chain[i].succ.value <= s.chain[k].name)
    && (forall i, j :: 0 <= i < |s.chain| && 0 <= j < |s.joiners| && s.chain[i].succ.Some? ==>
          s.chain[i].succ.value <= s.joiners[j].name)
    && (forall j :: 0 <= j < |s.joiners| && s.joiners[j].succ.Some? ==>
          s.joiners[j].name < s.joiners[j].succ.value < s.nextName)
    && (forall i, j :: 0 <= i < j < |s.joiners| && s.joiners[i].succ.Some? ==>
          s.joiners[i].succ.value <= s.joiners[j].name)
  }

  lemma InitLinks(n: nat)
    requires n > 0
    ensures Links(Init(n))
  {
  }

  ghost predicate SameLinks(s: State, t: State) {
    && t.nextName == s.nextName && |t.chain| == |s.chain| && |t.joiners| == |s.joiners|
    && (forall i :: 0 <= i < |s.chain| ==> t.chain[i].name == s.chain[i].name && t.chain[i].succ == s.chain[i].succ)
    && (forall j :: 0 <= j < |s.joiners| ==>
          t.joiners[j].name == s.joiners[j].name && t.joiners[j].succ == s.joiners[j].succ)
  }

  lemma LinksFrame(s: State, t: State)
    requires Links(s) && SameLinks(s, t)
    ensures Links(t)
  {
  }

  /** Only the watchers, the joiners and the crashes touch names and links. */
  lemma DataStepKeepsLinks(s: State, step: Step)
    requires Enabled(s, step)
    requires step.ClientSend? || step.Invoke? || step.Forward? || step.WaitFail? || step.Reply?
          || step.Relink? || step.ReadBegin? || step.ReadServe? || step.ReadFail?
    ensures SameLinks(s, Apply(s, step))
  {
    if step.Forward? {
      ForwardKeepsLinks(s, step.i);
    }
  }

  lemma ForwardKeepsLinks(s: State, i: nat)
    requires CanForward(s, i)
    ensures SameLinks(s, DoForward(s, i))
  {
  }

  /** A link that is right for all that come after. */
  ghost predicate Fitting(s: State, i: nat, succ: Option<Name>)
    requires i < |s.chain|
  {
    succ.Some? ==>
      && s.chain[i].name < succ.value < s.nextName
      && (forall k :: i < k < |s.chain| ==> succ.value <= s.chain[k].name)
      && (forall j :: 0 <= j < |s.joiners| ==> succ.value <= s.joiners[j].name)
  }

  lemma NextFits(s: State, i: nat)
    requires Names(s) && i < |s.chain|
    ensures Fitting(s, i, NextOf(s, i))
  {
  }

  lemma SetLink(s: State, i: nat, succ: Option<Name>, t: State)
    requires Links(s) && i < |s.chain| && Fitting(s, i, succ)
    requires t == s.(chain := s.chain[i := s.chain[i].(succ := succ)], clock := t.clock)
    ensures Links(t)
  {
  }

  lemma WatchLinks(s: State, i: nat, ok: bool)
    requires Names(s) && Links(s) && CanWatch(s, i, ok)
    ensures Links(DoWatch(s, i, ok))
  {
    NextFits(s, i);
    SetLink(s, i, if ok then NextOf(s, i) else None, DoWatch(s, i, ok));
  }

  lemma WatchJoinerLinks(s: State, j: nat, ok: bool)
    requires Names(s) && Links(s) && CanWatchJoiner(s, j, ok)
    ensures Links(DoWatchJoiner(s, j, ok))
  {
  }

  lemma CrashLinks(s: State, c: nat)
    requires Links(s) && CanCrash(s, c)
    ensures Links(DoCrash(s, c))
  {
  }

  lemma JoinLinks(s: State)
    requires Links(s)
    ensures Links(DoJoin(s))
  {
  }

  lemma JoinerCrashLinks(s: State, j: nat)
    requires Links(s) && j < |s.joiners|
    ensures Links(DoJoinerCrash(s, j))
  {
  }

  lemma SnapshotLinks(s: State)
    requires Links(s) && CanSnapshot(s)
    ensures Links(DoSnapshot(s))
  {
  }

  lemma StepLinks(s: State, step: Step)
    requires Names(s) && Links(s) && Enabled(s, step)
    ensures Links(Apply(s, step))
  {
    match step
    case Watch(i, ok) => WatchLinks(s, i, ok);
    case Snapshot => SnapshotLinks(s);
    case WatchJoiner(j, ok) => WatchJoinerLinks(s, j, ok);
    case Crash(c) => CrashLinks(s, c);
    case Join => JoinLinks(s);
    case JoinerCrash(j) => JoinerCrashLinks(s, j);
    case _ =>
      DataStepKeepsLinks(s, step);
      LinksFrame(s, Apply(s, step));
  }

  lemma {:induction false} RunLinks(s: State, steps: seq<Step>, t: State)
    requires Inv(s) && Links(s) && Run(s, steps, t)
    ensures Links(t)
    decreases |steps|
  {
    if steps != [] {
      StepKeeps(s, steps[0]);
      StepLinks(s, steps[0]);
      RunLinks(Apply(s, steps[0]), steps[1..], t);
    }
  }

  /** A link to a live server is the link that the watcher would make now. */
  lemma LiveLinkIsNext(s: State, i: nat)
    requires Names(s) && Links(s) && i < |s.chain| && s.chain[i].succ.Some? && Alive(s, s.chain[i].succ.value)
    ensures s.chain[i].succ == NextOf(s, i)
  {
    var n := s.chain[i].succ.value;
    var k, j := IndexOf(s.chain, n), JoinerIndexOf(s.joiners, n);
    var next := NextOf(s, i);
    assert next.Some? && n <= next.value;
    assert k >= 0 ==> i < k && next.value <= s.chain[k].name;
    assert k < 0 ==> next.value <= s.joiners[j].name;
  }

  /** In every reachable state a link is absent, points to a server that is gone, or is the right one. */
  lemma LinksAreRightOrBroken(n: nat, steps: seq<Step>, t: State, i: nat)
    requires n > 0 && Run(Init(n), steps, t) && i < |t.chain|
    ensures t.chain[i].succ.None? || !Alive(t, t.chain[i].succ.value) || t.chain[i].succ == NextOf(t, i)
  {
    InitInv(n);
    InitLinks(n);
    RunKeeps(Init(n), steps, t);
    RunLinks(Init(n), steps, t);
    if t.chain[i].succ.Some? && Alive(t, t.chain[i].succ.value) {
      LiveLinkIsNext(t, i);
    }
  }
}
