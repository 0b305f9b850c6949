/** Without crashes the draining assumption is not an assumption: when the client is free to send, every server and
    every joiner has finished with the last write. */
module ChainCrashFree {
  import opened Options
  import opened Store
  import opened Chain
  import opened ChainInvariant
  import opened ChainLinks

  /** A run in which nobody stops; of the timing assumptions it makes only those about links and readers. */
  predicate PlainStep(s: State, step: Step) {
    && Enabled(s, step)
    && !step.Crash? && !step.JoinerCrash?
    && (step.Forward? ==> ForwardSafe(s, step.i))
    && (step.ReadServe? ==> ReadSafe(s, step.id))
  }

  predicate PlainRun(s: State, steps: seq<Step>, t: State)
    decreases |steps|
  {
    if steps == [] then s == t
    else PlainStep(s, steps[0]) && PlainRun(Apply(s, steps[0]), steps[1..], t)
  }

  /** Server h is the lowest one that is busy: everybody above it waits for the next one, everybody below is idle.
      A write waits at the first joiner only if h is the tail and waits for that joiner. */
  ghost predicate CallStack(s: State, h: nat) {
    && h < |s.chain|
    && (forall i :: 0 <= i < h ==> s.chain[i].phase.Waiting? && s.chain[i].phase.on == s.chain[i + 1].name)
    && !s.chain[h].phase.Idle?
    && (s.chain[h].phase.Waiting? ==>
          h == |s.chain| - 1 && s.joiners != [] && s.chain[h].phase.on == s.joiners[0].name
          && s.joiners[0].inbox.Some?)
    && (!s.chain[h].phase.Waiting? ==> forall j :: 0 <= j < |s.joiners| ==> s.joiners[j].inbox.None?)
    && (forall i :: h < i < |s.chain| ==> s.chain[i].phase.Idle?)
    && (forall j :: 0 < j < |s.joiners| ==> s.joiners[j].inbox.None?)
  }

  ghost predicate Disciplined(s: State) {
    && s.chain != []
    && (if s.client.Ready? then Quiet(s) else exists h :: CallStack(s, h))
  }

  lemma StackSend(s: State, op: Write)
    requires Disciplined(s) && CanSend(s)
    ensures CallStack(DoSend(s, op), 0)
  {
  }

  lemma StackInvoke(s: State, h: nat, i: nat)
    requires CallStack(s, h) && CanInvoke(s, i)
    ensures CallStack(DoInvoke(s, i), h)
  {
  }

  lemma StackForwardDown(s: State, h: nat)
    requires CallStack(s, h) && CanForward(s, h) && h + 1 < |s.chain|
    requires s.chain[h].succ == Some(s.chain[h + 1].name) && IndexOf(s.chain, s.chain[h + 1].name) == h + 1
    ensures CallStack(DoForward(s, h), h + 1)
  {
  }

  lemma StackForwardJoiner(s: State, h: nat)
    requires CallStack(s, h) && CanForward(s, h) && h + 1 == |s.chain| && s.joiners != []
    requires s.chain[h].succ == Some(s.joiners[0].name)
    requires IndexOf(s.chain, s.joiners[0].name) < 0 && JoinerIndexOf(s.joiners, s.joiners[0].name) == 0
    ensures CallStack(DoForward(s, h), h)
  {
  }

  lemma StackForwardNowhere(s: State, h: nat)
    requires CallStack(s, h) && CanForward(s, h)
    requires s.chain[h].succ.Some? ==> !Alive(s, s.chain[h].succ.value)
    ensures CallStack(DoForward(s, h), h)
  {
  }

  lemma FirstJoinerIndex(s: State)
    requires Names(s) && s.joiners != []
    ensures IndexOf(s.chain, s.joiners[0].name) < 0 && JoinerIndexOf(s.joiners, s.joiners[0].name) == 0
  {
    var j := JoinerIndexOf(s.joiners, s.joiners[0].name);
    assert j >= 0 && s.joiners[j].name == s.joiners[0].name;
  }

  /** The link is right, broken or absent, so the write goes to the next server, to the first joiner, or nowhere. */
  lemma StackForward(s: State, h: nat, i: nat)
    requires Names(s) && Links(s) && CallStack(s, h) && CanForward(s, i)
    ensures exists h' :: CallStack(DoForward(s, i), h')
  {
    assert i == h;
    if s.chain[h].succ.Some? && Alive(s, s.chain[h].succ.value) {
      LiveLinkIsNext(s, h);
      if h + 1 < |s.chain| {
        NameIndex(s, h + 1);
        StackForwardDown(s, h);
      } else {
        FirstJoinerIndex(s);
        StackForwardJoiner(s, h);
      }
    } else {
      StackForwardNowhere(s, h);
    }
  }

  lemma StackNoWaitFail(s: State, h: nat, i: nat)
    requires CallStack(s, h)
    ensures !CanWaitFail(s, i)
  {
    if i < h {
      assert Alive(s, s.chain[i + 1].name);
    } else if s.joiners != [] {
      assert Alive(s, s.joiners[0].name);
    }
  }

  lemma StackReply(s: State, h: nat, i: nat)
    requires CallStack(s, h) && CanReply(s, i) && s.client.Pending?
    ensures i == h && (if h == 0 then Quiet(DoReply(s, i)) && DoReply(s, i).client.Ready?
                       else CallStack(DoReply(s, i), h - 1) && DoReply(s, i).client.Pending?)
  {
    assert i == h;
  }

  lemma StackSnapshot(s: State, h: nat)
    requires CallStack(s, h) && CanSnapshot(s)
    ensures CallStack(DoSnapshot(s), if s.chain[h].phase.Waiting? then h + 1 else h)
  {
  }

  /** Links, new joiners and readers do not matter. */
  lemma StackFrame(s: State, t: State, h: nat)
    requires CallStack(s, h) && |t.chain| == |s.chain| && |t.joiners| >= |s.joiners|
    requires forall i :: 0 <= i < |s.chain| ==>
      t.chain[i].name == s.chain[i].name && t.chain[i].phase == s.chain[i].phase
    requires forall j :: 0 <= j < |s.joiners| ==>
      t.joiners[j].name == s.joiners[j].name && t.joiners[j].inbox == s.joiners[j].inbox
    requires forall j :: |s.joiners| <= j < |t.joiners| ==> t.joiners[j].inbox.None?
    ensures CallStack(t, h)
  {
  }

  lemma StackOtherStep(s: State, h: nat, step: Step)
    requires CallStack(s, h) && Enabled(s, step)
    requires step.Watch? || step.WatchJoiner? || step.Join?
          || step.Relink? || step.ReadBegin? || step.ReadServe? || step.ReadFail?
    ensures CallStack(Apply(s, step), h) && Apply(s, step).client == s.client
  {
    StackFrame(s, Apply(s, step), h);
  }

  lemma Busy(t: State, h: nat)
    requires CallStack(t, h) && t.client.Pending?
    ensures Disciplined(t)
  {
  }

  lemma StackReplyStep(s: State, h: nat, i: nat)
    requires CallStack(s, h) && s.client.Pending? && CanReply(s, i)
    ensures Disciplined(DoReply(s, i))
  {
    StackReply(s, h, i);
    if h > 0 {
      Busy(DoReply(s, i), h - 1);
    }
  }

  lemma StackForwardStep(s: State, h: nat, i: nat)
    requires Names(s) && Links(s) && CallStack(s, h) && s.client.Pending? && CanForward(s, i)
    ensures Disciplined(DoForward(s, i))
  {
    StackForward(s, h, i);
  }

  lemma StackStep(s: State, h: nat, step: Step)
    requires Names(s) && Links(s) && CallStack(s, h) && s.client.Pending? && PlainStep(s, step)
    ensures Disciplined(Apply(s, step))
  {
    if step.Invoke? {
      StackInvoke(s, h, step.i);
      Busy(DoInvoke(s, step.i), h);
    } else if step.Forward? {
      StackForwardStep(s, h, step.i);
    } else if step.WaitFail? {
      StackNoWaitFail(s, h, step.i);
    } else if step.Reply? {
      StackReplyStep(s, h, step.i);
    } else if step.Snapshot? {
      StackSnapshot(s, h);
      Busy(DoSnapshot(s), if s.chain[h].phase.Waiting? then h + 1 else h);
    } else {
      StackOtherStep(s, h, step);
      Busy(Apply(s, step), h);
    }
  }

  lemma QuietStep(s: State, step: Step)
    requires Disciplined(s) && s.client.Ready? && PlainStep(s, step)
    ensures Disciplined(Apply(s, step))
  {
    if step.ClientSend? {
      StackSend(s, step.op);
    }
  }

  lemma QuietIsSafe(s: State, op: Write)
    requires s.chain != [] && Quiet(s)
    ensures SendSafe(s, op)
  {
  }

  /** When the client may send, nobody holds a write: a crash-free run is timely as soon as its forwards are. */
  lemma {:induction false} PlainRunIsTimely(s: State, steps: seq<Step>, t: State)
    requires Inv(s) && Links(s) && Disciplined(s) && PlainRun(s, steps, t)
    ensures Run(s, steps, t)
    decreases |steps|
  {
    if steps != [] {
      var u := Apply(s, steps[0]);
      StepLinks(s, steps[0]);
      if s.client.Ready? {
        if steps[0].ClientSend? {
          QuietIsSafe(s, steps[0].op);
        }
        QuietStep(s, steps[0]);
      } else {
        var h :| CallStack(s, h);
        StackStep(s, h, steps[0]);
      }
      StepKeeps(s, steps[0]);
      PlainRunIsTimely(u, steps[1..], t);
    }
  }

  lemma InitDisciplined(n: nat)
    requires n > 0
    ensures Disciplined(Init(n))
  {
  }

  lemma CrashFreeRunsAreTimely(n: nat, steps: seq<Step>, t: State)
    requires n > 0 && PlainRun(Init(n), steps, t)
    ensures Run(Init(n), steps, t)
  {
    var s := Init(n);
    InitInv(n);
    InitLinks(n);
    InitDisciplined(n);
    PlainRunIsTimely(s, steps, t);
  }
}
