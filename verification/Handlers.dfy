/** One server with any number of handler threads, each serving a connection. A step of a thread is what it does
    between two points where another thread can run: taking or releasing a mutex, loading or storing a counter under
    stats_mutex, or one operation of the table. `lin`, `reports` and `done` are history variables. */
module Handlers {
  import opened CStrings
  import opened Options
  import opened Store
  import opened Requests

  datatype Work = Op(req: Request) | Stats

  /** Where a thread is in client_handler and invoke. `since` and `at` are places in the histories. */
  datatype Pc =
    | Fresh                                              // before the first lock
    | Entering(clients: int)                             // holds stats_mutex, has loaded n_clients
    | Receiving
    | Asked(work: Work, since: nat)
    | Reporting(since: nat)                              // holds stats_mutex
    | Loaded(ops: int, since: nat)                       // holds stats_mutex, has loaded n_ops
    | Checked(key: Key, since: nat)                      // OP_DEL: table_get has found the key
    | Holding(write: Write, since: nat)                  // holds table_mutex
    | Performed(req: Request, reply: Reply, since: nat, at: nat)    // still holds table_mutex
    | Invoked(req: Request, reply: Reply, since: nat, at: nat)
    | Counting(ops: int, req: Request, reply: Reply, since: nat, at: nat)   // holds stats_mutex, has loaded n_ops
    | Sending(req: Request, reply: Reply, since: nat, at: nat)
    | SendingStats(ops: int, clients: int, since: nat, at: nat)
    | Leaving
    | Decrementing(clients: int)                         // holds stats_mutex, has loaded n_clients
    | Gone

  /** An operation at the moment it takes effect. */
  datatype Effect = Effect(req: Request, reply: Reply)

  /** Both counters at the moment when the second one has been loaded. */
  datatype Counts = Counts(ops: int, clients: int)

  /** A reply that has been sent, with the length of the history when the request came and when the reply left. */
  datatype Done =
    | OpDone(req: Request, reply: Reply, begin: nat, at: nat, end: nat)
    | StatsDone(ops: int, clients: int, begin: nat, at: nat, end: nat)

  datatype State = State(
    threads: seq<Pc>, table: Map, tableLock: Option<nat>, lin: seq<Effect>,
    statsLock: Option<nat>, ops: int, clients: int, reports: seq<Counts>, done: seq<Done>)

  datatype Step =
    | Spawn
    | Enter(t: nat)
    | Entered(t: nat)
    | Receive(t: nat, work: Work)
    | Report(t: nat)
    | LoadOps(t: nat)
    | LoadClients(t: nat)
    | Refuse(t: nat)
    | Check(t: nat)
    | Lock(t: nat)
    | Apply(t: nat)
    | Unlock(t: nat)
    | Read(t: nat, reply: Reply)
    | Count(t: nat)
    | Counted(t: nat)
    | Send(t: nat)
    | Eof(t: nat)
    | Leave(t: nat)
    | Left(t: nat)

  function Init(m: Map): State {
    State([], m, None, [], None, 0, 0, [], [])
  }

  // ---------- The steps ----------

  /** A request that has to take table_mutex next. */
  predicate WantsTable(p: Pc) {
    || (p.Asked? && p.work.Op? && p.work.req.Change? && p.work.req.write.Put? && p.work.req.write.value != [])
    || p.Checked?
  }

  function WriteOf(p: Pc): Write
    requires WantsTable(p)
  {
    if p.Asked? then p.work.req.write else Del(p.key)
  }

  predicate AsksDel(p: Pc) {
    p.Asked? && p.work.Op? && p.work.req.Change? && p.work.req.write.Del?
  }

  predicate AsksEmptyPut(p: Pc) {
    p.Asked? && p.work.Op? && p.work.req.Change? && p.work.req.write.Put? && p.work.req.write.value == []
  }

  predicate AsksRead(p: Pc) {
    p.Asked? && p.work.Op? && !p.work.req.Change?
  }

  ghost predicate Enabled(s: State, step: Step) {
    step.Spawn? || (step.t < |s.threads| && Ready(s, s.threads[step.t], step))
  }

  ghost predicate Ready(s: State, p: Pc, step: Step)
    requires !step.Spawn?
  {
    match step
    case Enter(_) => p.Fresh? && s.statsLock == None
    case Entered(_) => p.Entering?
    case Receive(_, _) => p.Receiving?
    case Report(_) => p.Asked? && p.work.Stats? && s.statsLock == None
    case LoadOps(_) => p.Reporting?
    case LoadClients(_) => p.Loaded?
    case Refuse(_) => AsksEmptyPut(p)
    case Check(_) => AsksDel(p)
    case Lock(_) => WantsTable(p) && s.tableLock == None
    case Apply(_) => p.Holding?
    case Unlock(_) => p.Performed?
    case Read(_, reply) => AsksRead(p) && Answers(s.table, p.work.req, s.table, reply)
    case Count(_) => p.Invoked? && s.statsLock == None
    case Counted(_) => p.Counting?
    case Send(_) => p.Sending? || p.SendingStats?
    case Eof(_) => p.Receiving?
    case Leave(_) => p.Leaving? && s.statsLock == None
    case Left(_) => p.Decrementing?
  }

  function At(s: State, t: nat, p: Pc): State
    requires t < |s.threads|
  {
    s.(threads := s.threads[t := p])
  }

  /** The request takes effect now. */
  function Effective(s: State, t: nat, req: Request, reply: Reply, p: Pc): State
    requires t < |s.threads|
  {
    At(s, t, p).(lin := s.lin + [Effect(req, reply)], table := After(s.table, req))
  }

  function DoneOf(s: State, p: Pc): Done
    requires p.Sending? || p.SendingStats?
  {
    if p.Sending? then OpDone(p.req, p.reply, p.since, p.at, |s.lin|)
    else StatsDone(p.ops, p.clients, p.since, p.at, |s.reports|)
  }

  ghost function Next(s: State, step: Step): State
    requires Enabled(s, step)
  {
    if step.Spawn? then s.(threads := s.threads + [Fresh])
    else
      var t, p := step.t, s.threads[step.t];
      match step
      case Enter(_) => At(s, t, Entering(s.clients)).(statsLock := Some(t))
      case Entered(_) => At(s, t, Receiving).(clients := p.clients + 1, statsLock := None)
      case Receive(_, work) => At(s, t, Asked(work, if work.Op? then |s.lin| else |s.reports|))
      case Report(_) => At(s, t, Reporting(p.since)).(statsLock := Some(t))
      case LoadOps(_) => At(s, t, Loaded(s.ops, p.since))
      case LoadClients(_) =>
        At(s, t, SendingStats(p.ops, s.clients, p.since, |s.reports|))
        .(reports := s.reports + [Counts(s.ops, s.clients)], statsLock := None)
      case Refuse(_) => Effective(s, t, p.work.req, Error, Invoked(p.work.req, Error, p.since, |s.lin|))
      case Check(_) =>
        if p.work.req.write.key in s.table then At(s, t, Checked(p.work.req.write.key, p.since))
        else Effective(s, t, p.work.req, Error, Invoked(p.work.req, Error, p.since, |s.lin|))
      case Lock(_) => At(s, t, Holding(WriteOf(p), p.since)).(tableLock := Some(t))
      case Apply(_) =>
        var reply := if Perform(s.table, p.write).ok then Requests.Done else Error;
        Effective(s, t, Change(p.write), reply, Performed(Change(p.write), reply, p.since, |s.lin|))
      case Unlock(_) => At(s, t, Invoked(p.req, p.reply, p.since, p.at)).(tableLock := None)
      case Read(_, reply) => Effective(s, t, p.work.req, reply, Invoked(p.work.req, reply, p.since, |s.lin|))
      case Count(_) => At(s, t, Counting(s.ops, p.req, p.reply, p.since, p.at)).(statsLock := Some(t))
      case Counted(_) => At(s, t, Sending(p.req, p.reply, p.since, p.at)).(ops := p.ops + 1, statsLock := None)
      case Send(_) => At(s, t, Receiving).(done := s.done + [DoneOf(s, p)])
      case Eof(_) => At(s, t, Leaving)
      case Leave(_) => At(s, t, Decrementing(s.clients)).(statsLock := Some(t))
      case Left(_) => At(s, t, Gone).(clients := p.clients - 1, statsLock := None)
  }

  // ---------- What every run keeps ----------

  predicate HoldsTable(p: Pc) {
    p.Holding? || p.Performed?
  }

  predicate HoldsStats(p: Pc) {
    p.Entering? || p.Reporting? || p.Loaded? || p.Counting? || p.Decrementing?
  }

  /** A mutex is held exactly by the thread that is in its critical section. */
  ghost predicate Locks(s: State) {
    && (s.tableLock.Some? ==> s.tableLock.value < |s.threads|)
    && (s.statsLock.Some? ==> s.statsLock.value < |s.threads|)
    && forall t :: 0 <= t < |s.threads| ==> LockedBy(s, t, s.threads[t])
  }

  predicate LockedBy(s: State, t: nat, p: Pc) {
    (HoldsTable(p) <==> s.tableLock == Some(t)) && (HoldsStats(p) <==> s.statsLock == Some(t))
  }

  /** A thread that has loaded a counter still sees its present value. */
  predicate Current(s: State, p: Pc) {
    match p
    case Entering(c) => c == s.clients
    case Decrementing(c) => c == s.clients
    case Loaded(o, _) => o == s.ops
    case Counting(o, _, _, _, _) => o == s.ops
    case _ => true
  }

  /** The effect with number `at` is that of the request, and it came after the request. */
  predicate TookEffect(lin: seq<Effect>, req: Request, reply: Reply, since: nat, at: nat) {
    since <= at < |lin| && lin[at] == Effect(req, reply)
  }

  predicate Reported(reports: seq<Counts>, ops: int, clients: int, since: nat, at: nat) {
    since <= at < |reports| && reports[at] == Counts(ops, clients)
  }

  predicate Recorded(s: State, p: Pc) {
    match p
    case Asked(work, since) => since <= if work.Op? then |s.lin| else |s.reports|
    case Reporting(since) => since <= |s.reports|
    case Loaded(_, since) => since <= |s.reports|
    case SendingStats(o, c, since, at) => Reported(s.reports, o, c, since, at)
    case Checked(_, since) => since <= |s.lin|
    case Holding(_, since) => since <= |s.lin|
    case Performed(req, reply, since, at) => TookEffect(s.lin, req, reply, since, at)
    case Invoked(req, reply, since, at) => TookEffect(s.lin, req, reply, since, at)
    case Counting(_, req, reply, since, at) => TookEffect(s.lin, req, reply, since, at)
    case Sending(req, reply, since, at) => TookEffect(s.lin, req, reply, since, at)
    case _ => true
  }

  ghost predicate Threads(s: State) {
    forall t :: 0 <= t < |s.threads| ==> Current(s, s.threads[t]) && Recorded(s, s.threads[t])
  }

  predicate Answered(s: State, d: Done) {
    match d
    case OpDone(req, reply, begin, at, end) => TookEffect(s.lin, req, reply, begin, at) && at < end <= |s.lin|
    case StatsDone(ops, c, begin, at, end) => Reported(s.reports, ops, c, begin, at) && at < end <= |s.reports|
  }

  ghost predicate Replies(s: State) {
    forall i :: 0 <= i < |s.done| ==> Answered(s, s.done[i])
  }

  /** The map after a sequence of effects. */
  function MapAfter(m: Map, lin: seq<Effect>): Map {
    if lin == [] then m else After(MapAfter(m, lin[..|lin| - 1]), lin[|lin| - 1].req)
  }

  /** Every effect is one that a sequential map, starting with m, may have in its turn. */
  ghost predicate Legal(m: Map, lin: seq<Effect>) {
    lin == [] ||
    (var k := |lin| - 1;
     Legal(m, lin[..k]) && Answers(MapAfter(m, lin[..k]), lin[k].req, MapAfter(m, lin), lin[k].reply))
  }

  ghost predicate Sequential(s: State, m: Map) {
    Legal(m, s.lin) && s.table == MapAfter(m, s.lin)
  }

  predicate NonDecreasing(rs: seq<Counts>, last: int) {
    && (forall i, j :: 0 <= i < j < |rs| ==> rs[i].ops <= rs[j].ops)
    && (forall i :: 0 <= i < |rs| ==> rs[i].ops <= last)
  }

  // ---------- Counting threads ----------

  /** Between its increment and its decrement of n_clients. */
  predicate Inside(p: Pc) {
    !p.Fresh? && !p.Entering? && !p.Gone?
  }

  /** Past its increment of n_ops, and the reply not sent yet. */
  predicate CountedPass(p: Pc) {
    p.Sending?
  }

  /** The request has taken effect, and the reply has not been sent yet. */
  predicate HasEffect(p: Pc) {
    p.Performed? || p.Invoked? || p.Counting? || p.Sending?
  }

  function CountIf(ps: seq<Pc>, f: Pc -> bool): nat {
    if ps == [] then 0 else CountIf(ps[..|ps| - 1], f) + if f(ps[|ps| - 1]) then 1 else 0
  }

  lemma {:induction false} CountChange(ps: seq<Pc>, t: nat, p: Pc, f: Pc -> bool, qs: seq<Pc>)
    requires t < |ps| && qs == ps[t := p]
    ensures CountIf(qs, f) == CountIf(ps, f) - (if f(ps[t]) then 1 else 0) + if f(p) then 1 else 0
    decreases |ps|
  {
    var k := |ps| - 1;
    if t < k {
      CountChange(ps[..k], t, p, f, qs[..k]);
    } else {
      assert qs[..k] == ps[..k];
    }
  }

  function OpsDone(ds: seq<Done>): nat {
    if ds == [] then 0 else OpsDone(ds[..|ds| - 1]) + if ds[|ds| - 1].OpDone? then 1 else 0
  }

  /** A delete that found its key. */
  predicate Deletes(req: Request, reply: Reply) {
    req.Change? && req.write.Del? && reply == Requests.Done
  }

  predicate HasDeleted(p: Pc) {
    HasEffect(p) && Deletes(p.req, p.reply)
  }

  function Deletions(lin: seq<Effect>): nat {
    if lin == [] then 0
    else Deletions(lin[..|lin| - 1]) + if Deletes(lin[|lin| - 1].req, lin[|lin| - 1].reply) then 1 else 0
  }

  function DeletesDone(ds: seq<Done>): nat {
    if ds == [] then 0
    else
      var d := ds[|ds| - 1];
      DeletesDone(ds[..|ds| - 1]) + if d.OpDone? && Deletes(d.req, d.reply) then 1 else 0
  }

  /** The counters tell the truth. */
  ghost predicate Counters(s: State) {
    && s.clients == CountIf(s.threads, Inside)
    && s.ops == OpsDone(s.done) + CountIf(s.threads, CountedPass)
    && |s.lin| == OpsDone(s.done) + CountIf(s.threads, HasEffect)
    && Deletions(s.lin) == DeletesDone(s.done) + CountIf(s.threads, HasDeleted)
    && NonDecreasing(s.reports, s.ops)
  }

  predicate Differ(p: Pc, q: Pc) {
    HasEffect(p) && HasEffect(q) ==> p.at != q.at
  }

  predicate DifferDone(p: Pc, d: Done) {
    HasEffect(p) && d.OpDone? ==> p.at != d.at
  }

  /** No two requests claim the same effect. */
  ghost predicate Unshared(s: State) {
    && (forall t, u :: 0 <= t < u < |s.threads| ==> Differ(s.threads[t], s.threads[u]))
    && (forall t, i :: 0 <= t < |s.threads| && 0 <= i < |s.done| ==> DifferDone(s.threads[t], s.done[i]))
    && (forall i, j :: 0 <= i < j < |s.done| && s.done[i].OpDone? && s.done[j].OpDone? ==> s.done[i].at != s.done[j].at)
  }

  ghost predicate Inv(s: State, m: Map) {
    Locks(s) && Threads(s) && Replies(s) && Sequential(s, m) && Counters(s) && Unshared(s)
  }

  // ---------- Every step keeps it ----------

  lemma InitInv(m: Map)
    ensures Inv(Init(m), m)
  {
  }

  lemma LockKept(s: State, step: Step, u: nat)
    requires Locks(s) && Enabled(s, step) && u < |s.threads|
    ensures var n := Next(s, step); LockedBy(n, u, n.threads[u])
  {
    assert LockedBy(s, u, s.threads[u]);
    assert !step.Spawn? ==> LockedBy(s, step.t, s.threads[step.t]);
  }

  lemma LocksKept(s: State, step: Step)
    requires Locks(s) && Enabled(s, step)
    ensures Locks(Next(s, step))
  {
    var n := Next(s, step);
    forall u | 0 <= u < |n.threads| ensures LockedBy(n, u, n.threads[u]) {
      if u < |s.threads| {
        LockKept(s, step, u);
      }
    }
  }

  lemma OwnThreadKept(s: State, step: Step)
    requires Locks(s) && Threads(s) && Enabled(s, step) && !step.Spawn?
    ensures var n := Next(s, step); Current(n, n.threads[step.t]) && Recorded(n, n.threads[step.t])
  {
    assert Current(s, s.threads[step.t]) && Recorded(s, s.threads[step.t]);
  }

  /** A thread that holds stats_mutex sees no counter change, and the histories only grow. */
  lemma OtherThreadKept(s: State, step: Step, u: nat)
    requires Locks(s) && Threads(s) && Enabled(s, step) && u < |s.threads|
    requires !step.Spawn? ==> u != step.t
    ensures Next(s, step).threads[u] == s.threads[u]
    ensures Current(Next(s, step), s.threads[u]) && Recorded(Next(s, step), s.threads[u])
  {
    assert Current(s, s.threads[u]) && Recorded(s, s.threads[u]);
  }

  lemma ThreadsKept(s: State, step: Step)
    requires Locks(s) && Threads(s) && Enabled(s, step)
    ensures Threads(Next(s, step))
  {
    var n := Next(s, step);
    forall u | 0 <= u < |n.threads| ensures Current(n, n.threads[u]) && Recorded(n, n.threads[u]) {
      if u < |s.threads| {
        if !step.Spawn? && u == step.t {
          OwnThreadKept(s, step);
        } else {
          OtherThreadKept(s, step, u);
        }
      }
    }
  }

  lemma RepliesKept(s: State, step: Step)
    requires Threads(s) && Replies(s) && Enabled(s, step)
    ensures Replies(Next(s, step))
  {
  }

  lemma OneMoreEffect(m: Map, lin: seq<Effect>, req: Request, reply: Reply)
    requires Legal(m, lin) && Answers(MapAfter(m, lin), req, After(MapAfter(m, lin), req), reply)
    ensures Legal(m, lin + [Effect(req, reply)])
    ensures MapAfter(m, lin + [Effect(req, reply)]) == After(MapAfter(m, lin), req)
  {
    assert (lin + [Effect(req, reply)])[..|lin|] == lin;
  }

  /** A step that lets a request take effect gives it an answer of the sequential map. */
  lemma EffectsAreAnswers(s: State, step: Step)
    requires Enabled(s, step)
    ensures var n := Next(s, step);
            (n.lin == s.lin && n.table == s.table) ||
            (|n.lin| == |s.lin| + 1 && n.lin == s.lin + [n.lin[|s.lin|]] &&
             n.table == After(s.table, n.lin[|s.lin|].req) &&
             Answers(s.table, n.lin[|s.lin|].req, n.table, n.lin[|s.lin|].reply))
  {
  }

  lemma SequentialKept(s: State, step: Step, m: Map)
    requires Sequential(s, m) && Enabled(s, step)
    ensures Sequential(Next(s, step), m)
  {
    var n := Next(s, step);
    EffectsAreAnswers(s, step);
    if n.lin != s.lin {
      var e := n.lin[|s.lin|];
      OneMoreEffect(m, s.lin, e.req, e.reply);
    }
  }

  function One(b: bool): int {
    if b then 1 else 0
  }

  /** A counter changes with the thread that passes the line. */
  lemma CountersFollow(s: State, step: Step)
    requires Threads(s) && Enabled(s, step) && !step.Spawn?
    ensures var n := Next(s, step); var p, q := s.threads[step.t], n.threads[step.t];
            && n.threads == s.threads[step.t := q]
            && n.clients - s.clients == One(Inside(q)) - One(Inside(p))
            && n.ops - s.ops == One(CountedPass(q)) - One(CountedPass(p)) + OpsDone(n.done) - OpsDone(s.done)
  {
    assert Current(s, s.threads[step.t]);
  }

  /** A request takes effect once; it leaves the thread when its reply is recorded. */
  lemma LinGrows(s: State, step: Step)
    requires Enabled(s, step) && !step.Spawn?
    ensures var n := Next(s, step); var p, q := s.threads[step.t], n.threads[step.t];
            n.lin == if HasEffect(q) && !HasEffect(p) then s.lin + [Effect(q.req, q.reply)] else s.lin
  {
  }

  lemma DoneGrows(s: State, step: Step)
    requires Enabled(s, step) && !step.Spawn?
    ensures var n := Next(s, step); var p, q := s.threads[step.t], n.threads[step.t];
            && (HasEffect(p) && !HasEffect(q) <==> p.Sending? && step.Send?)
            && (HasEffect(p) && HasEffect(q) ==> p.req == q.req && p.reply == q.reply)
            && n.done == if step.Send? then s.done + [DoneOf(s, p)] else s.done
  {
  }

  lemma EffectsFollow(s: State, step: Step, n: State, p: Pc, q: Pc)
    requires Enabled(s, step) && !step.Spawn?
    requires n == Next(s, step) && p == s.threads[step.t] && q == n.threads[step.t]
    ensures |n.lin| - |s.lin| == One(HasEffect(q)) - One(HasEffect(p)) + OpsDone(n.done) - OpsDone(s.done)
    ensures Deletions(n.lin) - Deletions(s.lin)
              == One(HasDeleted(q)) - One(HasDeleted(p)) + DeletesDone(n.done) - DeletesDone(s.done)
  {
    LinGrows(s, step);
    DoneGrows(s, step);
    assert n.lin == s.lin || n.lin[..|s.lin|] == s.lin;
    assert n.done == s.done || n.done[..|s.done|] == s.done;
  }

  lemma ThreadsCounted(s: State, step: Step, n: State)
    requires Threads(s) && Enabled(s, step) && n == Next(s, step)
    ensures n.clients - s.clients == CountIf(n.threads, Inside) - CountIf(s.threads, Inside)
    ensures n.ops - s.ops == CountIf(n.threads, CountedPass) - CountIf(s.threads, CountedPass)
                             + OpsDone(n.done) - OpsDone(s.done)
    ensures |n.lin| - |s.lin| == CountIf(n.threads, HasEffect) - CountIf(s.threads, HasEffect)
                                 + OpsDone(n.done) - OpsDone(s.done)
    ensures Deletions(n.lin) - Deletions(s.lin) == CountIf(n.threads, HasDeleted) - CountIf(s.threads, HasDeleted)
                                                   + DeletesDone(n.done) - DeletesDone(s.done)
  {
    if step.Spawn? {
      assert n.threads[..|s.threads|] == s.threads;
    } else {
      CountersFollow(s, step);
      EffectsFollow(s, step, n, s.threads[step.t], n.threads[step.t]);
      CountChange(s.threads, step.t, n.threads[step.t], Inside, n.threads);
      CountChange(s.threads, step.t, n.threads[step.t], CountedPass, n.threads);
      CountChange(s.threads, step.t, n.threads[step.t], HasEffect, n.threads);
      CountChange(s.threads, step.t, n.threads[step.t], HasDeleted, n.threads);
    }
  }

  lemma ReportsKept(s: State, step: Step)
    requires Threads(s) && NonDecreasing(s.reports, s.ops) && Enabled(s, step)
    ensures NonDecreasing(Next(s, step).reports, Next(s, step).ops)
  {
    assert !step.Spawn? ==> Current(s, s.threads[step.t]);
  }

  lemma CountersKept(s: State, step: Step)
    requires Threads(s) && Counters(s) && Enabled(s, step)
    ensures Counters(Next(s, step))
  {
    ThreadsCounted(s, step, Next(s, step));
    ReportsKept(s, step);
  }

  /** From s to n thread t goes on from p to q; what it claims afterwards is new, or it claimed it before. */
  ghost predicate Claims(s: State, n: State, t: nat, p: Pc, q: Pc) {
    && t < |s.threads| && s.threads[t] == p && n.threads == s.threads[t := q]
    && (HasEffect(q) ==> q.at == |s.lin| || (HasEffect(p) && q.at == p.at))
    && (n.done == s.done || ((p.Sending? || p.SendingStats?) && n.done == s.done + [DoneOf(s, p)] && !HasEffect(q)))
  }

  lemma ClaimKept(s: State, step: Step)
    requires Threads(s) && Enabled(s, step) && !step.Spawn?
    ensures Claims(s, Next(s, step), step.t, s.threads[step.t], Next(s, step).threads[step.t])
  {
  }

  lemma ClaimsStayApart(s: State, n: State, t: nat, p: Pc, q: Pc)
    requires Claims(s, n, t, p, q) && Unshared(s)
    requires forall u :: 0 <= u < |s.threads| && HasEffect(s.threads[u]) ==> s.threads[u].at < |s.lin|
    requires forall i :: 0 <= i < |s.done| && s.done[i].OpDone? ==> s.done[i].at < |s.lin|
    ensures Unshared(n)
  {
    forall u, v | 0 <= u < v < |n.threads| ensures Differ(n.threads[u], n.threads[v]) {
      assert Differ(s.threads[u], s.threads[v]);
    }
    forall u, i | 0 <= u < |n.threads| && 0 <= i < |n.done| ensures DifferDone(n.threads[u], n.done[i]) {
      if i < |s.done| {
        assert DifferDone(s.threads[u], s.done[i]) && DifferDone(p, s.done[i]);
      } else if u < t {
        assert Differ(s.threads[u], s.threads[t]);
      } else if t < u {
        assert Differ(s.threads[t], s.threads[u]);
      }
    }
    forall i | 0 <= i < |s.done| ensures DifferDone(p, s.done[i]) {
    }
  }

  lemma UnsharedKept(s: State, step: Step)
    requires Threads(s) && Replies(s) && Unshared(s) && Enabled(s, step)
    ensures Unshared(Next(s, step))
  {
    assert forall u :: 0 <= u < |s.threads| ==> Recorded(s, s.threads[u]);
    assert forall i :: 0 <= i < |s.done| ==> Answered(s, s.done[i]);
    if !step.Spawn? {
      ClaimKept(s, step);
      ClaimsStayApart(s, Next(s, step), step.t, s.threads[step.t], Next(s, step).threads[step.t]);
    }
  }

  lemma StepKeeps(s: State, step: Step, m: Map)
    requires Inv(s, m) && Enabled(s, step)
    ensures Inv(Next(s, step), m)
  {
    LocksKept(s, step);
    ThreadsKept(s, step);
    RepliesKept(s, step);
    SequentialKept(s, step, m);
    CountersKept(s, step);
    UnsharedKept(s, step);
  }

  /** The steps lead from the initial state, with the map m, to s. */
  ghost predicate Run(m: Map, steps: seq<Step>, s: State) {
    if steps == [] then s == Init(m)
    else
      var k := |steps| - 1;
      exists p :: Run(m, steps[..k], p) && Enabled(p, steps[k]) && s == Next(p, steps[k])
  }

  lemma {:induction false} RunKeeps(m: Map, steps: seq<Step>, s: State)
    requires Run(m, steps, s)
    ensures Inv(s, m)
  {
    if steps == [] {
      InitInv(m);
    } else {
      var k := |steps| - 1;
      var p :| Run(m, steps[..k], p) && Enabled(p, steps[k]) && s == Next(p, steps[k]);
      RunKeeps(m, steps[..k], p);
      StepKeeps(p, steps[k], m);
    }
  }

  /** Any interleaving of any number of threads, starting with the map m. */
  ghost predicate Reachable(m: Map, s: State) {
    exists steps :: Run(m, steps, s)
  }

  lemma ReachableInv(m: Map, s: State)
    requires Reachable(m, s)
    ensures Inv(s, m)
  {
    var steps :| Run(m, steps, s);
    RunKeeps(m, steps, s);
  }
}
