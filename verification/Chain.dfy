/** Chain replication as a step system. The servers stand in znode order; each one applies a write, forwards it on
    its successor connection, waits for the reply and then answers its own caller. A client writes at the head; readers
    read on the connection that each of them has to some server, which their watcher moves to the last one. `log`,
    `sent`, `abandoned`, `order`, `done`, `places` and the times are history variables: no step looks at them to decide
    what the code would do. */
module Chain {
  import opened Options
  import opened Store

  /** The sequence number ZooKeeper gives a znode; see ZnodeNames for why it orders the znode paths. */
  type Name = nat

  /** A write on the wire. `id` is the number of the client's call that it stems from. */
  datatype Message = Message(id: nat, op: Write)

  /** Where the thread that serves a server's upstream connection is in client_handler. */
  datatype Phase =
    | Idle                                  // blocked in network_receive
    | Recv(msg: Message)                    // request read, before invoke
    | Invoked(msg: Message)                 // invoke succeeded, before the successor test
    | Waiting(msg: Message, on: Name)       // inside rtable_put/rtable_del, waiting for server `on`
    | Replying(msg: Message, ok: bool)      // before network_send

  /** `log` has the writes that changed the server's table, in order. */
  datatype Server = Server(name: Name, table: Map, log: seq<Message>, succ: Option<Name>, phase: Phase)

  /** A server that has its znode but has not run set_table yet. A forwarded write waits in its socket. */
  datatype Joiner = Joiner(name: Name, succ: Option<Name>, inbox: Option<Message>)

  /** The writing client: one synchronous connection to the head. */
  datatype Client = Ready | Pending(id: nat, op: Write, begin: nat)

  datatype Request = Request(q: Query, begin: nat)

  /** A call that the writing client made. */
  datatype Call = Call(op: Write, begin: nat)

  /** What clients were told, with the interval that the operation ran in. */
  datatype Done =
    | WriteDone(id: nat, op: Write, begin: nat, end: nat)
    | MissDone(id: nat, op: Write, begin: nat, end: nat)
    | ReadDone(q: Query, answer: Answer, begin: nat, end: nat)

  /** `links` are the tail connections of the readers. `order` has the writes that have taken effect, `places` says for
      each operation in `done` how many of them came before it, and `abandoned` has the calls that were never answered
      because the head stopped. */
  datatype State = State(
    chain: seq<Server>, joiners: seq<Joiner>, client: Client,
    links: map<nat, Name>, requests: map<nat, Request>,
    sent: seq<Call>, abandoned: set<nat>, order: seq<Message>, done: seq<Done>, places: seq<nat>,
    clock: nat, nextName: nat)

  datatype Step =
    | ClientSend(op: Write)
    | Invoke(i: nat)
    | Forward(i: nat)
    | WaitFail(i: nat)
    | Reply(i: nat)
    | Watch(i: nat, ok: bool)
    | WatchJoiner(i: nat, ok: bool)
    | Crash(i: nat)
    | Join
    | Snapshot
    | JoinerCrash(i: nat)
    | Relink(id: nat)
    | ReadBegin(id: nat, q: Query)
    | ReadServe(id: nat)
    | ReadFail(id: nat)

  // ---------- Writes in sequence ----------

  function Ops(w: seq<Message>): (ws: seq<Write>)
    ensures |ws| == |w| && forall i :: 0 <= i < |w| ==> ws[i] == w[i].op
  {
    seq(|w|, i requires 0 <= i < |w| => w[i].op)
  }

  /** The store after a sequence of writes. */
  function Result(w: seq<Message>): Map {
    Replay(Ops(w))
  }

  lemma ResultAppend(w: seq<Message>, m: Message)
    ensures Result(w + [m]) == Perform(Result(w), m.op).store
    ensures AllOk(Ops(w + [m])) == (AllOk(Ops(w)) && Perform(Result(w), m.op).ok)
  {
    assert Ops(w + [m]) == Ops(w) + [m.op];
    ReplayAppend(Ops(w), m.op);
  }

  /** The write changes nothing in the store. */
  predicate Same(m: Map, op: Write) {
    Perform(m, op).store == m
  }

  // ---------- Looking servers up ----------

  /** The place of a name among others, or -1. */
  function Place(ns: seq<Name>, n: Name): (r: int)
    ensures -1 <= r < |ns|
    ensures r >= 0 ==> ns[r] == n
    ensures r < 0 ==> forall k :: 0 <= k < |ns| ==> ns[k] != n
  {
    if ns == [] then -1
    else if ns[|ns| - 1] == n then |ns| - 1
    else Place(ns[..|ns| - 1], n)
  }

  function ServerNames(c: seq<Server>): (ns: seq<Name>)
    ensures |ns| == |c| && forall i :: 0 <= i < |c| ==> ns[i] == c[i].name
  {
    seq(|c|, i requires 0 <= i < |c| => c[i].name)
  }

  function JoinerNames(js: seq<Joiner>): (ns: seq<Name>)
    ensures |ns| == |js| && forall i :: 0 <= i < |js| ==> ns[i] == js[i].name
  {
    seq(|js|, i requires 0 <= i < |js| => js[i].name)
  }

  function IndexOf(c: seq<Server>, n: Name): (r: int)
    ensures -1 <= r < |c| && (r >= 0 ==> c[r].name == n)
    ensures r < 0 ==> forall k :: 0 <= k < |c| ==> c[k].name != n
  {
    Place(ServerNames(c), n)
  }

  function JoinerIndexOf(js: seq<Joiner>, n: Name): (r: int)
    ensures -1 <= r < |js| && (r >= 0 ==> js[r].name == n)
    ensures r < 0 ==> forall k :: 0 <= k < |js| ==> js[k].name != n
  {
    Place(JoinerNames(js), n)
  }

  predicate Alive(s: State, n: Name) {
    IndexOf(s.chain, n) >= 0 || JoinerIndexOf(s.joiners, n) >= 0
  }

  /** The znode that follows server i, which is what my_watcher_fn connects to. */
  function NextOf(s: State, i: nat): Option<Name>
    requires i < |s.chain|
  {
    if i + 1 < |s.chain| then Some(s.chain[i + 1].name)
    else if s.joiners != [] then Some(s.joiners[0].name)
    else None
  }

  function NextOfJoiner(s: State, j: nat): Option<Name>
    requires j < |s.joiners|
  {
    if j + 1 < |s.joiners| then Some(s.joiners[j + 1].name) else None
  }

  /** The greatest znode, which is what the watcher of a reader connects to. */
  function LastZnode(s: State): Name
    requires s.chain != []
  {
    if s.joiners != [] then s.joiners[|s.joiners| - 1].name else s.chain[|s.chain| - 1].name
  }

  function Tail(s: State): Server
    requires s.chain != []
  {
    s.chain[|s.chain| - 1]
  }

  function Without<T>(xs: seq<T>, i: nat): (ys: seq<T>)
    requires i < |xs|
    ensures |ys| == |xs| - 1
    ensures forall k :: 0 <= k < i ==> ys[k] == xs[k]
    ensures forall k :: i <= k < |ys| ==> ys[k] == xs[k + 1]
  {
    xs[..i] + xs[i + 1..]
  }

  function AtPhase(c: seq<Server>, i: nat, p: Phase): seq<Server>
    requires i < |c|
  {
    c[i := c[i].(phase := p)]
  }

  // ---------- What the code can do ----------

  /** The writing client calls rtable_put or rtable_del on its head connection. */
  predicate CanSend(s: State) { s.client.Ready? && s.chain != [] && s.chain[0].phase.Idle? }

  function DoSend(s: State, op: Write): State
    requires CanSend(s)
  {
    s.(chain := AtPhase(s.chain, 0, Recv(Message(|s.sent|, op))),
       client := Pending(|s.sent|, op, s.clock), sent := s.sent + [Call(op, s.clock)], clock := s.clock + 1)
  }

  /** invoke: apply the write to the table; only a successful one goes on to be forwarded. */
  predicate CanInvoke(s: State, i: nat) { i < |s.chain| && s.chain[i].phase.Recv? }

  function AfterInvoke(sv: Server): Server
    requires sv.phase.Recv?
  {
    var m := sv.phase.msg;
    var r := Perform(sv.table, m.op);
    sv.(table := r.store,
        log := if r.store != sv.table then sv.log + [m] else sv.log,
        phase := if r.ok then Invoked(m) else Replying(m, false))
  }

  /** A write takes effect when it changes the tail, or when the head finds that the client's write changes nothing. */
  predicate TakesEffect(s: State, i: nat)
    requires CanInvoke(s, i)
  {
    var sv := s.chain[i];
    var r := Perform(sv.table, sv.phase.msg.op);
    if r.store != sv.table then i == |s.chain| - 1 else i == 0 && s.client.Pending? && r.ok
  }

  function DoInvoke(s: State, i: nat): State
    requires CanInvoke(s, i)
  {
    s.(chain := s.chain[i := AfterInvoke(s.chain[i])],
       order := if TakesEffect(s, i) then s.order + [s.chain[i].phase.msg] else s.order,
       clock := s.clock + 1)
  }

  /** The successor's thread for this connection takes one request at a time. */
  predicate CanForward(s: State, i: nat) {
    && i < |s.chain|
    && s.chain[i].phase.Invoked?
    && (s.chain[i].succ.Some? ==>
          var k, j := IndexOf(s.chain, s.chain[i].succ.value), JoinerIndexOf(s.joiners, s.chain[i].succ.value);
          if k >= 0 then s.chain[k].phase.Idle? else j >= 0 ==> s.joiners[j].inbox.None?)
  }

  /** A server with no successor, or whose successor connection is broken, answers without waiting. */
  function DoForward(s: State, i: nat): State
    requires CanForward(s, i)
  {
    var m := s.chain[i].phase.msg;
    match s.chain[i].succ
    case None => s.(chain := AtPhase(s.chain, i, Replying(m, true)), clock := s.clock + 1)
    case Some(n) =>
      var k, j := IndexOf(s.chain, n), JoinerIndexOf(s.joiners, n);
      if k >= 0 then s.(chain := AtPhase(AtPhase(s.chain, i, Waiting(m, n)), k, Recv(m)), clock := s.clock + 1)
      else if j >= 0 then
        s.(chain := AtPhase(s.chain, i, Waiting(m, n)),
           joiners := s.joiners[j := s.joiners[j].(inbox := Some(m))], clock := s.clock + 1)
      else s.(chain := AtPhase(s.chain, i, Replying(m, true)), clock := s.clock + 1)
  }

  /** The connection to the server waited for is gone: rtable_put fails and its result is ignored. */
  predicate CanWaitFail(s: State, i: nat) {
    i < |s.chain| && s.chain[i].phase.Waiting? && !Alive(s, s.chain[i].phase.on)
  }

  function DoWaitFail(s: State, i: nat): State
    requires CanWaitFail(s, i)
  {
    s.(chain := AtPhase(s.chain, i, Replying(s.chain[i].phase.msg, true)), clock := s.clock + 1)
  }

  predicate CanReply(s: State, i: nat) { i < |s.chain| && s.chain[i].phase.Replying? }

  /** The answer wakes the predecessor, which ignores its opcode, or completes the client's call. */
  function DoReply(s: State, i: nat): State
    requires CanReply(s, i)
  {
    var me := s.chain[i];
    var c := AtPhase(s.chain, i, Idle);
    if i == 0 && s.client.Pending? then
      s.(chain := c, client := Ready, done := s.done + [HeadAnswer(s)], places := s.places + [|s.order|],
         clock := s.clock + 1)
    else if i > 0 && s.chain[i - 1].phase.Waiting? && s.chain[i - 1].phase.on == me.name then
      s.(chain := AtPhase(c, i - 1, Replying(s.chain[i - 1].phase.msg, true)), clock := s.clock + 1)
    else s.(chain := c, clock := s.clock + 1)
  }

  function HeadAnswer(s: State): Done
    requires CanReply(s, 0) && s.client.Pending?
  {
    var c := s.client;
    if s.chain[0].phase.ok then WriteDone(c.id, c.op, c.begin, s.clock) else MissDone(c.id, c.op, c.begin, s.clock)
  }

  /** my_watcher_fn: read the children, sort them, and connect to the next one unless that is already done; if the
      connection fails there is none afterwards. */
  predicate CanWatch(s: State, i: nat, ok: bool) { i < |s.chain| && (ok || s.chain[i].succ != NextOf(s, i)) }

  function DoWatch(s: State, i: nat, ok: bool): State
    requires CanWatch(s, i, ok)
  {
    s.(chain := s.chain[i := s.chain[i].(succ := if ok then NextOf(s, i) else None)], clock := s.clock + 1)
  }

  predicate CanWatchJoiner(s: State, j: nat, ok: bool) {
    j < |s.joiners| && (ok || s.joiners[j].succ != NextOfJoiner(s, j))
  }

  function DoWatchJoiner(s: State, j: nat, ok: bool): State
    requires CanWatchJoiner(s, j, ok)
  {
    s.(joiners := s.joiners[j := s.joiners[j].(succ := if ok then NextOfJoiner(s, j) else None)],
       clock := s.clock + 1)
  }

  /** A server stops; the connections of its clients break. */
  predicate CanCrash(s: State, c: nat) { c < |s.chain| && |s.chain| > 1 }

  /** If the tail stops, what its predecessor has applied and it has not takes effect. */
  function DoCrash(s: State, c: nat): State
    requires CanCrash(s, c)
  {
    var k := |s.chain| - 1;
    s.(chain := Without(s.chain, c),
       client := if c == 0 then Ready else s.client,
       abandoned := if c == 0 && s.client.Pending? then s.abandoned + {s.client.id} else s.abandoned,
       order := if c == k && |s.chain[k - 1].log| > |s.chain[k].log| then
                  s.order + [s.chain[k - 1].log[|s.chain[k - 1].log| - 1]]
                else s.order,
       clock := s.clock + 1)
  }

  function DoJoin(s: State): State {
    s.(joiners := s.joiners + [Joiner(s.nextName, None, None)], nextName := s.nextName + 1, clock := s.clock + 1)
  }

  function DoJoinerCrash(s: State, j: nat): State
    requires j < |s.joiners|
  {
    s.(joiners := Without(s.joiners, j), clock := s.clock + 1)
  }

  predicate CanSnapshot(s: State) { s.joiners != [] && s.chain != [] }

  /** The server that the first joiner becomes when set_table has copied its predecessor's table. */
  function Newcomer(s: State): Server
    requires CanSnapshot(s)
  {
    var pred, j := s.chain[|s.chain| - 1], s.joiners[0];
    Server(j.name, pred.table, pred.log, j.succ, if j.inbox.Some? then Recv(j.inbox.value) else Idle)
  }

  function DoSnapshot(s: State): State
    requires CanSnapshot(s)
  {
    s.(chain := s.chain + [Newcomer(s)], joiners := s.joiners[1..], clock := s.clock + 1)
  }

  /** A reader's watcher connects to the last znode; a request on a connection that it closes is lost. */
  function DoRelink(s: State, id: nat): State
    requires s.chain != []
  {
    var n := LastZnode(s);
    s.(links := s.links[id := n],
       requests := if id in s.links && s.links[id] == n then s.requests else s.requests - {id},
       clock := s.clock + 1)
  }

  predicate CanReadBegin(s: State, id: nat) { id in s.links && id !in s.requests }

  function DoReadBegin(s: State, id: nat, q: Query): State
    requires CanReadBegin(s, id)
  {
    s.(requests := s.requests[id := Request(q, s.clock)], clock := s.clock + 1)
  }

  /** The reader's server takes part in the chain: a joiner serves nobody before it has its table. */
  predicate CanRead(s: State, id: nat) { id in s.requests && id in s.links && IndexOf(s.chain, s.links[id]) >= 0 }

  function ReadFrom(s: State, id: nat): Server
    requires CanRead(s, id)
  {
    s.chain[IndexOf(s.chain, s.links[id])]
  }

  /** That server answers the read from its own table. */
  function ReadAnswer(s: State, id: nat): Done
    requires CanRead(s, id)
  {
    var r := s.requests[id];
    ReadDone(r.q, Ask(ReadFrom(s, id).table, r.q), r.begin, s.clock)
  }

  function DoReadServe(s: State, id: nat): State
    requires CanRead(s, id)
  {
    s.(requests := s.requests - {id}, done := s.done + [ReadAnswer(s, id)], places := s.places + [|s.order|],
       clock := s.clock + 1)
  }

  predicate CanReadFail(s: State, id: nat) { id in s.requests && (id in s.links ==> !Alive(s, s.links[id])) }

  function DoReadFail(s: State, id: nat): State {
    s.(requests := s.requests - {id}, clock := s.clock + 1)
  }

  predicate Enabled(s: State, step: Step) {
    match step
    case ClientSend(_) => CanSend(s)
    case Invoke(i) => CanInvoke(s, i)
    case Forward(i) => CanForward(s, i)
    case WaitFail(i) => CanWaitFail(s, i)
    case Reply(i) => CanReply(s, i)
    case Watch(i, ok) => CanWatch(s, i, ok)
    case WatchJoiner(j, ok) => CanWatchJoiner(s, j, ok)
    case Crash(c) => CanCrash(s, c)
    case Join => true
    case Snapshot => CanSnapshot(s)
    case JoinerCrash(j) => j < |s.joiners|
    case Relink(_) => s.chain != []
    case ReadBegin(id, _) => CanReadBegin(s, id)
    case ReadServe(id) => CanRead(s, id)
    case ReadFail(id) => CanReadFail(s, id)
  }

  function Apply(s: State, step: Step): State
    requires Enabled(s, step)
  {
    match step
    case ClientSend(op) => DoSend(s, op)
    case Invoke(i) => DoInvoke(s, i)
    case Forward(i) => DoForward(s, i)
    case WaitFail(i) => DoWaitFail(s, i)
    case Reply(i) => DoReply(s, i)
    case Watch(i, ok) => DoWatch(s, i, ok)
    case WatchJoiner(j, ok) => DoWatchJoiner(s, j, ok)
    case Crash(c) => DoCrash(s, c)
    case Join => DoJoin(s)
    case Snapshot => DoSnapshot(s)
    case JoinerCrash(j) => DoJoinerCrash(s, j)
    case Relink(id) => DoRelink(s, id)
    case ReadBegin(id, q) => DoReadBegin(s, id, q)
    case ReadServe(id) => DoReadServe(s, id)
    case ReadFail(id) => DoReadFail(s, id)
  }

  // ---------- What the environment is assumed to do ----------

  /** No server and no joiner still holds a write. */
  predicate Quiet(s: State) {
    && (forall k :: 0 <= k < |s.chain| ==> s.chain[k].phase.Idle?)
    && (forall j :: 0 <= j < |s.joiners| ==> s.joiners[j].inbox.None?)
  }

  /** A server that still holds a write that it may forward to a joiner, and whether the store m is immune to it. */
  predicate Spares(p: Phase, m: Map) {
    (p.Recv? && p.msg.op.Put?) || p.Invoked? ==> Same(m, p.msg.op)
  }

  predicate InboxSpares(j: Joiner, m: Map) {
    j.inbox.Some? ==> Same(m, j.inbox.value.op)
  }

  /** Applying a write that is still held somewhere once more changes nothing in the store that the new write makes. */
  predicate SendSafe(s: State, op: Write)
    requires s.chain != []
  {
    var r := Perform(Tail(s).table, op);
    r.ok ==>
      && (forall i :: 0 < i < |s.chain| ==> Spares(s.chain[i].phase, r.store))
      && (forall j :: 0 <= j < |s.joiners| ==> InboxSpares(s.joiners[j], r.store))
  }

  /** The watcher has linked server i to its live successor, or the write that it forwards has taken effect. */
  predicate ForwardSafe(s: State, i: nat)
    requires CanForward(s, i)
  {
    || i == |s.chain| - 1
    || s.chain[i].succ == Some(s.chain[i + 1].name)
    || s.chain[i].phase.msg in s.order
  }

  /** A server strictly inside the chain may stop only while it handles no write that has yet to take effect. */
  predicate CrashSafe(s: State, c: nat)
    requires c < |s.chain|
  {
    || c == 0
    || c == |s.chain| - 1
    || s.chain[c].phase.Idle?
    || s.chain[c].phase.Replying?
    || s.chain[c].phase.msg in s.order
  }

  /** A reader's server answers as the tail would. */
  predicate ReadSafe(s: State, id: nat)
    requires CanRead(s, id)
  {
    Ask(ReadFrom(s, id).table, s.requests[id].q) == Ask(Tail(s).table, s.requests[id].q)
  }

  predicate Timely(s: State, step: Step)
    requires Enabled(s, step)
  {
    match step
    case ClientSend(op) => SendSafe(s, op)
    case Forward(i) => ForwardSafe(s, i)
    case Crash(i) => CrashSafe(s, i)
    case ReadServe(id) => ReadSafe(s, id)
    case _ => true
  }

  // ---------- Runs ----------

  /** n empty servers, linked in order, and nobody connected. */
  function Init(n: nat): State
    requires n > 0
  {
    State(seq(n, i requires 0 <= i < n => Server(i, map[], [], if i + 1 < n then Some(i + 1) else None, Idle)),
          [], Ready, map[], map[], [], {}, [], [], [], 0, n)
  }

  predicate Run(s: State, steps: seq<Step>, t: State)
    decreases |steps|
  {
    if steps == [] then s == t
    else Enabled(s, steps[0]) && Timely(s, steps[0]) && Run(Apply(s, steps[0]), steps[1..], t)
  }

  lemma RunCons(s: State, step: Step, rest: seq<Step>, t: State)
    requires Enabled(s, step) && Timely(s, step) && Run(Apply(s, step), rest, t)
    ensures Run(s, [step] + rest, t)
  {
    assert ([step] + rest)[1..] == rest;
  }

  // ---------- Where runs lead ----------

  /** A timely run leads from s to t. */
  ghost predicate Leads(s: State, t: State) {
    exists steps :: Run(s, steps, t)
  }

  lemma Stays(s: State)
    ensures Leads(s, s)
  {
    assert Run(s, [], s);
  }

  lemma ThenLeads(s: State, step: Step, t: State)
    requires Enabled(s, step) && Timely(s, step) && Leads(Apply(s, step), t)
    ensures Leads(s, t)
  {
    var rest :| Run(Apply(s, step), rest, t);
    RunCons(s, step, rest, t);
  }

  lemma StepLeads(s: State, step: Step, t: State)
    requires Enabled(s, step) && Timely(s, step) && t == Apply(s, step)
    ensures Leads(s, t)
  {
    Stays(t);
    ThenLeads(s, step, t);
  }

  lemma {:induction false} RunLeadsOn(s: State, steps: seq<Step>, t: State, u: State)
    requires Run(s, steps, t) && Leads(t, u)
    ensures Leads(s, u)
    decreases |steps|
  {
    if steps != [] {
      RunLeadsOn(Apply(s, steps[0]), steps[1..], t, u);
      ThenLeads(s, steps[0], u);
    }
  }

  lemma LeadsOn(s: State, t: State, u: State)
    requires Leads(s, t) && Leads(t, u)
    ensures Leads(s, u)
  {
    var steps :| Run(s, steps, t);
    RunLeadsOn(s, steps, t, u);
  }
}
