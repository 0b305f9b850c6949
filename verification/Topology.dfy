/** How servers and clients find their neighbours: each one sorts the names of the znodes for itself. */
module Topology {
  import opened CStrings
  import opened Options

  // ---------- Sorting ----------

  predicate NoRepeats(cs: seq<Key>) {
    forall i, j :: 0 <= i < j < |cs| ==> cs[i] != cs[j]
  }

  /** The sequence lists the set, in any order. */
  ghost predicate Lists(cs: seq<Key>, names: set<Key>) {
    NoRepeats(cs) && forall k: Key :: k in cs <==> k in names
  }

  ghost predicate Increasing(cs: seq<Key>) {
    forall i, j :: 0 <= i < j < |cs| ==> Less(cs[i], cs[j])
  }

  function Insert(k: Key, cs: seq<Key>): seq<Key> {
    if cs == [] || Less(k, cs[0]) then [k] + cs else [cs[0]] + Insert(k, cs[1..])
  }

  /** qsort with strcmp. */
  function Sort(cs: seq<Key>): seq<Key> {
    if cs == [] then [] else Insert(cs[0], Sort(cs[1..]))
  }

  lemma {:induction false} InsertSorted(k: Key, cs: seq<Key>)
    requires Increasing(cs) && k !in cs
    ensures Increasing(Insert(k, cs)) && forall x: Key :: x in Insert(k, cs) <==> x == k || x in cs
  {
    if cs == [] {
    } else if Less(k, cs[0]) {
      forall j | 0 <= j < |cs| ensures Less(k, cs[j]) {
        if j > 0 {
          LessTransitive(k, cs[0], cs[j]);
        }
      }
    } else {
      LessTotal(k, cs[0]);
      InsertSorted(k, cs[1..]);
      var rest := Insert(k, cs[1..]);
      forall j | 0 <= j < |rest| ensures Less(cs[0], rest[j]) {
        assert rest[j] in rest;
      }
      assert forall x: Key :: x in cs <==> x == cs[0] || x in cs[1..];
    }
  }

  lemma {:induction false} SortSorts(cs: seq<Key>, names: set<Key>)
    requires Lists(cs, names)
    ensures Increasing(Sort(cs)) && Lists(Sort(cs), names)
  {
    if cs == [] {
    } else {
      assert cs[0] !in cs[1..];
      assert forall x: Key :: x in cs[1..] <==> x in names - {cs[0]};
      SortSorts(cs[1..], names - {cs[0]});
      InsertSorted(cs[0], Sort(cs[1..]));
      IncreasingNoRepeats(Sort(cs));
    }
  }

  lemma IncreasingNoRepeats(cs: seq<Key>)
    requires Increasing(cs)
    ensures NoRepeats(cs)
  {
    forall i, j | 0 <= i < j < |cs| ensures cs[i] != cs[j] {
      LessIrreflexive(cs[i]);
    }
  }

  lemma FirstIsMember(cs: seq<Key>)
    ensures cs == [] || exists k :: k in cs
  {
    if cs != [] {
      assert cs[0] in cs;
    }
  }

  /** Whatever order ZooKeeper lists the names in, the sorted order is the same. */
  lemma {:induction false} SameOrder(a: seq<Key>, b: seq<Key>, names: set<Key>)
    requires Increasing(a) && Increasing(b) && Lists(a, names) && Lists(b, names)
    ensures a == b
  {
    if a == [] {
      FirstIsMember(b);
    } else {
      assert a[0] in names && a[0] in b;
      assert b[0] in names && b[0] in a;
      if a[0] != b[0] {
        LessAsymmetric(a[0], b[0]);
      }
      SameOrder(a[1..], b[1..], names - {a[0]});
      assert a == [a[0]] + a[1..] && b == [b[0]] + b[1..];
    }
  }

  // ---------- Neighbours ----------

  /** n is the name that follows y: the least one greater than y, or None if y is the greatest. */
  ghost predicate IsNext(names: set<Key>, y: Key, n: Option<Key>) {
    match n
    case None => forall z :: z in names ==> !Less(y, z)
    case Some(x) => x in names && Less(y, x) && forall z :: z in names && Less(y, z) ==> z == x || Less(x, z)
  }

  ghost predicate IsLeast(names: set<Key>, y: Key) {
    y in names && forall z :: z in names ==> z == y || Less(y, z)
  }

  ghost predicate IsGreatest(names: set<Key>, y: Key) {
    y in names && forall z :: z in names ==> z == y || Less(z, y)
  }

  function IndexOf(cs: seq<Key>, k: Key): (i: nat)
    ensures i <= |cs| && (i < |cs| ==> cs[i] == k) && forall j :: 0 <= j < i ==> cs[j] != k
  {
    if cs == [] || cs[0] == k then 0 else 1 + IndexOf(cs[1..], k)
  }

  /** The place of a server among the sorted children; it keeps the place it had if it is not there. */
  function PlaceOf(cs: seq<Key>, self: Key, before: int): int {
    if IndexOf(cs, self) < |cs| then IndexOf(cs, self) else before
  }

  function NextIn(cs: seq<Key>, pos: int): Option<Key> {
    if -1 <= pos < |cs| - 1 then Some(cs[pos + 1]) else None
  }

  lemma NextByPlace(cs: seq<Key>, names: set<Key>, pos: nat)
    requires Increasing(cs) && Lists(cs, names) && pos < |cs|
    ensures IsNext(names, cs[pos], NextIn(cs, pos))
  {
    forall z | z in names && Less(cs[pos], z)
      ensures pos + 1 < |cs| && (z == cs[pos + 1] || Less(cs[pos + 1], z))
    {
      var k :| 0 <= k < |cs| && cs[k] == z;
      LessIrreflexive(z);
      if k < pos {
        LessAsymmetric(cs[k], cs[pos]);
      }
    }
  }

  // ---------- The server's watcher ----------

  /** What a server knows of its place: server_pos, sucessor_path and the server that sucessor_server is connected
      to. */
  datatype Link = Link(pos: int, path: Key, server: Option<Key>)

  /** The watcher's reaction to a change of the children; getOk and connectOk tell whether the address of the
      successor could be read and reached. */
  function Watched(self: Key, link: Link, children: seq<Key>, getOk: bool, connectOk: bool): Link {
    var cs := Sort(children);
    var pos := PlaceOf(cs, self, link.pos);
    var next := NextIn(cs, pos);
    if children == [] then link
    else if next.None? then Link(pos, link.path, None)
    else if link.server.Some? && link.path == next.value then link.(pos := pos)
    else if !getOk then Link(pos, next.value, link.server)
    else Link(pos, next.value, if connectOk then next else None)
  }

  /** A connection goes where the path says. */
  predicate Faithful(link: Link) {
    link.server.Some? ==> link.server.value == link.path
  }

  class ServerNode {
    const znode: Key
    var pos: int
    var path: Key
    var server: Option<Key>

    /** set_server, after the znode has been created. */
    constructor (znode: Key, children: seq<Key>)
      ensures this.znode == znode && Faithful(State()) && server == None
      ensures pos == PlaceOf(Sort(children), znode, -1)
    {
      this.znode := znode;
      pos := PlaceOf(Sort(children), znode, -1);
      path, server := [], None;
    }

    ghost function State(): Link
      reads this
    {
      Link(pos, path, server)
    }

    /** The loop that looks for this server. */
    method FindPlace(cs: seq<Key>)
      modifies this`pos
      ensures pos == PlaceOf(cs, znode, old(pos))
    {
      var i := 0;
      while i < |cs|
        invariant 0 <= i <= |cs| && pos == old(pos)
        invariant forall j :: 0 <= j < i ==> cs[j] != znode
      {
        if cs[i] == znode {
          pos := i;
          return;
        }
        i := i + 1;
      }
    }

    /** my_watcher_fn of the server, once the children have been read. */
    method Watch(children: seq<Key>, getOk: bool, connectOk: bool)
      requires pos >= -1
      modifies this
      ensures State() == Watched(znode, old(State()), children, getOk, connectOk) && pos >= -1
    {
      if |children| <= 0 {
        return;
      }
      var cs := Sort(children);
      FindPlace(cs);
      if pos + 1 < |cs| {
        var aux := cs[pos + 1];
        if server == None || path != aux {
          path := aux;
          if getOk {
            server := if connectOk then Some(aux) else None;
          }
        }
      } else {
        server := None;
      }
    }
  }

  /** No new connection is needed: the server is the last one, or connected with the path of its successor. */
  ghost predicate KeepsLink(names: set<Key>, self: Key, link: Link) {
    IsNext(names, self, None) || (link.server.Some? && IsNext(names, self, Some(link.path)))
  }

  lemma NextUnique(names: set<Key>, y: Key, m: Option<Key>, n: Option<Key>)
    requires IsNext(names, y, m) && IsNext(names, y, n)
    ensures m == n
  {
    if m.Some? && n.Some? && m != n {
      LessAsymmetric(m.value, n.value);
    }
  }

  lemma PlaceInSorted(children: seq<Key>, names: set<Key>, self: Key, before: int)
    requires Lists(children, names) && self in names
    ensures var cs := Sort(children); var pos := PlaceOf(cs, self, before);
            && Increasing(cs) && Lists(cs, names) && 0 <= pos < |cs| && cs[pos] == self
            && IsNext(names, self, NextIn(cs, pos))
  {
    SortSorts(children, names);
    var cs := Sort(children);
    assert self in cs;
    NextByPlace(cs, names, PlaceOf(cs, self, before));
  }

  /** After the watcher has run the server is linked to its successor if and only if it needed no new connection or
      both calls succeeded. If only the address could not be read, the old connection stays under the new path and
      no later event for the same successor repairs it. */
  lemma WatchLinksIff(self: Key, link: Link, children: seq<Key>, names: set<Key>, getOk: bool, connectOk: bool)
    requires Lists(children, names) && self in names && Faithful(link)
    ensures var after := Watched(self, link, children, getOk, connectOk);
            && (IsNext(names, self, after.server) <==> KeepsLink(names, self, link) || (getOk && connectOk))
            && (Faithful(after) <==> KeepsLink(names, self, link) || getOk || link.server.None?)
  {
    var cs := Sort(children);
    var pos := PlaceOf(cs, self, link.pos);
    PlaceInSorted(children, names, self, link.pos);
    var next, after := NextIn(cs, pos), Watched(self, link, children, getOk, connectOk);
    if IsNext(names, self, after.server) {
      NextUnique(names, self, after.server, next);
    }
    if IsNext(names, self, Some(link.path)) {
      NextUnique(names, self, Some(link.path), next);
    }
    if IsNext(names, self, None) {
      NextUnique(names, self, None, next);
    }
  }

  /** The watcher knows its place: the server before it in the sorted children, which set_table copies the table of, is
      its predecessor, and the path is that of its successor whether or not the connection succeeds. */
  lemma WatchPlace(self: Key, link: Link, children: seq<Key>, names: set<Key>, getOk: bool, connectOk: bool)
    requires Lists(children, names) && self in names
    ensures var cs, after := Sort(children), Watched(self, link, children, getOk, connectOk);
            && 0 <= after.pos < |cs| && cs[after.pos] == self
            && (after.pos == 0 <==> IsLeast(names, self))
            && (after.pos > 0 ==> IsNext(names, cs[after.pos - 1], Some(self)))
            && (if IsNext(names, self, None) then after.path == link.path
                else IsNext(names, self, Some(after.path)))
  {
    var cs := Sort(children);
    var pos := PlaceOf(cs, self, link.pos);
    PlaceInSorted(children, names, self, link.pos);
    if pos > 0 {
      NextByPlace(cs, names, pos - 1);
      assert Less(cs[pos - 1], cs[pos]) && cs[pos - 1] in names;
      LessAsymmetric(cs[pos - 1], cs[pos]);
    } else {
      EndsOfSorted(cs, names);
    }
    if IsNext(names, self, None) {
      NextUnique(names, self, None, NextIn(cs, pos));
    }
  }

  /** Once it happened, the wrong connection is kept at every later event with the same successor. */
  lemma StaleLinkStays(self: Key, link: Link, children: seq<Key>, names: set<Key>, getOk: bool, connectOk: bool)
    requires Lists(children, names) && self in names && IsNext(names, self, Some(link.path))
    requires link.server.Some? && link.server.value != link.path
    ensures !IsNext(names, self, Watched(self, link, children, getOk, connectOk).server)
  {
    PlaceInSorted(children, names, self, link.pos);
    NextUnique(names, self, Some(link.path), NextIn(Sort(children), PlaceOf(Sort(children), self, link.pos)));
    if IsNext(names, self, link.server) {
      NextUnique(names, self, Some(link.path), link.server);
    }
  }

  // ---------- The client's watcher ----------

  /** A pointer to a connection: NULL, an open one, or one that rtable_disconnect has freed. */
  datatype Connection = NoConnection | Open(to: Key) | Freed

  /** Where a client is connected to; `twice` tells whether a connection has been freed a second time. */
  datatype Ends = Ends(headPath: Key, head: Connection, tailPath: Key, tail: Connection, twice: bool)

  /** What zoo_get and rtable_connect answer. */
  datatype Calls = Calls(get: bool, connect: bool)

  predicate Succeed(c: Calls) {
    c.get && c.connect
  }

  /** The old connection is freed first; if the address cannot be read the pointer stays. */
  function Replaced(c: Connection, name: Key, calls: Calls): Connection {
    if calls.get then (if calls.connect then Open(name) else NoConnection)
    else if c.Open? then Freed
    else c
  }

  /** A connection that is no longer right is replaced; if that fails the watcher returns at once. */
  function ClientWatched(ends: Ends, children: seq<Key>, head: Calls, tail: Calls): Ends {
    var cs := Sort(children);
    if cs == [] then ends
    else
      var first, last := cs[0], cs[|cs| - 1];
      var newHead := ends.headPath != first;
      var e := if newHead then
                 ends.(headPath := first, head := Replaced(ends.head, first, head),
                       twice := ends.twice || ends.head.Freed?)
               else ends;
      if (newHead && !Succeed(head)) || e.tailPath == last then e
      else e.(tailPath := last, tail := Replaced(e.tail, last, tail), twice := e.twice || e.tail.Freed?)
  }

  /** The first connections: both paths are set, and the tail is tried only after the head has answered. */
  function ClientLinked(ends: Ends, children: seq<Key>, head: Calls, tail: Calls): Ends {
    var cs := Sort(children);
    if cs == [] then ends
    else
      var first, last := cs[0], cs[|cs| - 1];
      var e := ends.(headPath := first, tailPath := last);
      if !head.get then e
      else if !head.connect then e.(head := NoConnection)
      else if !tail.get then e.(head := Open(first))
      else e.(head := Open(first), tail := if tail.connect then Open(last) else NoConnection)
  }

  class ClientNode {
    var headPath: Key
    var tailPath: Key
    var head: Connection
    var tail: Connection
    ghost var twice: bool

    ghost function State(): Ends
      reads this
    {
      Ends(headPath, head, tailPath, tail, twice)
    }

    /** Before link_to_head_and_tail. */
    constructor ()
      ensures State() == Ends([], NoConnection, [], NoConnection, false)
    {
      headPath, head, tailPath, tail, twice := [], NoConnection, [], NoConnection, false;
    }

    /** rtable_disconnect, which does nothing for NULL. */
    method Disconnect(c: Connection) returns (d: Connection)
      modifies this`twice
      ensures d == (if c == NoConnection then c else Freed) && twice == (old(twice) || c.Freed?)
    {
      twice := twice || c.Freed?;
      d := if c == NoConnection then c else Freed;
    }

    /** link_to_head_and_tail, once the children have been read. */
    method Link(children: seq<Key>, headCalls: Calls, tailCalls: Calls)
      modifies this
      ensures State() == ClientLinked(old(State()), children, headCalls, tailCalls)
    {
      var cs := Sort(children);
      if |cs| > 0 {
        headPath := cs[0];
        tailPath := cs[|cs| - 1];
        if !headCalls.get {
          return;
        }
        head := if headCalls.connect then Open(cs[0]) else NoConnection;
        if head == NoConnection {
          return;
        }
        if !tailCalls.get {
          return;
        }
        tail := if tailCalls.connect then Open(cs[|cs| - 1]) else NoConnection;
      }
    }

    /** my_watcher_fn of the client, once the children have been read. */
    method Watch(children: seq<Key>, headCalls: Calls, tailCalls: Calls)
      modifies this
      ensures State() == ClientWatched(old(State()), children, headCalls, tailCalls)
    {
      var cs := Sort(children);
      if |cs| > 0 {
        var aux := cs[0];
        if headPath != aux {
          headPath := aux;
          head := Disconnect(head);
          if !headCalls.get {
            return;
          }
          head := if headCalls.connect then Open(aux) else NoConnection;
          if head == NoConnection {
            return;
          }
        }
        aux := cs[|cs| - 1];
        if tailPath != aux {
          tailPath := aux;
          tail := Disconnect(tail);
          if !tailCalls.get {
            return;
          }
          tail := if tailCalls.connect then Open(aux) else NoConnection;
        }
      }
    }
  }

  lemma EndsOfSorted(cs: seq<Key>, names: set<Key>)
    requires Increasing(cs) && Lists(cs, names) && names != {}
    ensures cs != [] && IsLeast(names, cs[0]) && IsGreatest(names, cs[|cs| - 1])
  {
    var y :| y in names;
    assert y in cs;
    forall z | z in names
      ensures z == cs[0] || Less(cs[0], z)
      ensures z == cs[|cs| - 1] || Less(z, cs[|cs| - 1])
    {
      var k :| 0 <= k < |cs| && cs[k] == z;
    }
  }

  predicate FaithfulEnds(ends: Ends) {
    && (ends.head.Open? ==> ends.head.to == ends.headPath)
    && (ends.tail.Open? ==> ends.tail.to == ends.tailPath)
  }

  lemma LeastUnique(names: set<Key>, y: Key, z: Key)
    requires (IsLeast(names, y) && IsLeast(names, z)) || (IsGreatest(names, y) && IsGreatest(names, z))
    ensures y == z
  {
    if y != z {
      LessTotal(y, z);
      if Less(y, z) {
        LessAsymmetric(y, z);
      } else {
        LessAsymmetric(z, y);
      }
    }
  }

  lemma LeastAndGreatest(children: seq<Key>, names: set<Key>, ends: Ends)
    requires Lists(children, names) && names != {}
    ensures var cs := Sort(children);
            && cs != [] && IsLeast(names, cs[0]) && IsGreatest(names, cs[|cs| - 1])
            && (IsLeast(names, ends.headPath) <==> ends.headPath == cs[0])
            && (IsGreatest(names, ends.tailPath) <==> ends.tailPath == cs[|cs| - 1])
  {
    SortSorts(children, names);
    var cs := Sort(children);
    EndsOfSorted(cs, names);
    if IsLeast(names, ends.headPath) {
      LeastUnique(names, ends.headPath, cs[0]);
    }
    if IsGreatest(names, ends.tailPath) {
      LeastUnique(names, ends.tailPath, cs[|cs| - 1]);
    }
  }

  /** Exactly when a client reaches the right head and the right tail after its watcher has run. A client that once
      failed to connect stays without connection until the name of the head or tail changes again. */
  lemma ClientLinksIff(ends: Ends, children: seq<Key>, names: set<Key>, head: Calls, tail: Calls)
    requires FaithfulEnds(ends) && Lists(children, names) && names != {}
    ensures var e := ClientWatched(ends, children, head, tail);
            && FaithfulEnds(e)
            && (e.head.Open? && IsLeast(names, e.head.to) <==>
                  if IsLeast(names, ends.headPath) then ends.head.Open? else Succeed(head))
            && (e.tail.Open? && IsGreatest(names, e.tail.to) <==>
                  if IsGreatest(names, ends.tailPath) then ends.tail.Open?
                  else (IsLeast(names, ends.headPath) || Succeed(head)) && Succeed(tail))
  {
    LeastAndGreatest(children, names, ends);
    var e := ClientWatched(ends, children, head, tail);
    LeastAndGreatest(children, names, e);
  }

  /** The paths after the watcher, which decide about later events: the head's is that of the least name even if the
      connection failed, and the tail's that of the greatest one unless the watcher gave up at the head. */
  lemma ClientPathsIff(ends: Ends, children: seq<Key>, names: set<Key>, head: Calls, tail: Calls)
    requires Lists(children, names) && names != {}
    ensures var e := ClientWatched(ends, children, head, tail);
            && IsLeast(names, e.headPath)
            && (if IsLeast(names, ends.headPath) || Succeed(head) then IsGreatest(names, e.tailPath)
                else e.tailPath == ends.tailPath && e.tail == ends.tail)
  {
    LeastAndGreatest(children, names, ends);
  }

  /** Exactly when a new client reaches the right head and the right tail. If the head does not answer, the client has
      no tail either, but keeps its path. */
  lemma FirstLinkIff(ends: Ends, children: seq<Key>, names: set<Key>, head: Calls, tail: Calls)
    requires ends.head == ends.tail == NoConnection && Lists(children, names) && names != {}
    ensures var e := ClientLinked(ends, children, head, tail);
            && FaithfulEnds(e) && IsLeast(names, e.headPath) && IsGreatest(names, e.tailPath)
            && (e.head.Open? && IsLeast(names, e.head.to) <==> Succeed(head))
            && (e.tail.Open? && IsGreatest(names, e.tail.to) <==> Succeed(head) && Succeed(tail))
            && (!Succeed(head) ==> e.head == e.tail == NoConnection) && !e.head.Freed? && !e.tail.Freed?
            && e.twice == ends.twice
  {
    LeastAndGreatest(children, names, ends);
  }

  // ---------- Freed connections ----------

  /** Exactly when the client is left with a freed connection, and when one is freed again: when the name changes for
      the first time the address cannot be read, and when it changes once more. */
  lemma FreedIff(ends: Ends, children: seq<Key>, names: set<Key>, head: Calls, tail: Calls)
    requires Lists(children, names) && names != {}
    ensures var e := ClientWatched(ends, children, head, tail);
            var newHead, newTail := !IsLeast(names, ends.headPath), !IsGreatest(names, ends.tailPath);
            var turn := newTail && (newHead ==> Succeed(head));
            && (e.head.Freed? <==>
                  if newHead then !head.get && ends.head != NoConnection else ends.head.Freed?)
            && (e.tail.Freed? <==>
                  if turn then !tail.get && ends.tail != NoConnection else ends.tail.Freed?)
            && (e.twice <==> ends.twice || (newHead && ends.head.Freed?) || (turn && ends.tail.Freed?))
  {
    LeastAndGreatest(children, names, ends);
  }

  datatype Event = Event(children: seq<Key>, head: Calls, tail: Calls)

  /** What the watcher has made of the ends after these events. */
  function ClientRun(ends: Ends, events: seq<Event>): Ends {
    if events == [] then ends
    else
      var k := |events| - 1;
      ClientWatched(ClientRun(ends, events[..k]), events[k].children, events[k].head, events[k].tail)
  }

  /** As long as the addresses can be read, no connection is freed twice and no freed one is kept, whatever the other
      calls do. */
  lemma {:induction false} ReadableIsSafe(ends: Ends, events: seq<Event>)
    requires !ends.head.Freed? && !ends.tail.Freed?
    requires forall i :: 0 <= i < |events| ==> events[i].head.get && events[i].tail.get
    ensures var e := ClientRun(ends, events); !e.head.Freed? && !e.tail.Freed? && e.twice == ends.twice
  {
    if events != [] {
      var k := |events| - 1;
      assert forall i :: 0 <= i < k ==> events[..k][i] == events[i];
      ReadableIsSafe(ends, events[..k]);
    }
  }

  /** The children of all these events have the same least name. */
  ghost predicate HeadStays(events: seq<Event>, y: Key) {
    forall i :: 0 <= i < |events| ==> var cs := Sort(events[i].children); cs != [] ==> cs[0] == y
  }

  lemma {:induction false} HeadIsKept(ends: Ends, events: seq<Event>)
    requires HeadStays(events, ends.headPath)
    ensures ClientRun(ends, events).head == ends.head && ClientRun(ends, events).headPath == ends.headPath
  {
    if events != [] {
      var k := |events| - 1;
      assert forall i :: 0 <= i < k ==> events[..k][i] == events[i];
      HeadIsKept(ends, events[..k]);
      assert Sort(events[k].children) != [] ==> Sort(events[k].children)[0] == ends.headPath;
    }
  }

  /** A client that could not connect to a new head has no connection to it after any number of events either, whatever
      the calls in them do, until the head has another name. */
  lemma FailedHeadStays(ends: Ends, first: Event, names: set<Key>, events: seq<Event>)
    requires Lists(first.children, names) && names != {} && !IsLeast(names, ends.headPath) && !Succeed(first.head)
    requires HeadStays(events, Sort(first.children)[0])
    ensures !ClientRun(ClientWatched(ends, first.children, first.head, first.tail), events).head.Open?
  {
    LeastAndGreatest(first.children, names, ends);
    HeadIsKept(ClientWatched(ends, first.children, first.head, first.tail), events);
  }

  /** A connected client cannot read the address of a new head: however many events follow, the next change of the head
      frees the old connection again. */
  lemma FreedAgain(ends: Ends, first: Event, between: seq<Event>, next: Event)
    requires ends.head.Open? && !first.head.get && Sort(first.children) != [] && Sort(next.children) != []
    requires Sort(first.children)[0] != ends.headPath && HeadStays(between, Sort(first.children)[0])
    requires Sort(next.children)[0] != Sort(first.children)[0]
    ensures var e := ClientWatched(ends, first.children, first.head, first.tail);
            ClientWatched(ClientRun(e, between), next.children, next.head, next.tail).twice
  {
    HeadIsKept(ClientWatched(ends, first.children, first.head, first.tail), between);
  }

  /** At each event the children have the least name y and the greatest name z. */
  ghost predicate EndsStay(events: seq<Event>, y: Key, z: Key) {
    forall i :: 0 <= i < |events| ==> HasEnds(events[i].children, y, z)
  }

  ghost predicate HasEnds(children: seq<Key>, y: Key, z: Key) {
    exists names :: Lists(children, names) && IsLeast(names, y) && IsGreatest(names, z)
  }

  lemma EndsOfChildren(children: seq<Key>, y: Key, z: Key)
    requires HasEnds(children, y, z)
    ensures var cs := Sort(children); cs != [] && cs[0] == y && cs[|cs| - 1] == z
  {
    var names :| Lists(children, names) && IsLeast(names, y) && IsGreatest(names, z);
    SortSorts(children, names);
    EndsOfSorted(Sort(children), names);
    LeastUnique(names, y, Sort(children)[0]);
    LeastUnique(names, z, Sort(children)[|Sort(children)| - 1]);
  }

  /** A client whose first connection has failed stays without connections, whatever the later calls do, as long as
      head and tail keep their names. */
  lemma {:induction false} FailedClientStays(ends: Ends, events: seq<Event>)
    requires EndsStay(events, ends.headPath, ends.tailPath)
    ensures ClientRun(ends, events) == ends
  {
    if events != [] {
      var k := |events| - 1;
      assert forall i :: 0 <= i < k ==> events[..k][i] == events[i];
      FailedClientStays(ends, events[..k]);
      EndsOfChildren(events[k].children, ends.headPath, ends.tailPath);
    }
  }

  // ---------- One chain ----------

  /** The names met by following the links from y, for at most fuel steps. */
  function Follow(links: map<Key, Option<Key>>, y: Key, fuel: nat): seq<Key>
    decreases fuel
  {
    if fuel == 0 || y !in links then []
    else if links[y].None? then [y]
    else [y] + Follow(links, links[y].value, fuel - 1)
  }

  /** The link of every server in the sorted sequence goes to the next one. */
  ghost predicate LinkedUp(links: map<Key, Option<Key>>, cs: seq<Key>) {
    forall i :: 0 <= i < |cs| ==> cs[i] in links && links[cs[i]] == NextIn(cs, i)
  }

  lemma {:induction false} FollowSorted(links: map<Key, Option<Key>>, cs: seq<Key>, i: nat, fuel: nat)
    requires LinkedUp(links, cs) && i < |cs| && fuel >= |cs| - i
    ensures Follow(links, cs[i], fuel) == cs[i..]
    decreases fuel
  {
    if i + 1 < |cs| {
      FollowSorted(links, cs, i + 1, fuel - 1);
    }
    assert cs[i..] == [cs[i]] + cs[i + 1..];
  }

  lemma NextsLinkUp(links: map<Key, Option<Key>>, cs: seq<Key>)
    requires Increasing(cs) && Lists(cs, links.Keys) && forall y :: y in links ==> IsNext(links.Keys, y, links[y])
    ensures LinkedUp(links, cs)
  {
    forall i | 0 <= i < |cs| ensures cs[i] in links && links[cs[i]] == NextIn(cs, i) {
      assert cs[i] in cs;
      NextByPlace(cs, links.Keys, i);
      NextUnique(links.Keys, cs[i], links[cs[i]], NextIn(cs, i));
    }
  }

  /** All servers have handled the last change of the children: each was told the names in some order of its own and
      could reach its successor. */
  ghost predicate AllWatched(names: set<Key>, views: map<Key, seq<Key>>, before: map<Key, Link>,
      links: map<Key, Option<Key>>) {
    && views.Keys == before.Keys == links.Keys == names
    && forall y :: y in names ==>
         && Lists(views[y], names) && Faithful(before[y])
         && links[y] == Watched(y, before[y], views[y], true, true).server
  }

  lemma AllLinked(names: set<Key>, views: map<Key, seq<Key>>, before: map<Key, Link>, links: map<Key, Option<Key>>)
    requires AllWatched(names, views, before, links)
    ensures forall y :: y in links ==> IsNext(links.Keys, y, links[y])
  {
    forall y | y in links ensures IsNext(links.Keys, y, links[y]) {
      WatchLinksIff(y, before[y], views[y], names, true, true);
    }
  }

  /** The sequence visits every name once, in order, from head to tail. */
  ghost predicate IsPath(path: seq<Key>, names: set<Key>, head: Key, tail: Key) {
    && Lists(path, names) && Increasing(path)
    && path != [] && path[0] == head && path[|path| - 1] == tail
  }

  /** For any non-empty set of names, and whatever the links were before, the successors form one path: it starts at
      the client's head, visits every server once, in order, and ends at the client's tail. */
  lemma OnePath(names: set<Key>, views: map<Key, seq<Key>>, before: map<Key, Link>, links: map<Key, Option<Key>>,
      head: Key, tail: Key, fuel: nat)
    requires AllWatched(names, views, before, links) && fuel >= |names|
    requires IsLeast(names, head) && IsGreatest(names, tail)
    ensures IsPath(Follow(links, head, fuel), names, head, tail)
  {
    AllLinked(names, views, before, links);
    var cs := Sort(views[head]);
    SortSorts(views[head], names);
    EndsOfSorted(cs, names);
    LeastUnique(names, head, cs[0]);
    LeastUnique(names, tail, cs[|cs| - 1]);
    ListLength(cs, names);
    NextsLinkUp(links, cs);
    FollowSorted(links, cs, 0, fuel);
    assert cs[0..] == cs && Follow(links, head, fuel) == cs;
  }

  lemma {:induction false} ListLength(cs: seq<Key>, names: set<Key>)
    requires Lists(cs, names)
    ensures |cs| == |names|
  {
    if cs == [] {
      assert names == {};
    } else {
      assert cs[0] !in cs[1..];
      assert forall x: Key :: x in cs[1..] <==> x in names - {cs[0]};
      ListLength(cs[1..], names - {cs[0]});
      assert cs[0] in names;
    }
  }

  // ---------- Members come and go ----------

  /** A server that leaves changes the successor of its predecessor only, which becomes its own successor. */
  lemma Leaving(names: set<Key>, x: Key, y: Key, n: Option<Key>, nx: Option<Key>)
    requires x in names && y in names && y != x && IsNext(names, y, n) && IsNext(names, x, nx)
    ensures IsNext(names - {x}, y, if n == Some(x) then nx else n)
  {
    if n == Some(x) {
      forall z | z in names - {x} && Less(y, z) ensures Less(x, z) {
      }
      if nx.Some? {
        LessTransitive(y, x, nx.value);
        LessIrreflexive(x);
      }
    }
  }

  /** A server whose name is greater than all others becomes the successor of the last one, and nothing else changes. */
  lemma Arriving(names: set<Key>, x: Key, y: Key, n: Option<Key>)
    requires y in names && IsNext(names, y, n) && forall z :: z in names ==> Less(z, x)
    ensures IsNext(names + {x}, y, if n.None? then Some(x) else n) && IsNext(names + {x}, x, None)
  {
    forall z | z in names + {x} ensures !Less(x, z) {
      if z in names {
        LessAsymmetric(z, x);
      } else {
        LessIrreflexive(x);
      }
    }
  }
}
