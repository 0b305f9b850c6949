/** Pieces of timely runs: what can happen next from any state, to show what users may see. */
module ChainRuns {
  import opened Options
  import opened Store
  import opened Chain
  import opened ChainHistory

  lemma {:induction false} Bound(ids: set<nat>) returns (n: nat)
    ensures forall id :: id in ids ==> id < n
  {
    if ids == {} {
      n := 0;
    } else {
      var x :| x in ids;
      var k := Bound(ids - {x});
      n := if k <= x then x + 1 else k;
      assert forall id :: id in ids ==> id == x || id in ids - {x};
    }
  }

  /** Joiners can always stop before they join. */
  lemma {:induction false} ClearJoiners(s: State) returns (t: State)
    requires s.chain != []
    ensures Leads(s, t) && t == s.(joiners := [], clock := t.clock) && t.clock >= s.clock
    decreases |s.joiners|
  {
    if s.joiners == [] {
      t := s;
      Stays(s);
    } else {
      t := ClearJoiners(DoJoinerCrash(s, 0));
      ThenLeads(s, JoinerCrash(0), t);
    }
  }

  /** A reader without a request connects to the last znode, which is the tail, and reads. */
  function ReadAtTail(s: State, id: nat, q: Query): State
    requires s.chain != []
  {
    s.(links := s.links[id := Tail(s).name],
       done := s.done + [ReadDone(q, Ask(Tail(s).table, q), s.clock + 1, s.clock + 2)],
       places := s.places + [|s.order|], clock := s.clock + 3)
  }

  lemma ReadServeAtTail(s: State, id: nat, q: Query, begin: nat)
    requires s.chain != [] && id in s.links && s.links[id] == Tail(s).name
    requires id in s.requests && s.requests[id] == Request(q, begin)
    ensures CanRead(s, id) && ReadSafe(s, id)
    ensures DoReadServe(s, id) == s.(requests := s.requests - {id},
              done := s.done + [ReadDone(q, Ask(Tail(s).table, q), begin, s.clock)],
              places := s.places + [|s.order|], clock := s.clock + 1)
  {
    assert IndexOf(s.chain, Tail(s).name) == |s.chain| - 1;
  }

  lemma ReadRun(s: State, id: nat, q: Query, a: State, b: State, t: State)
    requires s.chain != [] && a == DoRelink(s, id) && CanReadBegin(a, id) && b == DoReadBegin(a, id, q)
    requires CanRead(b, id) && ReadSafe(b, id) && t == DoReadServe(b, id)
    ensures Leads(s, t)
  {
    StepLeads(b, ReadServe(id), t);
    ThenLeads(a, ReadBegin(id, q), t);
    ThenLeads(s, Relink(id), t);
  }

  lemma ReadStates(s: State, id: nat, q: Query) returns (a: State, b: State)
    requires s.chain != [] && s.joiners == [] && id !in s.requests
    ensures a == DoRelink(s, id) && CanReadBegin(a, id) && b == DoReadBegin(a, id, q)
    ensures CanRead(b, id) && ReadSafe(b, id) && DoReadServe(b, id) == ReadAtTail(s, id, q)
  {
    a := s.(links := s.links[id := Tail(s).name], clock := s.clock + 1);
    assert s.requests - {id} == s.requests;
    b := a.(requests := s.requests[id := Request(q, s.clock + 1)], clock := s.clock + 2);
    ReadServeAtTail(b, id, q, s.clock + 1);
    assert b.requests - {id} == s.requests;
  }

  lemma ReadAtTailRuns(s: State, id: nat, q: Query)
    requires s.chain != [] && s.joiners == [] && id !in s.requests
    ensures Leads(s, ReadAtTail(s, id, q))
  {
    var a, b := ReadStates(s, id, q);
    ReadRun(s, id, q, a, b, ReadAtTail(s, id, q));
  }

  /** The same, from any state: the joiners stop first, and the reader is a new one. */
  lemma SomebodyReads(s: State, q: Query) returns (t: State, begin: nat)
    requires s.chain != []
    ensures Leads(s, t) && begin >= s.clock && t.clock == begin + 2
    ensures t.sent == s.sent && t.chain == s.chain && t.joiners == [] && t.client == s.client
    ensures t.done == s.done + [ReadDone(q, Ask(Tail(s).table, q), begin, begin + 1)]
  {
    var u := ClearJoiners(s);
    var id := Bound(u.requests.Keys);
    ReadAtTailRuns(u, id, q);
    t := ReadAtTail(u, id, q);
    begin := u.clock + 1;
    LeadsOn(s, u, t);
  }

  lemma BadAfter(s: State, t: State)
    requires Leads(s, t) && !AlwaysLinearizable(t)
    ensures !AlwaysLinearizable(s)
  {
    var u :| Leads(t, u) && !Linearizable(u);
    LeadsOn(s, t, u);
  }
}
