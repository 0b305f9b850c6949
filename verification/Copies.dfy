/** Copies are deep: a caller that keeps the buffers it put, and those it got, and writes into them at any time, sees
    the table behave as if buffers and table were plain values. */
module Copies {
  import opened CStrings
  import opened Options
  import opened Store
  import opened ListSpec
  import opened TableSpec
  import opened Requests
  import opened Blocks
  import opened Tables

  /** What a caller may do; `which` numbers the buffers it holds. */
  datatype Action =
    | PutBuffer(key: Key, which: nat)
    | GetBlock(key: Key)
    | RemoveKey(key: Key)
    | Scribble(which: nat, at: nat, byte: Byte)

  /** A table and a caller's buffers, as values. */
  datatype World = World(buffers: seq<Bytes>, buckets: Buckets)

  function Patch(s: Bytes, at: nat, byte: Byte): Bytes
    requires at < |s|
  {
    s[..at] + [byte] + s[at + 1..]
  }

  /** The action on values, where nothing can be shared. */
  function Act(cmp: Comparator, hash: Hash, w: World, a: Action): (r: World)
    requires w.buckets != [] && InRange(hash)
    ensures |r.buckets| == |w.buckets|
  {
    match a
    case PutBuffer(k, i) =>
      if i < |w.buffers| then w.(buckets := BucketsAfter(cmp, hash, w.buckets, Store.Put(k, w.buffers[i]))) else w
    case GetBlock(k) =>
      var found := Lookup(w.buckets[hash(k, |w.buckets|)], k);
      if found.Some? then w.(buffers := w.buffers + [found.value]) else w
    case RemoveKey(k) =>
      w.(buckets := BucketsAfter(cmp, hash, w.buckets, Del(k)))
    case Scribble(i, at, byte) =>
      if i < |w.buffers| && at < |w.buffers[i]| then
        w.(buffers := w.buffers[i := Patch(w.buffers[i], at, byte)])
      else w
  }

  function ActAll(cmp: Comparator, hash: Hash, w: World, script: seq<Action>): (r: World)
    requires w.buckets != [] && InRange(hash)
    ensures |r.buckets| == |w.buckets|
    decreases script
  {
    if script == [] then w else ActAll(cmp, hash, Act(cmp, hash, w, script[0]), script[1..])
  }

  // ---------- What the actions mean ----------

  /** On a table in order: a put takes the contents that the buffer has now and leaves the buffers alone. */
  lemma PutMeans(cmp: Comparator, hash: Hash, w: World, k: Key, i: nat)
    requires Ready(cmp, hash, w.buckets)
    ensures var m, r := TableMap(w.buckets), Act(cmp, hash, w, PutBuffer(k, i));
            && Ready(cmp, hash, r.buckets) && r.buffers == w.buffers
            && TableMap(r.buckets) == if i < |w.buffers| && w.buffers[i] != [] then m[k := w.buffers[i]] else m
  {
    if i < |w.buffers| {
      ServeAnswers(cmp, hash, w.buckets, Change(Store.Put(k, w.buffers[i])));
    }
  }

  /** A get hands the caller one more buffer, with the value, exactly if the key is there. */
  lemma GetMeans(cmp: Comparator, hash: Hash, w: World, k: Key)
    requires Ready(cmp, hash, w.buckets)
    ensures var m, r := TableMap(w.buckets), Act(cmp, hash, w, GetBlock(k));
            r.buckets == w.buckets && r.buffers == if k in m then w.buffers + [m[k]] else w.buffers
  {
    ServeAnswers(cmp, hash, w.buckets, GetValue(k));
  }

  /** A removal takes exactly its key away. */
  lemma RemoveMeans(cmp: Comparator, hash: Hash, w: World, k: Key)
    requires Ready(cmp, hash, w.buckets)
    ensures var r := Act(cmp, hash, w, RemoveKey(k));
            && Ready(cmp, hash, r.buckets) && r.buffers == w.buffers
            && TableMap(r.buckets) == TableMap(w.buckets) - {k}
  {
    ServeAnswers(cmp, hash, w.buckets, Change(Del(k)));
    assert k !in TableMap(w.buckets) ==> TableMap(w.buckets) - {k} == TableMap(w.buckets);
  }

  /** A write into a buffer changes one byte of one buffer. */
  lemma ScribbleMeans(cmp: Comparator, hash: Hash, w: World, i: nat, at: nat, byte: Byte)
    requires w.buckets != [] && InRange(hash)
    ensures var r := Act(cmp, hash, w, Scribble(i, at, byte));
            && r.buckets == w.buckets && |r.buffers| == |w.buffers|
            && forall j :: 0 <= j < |w.buffers| ==>
                 && |r.buffers[j]| == |w.buffers[j]|
                 && forall b :: 0 <= b < |w.buffers[j]| ==>
                      r.buffers[j][b] == if j == i && b == at then byte else w.buffers[j][b]
  {
  }

  /** The writes that a script makes, each put with the contents that its buffer has at its turn. */
  function Writes(cmp: Comparator, hash: Hash, w: World, script: seq<Action>): seq<Write>
    requires w.buckets != [] && InRange(hash)
    decreases script
  {
    if script == [] then []
    else
      var first := match script[0]
                   case PutBuffer(k, i) => if i < |w.buffers| then [Store.Put(k, w.buffers[i])] else []
                   case RemoveKey(k) => [Del(k)]
                   case _ => [];
      first + Writes(cmp, hash, Act(cmp, hash, w, script[0]), script[1..])
  }

  /** The store after more writes. */
  function PerformAll(m: Map, ws: seq<Write>): Map
    decreases ws
  {
    if ws == [] then m else PerformAll(Perform(m, ws[0]).store, ws[1..])
  }

  lemma ActWrites(cmp: Comparator, hash: Hash, w: World, a: Action)
    requires Ready(cmp, hash, w.buckets)
    ensures var m, r := TableMap(w.buckets), Act(cmp, hash, w, a);
            && Ready(cmp, hash, r.buckets)
            && TableMap(r.buckets) == (if a.PutBuffer? && a.which < |w.buffers| then
                                         Perform(m, Store.Put(a.key, w.buffers[a.which])).store
                                       else if a.RemoveKey? then Perform(m, Del(a.key)).store
                                       else m)
  {
    match a
    case PutBuffer(k, i) => PutMeans(cmp, hash, w, k, i);
    case RemoveKey(k) =>
      RemoveMeans(cmp, hash, w, k);
      assert k !in TableMap(w.buckets) ==> TableMap(w.buckets) - {k} == TableMap(w.buckets);
    case _ =>
  }

  lemma FirstWrites(m: Map, first: seq<Write>, rest: seq<Write>)
    requires |first| <= 1
    ensures PerformAll(m, first + rest) == PerformAll(if first == [] then m else Perform(m, first[0]).store, rest)
  {
    if first == [] {
      assert first + rest == rest;
    } else {
      assert (first + rest)[1..] == rest;
    }
  }

  /** The table after any script stands for the map that these writes make. */
  lemma {:induction false} ScriptMeans(cmp: Comparator, hash: Hash, w: World, script: seq<Action>)
    requires Ready(cmp, hash, w.buckets)
    ensures var r := ActAll(cmp, hash, w, script);
            && Ready(cmp, hash, r.buckets)
            && TableMap(r.buckets) == PerformAll(TableMap(w.buckets), Writes(cmp, hash, w, script))
    decreases script
  {
    if script != [] {
      var next := Act(cmp, hash, w, script[0]);
      ActWrites(cmp, hash, w, script[0]);
      ScriptMeans(cmp, hash, next, script[1..]);
      var rest := Writes(cmp, hash, next, script[1..]);
      var all := Writes(cmp, hash, w, script);
      FirstWrites(TableMap(w.buckets), all[..|all| - |rest|], rest);
      assert all == all[..|all| - |rest|] + rest;
    }
  }

  // ---------- On the heap ----------

  /** The buffers are different, and none of them is the table's. */
  ghost predicate Outside(t: Table, bufs: seq<array<Byte>>)
    reads t, t.Repr
  {
    && t.Valid()
    && (forall i :: 0 <= i < |bufs| ==> bufs[i] !in t.Repr)
    && (forall i, j :: 0 <= i < j < |bufs| ==> bufs[i] != bufs[j])
  }

  ghost function Now(t: Table, bufs: seq<array<Byte>>): World
    reads t, bufs
  {
    World(seq(|bufs|, i requires 0 <= i < |bufs| reads bufs => bufs[i][..]), t.buckets)
  }

  method PutOwn(t: Table, bufs: seq<array<Byte>>, key: Key, which: nat)
    requires Outside(t, bufs) && which < |bufs|
    modifies t.Repr
    ensures Outside(t, bufs) && fresh(t.Repr - old(t.Repr))
    ensures Now(t, bufs) == Act(t.cmp, t.hash, old(Now(t, bufs)), PutBuffer(key, which))
  {
    ghost var before := Now(t, bufs);
    var b := BlockCreate(bufs[which].Length, bufs[which]);
    assert b != null ==> b.Contents() == before.buffers[which];
    var _ := t.Put(key, b);
    assert Now(t, bufs).buffers == before.buffers;
  }

  method ScribbleOn(t: Table, bufs: seq<array<Byte>>, which: nat, at: nat, byte: Byte)
    requires Outside(t, bufs) && which < |bufs| && at < bufs[which].Length
    modifies bufs[which]
    ensures Outside(t, bufs) && Now(t, bufs) == Act(t.cmp, t.hash, old(Now(t, bufs)), Scribble(which, at, byte))
  {
    bufs[which][at] := byte;
    assert bufs[which][..] == Patch(old(bufs[which][..]), at, byte);
    assert forall j :: 0 <= j < |bufs| && j != which ==> bufs[j] != bufs[which];
    assert forall j :: 0 <= j < |bufs| && j != which ==> bufs[j][..] == old(bufs[j][..]);
  }

  /** The buffers the caller has now: those it had, and perhaps new ones. */
  twostate predicate Longer(bufs: seq<array<Byte>>, new bufs': seq<array<Byte>>) {
    bufs <= bufs' && forall i :: |bufs| <= i < |bufs'| ==> fresh(bufs'[i])
  }

  method GetOwn(t: Table, bufs: seq<array<Byte>>, key: Key) returns (bufs': seq<array<Byte>>)
    requires Outside(t, bufs)
    ensures Outside(t, bufs') && Longer(bufs, bufs')
    ensures Now(t, bufs') == Act(t.cmp, t.hash, Now(t, bufs), GetBlock(key))
  {
    bufs' := bufs;
    var b := t.Get(key);
    if b != null {
      bufs' := bufs + [b.data];
      assert Now(t, bufs').buffers == Now(t, bufs).buffers + [b.data[..]];
    }
  }

  method Do(t: Table, bufs: seq<array<Byte>>, a: Action) returns (bufs': seq<array<Byte>>)
    requires Outside(t, bufs)
    modifies t.Repr, bufs
    ensures Outside(t, bufs') && Longer(bufs, bufs') && fresh(t.Repr - old(t.Repr))
    ensures Now(t, bufs') == Act(t.cmp, t.hash, old(Now(t, bufs)), a)
  {
    bufs' := bufs;
    match a
    case PutBuffer(k, i) =>
      if i < |bufs| {
        PutOwn(t, bufs, k, i);
      }
    case GetBlock(k) =>
      bufs' := GetOwn(t, bufs, k);
    case RemoveKey(k) =>
      var _ := t.Remove(k);
    case Scribble(i, at, byte) =>
      if i < |bufs| && at < bufs[i].Length {
        ScribbleOn(t, bufs, i, at, byte);
      }
  }

  /** For every script of puts, gets, removes and writes into any buffer that was put or got. */
  method Play(t: Table, bufs: seq<array<Byte>>, script: seq<Action>) returns (bufs': seq<array<Byte>>)
    requires Outside(t, bufs)
    modifies t.Repr, bufs
    ensures Outside(t, bufs') && Now(t, bufs') == ActAll(t.cmp, t.hash, old(Now(t, bufs)), script)
    ensures old(Ready(t.cmp, t.hash, t.buckets)) ==>
      && Ready(t.cmp, t.hash, t.buckets)
      && TableMap(t.buckets)
           == PerformAll(old(TableMap(t.buckets)), Writes(t.cmp, t.hash, old(Now(t, bufs)), script))
    decreases script
  {
    bufs' := bufs;
    if Ready(t.cmp, t.hash, t.buckets) {
      ScriptMeans(t.cmp, t.hash, Now(t, bufs), script);
    }
    if script != [] {
      var bufs1 := Do(t, bufs, script[0]);
      bufs' := Play(t, bufs1, script[1..]);
    }
  }

  // ---------- Writes that nobody sees ----------

  /** The same table and the same buffers, but for buffer i. */
  ghost predicate Alike(w: World, v: World, i: nat) {
    && w.buckets == v.buckets && |w.buffers| == |v.buffers|
    && forall j :: 0 <= j < |w.buffers| && j != i ==> w.buffers[j] == v.buffers[j]
  }

  predicate Puts(a: Action, i: nat) {
    a.PutBuffer? && a.which == i
  }

  lemma ActAlike(cmp: Comparator, hash: Hash, w: World, v: World, a: Action, i: nat)
    requires w.buckets != [] && InRange(hash) && Alike(w, v, i) && i < |w.buffers| && !Puts(a, i)
    ensures Alike(Act(cmp, hash, w, a), Act(cmp, hash, v, a), i) && i < |Act(cmp, hash, w, a).buffers|
  {
  }

  lemma {:induction false} ActAllAlike(cmp: Comparator, hash: Hash, w: World, v: World, script: seq<Action>, i: nat)
    requires w.buckets != [] && InRange(hash) && Alike(w, v, i) && i < |w.buffers|
    requires forall k :: 0 <= k < |script| ==> !Puts(script[k], i)
    ensures ActAll(cmp, hash, w, script).buckets == ActAll(cmp, hash, v, script).buckets
    decreases script
  {
    if script != [] {
      ActAlike(cmp, hash, w, v, script[0], i);
      ActAllAlike(cmp, hash, Act(cmp, hash, w, script[0]), Act(cmp, hash, v, script[0]), script[1..], i);
    }
  }

  lemma {:induction false} ActAllJoin(cmp: Comparator, hash: Hash, w: World, first: seq<Action>, second: seq<Action>)
    requires w.buckets != [] && InRange(hash)
    ensures ActAll(cmp, hash, w, first + second) == ActAll(cmp, hash, ActAll(cmp, hash, w, first), second)
    decreases first
  {
    if first == [] {
      assert first + second == second;
    } else {
      assert (first + second)[1..] == first[1..] + second;
      ActAllJoin(cmp, hash, Act(cmp, hash, w, first[0]), first[1..], second);
    }
  }

  /** In any script, a write into a buffer that is not put again later can be left out: the table ends up the same. */
  lemma ScribblesAreInvisible(cmp: Comparator, hash: Hash, w: World, before: seq<Action>, i: nat, at: nat, byte: Byte,
      after: seq<Action>)
    requires w.buckets != [] && InRange(hash) && forall k :: 0 <= k < |after| ==> !Puts(after[k], i)
    ensures ActAll(cmp, hash, w, before + ([Scribble(i, at, byte)] + after)).buckets
         == ActAll(cmp, hash, w, before + after).buckets
  {
    var scribble := Scribble(i, at, byte);
    var v := ActAll(cmp, hash, w, before);
    ActAllJoin(cmp, hash, w, before, [scribble] + after);
    ActAllJoin(cmp, hash, w, before, after);
    assert ([scribble] + after)[1..] == after;
    var u := Act(cmp, hash, v, scribble);
    if i < |v.buffers| {
      ActAllAlike(cmp, hash, u, v, after, i);
    }
  }
}
