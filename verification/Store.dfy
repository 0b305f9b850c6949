/** The key/value store that every layer refines: a finite map and the two operations that change it. */
module Store {
  import opened CStrings
  import opened Options

  type Map = map<Key, Bytes>

  datatype Write = Put(key: Key, value: Bytes) | Del(key: Key)

  datatype Outcome = Outcome(store: Map, ok: bool)

  /** What a server does with one write: block_create refuses an empty value, and a delete needs its key. */
  function Perform(m: Map, w: Write): Outcome {
    match w
    case Put(k, v) => if v == [] then Outcome(m, false) else Outcome(m[k := v], true)
    case Del(k) => if k in m then Outcome(m - {k}, true) else Outcome(m, false)
  }

  /** The store after a sequence of writes, starting empty. */
  function Replay(ws: seq<Write>): Map {
    if ws == [] then map[] else Perform(Replay(ws[..|ws| - 1]), ws[|ws| - 1]).store
  }

  /** Every write in the sequence succeeded when its turn came. */
  predicate AllOk(ws: seq<Write>) {
    ws == [] || (AllOk(ws[..|ws| - 1]) && Perform(Replay(ws[..|ws| - 1]), ws[|ws| - 1]).ok)
  }

  lemma ReplayAppend(ws: seq<Write>, w: Write)
    ensures Replay(ws + [w]) == Perform(Replay(ws), w).store
    ensures AllOk(ws + [w]) == (AllOk(ws) && Perform(Replay(ws), w).ok)
  {
    assert (ws + [w])[..|ws|] == ws;
  }

  /** Applying a write a second time changes nothing; it is refused exactly when it is a delete. */
  lemma RepeatedWrite(m: Map, w: Write)
    requires Perform(m, w).ok
    ensures Perform(Perform(m, w).store, w).store == Perform(m, w).store
    ensures Perform(Perform(m, w).store, w).ok == w.Put?
  {
  }

  /** The questions a client may put to a server. */
  datatype Query = Get(key: Key) | Size | Table
  datatype Answer = Value(value: Option<Bytes>) | Count(n: nat) | Whole(store: Map)

  function Ask(m: Map, q: Query): Answer {
    match q
    case Get(k) => Value(if k in m then Some(m[k]) else None)
    case Size => Count(|m|)
    case Table => Whole(m)
  }
}
