/** The sorted doubly linked list on the heap. Each method computes what ListSpec says, for any comparator, and reads
    and writes only live nodes although removing the head leaves the next node's `prev` stale. */
module Lists {
  import opened CStrings
  import opened Options
  import opened ListSpec
  import opened Blocks

  class Node {
    var prev: Node?
    var entry: Entry
    var next: Node?
    ghost var live: bool

    constructor (entry: Entry)
      ensures this.entry == entry && prev == null && next == null && live
    {
      this.entry, prev, next, live := entry, null, null, true;
    }

    function Prev(): Node?
      requires live
      reads this
    {
      prev
    }

    function Entry(): Entry
      requires live
      reads this
    {
      entry
    }

    function Next(): Node?
      requires live
      reads this
    {
      next
    }

    method SetPrev(n: Node?)
      requires live
      modifies this`prev
      ensures prev == n
    {
      prev := n;
    }

    method SetNext(n: Node?)
      requires live
      modifies this`next
      ensures next == n
    {
      next := n;
    }

    method SetEntry(e: Entry)
      requires live
      modifies this`entry
      ensures entry == e
    {
      entry := e;
    }

    method Free()
      requires live
      modifies this`live
      ensures !live
    {
      live := false;
    }
  }

  class List {
    const cmp: Comparator
    var head: Node?
    var size: int
    ghost var live: bool
    ghost var nodes: seq<Node>
    ghost var pairs: seq<Pair>
    ghost var Repr: set<object>

    /** The spine: different live nodes, linked in order. Nothing is said about the first node's `prev`: it may
        point to a freed node. */
    static ghost predicate Spine(ns: seq<Node>, first: Node?)
      reads ns
    {
      && first == (if ns == [] then null else ns[0])
      && (forall i :: 0 <= i < |ns| ==> ns[i].live)
      && (forall i, j :: 0 <= i < j < |ns| ==> ns[i] != ns[j])
      && (forall i {:trigger ns[i].next} :: 0 <= i < |ns| ==>
            ns[i].next == if i + 1 < |ns| then ns[i + 1] else null)
      && (forall i {:trigger ns[i].prev} :: 0 < i < |ns| ==> ns[i].prev == ns[i - 1])
    }

    /** Node n, its entry, its block and its buffer are in repr, the latter live, and hold the pair p. */
    static ghost predicate Holds(repr: set<object>, n: Node, p: Pair)
      reads repr
    {
      && n in repr
      && n.entry in repr && n.entry.value in repr && n.entry.Owned()
      && n.entry.value.data in repr
      && n.entry.PairOf() == p
    }

    /** Two nodes have nothing in common. */
    static ghost predicate Separate(m: Node, n: Node)
      reads m, n
    {
      && m.entry != n.entry
      && m.entry.value != n.entry.value
      && m.entry.value.data != n.entry.value.data
    }

    /** The nodes hold the pairs, and no two of them share anything. */
    static ghost predicate DataOk(repr: set<object>, ns: seq<Node>, ps: seq<Pair>)
      reads repr, ns
    {
      && |ns| == |ps|
      && (forall i :: 0 <= i < |ns| ==> Holds(repr, ns[i], ps[i]))
      && (forall i, j :: 0 <= i < j < |ns| ==> Separate(ns[i], ns[j]))
    }

    ghost predicate Valid()
      reads this, Repr
      ensures Valid() ==> this in Repr
    {
      && this in Repr && live
      && (forall i :: 0 <= i < |nodes| ==> nodes[i] in Repr)
      && size == |nodes|
      && Spine(nodes, head)
      && DataOk(Repr, nodes, pairs)
    }

    /** list_create */
    constructor (cmp: Comparator)
      ensures Valid() && fresh(Repr) && pairs == [] && this.cmp == cmp
    {
      this.cmp, head, size, live := cmp, null, 0, true;
      nodes, pairs, Repr := [], [], {this};
    }

    /** list_size */
    function Size(): int
      requires live
      reads this
    {
      size
    }

    /** list_get: the entry in the list, not a copy. */
    method Get(key: Key) returns (e: Entry?)
      requires Valid()
      ensures e == null <==> Lookup(pairs, key).None?
      ensures e != null ==> e in Repr && e.value in Repr && e.value.data in Repr && e.Owned()
      ensures e != null ==> Lookup(pairs, key) == Some(e.value.data[..])
    {
      var current := head;
      ghost var j := 0;
      while current != null
        invariant 0 <= j <= |nodes|
        invariant current == if j < |nodes| then nodes[j] else null
        invariant forall i :: 0 <= i < j ==> pairs[i].key != key
        decreases |nodes| - j
      {
        assert Holds(Repr, nodes[j], pairs[j]);
        if current.Entry().Key() == key {
          assert Find(pairs, key) == j;
          return current.Entry();
        }
        current := current.Next();
        j := j + 1;
      }
      assert Find(pairs, key) == |pairs|;
      e := null;
    }

    /** list_get_keys: copies of the keys in order, and a NULL at the end; NULL for an empty list. */
    method GetKeys() returns (keys: array?<Option<Key>>)
      requires Valid()
      ensures keys == null <==> pairs == []
      ensures keys != null ==> fresh(keys) && keys.Length == |pairs| + 1 && keys[|pairs|] == None
      ensures keys != null ==> forall i :: 0 <= i < |pairs| ==> keys[i] == Some(pairs[i].key)
    {
      if size <= 0 || head == null {
        return null;
      }
      var a := new Option<Key>[size + 1](_ => None);
      var current := head;
      var i := 0;
      while current != null
        invariant 0 <= i <= |nodes|
        invariant current == if i < |nodes| then nodes[i] else null
        invariant forall j :: 0 <= j < i ==> a[j] == Some(pairs[j].key)
        decreases |nodes| - i
      {
        assert Holds(Repr, nodes[i], pairs[i]);
        a[i] := Some(current.Entry().Key());
        current := current.Next();
        i := i + 1;
      }
      a[i] := None;
      keys := a;
    }

    // ---------- list_add ----------

    /** An entry that the caller hands over: its objects are not the list's. */
    ghost predicate Foreign(e: Entry)
      reads this, e, e.value
    {
      e.Owned() && e !in Repr && e.value !in Repr && e.value.data !in Repr
    }

    /** The objects of a new node and its entry. */
    ghost function Parts(n: Node): set<object>
      requires n.entry.value.data != null
      reads n
    {
      {n, n.entry, n.entry.value, n.entry.value.data}
    }

    /** A node with objects of its own may be put in anywhere. */
    static lemma DataInsert(repr: set<object>, ns: seq<Node>, ps: seq<Pair>, j: nat, n: Node,
        repr': set<object>, ns': seq<Node>, ps': seq<Pair>)
      requires DataOk(repr, ns, ps) && j <= |ns|
      requires n.entry.Owned() && repr' == repr + {n, n.entry, n.entry.value, n.entry.value.data}
      requires n.entry !in repr && n.entry.value !in repr && n.entry.value.data !in repr
      requires ns' == ns[..j] + [n] + ns[j..] && ps' == ps[..j] + [n.entry.PairOf()] + ps[j..]
      ensures DataOk(repr', ns', ps')
      ensures forall i :: 0 <= i < |ns'| ==> ns'[i] in repr'
    {
      forall i | 0 <= i < |ns'| ensures Holds(repr', ns'[i], ps'[i]) {
        var i' := if i < j then i else i - 1;
        assert i != j ==> Holds(repr, ns[i'], ps[i']);
      }
      forall a, b | 0 <= a < b < |ns'| ensures Separate(ns'[a], ns'[b]) {
        var a', b' := if a < j then a else a - 1, if b < j then b else b - 1;
        assert a != j ==> Holds(repr, ns[a'], ps[a']);
        assert b != j ==> Holds(repr, ns[b'], ps[b']);
        assert a != j && b != j ==> Separate(ns[a'], ns[b']);
      }
    }

    /** The links once node n has been put in front of ns[j]. */
    static ghost predicate Spliced(ns: seq<Node>, j: nat, n: Node, first: Node?)
      requires j < |ns|
      reads ns, n
    {
      && first == (if j == 0 then n else ns[0])
      && n.live && n.next == ns[j] && (j > 0 ==> n.prev == ns[j - 1])
      && ns[j].prev == n
      && (forall i :: 0 <= i < |ns| ==> ns[i].live)
      && (forall i {:trigger ns[i].next} :: 0 <= i < |ns| ==>
            ns[i].next == if i + 1 == j then n else if i + 1 < |ns| then ns[i + 1] else null)
      && (forall i {:trigger ns[i].prev} :: 0 < i < |ns| && i != j ==> ns[i].prev == ns[i - 1])
    }

    static lemma SpliceSpine(ns: seq<Node>, j: nat, n: Node, first: Node?, ns': seq<Node>)
      requires j < |ns| && Spliced(ns, j, n, first) && n !in ns && ns' == ns[..j] + [n] + ns[j..]
      requires forall a, b :: 0 <= a < b < |ns| ==> ns[a] != ns[b]
      ensures Spine(ns', first)
    {
    }

    /** list_add in front of a node: the pointer work. */
    method LinkBefore(current: Node, newNode: Node, ghost j: nat)
      requires Spine(nodes, head) && j < |nodes| == |pairs| == size && current == nodes[j]
      requires newNode.live && newNode !in nodes && newNode.entry.value.data != null
      modifies this`head, this`size, this`nodes, this`pairs, this`Repr, newNode`prev, newNode`next
      modifies current`prev, (if j > 0 then {nodes[j - 1]} else {})`next
      ensures nodes == old(nodes)[..j] + [newNode] + old(nodes)[j..]
      ensures pairs == old(pairs)[..j] + [newNode.entry.PairOf()] + old(pairs)[j..]
      ensures Repr == old(Repr) + Parts(newNode)
      ensures Spliced(old(nodes), j, newNode, head) && size == old(size) + 1
    {
      nodes := nodes[..j] + [newNode] + nodes[j..];
      pairs := pairs[..j] + [newNode.entry.PairOf()] + pairs[j..];
      Repr := Repr + Parts(newNode);
      if current == head {
        head := newNode;
        newNode.SetNext(current);
        current.SetPrev(newNode);
      } else {
        current.Prev().SetNext(newNode);
        newNode.SetPrev(current.Prev());
        current.SetPrev(newNode);
        newNode.SetNext(current);
      }
      size := size + 1;
    }

    /** list_add behind the last node: the pointer work. */
    method LinkBehind(current: Node, newNode: Node)
      requires Spine(nodes, head) && nodes != [] && current == nodes[|nodes| - 1] && |nodes| == |pairs| == size
      requires newNode.live && newNode !in nodes && newNode.next == null && newNode.entry.value.data != null
      modifies this`size, this`nodes, this`pairs, this`Repr, newNode`prev, current`next
      ensures nodes == old(nodes) + [newNode] && pairs == old(pairs) + [newNode.entry.PairOf()]
      ensures Repr == old(Repr) + Parts(newNode)
      ensures Spine(nodes, head) && size == |nodes|
    {
      nodes := nodes + [newNode];
      pairs := pairs + [newNode.entry.PairOf()];
      Repr := Repr + Parts(newNode);
      newNode.SetPrev(current);
      current.SetNext(newNode);
      size := size + 1;
    }

    /** Node n has the same entry as before, with everything in it as it was. */
    static twostate predicate SameEntry(n: Node)
      reads *
    {
      && n.entry == old(n.entry)
      && n.entry.live == old(n.entry.live) && n.entry.value.live == old(n.entry.value.live)
      && (n.entry.value.data != null ==> n.entry.value.data[..] == old(n.entry.value.data[..]))
    }

    twostate lemma KeepData()
      requires old(DataOk(Repr, nodes, pairs)) && forall i :: 0 <= i < |old(nodes)| ==> SameEntry(old(nodes)[i])
      ensures DataOk(old(Repr), old(nodes), old(pairs))
    {
      var repr, ns, ps := old(Repr), old(nodes), old(pairs);
      forall i | 0 <= i < |ns| ensures Holds(repr, ns[i], ps[i]) {
        assert old(Holds(Repr, nodes[i], pairs[i]));
      }
      forall i, j | 0 <= i < j < |ns| ensures Separate(ns[i], ns[j]) {
        assert old(Separate(nodes[i], nodes[j]));
      }
    }

    /** The new node goes in front of current. */
    method InsertBefore(current: Node, newNode: Node, ghost j: nat)
      requires Valid() && j < |nodes| && current == nodes[j]
      requires newNode.live && newNode !in Repr && Foreign(newNode.entry)
      modifies Repr, newNode
      ensures newNode.entry == old(newNode.entry) && newNode.entry.Owned()
      ensures Valid() && Repr == old(Repr) + Parts(newNode)
      ensures nodes == old(nodes)[..j] + [newNode] + old(nodes)[j..]
      ensures pairs == old(pairs)[..j] + [newNode.entry.PairOf()] + old(pairs)[j..]
    {
      LinkBefore(current, newNode, j);
      SpliceSpine(old(nodes), j, newNode, head, nodes);
      KeepData();
      DataInsert(old(Repr), old(nodes), old(pairs), j, newNode, Repr, nodes, pairs);
    }

    /** The new node goes behind the last one. */
    method Append(current: Node, newNode: Node)
      requires Valid() && nodes != [] && current == nodes[|nodes| - 1]
      requires newNode.live && newNode !in Repr && Foreign(newNode.entry) && newNode.next == null
      modifies Repr, newNode
      ensures newNode.entry == old(newNode.entry) && newNode.entry.Owned()
      ensures Valid() && Repr == old(Repr) + Parts(newNode)
      ensures nodes == old(nodes) + [newNode]
      ensures pairs == old(pairs) + [newNode.entry.PairOf()]
    {
      LinkBehind(current, newNode);
      KeepData();
      DataInsert(old(Repr), old(nodes), old(pairs), |old(nodes)|, newNode, Repr, nodes, pairs);
    }

    /** All nodes but j hold their pairs, apart from each other and from the entry e. */
    static lemma DataReplace(repr: set<object>, ns: seq<Node>, ps: seq<Pair>, j: nat, e: Entry, repr': set<object>)
      requires |ns| == |ps| && j < |ns| && ns[j] in repr && ns[j].entry == e && e.Owned()
      requires forall i :: 0 <= i < |ns| && i != j ==> Holds(repr, ns[i], ps[i])
      requires forall a, b :: 0 <= a < b < |ns| && a != j && b != j ==> Separate(ns[a], ns[b])
      requires e !in repr && e.value !in repr && e.value.data !in repr
      requires repr' == repr + {e, e.value, e.value.data}
      ensures DataOk(repr', ns, ps[j := e.PairOf()])
    {
      var ps' := ps[j := e.PairOf()];
      forall i | 0 <= i < |ns| ensures Holds(repr', ns[i], ps'[i]) {
        assert i != j ==> Holds(repr, ns[i], ps[i]);
      }
      forall a, b | 0 <= a < b < |ns| ensures Separate(ns[a], ns[b]) {
        assert a != j ==> Holds(repr, ns[a], ps[a]);
        assert b != j ==> Holds(repr, ns[b], ps[b]);
      }
    }

    /** list_add at an equal entry: the work on the node. */
    method SwapEntry(current: Node, e: Entry, newNode: Node, ghost j: nat)
      requires current.live && current.entry.live && current.entry.value.live && newNode.live && e.value.data != null
      requires j < |pairs| && newNode != current && e != current.entry && e.value != current.entry.value
      modifies this`pairs, this`Repr, current`entry, current.entry, current.entry.value, newNode`live
      ensures pairs == old(pairs)[j := e.PairOf()] && Repr == old(Repr) + {e, e.value, e.value.data}
      ensures current.entry == e && !newNode.live
      ensures !old(current.entry).live && !old(current.entry.value).live
    {
      pairs := pairs[j := e.PairOf()];
      Repr := Repr + {e, e.value, e.value.data};
      var _ := EntryDestroy(current.Entry());
      current.SetEntry(e);
      newNode.Free();
    }

    /** The entry is equal: the new one takes its place, and the old one is destroyed with its block. */
    method ReplaceEntry(current: Node, e: Entry, newNode: Node, ghost j: nat)
      requires Valid() && j < |nodes| && current == nodes[j]
      requires Foreign(e) && newNode.live && newNode !in Repr
      modifies Repr, newNode`live
      ensures Valid() && Repr == old(Repr) + {e, e.value, e.value.data} && e.Owned()
      ensures pairs == old(pairs)[j := e.PairOf()] && nodes == old(nodes)
      ensures !old(current.entry).live && !old(current.entry.value).live && !newNode.live
    {
      assert Holds(Repr, nodes[j], pairs[j]);
      DataApart(Repr, nodes, pairs, j);
      SwapEntry(current, e, newNode, j);
      KeepOthers(j);
      DataReplace(old(Repr), nodes, old(pairs), j, e, Repr);
    }

    static lemma DataApart(repr: set<object>, ns: seq<Node>, ps: seq<Pair>, j: nat)
      requires DataOk(repr, ns, ps) && j < |ns|
      ensures forall i :: 0 <= i < |ns| && i != j ==>
        ns[i].entry != ns[j].entry && ns[i].entry.value != ns[j].entry.value
    {
      forall i | 0 <= i < |ns| && i != j
        ensures ns[i].entry != ns[j].entry && ns[i].entry.value != ns[j].entry.value
      {
        assert if i < j then Separate(ns[i], ns[j]) else Separate(ns[j], ns[i]);
      }
    }

    twostate lemma KeepOthers(j: nat)
      requires old(DataOk(Repr, nodes, pairs))
      requires forall i :: 0 <= i < |old(nodes)| && i != j ==> SameEntry(old(nodes)[i])
      ensures forall i :: 0 <= i < |old(nodes)| && i != j ==> Holds(old(Repr), old(nodes)[i], old(pairs)[i])
      ensures forall a, b :: 0 <= a < b < |old(nodes)| && a != j && b != j ==> Separate(old(nodes)[a], old(nodes)[b])
    {
      var repr, ns, ps := old(Repr), old(nodes), old(pairs);
      forall i | 0 <= i < |ns| && i != j ensures Holds(repr, ns[i], ps[i]) {
        assert old(Holds(Repr, nodes[i], pairs[i]));
      }
      forall a, b | 0 <= a < b < |ns| && a != j && b != j ensures Separate(ns[a], ns[b]) {
        assert old(Separate(nodes[a], nodes[b]));
      }
    }

    /** list_add to an empty list. */
    method InsertFirst(newNode: Node)
      requires Valid() && nodes == []
      requires newNode.live && newNode !in Repr && Foreign(newNode.entry) && newNode.next == null
      modifies this
      ensures Valid() && Repr == old(Repr) + Parts(newNode)
      ensures nodes == [newNode] && pairs == [newNode.entry.PairOf()]
    {
      head := newNode;
      size := size + 1;
      nodes, pairs, Repr := [newNode], [newNode.entry.PairOf()], Repr + Parts(newNode);
    }

    /** Where the loop of list_add is after j steps. */
    ghost predicate Passed(j: nat, k: Key)
      requires j <= |pairs|
      reads this
    {
      forall i :: 0 <= i < j ==> cmp(pairs[i].key, k) != 0 && cmp(pairs[i].key, k) != 1
    }

    lemma StopsHere(j: nat, p: Pair)
      requires j <= |pairs| && Passed(j, p.key)
      requires j < |pairs| ==> cmp(pairs[j].key, p.key) == 0 || cmp(pairs[j].key, p.key) == 1
      ensures StopAt(cmp, pairs, p.key) == j
      ensures Replaces(cmp, pairs, p.key) <==> j < |pairs| && cmp(pairs[j].key, p.key) == 0
      ensures ListSpec.Add(cmp, pairs, p) ==
                if Replaces(cmp, pairs, p.key) then pairs[j := p] else pairs[..j] + [p] + pairs[j..]
    {
      assert StopAt(cmp, pairs, p.key) == j;
    }

    /** entry_compare for two entries that exist. */
    function Compare(e1: Entry, e2: Entry): int
      requires e1.live && e2.live
      reads e1, e2
    {
      cmp(e1.Key(), e2.Key())
    }

    /** The loop of list_add: on to the first node that compares as 0 or 1, or to the last one. */
    method Walk(e: Entry) returns (current: Node, ghost j: nat)
      requires Valid() && nodes != [] && e.live
      ensures j < |nodes| && current == nodes[j] && Passed(j, e.key) && current.live && current.entry.live
      ensures cmp(pairs[j].key, e.key) == 0 || cmp(pairs[j].key, e.key) == 1 || j == |nodes| - 1
    {
      current := head;
      j := 0;
      while true
        invariant 0 <= j < |nodes| && current == nodes[j] && Passed(j, e.key)
        decreases |nodes| - j
      {
        assert Holds(Repr, nodes[j], pairs[j]);
        if Compare(current.Entry(), e) == 0 || Compare(current.Entry(), e) == 1 || current.Next() == null {
          return;
        }
        current := current.Next();
        j := j + 1;
      }
    }

    /** The body of the loop of list_add at the node where it stops. */
    method Place(current: Node, e: Entry, newNode: Node, ghost j: nat) returns (r: int)
      requires Valid() && j < |nodes| && current == nodes[j] && Passed(j, e.key) && Foreign(e)
      requires newNode.live && newNode !in Repr && newNode.entry == e && newNode.next == null
      requires cmp(pairs[j].key, e.key) == 0 || cmp(pairs[j].key, e.key) == 1 || j == |nodes| - 1
      modifies Repr, newNode
      ensures Valid() && pairs == ListSpec.Add(cmp, old(pairs), old(e.PairOf()))
      ensures r == if Replaces(cmp, old(pairs), e.key) then 1 else 0
      ensures r == 1 ==> nodes == old(nodes) && !old(nodes[j].entry).live && !old(nodes[j].entry.value).live
      ensures r == 1 ==> j == StopAt(cmp, old(pairs), e.key)
      ensures Repr <= old(Repr) + {newNode, e, e.value, e.value.data}
    {
      assert Holds(Repr, nodes[j], pairs[j]);
      if Compare(current.Entry(), newNode.Entry()) == 0 {
        StopsHere(j, e.PairOf());
        ReplaceEntry(current, e, newNode, j);
        r := 1;
      } else if Compare(current.Entry(), newNode.Entry()) == 1 {
        StopsHere(j, e.PairOf());
        InsertBefore(current, newNode, j);
        r := 0;
      } else {
        StopsHere(|pairs|, e.PairOf());
        assert pairs[..|pairs|] == pairs && pairs[|pairs|..] == [];
        Append(current, newNode);
        r := 0;
      }
    }

    /** list_add: 1 if an entry with the key was replaced, 0 if one was added, -1 for NULL. The list takes over the
        entry it is given. */
    method Add(e: Entry?) returns (r: int)
      requires Valid() && (e != null ==> Foreign(e))
      modifies Repr
      ensures Valid()
      ensures e == null ==> r == -1 && nodes == old(nodes) && pairs == old(pairs) && Repr == old(Repr)
      ensures e != null ==> pairs == ListSpec.Add(cmp, old(pairs), old(e.PairOf()))
      ensures e != null ==> r == if Replaces(cmp, old(pairs), e.key) then 1 else 0
      ensures e != null && r == 1 ==>
                && nodes == old(nodes)
                && var n := old(nodes)[StopAt(cmp, old(pairs), e.key)];
                   !old(n.entry).live && !old(n.entry.value).live
      ensures fresh(Repr - old(Repr) - if e == null then {} else {e, e.value, e.value.data})
    {
      if e == null {
        return -1;
      }
      var newNode := new Node(e);
      if size == 0 {
        InsertFirst(newNode);
        return 0;
      }
      var current, j := Walk(e);
      r := Place(current, e, newNode, j);
    }

    // ---------- list_remove ----------

    /** The links once ns[j] has been taken out. A new head keeps its old `prev`. */
    static ghost predicate Bypassed(ns: seq<Node>, j: nat, first: Node?)
      requires j < |ns|
      reads ns
    {
      && first == (if j > 0 then ns[0] else if |ns| > 1 then ns[1] else null)
      && (forall i :: 0 <= i < |ns| && i != j ==> ns[i].live)
      && (forall i {:trigger ns[i].next} :: 0 <= i < |ns| && i != j ==>
            ns[i].next == if i + 1 == j then (if j + 1 < |ns| then ns[j + 1] else null)
                          else if i + 1 < |ns| then ns[i + 1] else null)
      && (forall i {:trigger ns[i].prev} :: 0 < i < |ns| && i != j && i != j + 1 ==> ns[i].prev == ns[i - 1])
      && (0 < j < |ns| - 1 ==> ns[j + 1].prev == ns[j - 1])
    }

    static lemma BypassSpine(ns: seq<Node>, j: nat, first: Node?, ns': seq<Node>)
      requires j < |ns| && Bypassed(ns, j, first) && ns' == ns[..j] + ns[j + 1..]
      requires forall a, b :: 0 <= a < b < |ns| ==> ns[a] != ns[b]
      ensures Spine(ns', first)
    {
    }

    /** list_remove: the pointer work. A new head keeps pointing back to the node that is about to be freed. */
    method Unlink(current: Node, ghost j: nat)
      requires Spine(nodes, head) && j < |nodes| == |pairs| == size && current == nodes[j]
      requires current.entry.value.data != null
      modifies this`head, this`size, this`nodes, this`pairs, this`Repr
      modifies (if j > 0 then {nodes[j - 1]} else {})`next, (if j + 1 < |nodes| then {nodes[j + 1]} else {})`prev
      ensures nodes == old(nodes)[..j] + old(nodes)[j + 1..] && pairs == old(pairs)[..j] + old(pairs)[j + 1..]
      ensures Repr == old(Repr) - Parts(current)
      ensures Bypassed(old(nodes), j, head) && size == old(size) - 1 && current.live
      ensures j == 0 && nodes != [] ==> head.prev == current
    {
      nodes := nodes[..j] + nodes[j + 1..];
      pairs := pairs[..j] + pairs[j + 1..];
      Repr := Repr - Parts(current);
      if current == head {
        head := current.Next();
      } else if current.Next() == null {
        current.Prev().SetNext(current.Next());
      } else {
        current.Prev().SetNext(current.Next());
        current.Next().SetPrev(current.Prev());
      }
      size := size - 1;
    }

    static lemma DataRemove(repr: set<object>, ns: seq<Node>, ps: seq<Pair>, j: nat, n: Node,
        repr': set<object>, ns': seq<Node>, ps': seq<Pair>)
      requires |ns| == |ps| && j < |ns| && n == ns[j] && n.entry.value.data != null
      requires forall a, b :: 0 <= a < b < |ns| ==> ns[a] != ns[b] && Separate(ns[a], ns[b])
      requires forall i :: 0 <= i < |ns| && i != j ==> Holds(repr, ns[i], ps[i])
      requires repr' == repr - {n, n.entry, n.entry.value, n.entry.value.data}
      requires ns' == ns[..j] + ns[j + 1..] && ps' == ps[..j] + ps[j + 1..]
      ensures DataOk(repr', ns', ps')
      ensures forall i :: 0 <= i < |ns'| ==> ns'[i] in repr'
    {
      forall i | 0 <= i < |ns'| ensures Holds(repr', ns'[i], ps'[i]) {
        var i' := if i < j then i else i + 1;
        assert ns'[i] == ns[i'] && Holds(repr, ns[i'], ps[i']);
        assert if i' < j then Separate(ns[i'], ns[j]) else Separate(ns[j], ns[i']);
      }
      forall a, b | 0 <= a < b < |ns'| ensures Separate(ns'[a], ns'[b]) {
        assert Separate(ns[if a < j then a else a + 1], ns[if b < j then b else b + 1]);
      }
    }

    twostate lemma KeepSeparate()
      requires old(DataOk(Repr, nodes, pairs))
      requires forall i :: 0 <= i < |old(nodes)| ==> old(nodes)[i].entry == old(nodes[i].entry)
      ensures forall a, b :: 0 <= a < b < |old(nodes)| ==> Separate(old(nodes)[a], old(nodes)[b])
    {
      forall a, b | 0 <= a < b < |old(nodes)| ensures Separate(old(nodes)[a], old(nodes)[b]) {
        assert old(Separate(nodes[a], nodes[b]));
      }
    }

    /** Unlink node j, destroy its entry with the block, and free it. */
    method Extract(current: Node, ghost j: nat)
      requires Spine(nodes, head) && j < |nodes| == |pairs| == size && current == nodes[j]
      requires current.entry.live && current.entry.value.live && current.entry.value.data != null
      modifies this`head, this`size, this`nodes, this`pairs, this`Repr
      modifies (if j > 0 then {nodes[j - 1]} else {})`next, (if j + 1 < |nodes| then {nodes[j + 1]} else {})`prev
      modifies current`live, current.entry`live, current.entry.value`live
      ensures nodes == old(nodes)[..j] + old(nodes)[j + 1..] && pairs == old(pairs)[..j] + old(pairs)[j + 1..]
      ensures Repr == old(Repr) - Parts(current)
      ensures Bypassed(old(nodes), j, head) && size == old(size) - 1
      ensures !current.live && !current.entry.live && !current.entry.value.live
    {
      Unlink(current, j);
      var _ := EntryDestroy(current.Entry());
      current.Free();
    }

    method RemoveAt(current: Node, ghost j: nat)
      requires Valid() && j < |nodes| && current == nodes[j]
      modifies Repr
      ensures Valid() && Repr == old(Repr - Parts(current))
      ensures nodes == old(nodes)[..j] + old(nodes)[j + 1..] && pairs == old(pairs)[..j] + old(pairs)[j + 1..]
      ensures !current.live && !old(current.entry).live && !old(current.entry.value).live
    {
      assert Holds(Repr, nodes[j], pairs[j]);
      DataApart(Repr, nodes, pairs, j);
      Extract(current, j);
      BypassSpine(old(nodes), j, head, nodes);
      KeepOthers(j);
      KeepSeparate();
      DataRemove(old(Repr), old(nodes), old(pairs), j, current, Repr, nodes, pairs);
    }

    /** list_remove: 0 if the key was found and removed, 1 if it was not found. */
    method Remove(key: Key) returns (r: int)
      requires Valid()
      modifies Repr
      ensures Valid() && Repr <= old(Repr)
      ensures pairs == ListSpec.Remove(old(pairs), key)
      ensures r == if Find(old(pairs), key) < |old(pairs)| then 0 else 1
      ensures r == 0 ==> var n := old(nodes)[Find(old(pairs), key)];
                         !n.live && !old(n.entry).live && !old(n.entry.value).live
    {
      var current := head;
      ghost var j := 0;
      while current != null
        invariant 0 <= j <= |nodes| && current == if j < |nodes| then nodes[j] else null
        invariant forall i :: 0 <= i < j ==> pairs[i].key != key
        decreases |nodes| - j
      {
        assert Holds(Repr, nodes[j], pairs[j]);
        if current.Entry().Key() == key {
          assert Find(pairs, key) == j;
          RemoveAt(current, j);
          return 0;
        }
        current := current.Next();
        j := j + 1;
      }
      assert Find(pairs, key) == |pairs|;
      r := 1;
    }

    // ---------- list_destroy ----------

    /** The nodes and entries of a list: all different, and in repr. */
    static ghost predicate Inventory(repr: set<object>, ns: seq<Node>, es: seq<Entry>) {
      && |ns| == |es|
      && (forall i :: 0 <= i < |ns| ==> ns[i] in repr && es[i] in repr && es[i].value in repr)
      && (forall i, j :: 0 <= i < j < |ns| ==> ns[i] != ns[j] && es[i] != es[j] && es[i].value != es[j].value)
    }

    ghost function Entries(): (es: seq<Entry>)
      requires Valid()
      reads this, Repr
      ensures Inventory(Repr, nodes, es)
      ensures forall i :: 0 <= i < |nodes| ==> es[i] == nodes[i].entry && es[i].live && es[i].value.live
    {
      assert forall i :: 0 <= i < |nodes| ==> Holds(Repr, nodes[i], pairs[i]);
      assert forall i, j :: 0 <= i < j < |nodes| ==> Separate(nodes[i], nodes[j]);
      seq(|nodes|, i requires 0 <= i < |nodes| reads this, Repr, nodes => nodes[i].entry)
    }

    /** From k on everything is live and in place; before k everything is freed. */
    static ghost predicate FreedUpTo(ns: seq<Node>, es: seq<Entry>, k: nat)
      requires |ns| == |es|
      reads ns, es, (set i | 0 <= i < |es| :: es[i].value)
    {
      && (forall i :: 0 <= i < |ns| && i < k ==> !ns[i].live && !es[i].live && !es[i].value.live)
      && (forall i :: k <= i < |ns| ==> ns[i].live && es[i].live && es[i].value.live && ns[i].entry == es[i])
      && (forall i {:trigger ns[i].next} :: k <= i < |ns| ==> ns[i].next == if i + 1 < |ns| then ns[i + 1] else null)
    }

    /** One turn of the loop of list_destroy. */
    static method FreeNode(ghost repr: set<object>, ghost ns: seq<Node>, ghost es: seq<Entry>, current: Node,
        ghost k: nat)
      returns (next: Node?)
      requires Inventory(repr, ns, es) && FreedUpTo(ns, es, k) && k < |ns| && current == ns[k]
      modifies current`live, current.entry`live, current.entry.value`live
      ensures FreedUpTo(ns, es, k + 1) && next == if k + 1 < |ns| then ns[k + 1] else null
    {
      next := current.Next();
      var _ := EntryDestroy(current.Entry());
      current.Free();
    }

    /** list_destroy: every node, entry and block of the list is freed, and none of them twice. */
    method Destroy() returns (r: int)
      requires Valid()
      modifies Repr
      ensures r == 0 && !live && nodes == old(nodes) && FreedUpTo(nodes, old(Entries()), |nodes|)
    {
      ghost var es := Entries();
      ghost var ns, repr := nodes, Repr;
      var current := head;
      ghost var k := 0;
      assert FreedUpTo(ns, es, 0);
      while current != null
        invariant 0 <= k <= |ns| && current == if k < |ns| then ns[k] else null
        invariant FreedUpTo(ns, es, k) && unchanged(this)
        decreases |ns| - k
      {
        current := FreeNode(repr, ns, es, current, k);
        k := k + 1;
      }
      live := false;
      r := 0;
    }
  }
}
