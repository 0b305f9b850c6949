/** What the list operations compute, as functions on the sequence of key/value pairs in the list, and when they
    keep it sorted and free of duplicates. */
module ListSpec {
  import opened CStrings
  import opened Options

  datatype Pair = Pair(key: Key, value: Bytes)

  /** Where the loop of list_add stops: the first entry that compares as 0 or as exactly 1, or the end. */
  function StopAt(cmp: Comparator, ps: seq<Pair>, k: Key): (j: nat)
    ensures j <= |ps|
    ensures forall i :: 0 <= i < j ==> cmp(ps[i].key, k) != 0 && cmp(ps[i].key, k) != 1
    ensures j < |ps| ==> cmp(ps[j].key, k) == 0 || cmp(ps[j].key, k) == 1
  {
    if ps == [] || cmp(ps[0].key, k) == 0 || cmp(ps[0].key, k) == 1 then 0
    else 1 + StopAt(cmp, ps[1..], k)
  }

  predicate Replaces(cmp: Comparator, ps: seq<Pair>, k: Key) {
    StopAt(cmp, ps, k) < |ps| && cmp(ps[StopAt(cmp, ps, k)].key, k) == 0
  }

  function Add(cmp: Comparator, ps: seq<Pair>, p: Pair): seq<Pair> {
    var j := StopAt(cmp, ps, p.key);
    if Replaces(cmp, ps, p.key) then ps[j := p] else ps[..j] + [p] + ps[j..]
  }

  /** The first entry with the key, as list_get and list_remove find it; |ps| if there is none. */
  function Find(ps: seq<Pair>, k: Key): (j: nat)
    ensures j <= |ps|
    ensures forall i :: 0 <= i < j ==> ps[i].key != k
    ensures j < |ps| ==> ps[j].key == k
  {
    if ps == [] || ps[0].key == k then 0 else 1 + Find(ps[1..], k)
  }

  function Remove(ps: seq<Pair>, k: Key): seq<Pair> {
    var j := Find(ps, k);
    if j < |ps| then ps[..j] + ps[j + 1..] else ps
  }

  function Lookup(ps: seq<Pair>, k: Key): Option<Bytes> {
    var j := Find(ps, k);
    if j < |ps| then Some(ps[j].value) else None
  }

  ghost predicate Sorted(ps: seq<Pair>) {
    forall i, j :: 0 <= i < j < |ps| ==> Less(ps[i].key, ps[j].key)
  }

  ghost predicate Distinct(ps: seq<Pair>) {
    forall i, j :: 0 <= i < j < |ps| ==> ps[i].key != ps[j].key
  }

  lemma SortedIsDistinct(ps: seq<Pair>)
    requires Sorted(ps)
    ensures Distinct(ps)
  {
    forall i, j | 0 <= i < j < |ps| ensures ps[i].key != ps[j].key {
      LessIrreflexive(ps[i].key);
    }
  }

  /** The first entry that is not smaller than the key. */
  function Rank(ps: seq<Pair>, k: Key): (g: nat)
    ensures g <= |ps|
    ensures forall i :: 0 <= i < g ==> Less(ps[i].key, k)
    ensures g < |ps| ==> !Less(ps[g].key, k)
  {
    if ps == [] || !Less(ps[0].key, k) then 0 else 1 + Rank(ps[1..], k)
  }

  /** The guard of list_add meets the entry it has to stop at: equal, or greater by exactly 1. */
  predicate StopsInTime(cmp: Comparator, ps: seq<Pair>, k: Key) {
    Rank(ps, k) == |ps| || cmp(ps[Rank(ps, k)].key, k) <= 1
  }

  lemma StopsAtRank(cmp: Comparator, ps: seq<Pair>, k: Key)
    requires SignCorrect(cmp)
    ensures StopAt(cmp, ps, k) >= Rank(ps, k)
    ensures StopAt(cmp, ps, k) == Rank(ps, k) <==> StopsInTime(cmp, ps, k)
  {
    var g, j := Rank(ps, k), StopAt(cmp, ps, k);
    if g < |ps| {
      LessTotal(ps[g].key, k);
    }
  }

  lemma InsertSorted(ps: seq<Pair>, p: Pair, g: nat)
    requires Sorted(ps) && g <= |ps|
    requires forall i :: 0 <= i < g ==> Less(ps[i].key, p.key)
    requires g < |ps| ==> Less(p.key, ps[g].key)
    ensures Sorted(ps[..g] + [p] + ps[g..])
  {
    forall i | g < i < |ps| ensures Less(p.key, ps[i].key) {
      LessTransitive(p.key, ps[g].key, ps[i].key);
    }
  }

  /** list_add keeps a sorted list sorted exactly when its guard stops in time. */
  lemma AddKeepsSortedIff(cmp: Comparator, ps: seq<Pair>, p: Pair)
    requires SignCorrect(cmp) && Sorted(ps)
    ensures Sorted(Add(cmp, ps, p)) <==> StopsInTime(cmp, ps, p.key)
  {
    var j, g := StopAt(cmp, ps, p.key), Rank(ps, p.key);
    StopsAtRank(cmp, ps, p.key);
    if j == g {
      if Replaces(cmp, ps, p.key) {
      } else {
        if g < |ps| {
          LessTotal(ps[g].key, p.key);
        }
        InsertSorted(ps, p, g);
      }
    } else {
      // The entry at g is greater than the key but was passed by.
      LessTotal(ps[g].key, p.key);
      if !Replaces(cmp, ps, p.key) {
        var qs := Add(cmp, ps, p);
        assert qs[g] == ps[g] && qs[j] == p;
      }
    }
  }

  /** Some entry before the one that holds the key stops the loop first. */
  ghost predicate StoppedShort(cmp: Comparator, ps: seq<Pair>, k: Key) {
    exists i, j :: 0 <= i < j < |ps| && cmp(ps[i].key, k) == 1 && ps[j].key == k
  }

  /** qs is ps with p put in at s. */
  ghost predicate Inserted(ps: seq<Pair>, p: Pair, s: nat, qs: seq<Pair>) {
    && s <= |ps| && |qs| == |ps| + 1 && qs[s] == p
    && (forall i :: 0 <= i < s ==> qs[i] == ps[i])
    && (forall i :: s < i < |qs| ==> qs[i] == ps[i - 1])
  }

  lemma InsertNewDistinct(ps: seq<Pair>, p: Pair, s: nat, qs: seq<Pair>)
    requires Distinct(ps) && Inserted(ps, p, s, qs) && Find(ps, p.key) == |ps|
    ensures Distinct(qs)
  {
    forall i, j | 0 <= i < j < |qs| ensures qs[i].key != qs[j].key {
      var i', j' := if i < s then i else i - 1, if j < s then j else j - 1;
      assert i != s ==> qs[i] == ps[i'];
      assert j != s ==> qs[j] == ps[j'];
    }
  }

  lemma InsertDistinct(ps: seq<Pair>, p: Pair, s: nat, qs: seq<Pair>)
    requires Distinct(ps) && Inserted(ps, p, s, qs)
    ensures Distinct(qs) <==> Find(ps, p.key) == |ps|
  {
    var f := Find(ps, p.key);
    if f < |ps| {
      assert qs[if f < s then f else f + 1] == ps[f];
    } else {
      InsertNewDistinct(ps, p, s, qs);
    }
  }

  /** list_add keeps the keys distinct exactly when no earlier entry stops it before the entry with its key. */
  lemma AddKeepsDistinctIff(cmp: Comparator, ps: seq<Pair>, p: Pair)
    requires SignCorrect(cmp) && Distinct(ps)
    ensures Distinct(Add(cmp, ps, p)) <==> !StoppedShort(cmp, ps, p.key)
  {
    var s, f := StopAt(cmp, ps, p.key), Find(ps, p.key);
    if Replaces(cmp, ps, p.key) {
      assert ps[s].key == p.key;
    } else {
      InsertDistinct(ps, p, s, Add(cmp, ps, p));
      if f < |ps| {
        assert s < f && cmp(ps[s].key, p.key) == 1;
      }
    }
  }

  /** With the comparator that entry.h promises, list_add is a sorted insert or a replacement in place. */
  lemma AddUnit(cmp: Comparator, ps: seq<Pair>, p: Pair)
    requires SignCorrect(cmp) && UnitPositive(cmp) && Sorted(ps)
    ensures Sorted(Add(cmp, ps, p)) && StopAt(cmp, ps, p.key) == Rank(ps, p.key)
    ensures Replaces(cmp, ps, p.key) <==> Find(ps, p.key) < |ps|
  {
    AddKeepsSortedIff(cmp, ps, p);
    StopsAtRank(cmp, ps, p.key);
    var j := Find(ps, p.key);
    if j < |ps| {
      var s := StopAt(cmp, ps, p.key);
      assert s <= j;
    }
  }

  function AddAll(cmp: Comparator, ps: seq<Pair>, adds: seq<Pair>): seq<Pair>
    decreases adds
  {
    if adds == [] then ps else AddAll(cmp, Add(cmp, ps, adds[0]), adds[1..])
  }

  lemma {:induction false} AddAllSorted(cmp: Comparator, ps: seq<Pair>, adds: seq<Pair>)
    requires SignCorrect(cmp) && UnitPositive(cmp) && Sorted(ps)
    ensures Sorted(AddAll(cmp, ps, adds))
    decreases adds
  {
    if adds != [] {
      AddUnit(cmp, ps, adds[0]);
      AddAllSorted(cmp, Add(cmp, ps, adds[0]), adds[1..]);
    }
  }

  /** Every run of list_add on an empty list stays sorted exactly when the comparator meets entry.h's contract. */
  lemma SortedForEverIff(cmp: Comparator)
    requires SignCorrect(cmp)
    ensures (forall adds :: Sorted(AddAll(cmp, [], adds))) <==> UnitPositive(cmp)
  {
    if UnitPositive(cmp) {
      forall adds ensures Sorted(AddAll(cmp, [], adds)) {
        AddAllSorted(cmp, [], adds);
      }
    } else {
      var a, b :| cmp(a, b) > 0 && cmp(a, b) != 1;
      var p, q := Pair(a, []), Pair(b, []);
      assert Add(cmp, [], p) == [p] && Add(cmp, [p], q) == [p, q];
      assert AddAll(cmp, [], [p, q]) == AddAll(cmp, [p], [q]) == AddAll(cmp, [p, q], []) == [p, q] by {
        assert [p, q][1..] == [q] && [q][1..] == [];
      }
      LessAsymmetric(b, a);
      assert !Less([p, q][0].key, [p, q][1].key);
      assert !Sorted(AddAll(cmp, [], [p, q]));
    }
  }
}
