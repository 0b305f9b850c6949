/** The map that a list of pairs stands for, and how the list operations change it. */
module ListMap {
  import opened CStrings
  import opened Options
  import opened Store
  import opened ListSpec

  /** The map of a list; an earlier entry hides a later one with the same key, as it does for list_get. */
  function MapOf(ps: seq<Pair>): Map {
    if ps == [] then map[] else MapOf(ps[1..])[ps[0].key := ps[0].value]
  }

  lemma {:induction false} MapOfFind(ps: seq<Pair>, k: Key)
    ensures k in MapOf(ps) <==> Find(ps, k) < |ps|
    ensures k in MapOf(ps) ==> MapOf(ps)[k] == ps[Find(ps, k)].value
  {
    if ps != [] {
      MapOfFind(ps[1..], k);
    }
  }

  /** list_get finds exactly what the map holds. */
  lemma LookupIsMap(ps: seq<Pair>, k: Key)
    ensures Lookup(ps, k) == if k in MapOf(ps) then Some(MapOf(ps)[k]) else None
  {
    MapOfFind(ps, k);
  }

  lemma FindDistinct(ps: seq<Pair>, j: nat)
    requires Distinct(ps) && j < |ps|
    ensures Find(ps, ps[j].key) == j
  {
  }

  lemma {:induction false} SizeOfMap(ps: seq<Pair>)
    requires Distinct(ps)
    ensures |MapOf(ps)| == |ps|
  {
    if ps != [] {
      SizeOfMap(ps[1..]);
      MapOfFind(ps[1..], ps[0].key);
      assert ps[0].key !in MapOf(ps[1..]);
    }
  }

  /** list_add is a map update, and says whether the key was there. */
  lemma AddRefinesUpdate(cmp: Comparator, ps: seq<Pair>, p: Pair)
    requires SignCorrect(cmp) && UnitPositive(cmp) && Sorted(ps)
    ensures MapOf(Add(cmp, ps, p)) == MapOf(ps)[p.key := p.value]
    ensures Replaces(cmp, ps, p.key) <==> p.key in MapOf(ps)
    ensures |Add(cmp, ps, p)| == |ps| + if p.key in MapOf(ps) then 0 else 1
  {
    AddUnit(cmp, ps, p);
    var qs := Add(cmp, ps, p);
    SortedIsDistinct(ps);
    SortedIsDistinct(qs);
    MapOfFind(ps, p.key);
    var m := MapOf(ps)[p.key := p.value];
    forall k: Key
      ensures k in MapOf(qs) <==> k in m
      ensures k in m ==> MapOf(qs)[k] == m[k]
    {
      AddFind(cmp, ps, p, k);
      MapOfFind(qs, k);
      MapOfFind(ps, k);
    }
  }

  lemma FindInserted(ps: seq<Pair>, p: Pair, s: nat, qs: seq<Pair>, k: Key)
    requires Inserted(ps, p, s, qs) && Distinct(qs)
    ensures Lookup(qs, k) == if k == p.key then Some(p.value) else Lookup(ps, k)
  {
    var f := Find(ps, k);
    FindDistinct(qs, s);
    if k != p.key && f < |ps| {
      FindDistinct(qs, if f < s then f else f + 1);
    }
  }

  lemma FindReplaced(ps: seq<Pair>, p: Pair, s: nat, k: Key)
    requires s < |ps| && ps[s].key == p.key && Distinct(ps)
    ensures Lookup(ps[s := p], k) == if k == p.key then Some(p.value) else Lookup(ps, k)
  {
    var f := Find(ps, k);
    assert Distinct(ps[s := p]);
    FindDistinct(ps[s := p], s);
    if k != p.key && f < |ps| {
      FindDistinct(ps[s := p], f);
    }
  }

  /** Where a key is found after list_add. */
  lemma AddFind(cmp: Comparator, ps: seq<Pair>, p: Pair, k: Key)
    requires SignCorrect(cmp) && Distinct(ps) && Distinct(Add(cmp, ps, p))
    ensures Lookup(Add(cmp, ps, p), k) == if k == p.key then Some(p.value) else Lookup(ps, k)
  {
    var s := StopAt(cmp, ps, p.key);
    if Replaces(cmp, ps, p.key) {
      FindReplaced(ps, p, s, k);
    } else {
      FindInserted(ps, p, s, Add(cmp, ps, p), k);
    }
  }

  /** list_remove keeps the order and takes exactly its key out of the map. */
  lemma RemoveRefinesRemoval(ps: seq<Pair>, k: Key)
    requires Sorted(ps)
    ensures Sorted(Remove(ps, k))
    ensures MapOf(Remove(ps, k)) == MapOf(ps) - {k}
    ensures |Remove(ps, k)| == |ps| - if k in MapOf(ps) then 1 else 0
  {
    var qs := Remove(ps, k);
    SortedIsDistinct(ps);
    SortedIsDistinct(qs);
    MapOfFind(ps, k);
    forall x: Key
      ensures x in MapOf(qs) <==> x in MapOf(ps) - {k}
      ensures x in MapOf(qs) ==> MapOf(qs)[x] == MapOf(ps)[x]
    {
      RemoveFind(ps, k, x);
      MapOfFind(qs, x);
      MapOfFind(ps, x);
    }
  }

  lemma RemoveFind(ps: seq<Pair>, k: Key, x: Key)
    requires Distinct(ps) && Distinct(Remove(ps, k))
    ensures Lookup(Remove(ps, k), x) == if x == k then None else Lookup(ps, x)
  {
    var qs := Remove(ps, k);
    var r, f := Find(ps, k), Find(ps, x);
    if x != k && f < |ps| {
      var g := if f < r then f else f - 1;
      assert qs[g] == ps[f];
      FindDistinct(qs, g);
    } else {
      forall i | 0 <= i < |qs| ensures qs[i].key != x {
        assert qs[i] in ps;
        if x == k {
          assert qs[i] == ps[if i < r then i else i + 1];
        }
      }
    }
  }

  /** A comparator that overshoots: four calls of list_add leave four entries for three keys. */
  lemma OvershootDuplicates()
    ensures var a, b, c := Pair([97], [1]), Pair([98], [1]), Pair([99], [1]);
            AddAll(ByteDifference, [], [c, a, b, a]) == [a, b, c, a]
  {
    var a, b, c := Pair([97], [1]), Pair([98], [1]), Pair([99], [1]);
    AddAllCons(ByteDifference, [], c, [a, b, a]);
    AddAllCons(ByteDifference, [c], a, [b, a]);
    AddAllCons(ByteDifference, [c, a], b, [a]);
    AddAllCons(ByteDifference, [b, c, a], a, []);
    OvershootSteps(a, b, c);
  }

  lemma AddAllCons(cmp: Comparator, ps: seq<Pair>, p: Pair, rest: seq<Pair>)
    ensures AddAll(cmp, ps, [p] + rest) == AddAll(cmp, Add(cmp, ps, p), rest)
  {
    assert ([p] + rest)[1..] == rest;
  }

  lemma OvershootSteps(a: Pair, b: Pair, c: Pair)
    requires a.key == [97] && b.key == [98] && c.key == [99]
    ensures Add(ByteDifference, [], c) == [c] && Add(ByteDifference, [c], a) == [c, a]
    ensures Add(ByteDifference, [c, a], b) == [b, c, a] && Add(ByteDifference, [b, c, a], a) == [a, b, c, a]
  {
    assert [c, a][1..] == [a];
  }
}
