/** The names ZooKeeper gives to sequential znodes: "node" and the sequence number in ten digits. */
module ZnodeNames {
  import opened CStrings

  function Pow10(k: nat): nat {
    if k == 0 then 1 else 10 * Pow10(k - 1)
  }

  /** The last k decimal digits of n. */
  function Digits(n: nat, k: nat): (d: Key)
    ensures |d| == k
  {
    if k == 0 then [] else Digits(n / 10, k - 1) + [48 + n % 10]
  }

  const PREFIX: Key := [110, 111, 100, 101]

  function ZnodeName(n: nat): Key {
    PREFIX + Digits(n, 10)
  }

  lemma {:induction false} LessSnoc(a: Key, x: Char, b: Key, y: Char)
    requires |a| == |b|
    ensures Less(a + [x], b + [y]) <==> Less(a, b) || (a == b && x < y)
  {
    if a == [] {
      assert a + [x] == [x] && b + [y] == [y];
    } else {
      assert (a + [x])[1..] == a[1..] + [x] && (b + [y])[1..] == b[1..] + [y];
      LessSnoc(a[1..], x, b[1..], y);
      assert a == [a[0]] + a[1..] && b == [b[0]] + b[1..];
    }
  }

  lemma {:induction false} LessAfter(p: Key, a: Key, b: Key)
    ensures Less(p + a, p + b) <==> Less(a, b)
  {
    if p == [] {
      assert p + a == a && p + b == b;
    } else {
      assert (p + a)[1..] == p[1..] + a && (p + b)[1..] == p[1..] + b;
      LessAfter(p[1..], a, b);
    }
  }

  lemma {:induction false} DigitsOrder(i: nat, j: nat, k: nat)
    requires i < Pow10(k) && j < Pow10(k)
    ensures Less(Digits(i, k), Digits(j, k)) <==> i < j
    decreases k
  {
    if k > 0 {
      DigitsOrder(i / 10, j / 10, k - 1);
      DigitsOrder(j / 10, i / 10, k - 1);
      var a, b := Digits(i / 10, k - 1), Digits(j / 10, k - 1);
      LessSnoc(a, 48 + i % 10, b, 48 + j % 10);
      LessIrreflexive(a);
    }
  }

  lemma TenDigits()
    ensures Pow10(10) == 10_000_000_000
  {
    assert Pow10(5) == 100_000;
    assert Pow10(10) == 100_000 * Pow10(5);
  }

  /** strcmp orders the names by sequence number: a server that comes later always goes to the end of the chain. */
  lemma NamesFollowNumbers(i: nat, j: nat)
    requires i < 10_000_000_000 && j < 10_000_000_000
    ensures Less(ZnodeName(i), ZnodeName(j)) <==> i < j
  {
    TenDigits();
    DigitsOrder(i, j, 10);
    LessAfter(PREFIX, Digits(i, 10), Digits(j, 10));
  }
}
