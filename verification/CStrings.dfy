/** NUL-terminated C strings as sequences of their non-NUL bytes, and the order that `strcmp` gives them:
    bytes are compared as unsigned char (section 7.24.4 of C11). */
module CStrings {
  type Byte = b: int | 0 <= b < 256
  type Bytes = seq<Byte>
  type Char = c: int | 1 <= c < 256 witness 1
  type Key = seq<Char>

  predicate Less(a: Key, b: Key) {
    if b == [] then false
    else if a == [] then true
    else if a[0] != b[0] then a[0] < b[0]
    else Less(a[1..], b[1..])
  }

  /** The order that C gives strings: the first byte that differs decides, and a string is less than its extensions. */
  ghost predicate DiffersAt(a: Key, b: Key, p: nat) {
    && p <= |a| && p < |b| && a[..p] == b[..p]
    && (p == |a| || a[p] < b[p])
  }

  lemma {:induction false} LessMeans(a: Key, b: Key)
    ensures Less(a, b) <==> exists p: nat :: DiffersAt(a, b, p)
  {
    if a != [] && b != [] && a[0] == b[0] {
      LessMeans(a[1..], b[1..]);
      if Less(a, b) {
        var p: nat :| DiffersAt(a[1..], b[1..], p);
        assert a[..p + 1] == [a[0]] + a[1..][..p] && b[..p + 1] == [b[0]] + b[1..][..p];
        assert DiffersAt(a, b, p + 1);
      }
      if p: nat :| DiffersAt(a, b, p) {
        assert p > 0 && a[1..][..p - 1] == a[..p][1..] && b[1..][..p - 1] == b[..p][1..];
        assert DiffersAt(a[1..], b[1..], p - 1);
      }
    } else if Less(a, b) {
      assert DiffersAt(a, b, 0);
    }
  }

  lemma {:induction false} LessIrreflexive(a: Key)
    ensures !Less(a, a)
  {
    if a != [] {
      LessIrreflexive(a[1..]);
    }
  }

  lemma {:induction false} LessTransitive(a: Key, b: Key, c: Key)
    requires Less(a, b) && Less(b, c)
    ensures Less(a, c)
  {
    if a != [] && a[0] == b[0] == c[0] {
      LessTransitive(a[1..], b[1..], c[1..]);
    }
  }

  lemma {:induction false} LessTotal(a: Key, b: Key)
    ensures a == b || Less(a, b) || Less(b, a)
  {
    if a != [] && b != [] && a[0] == b[0] {
      LessTotal(a[1..], b[1..]);
      assert a == [a[0]] + a[1..] && b == [b[0]] + b[1..];
    }
  }

  lemma LessAsymmetric(a: Key, b: Key)
    requires Less(a, b)
    ensures !Less(b, a) && a != b
  {
    LessIrreflexive(a);
    if Less(b, a) {
      LessTransitive(a, b, a);
    }
  }

  /** All that C promises about `strcmp`: the sign of the result. How large a non-zero result is, is up to the
      library, so the comparator is a parameter of everything that calls it. */
  type Comparator = (Key, Key) -> int

  ghost predicate SignCorrect(cmp: Comparator) {
    forall a, b ::
      && (cmp(a, b) < 0 <==> Less(a, b))
      && (cmp(a, b) == 0 <==> a == b)
      && (cmp(a, b) > 0 <==> Less(b, a))
  }

  /** The contract that entry.h gives entry_compare: "greater" is answered with exactly 1. */
  ghost predicate UnitPositive(cmp: Comparator) {
    forall a, b :: cmp(a, b) > 0 ==> cmp(a, b) == 1
  }

  /** A comparator that meets the contract of entry.h. */
  function SignCompare(a: Key, b: Key): int {
    if Less(a, b) then -1 else if a == b then 0 else 1
  }

  /** A `strcmp` that answers with the difference of the first two bytes that differ, as common libraries do. */
  function ByteDifference(a: Key, b: Key): int {
    if a == [] && b == [] then 0
    else if a == [] then -b[0]
    else if b == [] then a[0]
    else if a[0] != b[0] then a[0] - b[0]
    else ByteDifference(a[1..], b[1..])
  }

  lemma SignCompareMeetsHeader()
    ensures SignCorrect(SignCompare) && UnitPositive(SignCompare)
  {
    forall a: Key, b: Key
      ensures SignCompare(a, b) < 0 <==> Less(a, b)
      ensures SignCompare(a, b) == 0 <==> a == b
      ensures SignCompare(a, b) > 0 <==> Less(b, a)
    {
      LessTotal(a, b);
      LessIrreflexive(a);
      if Less(b, a) {
        LessAsymmetric(b, a);
      }
    }
  }

  lemma {:induction false} ByteDifferenceSign(a: Key, b: Key)
    ensures ByteDifference(a, b) < 0 <==> Less(a, b)
    ensures ByteDifference(a, b) == 0 <==> a == b
    ensures ByteDifference(a, b) > 0 <==> Less(b, a)
  {
    if a != [] && b != [] {
      if a[0] == b[0] {
        ByteDifferenceSign(a[1..], b[1..]);
        assert a == [a[0]] + a[1..] && b == [b[0]] + b[1..];
      }
    }
  }

  /** A correct `strcmp` need not meet the contract of entry.h: "c" against "a" may answer 2. */
  lemma ByteDifferenceIsNotUnit()
    ensures SignCorrect(ByteDifference) && !UnitPositive(ByteDifference)
  {
    forall a: Key, b: Key
      ensures ByteDifference(a, b) < 0 <==> Less(a, b)
      ensures ByteDifference(a, b) == 0 <==> a == b
      ensures ByteDifference(a, b) > 0 <==> Less(b, a)
    {
      ByteDifferenceSign(a, b);
    }
    assert ByteDifference([99], [97]) == 2;
  }
}
