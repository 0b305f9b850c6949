/** The key-array codec: a four-byte count in network order, then the keys, each with its NUL. */
module Serialization {
  import opened CStrings
  import opened Options

  const INT_MAX := 0x7FFF_FFFF

  // ---------- The format ----------

  /** htonl */
  function NetworkInt(n: nat): (r: Bytes)
    requires n <= INT_MAX
    ensures |r| == 4
  {
    [n / 256 / 256 / 256, n / 256 / 256 % 256, n / 256 % 256, n % 256]
  }

  function Join(high: int, low: int): int {
    high * 256 + low
  }

  /** ntohl, as a signed int. */
  function HostInt(b: Bytes): int
    requires |b| >= 4
  {
    var u := Join(Join(Join(b[0], b[1]), b[2]), b[3]);
    if u <= INT_MAX then u else u - 0x1_0000_0000
  }

  /** A key with its NUL. */
  function Terminated(k: Key): Bytes {
    var b: Bytes := k;
    b + [0]
  }

  function EncodeKeys(ks: seq<Key>): Bytes {
    if ks == [] then [] else Terminated(ks[0]) + EncodeKeys(ks[1..])
  }

  function Encode(ks: seq<Key>): Bytes
    requires |ks| <= INT_MAX
  {
    NetworkInt(|ks|) + EncodeKeys(ks)
  }

  function SizeOf(ks: seq<Key>): nat {
    if ks == [] then 0 else |ks[0]| + 1 + SizeOf(ks[1..])
  }

  /** strlen: the place of the first NUL, or the end of the buffer if there is none. */
  function StrLen(b: Bytes): (n: nat)
    ensures n <= |b| && (n < |b| ==> b[n] == 0) && forall i :: 0 <= i < n ==> b[i] != 0
  {
    if b == [] || b[0] == 0 then 0 else 1 + StrLen(b[1..])
  }

  /** The string at the beginning of a buffer. */
  function FirstString(b: Bytes): (k: Key)
    ensures |k| == StrLen(b)
  {
    b[..StrLen(b)]
  }

  /** The buffer holds n terminated strings. */
  predicate HoldsStrings(b: Bytes, n: nat) {
    n == 0 || (StrLen(b) < |b| && HoldsStrings(b[StrLen(b) + 1..], n - 1))
  }

  function Strings(b: Bytes, n: nat): (ks: seq<Key>)
    requires HoldsStrings(b, n)
    ensures |ks| == n
    decreases n
  {
    if n == 0 then [] else [FirstString(b)] + Strings(b[StrLen(b) + 1..], n - 1)
  }

  /** What buffer_to_keyArray needs of its argument. */
  predicate Decodable(b: Bytes) {
    |b| >= 4 && HostInt(b) >= 0 && HoldsStrings(b[4..], HostInt(b))
  }

  function Decode(b: Bytes): seq<Key>
    requires Decodable(b)
  {
    Strings(b[4..], HostInt(b))
  }

  // ---------- Round trips ----------

  lemma FirstOf(k: Key, rest: Bytes, b: Bytes)
    requires b == Terminated(k) + rest
    ensures StrLen(b) == |k| && FirstString(b) == k && b[|k| + 1..] == rest
  {
    assert b[|k|] == 0 && forall i :: 0 <= i < |k| ==> b[i] == k[i];
  }

  lemma Rejoin(b: Bytes, k: Key, rest: Bytes)
    requires |k| < |b| && b[|k|] == 0 && b[..|k|] == k && b[|k| + 1..] == rest
    ensures b == Terminated(k) + rest
  {
  }

  lemma {:induction false} StringsOfEncoding(ks: seq<Key>, junk: Bytes, b: Bytes)
    requires b == EncodeKeys(ks) + junk
    ensures HoldsStrings(b, |ks|) && Strings(b, |ks|) == ks
    decreases ks
  {
    if ks != [] {
      var rest := EncodeKeys(ks[1..]) + junk;
      assert b == Terminated(ks[0]) + rest;
      FirstOf(ks[0], rest, b);
      StringsOfEncoding(ks[1..], junk, rest);
      assert Strings(b, |ks|) == [ks[0]] + ks[1..];
    }
  }

  lemma {:induction false} EncodedLength(ks: seq<Key>)
    ensures |EncodeKeys(ks)| == SizeOf(ks)
  {
    if ks != [] {
      EncodedLength(ks[1..]);
    }
  }

  lemma CountRoundTrip(n: nat, rest: Bytes)
    requires n <= INT_MAX
    ensures HostInt(NetworkInt(n) + rest) == n
  {
    var m := n / 256;
    assert Join(m / 256 / 256, m / 256 % 256) == m / 256 && Join(m / 256, m % 256) == m && Join(m, n % 256) == n;
  }

  lemma {:induction false} KeyPlace(ks: seq<Key>, i: nat)
    requires i < |ks|
    ensures SizeOf(ks[..i]) + |ks[i]| < |EncodeKeys(ks)|
    ensures EncodeKeys(ks)[SizeOf(ks[..i])..SizeOf(ks[..i]) + |ks[i]|] == ks[i]
    ensures EncodeKeys(ks)[SizeOf(ks[..i]) + |ks[i]|] == 0
  {
    if i > 0 {
      KeyPlace(ks[1..], i - 1);
      assert ks[1..][..i - 1] == ks[..i][1..] && ks[..i] != [];
      var p := SizeOf(ks[1..][..i - 1]);
      assert SizeOf(ks[..i]) == |Terminated(ks[0])| + p;
      assert EncodeKeys(ks)[SizeOf(ks[..i])..] == EncodeKeys(ks[1..])[p..];
    }
  }

  /** The bytes of an encoding: the number of keys, high byte first, and each key behind those before it, with a NUL. */
  lemma EncodingLayout(ks: seq<Key>, i: nat)
    requires |ks| <= INT_MAX && i < |ks|
    ensures var b, p := Encode(ks), 4 + SizeOf(ks[..i]);
            && (var b0: int, b1: int, b2: int, b3: int := b[0], b[1], b[2], b[3];
                b0 * 0x100_0000 + b1 * 0x1_0000 + b2 * 0x100 + b3 == |ks|)
            && p + |ks[i]| < |b| && b[p..p + |ks[i]|] == ks[i] && b[p + |ks[i]|] == 0
  {
    KeyPlace(ks, i);
    CountRoundTrip(|ks|, []);
    var b, p := Encode(ks), 4 + SizeOf(ks[..i]);
    assert b[4..] == EncodeKeys(ks);
    assert b[p..p + |ks[i]|] == b[4..][SizeOf(ks[..i])..SizeOf(ks[..i]) + |ks[i]|];
  }

  /** Decoding gives the keys back, whatever bytes follow. */
  lemma RoundTrip(ks: seq<Key>, junk: Bytes)
    requires |ks| <= INT_MAX
    ensures Decodable(Encode(ks) + junk) && Decode(Encode(ks) + junk) == ks
    ensures |Encode(ks)| == 4 + SizeOf(ks)
  {
    var b := Encode(ks) + junk;
    assert b == NetworkInt(|ks|) + (EncodeKeys(ks) + junk) && b[4..] == EncodeKeys(ks) + junk;
    CountRoundTrip(|ks|, EncodeKeys(ks) + junk);
    StringsOfEncoding(ks, junk, b[4..]);
    EncodedLength(ks);
  }

  /** No encoding is the beginning of another one, so the encoding is injective. */
  lemma PrefixFree(ks: seq<Key>, ks': seq<Key>)
    requires |ks| <= INT_MAX && |ks'| <= INT_MAX && Encode(ks) <= Encode(ks')
    ensures ks == ks'
  {
    var junk := Encode(ks')[|Encode(ks)|..];
    assert Encode(ks') == Encode(ks) + junk;
    RoundTrip(ks, junk);
    RoundTrip(ks', []);
    assert Encode(ks') + [] == Encode(ks');
  }

  lemma {:induction false} EncodingOfStrings(b: Bytes, n: nat, ks: seq<Key>)
    requires HoldsStrings(b, n) && ks == Strings(b, n)
    ensures EncodeKeys(ks) <= b
    decreases n
  {
    if n > 0 {
      var rest := b[StrLen(b) + 1..];
      Rejoin(b, FirstString(b), rest);
      assert ks[0] == FirstString(b) && ks[1..] == Strings(rest, n - 1);
      EncodingOfStrings(rest, n - 1, ks[1..]);
    }
  }

  lemma CountBytes(b: Bytes)
    requires |b| >= 4 && HostInt(b) >= 0
    ensures NetworkInt(HostInt(b)) == b[..4]
  {
  }

  /** A buffer that can be decoded begins with the encoding of what it decodes to. */
  lemma ReverseRoundTrip(b: Bytes)
    requires Decodable(b)
    ensures Encode(Decode(b)) <= b
  {
    CountBytes(b);
    EncodingOfStrings(b[4..], HostInt(b), Decode(b));
    assert b == b[..4] + b[4..];
  }

  // ---------- The code ----------

  /** A NULL-terminated array with these keys. */
  ghost predicate KeyArray(keys: array<Option<Key>>, ks: seq<Key>)
    reads keys
  {
    && |ks| < keys.Length && keys[|ks|] == None
    && forall i :: 0 <= i < |ks| ==> keys[i] == Some(ks[i])
  }

  lemma {:induction false} SizeOfSnoc(ks: seq<Key>, i: nat)
    requires i < |ks|
    ensures SizeOf(ks[..i + 1]) == SizeOf(ks[..i]) + |ks[i]| + 1
  {
    if i > 0 {
      SizeOfSnoc(ks[1..], i - 1);
      assert ks[1..][..i] == ks[..i + 1][1..] && ks[1..][..i - 1] == ks[..i][1..];
    }
  }

  lemma {:induction false} EncodeKeysSnoc(ks: seq<Key>, i: nat)
    requires i < |ks|
    ensures EncodeKeys(ks[..i + 1]) == EncodeKeys(ks[..i]) + Terminated(ks[i])
  {
    if i > 0 {
      EncodeKeysSnoc(ks[1..], i - 1);
      assert ks[1..][..i] == ks[..i + 1][1..] && ks[1..][..i - 1] == ks[..i][1..];
    }
  }

  lemma {:induction false} SizeOfMonotone(ks: seq<Key>, i: nat)
    requires i <= |ks|
    ensures SizeOf(ks[..i]) <= SizeOf(ks)
    decreases |ks| - i
  {
    if i == |ks| {
      assert ks[..i] == ks;
    } else {
      SizeOfMonotone(ks, i + 1);
      SizeOfSnoc(ks, i);
    }
  }

  /** memcpy into the middle of a buffer. */
  method MemCpy(buf: array<Byte>, at: nat, bytes: Bytes)
    requires at + |bytes| <= buf.Length
    modifies buf
    ensures buf[..] == old(buf[..at]) + bytes + old(buf[at + |bytes|..])
  {
    forall i | 0 <= i < |bytes| {
      buf[at + i] := bytes[i];
    }
  }

  lemma {:induction false} CountFits(ks: seq<Key>)
    ensures |ks| <= SizeOf(ks)
  {
    if ks != [] {
      CountFits(ks[1..]);
    }
  }

  /** The first two loops of keyArray_to_buffer. */
  method Measure(keys: array<Option<Key>>, ghost ks: seq<Key>) returns (nkeys: nat, size: nat)
    requires KeyArray(keys, ks)
    ensures nkeys == |ks| && size == 4 + SizeOf(ks)
  {
    nkeys := 0;
    while keys[nkeys] != None
      invariant 0 <= nkeys <= |ks|
      decreases |ks| - nkeys
    {
      nkeys := nkeys + 1;
    }
    size := 4;
    for i := 0 to nkeys
      invariant size == 4 + SizeOf(ks[..i])
    {
      SizeOfSnoc(ks, i);
      size := size + |keys[i].value| + 1;
    }
    assert ks[..nkeys] == ks;
  }

  /** One turn of the loop that writes the keys. */
  method WriteKey(buf: array<Byte>, ptr: nat, ghost ks: seq<Key>, i: nat, key: Key) returns (next: nat)
    requires i < |ks| <= INT_MAX && key == ks[i] && ptr == 4 + SizeOf(ks[..i]) && buf.Length == 4 + SizeOf(ks)
    requires ptr <= buf.Length && buf[..ptr] == NetworkInt(|ks|) + EncodeKeys(ks[..i])
    modifies buf
    ensures next == 4 + SizeOf(ks[..i + 1]) <= buf.Length
    ensures buf[..next] == NetworkInt(|ks|) + EncodeKeys(ks[..i + 1])
  {
    SizeOfSnoc(ks, i);
    SizeOfMonotone(ks, i + 1);
    EncodeKeysSnoc(ks, i);
    ghost var done := buf[..ptr];
    var terminated := Terminated(key);
    MemCpy(buf, ptr, terminated);
    next := ptr + |terminated|;
    assert buf[..next] == done + terminated;
  }

  /** keyArray_to_buffer */
  method KeyArrayToBuffer(keys: array?<Option<Key>>, ghost ks: seq<Key>) returns (size: int, buf: array?<Byte>)
    requires keys != null ==> KeyArray(keys, ks) && 4 + SizeOf(ks) <= INT_MAX
    ensures keys == null ==> size == -1
    ensures keys != null ==> |ks| <= INT_MAX && buf != null && fresh(buf) && buf[..] == Encode(ks)
    ensures keys != null ==> size == buf.Length == 4 + SizeOf(ks)
  {
    if keys == null {
      return -1, null;
    }
    CountFits(ks);
    var nkeys: nat;
    nkeys, size := Measure(keys, ks);
    buf := new Byte[size];
    MemCpy(buf, 0, NetworkInt(nkeys));
    var ptr := 4;
    for i := 0 to nkeys
      invariant ptr == 4 + SizeOf(ks[..i]) <= buf.Length == size
      invariant buf[..ptr] == NetworkInt(|ks|) + EncodeKeys(ks[..i])
    {
      ptr := WriteKey(buf, ptr, ks, i, keys[i].value);
    }
    assert ks[..nkeys] == ks && buf[..ptr] == buf[..];
  }

  /** The rest of the buffer holds the keys with numbers from i on. */
  ghost predicate Upcoming(rest: Bytes, ks: seq<Key>, i: nat) {
    i <= |ks| && HoldsStrings(rest, |ks| - i) && Strings(rest, |ks| - i) == ks[i..]
  }

  lemma NextString(rest: Bytes, ks: seq<Key>, i: nat)
    requires Upcoming(rest, ks, i) && i < |ks|
    ensures StrLen(rest) < |rest| && FirstString(rest) == ks[i] && Upcoming(rest[StrLen(rest) + 1..], ks, i + 1)
  {
    assert ks[i..][0] == ks[i] && ks[i..][1..] == ks[i + 1..];
  }

  /** buffer_to_keyArray */
  method BufferToKeyArray(keysBuf: array?<Byte>) returns (keys: array?<Option<Key>>)
    requires keysBuf != null ==> Decodable(keysBuf[..])
    ensures keysBuf == null ==> keys == null
    ensures keysBuf != null ==> keys != null && fresh(keys) && KeyArray(keys, Decode(keysBuf[..]))
  {
    if keysBuf == null {
      return null;
    }
    ghost var ks := Decode(keysBuf[..]);
    var nkeys := HostInt(keysBuf[..]);
    var rest: Bytes := keysBuf[4..];
    assert keysBuf[..][4..] == rest;
    keys := new Option<Key>[nkeys + 1];
    for i := 0 to nkeys
      invariant Upcoming(rest, ks, i)
      invariant forall j :: 0 <= j < i ==> keys[j] == Some(ks[j])
    {
      NextString(rest, ks, i);
      var key := FirstString(rest);
      keys[i] := Some(key);
      rest := rest[|key| + 1..];
    }
    keys[nkeys] := None;
  }

  /** Both together: what is written by one is read by the other. */
  method SendKeys(keys: array<Option<Key>>, ghost ks: seq<Key>) returns (copy: array?<Option<Key>>)
    requires KeyArray(keys, ks) && 4 + SizeOf(ks) <= INT_MAX
    ensures copy != null && KeyArray(copy, ks)
  {
    var _, buf := KeyArrayToBuffer(keys, ks);
    RoundTrip(ks, []);
    assert Encode(ks) + [] == buf[..];
    copy := BufferToKeyArray(buf);
  }
}
