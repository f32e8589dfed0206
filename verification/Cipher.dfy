/**
 The self-synchronising byte cipher of the transport, for any shuffle table: each octet is
 masked by a table entry that depends on the key's hash and on the cipher octet before it.
 */
module Cipher {
  import opened Octets
  import opened Bits

  type Table = t: bytes | |t| == 0x100 witness seq(0x100, i => 0)

  datatype Hash = Hash(h0: byte, h1: byte, h2: byte, h3: byte)

  function Hash0(): Hash {
    Hash(0, 0, 0, 0)
  }

  function Absorb(h: Hash, value: byte): Hash {
    Hash((h.h0 + value) % 0x100, (h.h1 - value) % 0x100, (h.h2 + value / 3) % 0x100, Xor(h.h3, value))
  }

  function HashOf(key: bytes): Hash {
    if key == [] then Hash0() else Absorb(HashOf(key[..|key| - 1]), key[|key| - 1])
  }

  function Sum(key: bytes): nat {
    if key == [] then 0 else Sum(key[..|key| - 1]) + key[|key| - 1]
  }

  function Thirds(key: bytes): nat {
    if key == [] then 0 else Thirds(key[..|key| - 1]) + key[|key| - 1] / 3
  }

  lemma SumGrows(h0: byte, value: byte, sum: nat)
    requires h0 == sum % 0x100
    ensures (h0 + value) % 0x100 == (sum + value) % 0x100
  {
  }

  lemma NegativeShrinks(h0: byte, h1: byte, value: byte)
    requires (h0 + h1) % 0x100 == 0
    ensures ((h0 + value) % 0x100 + (h1 - value) % 0x100) % 0x100 == 0
  {
  }

  lemma AbsorbAdds(h: Hash, value: byte, sum: nat)
    requires h.h0 == sum % 0x100 && (h.h0 + h.h1) % 0x100 == 0
    ensures var h' := Absorb(h, value);
            h'.h0 == (sum + value) % 0x100 && (h'.h0 + h'.h1) % 0x100 == 0
  {
    SumGrows(h.h0, value, sum);
    NegativeShrinks(h.h0, h.h1, value);
  }

  /** The third hash value is the sum of the octets' thirds modulo 256. */
  lemma {:induction false} HashHasThirds(key: bytes)
    ensures HashOf(key).h2 == Thirds(key) % 0x100
  {
    if key != [] {
      HashHasThirds(key[..|key| - 1]);
      SumGrows(HashOf(key[..|key| - 1]).h2, key[|key| - 1] / 3, Thirds(key[..|key| - 1]));
    }
  }

  lemma {:induction false} SumsJoined(a: bytes, b: bytes)
    ensures Sum(a + b) == Sum(a) + Sum(b) && Thirds(a + b) == Thirds(a) + Thirds(b)
  {
    if b == [] {
      assert a + b == a;
    } else {
      var front, last := b[..|b| - 1], b[|b| - 1];
      assert (a + b)[..|a + b| - 1] == a + front;
      SumsJoined(a, front);
    }
  }

  /** The first hash value is the sum of the key's octets modulo 256, the second its negative. */
  lemma {:induction false} HashIsSum(key: bytes)
    ensures var h := HashOf(key);
            h.h0 == Sum(key) % 0x100 && (h.h0 + h.h1) % 0x100 == 0
  {
    if key != [] {
      HashIsSum(key[..|key| - 1]);
      AbsorbAdds(HashOf(key[..|key| - 1]), key[|key| - 1], Sum(key[..|key| - 1]));
    }
  }

  /** Addition modulo 256. */
  function Plus(x: int, y: int): (r: byte)
    ensures (x + y - r) % 0x100 == 0
  {
    (x + y) % 0x100
  }

  lemma PlusIsOnly(x: int, y: int, r: byte)
    requires (x + y - r) % 0x100 == 0
    ensures Plus(x, y) == r
  {
  }

  lemma Multiples(x: int, y: int)
    requires x % 0x100 == 0 && y % 0x100 == 0
    ensures (x - y) % 0x100 == 0
  {
  }

  lemma PlusAssociates(x: int, y: int, z: int)
    ensures Plus(Plus(x, y), z) == Plus(x, Plus(y, z))
  {
    var left, right, r := Plus(x, y), Plus(y, z), Plus(x, Plus(y, z));
    Multiples(x + right - r, x + y - left);
    Multiples(x + right - r - (x + y - left), 0 - (y + z - right));
    PlusIsOnly(left, z, r);
  }

  function Combined(a: Hash, b: Hash): Hash {
    Hash(Plus(a.h0, b.h0), Plus(a.h1, b.h1), Plus(a.h2, b.h2), Xor(a.h3, b.h3))
  }

  lemma AbsorbIs(h: Hash, v: byte)
    ensures Absorb(h, v) == Hash(Plus(h.h0, v), Plus(h.h1, 0 - v), Plus(h.h2, v / 3), Xor(h.h3, v))
  {
  }

  lemma AbsorbCombines(a: Hash, b: Hash, v: byte)
    ensures Absorb(Combined(a, b), v) == Combined(a, Absorb(b, v))
  {
    AbsorbIs(Combined(a, b), v);
    AbsorbIs(b, v);
    PlusAssociates(a.h0, b.h0, v);
    PlusAssociates(a.h1, b.h1, 0 - v);
    PlusAssociates(a.h2, b.h2, v / 3);
    XorAssociates(a.h3, b.h3, v);
  }

  lemma HashSnoc(key: bytes, last: byte)
    ensures HashOf(key + [last]) == Absorb(HashOf(key), last)
  {
    assert (key + [last])[..|key|] == key;
  }

  lemma PlusNothing(v: byte)
    ensures Plus(0, v) == v && Plus(0, 0 - v) == (if v == 0 then 0 else 256 - v) && Plus(0, v / 3) == v / 3
  {
  }

  lemma AbsorbFirst(h: Hash, v: byte)
    requires h.h0 == 0 && h.h1 == 0 && h.h2 == 0 && h.h3 == 0
    ensures Absorb(h, v) == Hash(v, if v == 0 then 0 else 256 - v, v / 3, v)
  {
    AbsorbIs(h, v);
    PlusNothing(v);
    assert Xor(h.h3, v) == v by {
      XorCommutes(h.h3, v);
      XorZero(v);
    }
  }

  /** One octet counts as itself, as its negative, as its third, and as its bits. */
  lemma HashOfOne(v: byte)
    ensures HashOf([v]) == Hash(v, if v == 0 then 0 else 256 - v, v / 3, v)
  {
    assert [] + [v] == [v];
    HashSnoc([], v);
    AbsorbFirst(HashOf([]), v);
  }

  lemma CombinedWithNothing(h: Hash, none: Hash)
    requires none.h0 == 0 && none.h1 == 0 && none.h2 == 0 && none.h3 == 0
    ensures Combined(h, none) == h
  {
    XorZero(h.h3);
  }

  lemma Joined(a: bytes, front: bytes, last: byte)
    ensures a + (front + [last]) == (a + front) + [last]
  {
  }

  lemma CombinesSnoc(a: bytes, front: bytes, last: byte)
    requires HashOf(a + front) == Combined(HashOf(a), HashOf(front))
    ensures HashOf(a + (front + [last])) == Combined(HashOf(a), HashOf(front + [last]))
  {
    Joined(a, front, last);
    HashSnoc(a + front, last);
    HashSnoc(front, last);
    AbsorbCombines(HashOf(a), HashOf(front), last);
  }

  /** The hash of two keys joined is their hashes combined, each value in its own way. */
  lemma {:induction false} HashCombines(a: bytes, b: bytes)
    ensures HashOf(a + b) == Combined(HashOf(a), HashOf(b))
  {
    if b == [] {
      assert a + b == a;
      CombinedWithNothing(HashOf(a), HashOf(b));
    } else {
      var front, last := b[..|b| - 1], b[|b| - 1];
      assert b == front + [last];
      HashCombines(a, front);
      CombinesSnoc(a, front, last);
    }
  }

  method KeyHash(key: bytes) returns (h: Hash)
    ensures h == HashOf(key)
  {
    h := Hash0();
    for i := 0 to |key|
      invariant h == HashOf(key[..i])
    {
      assert key[..i + 1][..i] == key[..i];
      h := Absorb(h, key[i]);
    }
    assert key[..|key|] == key;
  }

  function Pick(h: Hash, i: nat): byte
    requires i < 4
  {
    if i == 0 then h.h0 else if i == 1 then h.h1 else if i == 2 then h.h2 else h.h3
  }

  function Position(h: Hash, previous: byte): (i: nat)
    ensures i < 0x100
  {
    (Pick(h, previous % 4) + previous) % 0x100
  }

  /** The mask for the octet behind a cipher octet: `_SHUFFLE[(hashed[previous & 3] + previous) & 0xFF]`. */
  function Mask(t: Table, h: Hash, previous: byte): byte {
    t[Position(h, previous)]
  }

  function EncryptAfter(t: Table, h: Hash, previous: byte, clear: bytes): bytes
    decreases |clear|
  {
    if clear == [] then []
    else
      var encoded := Xor(clear[0], Mask(t, h, previous));
      [encoded] + EncryptAfter(t, h, encoded, clear[1..])
  }

  function DecryptAfter(t: Table, h: Hash, previous: byte, cipher: bytes): bytes
    decreases |cipher|
  {
    if cipher == [] then []
    else [Xor(cipher[0], Mask(t, h, previous))] + DecryptAfter(t, h, cipher[0], cipher[1..])
  }

  lemma {:induction false} DecryptUndoes(t: Table, h: Hash, previous: byte, clear: bytes)
    ensures |EncryptAfter(t, h, previous, clear)| == |clear|
    ensures DecryptAfter(t, h, previous, EncryptAfter(t, h, previous, clear)) == clear
    decreases |clear|
  {
    if clear != [] {
      var m := Mask(t, h, previous);
      var encoded := Xor(clear[0], m);
      var rest := EncryptAfter(t, h, encoded, clear[1..]);
      DecryptUndoes(t, h, encoded, clear[1..]);
      XorUndoes(clear[0], m);
      assert ([encoded] + rest)[1..] == rest;
    }
  }

  lemma {:induction false} EncryptUndoes(t: Table, h: Hash, previous: byte, cipher: bytes)
    ensures |DecryptAfter(t, h, previous, cipher)| == |cipher|
    ensures EncryptAfter(t, h, previous, DecryptAfter(t, h, previous, cipher)) == cipher
    decreases |cipher|
  {
    if cipher != [] {
      var m := Mask(t, h, previous);
      var rest := DecryptAfter(t, h, cipher[0], cipher[1..]);
      EncryptUndoes(t, h, cipher[0], cipher[1..]);
      XorUndoes(cipher[0], m);
      assert ([Xor(cipher[0], m)] + rest)[1..] == rest;
    }
  }

  lemma {:induction false} EncryptAfterPrefix(t: Table, h: Hash, previous: byte, clear: bytes, n: nat)
    requires n <= |clear|
    ensures n <= |EncryptAfter(t, h, previous, clear)|
    ensures EncryptAfter(t, h, previous, clear)[..n] == EncryptAfter(t, h, previous, clear[..n])
    decreases n
  {
    DecryptUndoes(t, h, previous, clear);
    if n > 0 {
      var encoded := Xor(clear[0], Mask(t, h, previous));
      EncryptAfterPrefix(t, h, encoded, clear[1..], n - 1);
      assert clear[..n][1..] == clear[1..][..n - 1];
    }
  }

  lemma FirstCipherOctets(t: Table, h: Hash, packet: bytes)
    requires |packet| >= 2
    ensures var e := EncryptAfter(t, h, 0, packet);
            && |e| == |packet|
            && e[0] == Xor(packet[0], Mask(t, h, 0)) && e[1] == Xor(packet[1], Mask(t, h, e[0]))
  {
    DecryptUndoes(t, h, 0, packet);
    var e0 := Xor(packet[0], Mask(t, h, 0));
    assert EncryptAfter(t, h, 0, packet) == [e0] + EncryptAfter(t, h, e0, packet[1..]);
    assert EncryptAfter(t, h, e0, packet[1..])[0] == Xor(packet[1], Mask(t, h, e0));
  }

  /** The table has one zero, at position 27. */
  predicate ZeroAt27(t: Table) {
    forall i | 0 <= i < 0x100 :: t[i] == 0 <==> i == 27
  }

  /**
   With such a table an encrypted packet starts with the octet F1, like a clear one, exactly
   when the hash starts with 27; it still differs from the packet then, because the second
   mask comes from position (229 + 241) % 256, which is not the zero.
   */
  lemma StartsLikeClear(t: Table, h: Hash, packet: bytes)
    requires ZeroAt27(t) && |packet| >= 2 && packet[0] == 0xF1 && (h.h0 + h.h1) % 0x100 == 0
    ensures |EncryptAfter(t, h, 0, packet)| == |packet|
    ensures EncryptAfter(t, h, 0, packet)[0] == 0xF1 <==> h.h0 == 27
    ensures h.h0 == 27 ==> EncryptAfter(t, h, 0, packet) != packet
  {
    FirstCipherOctets(t, h, packet);
    assert Position(h, 0) == h.h0;
    XorFixes(0xF1, Mask(t, h, 0));
    if h.h0 == 27 {
      assert h.h1 == 229 && Position(h, 0xF1) == 214;
      XorFixes(packet[1], Mask(t, h, 0xF1));
    }
  }
}
