/** Octet strings, the optional value, and the two-octet fields of every CS2 packet. */
module Octets {
  type byte = x: int | 0 <= x < 0x100
  type bytes = seq<byte>

  datatype Option<+T> = None | Some(value: T)

  /** The octets of the parts, in order. */
  function Concat(parts: seq<bytes>): bytes {
    if parts == [] then [] else Concat(parts[..|parts| - 1]) + parts[|parts| - 1]
  }

  lemma ConcatSnoc(parts: seq<bytes>, last: bytes)
    ensures Concat(parts + [last]) == Concat(parts) + last
  {
    assert (parts + [last])[..|parts|] == parts;
  }

  lemma {:induction false} ConcatAppend(a: seq<bytes>, b: seq<bytes>)
    ensures Concat(a + b) == Concat(a) + Concat(b)
  {
    if b == [] {
      assert a + b == a;
    } else {
      var front, last := b[..|b| - 1], b[|b| - 1];
      assert a + b == (a + front) + [last];
      ConcatSnoc(a + front, last);
      ConcatAppend(a, front);
    }
  }

  lemma ConcatPrefix(parts: seq<bytes>, n: nat)
    requires n <= |parts|
    ensures Concat(parts[..n]) <= Concat(parts)
  {
    assert parts == parts[..n] + parts[n..];
    ConcatAppend(parts[..n], parts[n..]);
  }

  /** Value of a two-octet big-endian field. */
  function Big16(high: byte, low: byte): (n: nat)
    ensures n < 0x1_0000
  {
    high * 0x100 + low
  }

  /** Value of a two-octet little-endian field. */
  function Little16(low: byte, high: byte): (n: nat)
    ensures n < 0x1_0000
  {
    Big16(high, low)
  }

  function PutBig16(n: nat): (s: bytes)
    requires n < 0x1_0000
    ensures |s| == 2
    ensures Big16(s[0], s[1]) == n
  {
    [n / 0x100, n % 0x100]
  }

  function PutLittle16(n: nat): (s: bytes)
    requires n < 0x1_0000
    ensures |s| == 2
    ensures Little16(s[0], s[1]) == n
  {
    [n % 0x100, n / 0x100]
  }
}
