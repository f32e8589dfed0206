/**
 The service parameter: a list of directory servers in a chained letter code, a colon, and
 the transport key. Text is a sequence of code points. Whether a string is an address is
 for the platform to say, so it is a parameter here.
 */
module ServiceParameter {
  import opened Octets
  import opened Bits
  import opened Tables

  type text = seq<nat>

  const COLON: nat := 0x3A
  const COMMA: byte := 0x2C
  const LETTER_A: nat := 0x41
  const MAX_FIELD_BYTES: nat := 4096
  const SEED: byte := 57

  // ---------------------------------------------------------------------------------
  // The chained code

  /** The running accumulator: the seed and all octets decoded so far, combined. */
  function Chain(decoded: bytes): byte {
    if decoded == [] then SEED else Xor(Chain(decoded[..|decoded| - 1]), decoded[|decoded| - 1])
  }

  type Table = t: bytes | |t| == 54 witness seq(54, i => 0)

  function Lookup(table: Table, i: nat): byte {
    table[i % 54]
  }

  /** The octets the raw values decode to. */
  function Decoded(table: Table, raw: bytes): (d: bytes)
    ensures |d| == |raw|
  {
    if raw == [] then []
    else
      var front, last := Decoded(table, raw[..|raw| - 1]), raw[|raw| - 1];
      front + [Xor(Xor(Chain(front), Lookup(table, |front|)), last)]
  }

  /** The raw values that encode the octets. */
  function Raw(table: Table, decoded: bytes): (raw: bytes)
    ensures |raw| == |decoded|
  {
    if decoded == [] then []
    else
      var front, last := decoded[..|decoded| - 1], decoded[|decoded| - 1];
      Raw(table, front) + [Xor(Xor(last, Chain(front)), Lookup(table, |front|))]
  }

  /** Masking with two values and then with their combination gives the octet back. */
  lemma MaskUndone(v: byte, c: byte, k: byte)
    ensures Xor(Xor(c, k), Xor(Xor(v, c), k)) == v
    ensures Xor(Xor(Xor(Xor(c, k), v), c), k) == v
  {
    XorAssociates(v, c, k);
    XorCommutes(Xor(c, k), Xor(v, Xor(c, k)));
    XorUndoes(v, Xor(c, k));
    XorCommutes(Xor(c, k), v);
    XorAssociates(Xor(v, Xor(c, k)), c, k);
  }

  lemma {:induction false} DecodingInvertsEncoding(table: Table, decoded: bytes)
    ensures Decoded(table, Raw(table, decoded)) == decoded
  {
    if decoded != [] {
      var front, last := decoded[..|decoded| - 1], decoded[|decoded| - 1];
      DecodingInvertsEncoding(table, front);
      MaskUndone(last, Chain(front), Lookup(table, |front|));
      assert Raw(table, decoded)[..|front|] == Raw(table, front);
    }
  }

  lemma RawSnoc(table: Table, decoded: bytes, last: byte)
    ensures Raw(table, decoded + [last]) == Raw(table, decoded) + [Xor(Xor(last, Chain(decoded)), Lookup(table, |decoded|))]
  {
    assert (decoded + [last])[..|decoded|] == decoded;
  }

  lemma {:induction false} EncodingInvertsDecoding(table: Table, raw: bytes)
    ensures Raw(table, Decoded(table, raw)) == raw
  {
    if raw != [] {
      var front, last := raw[..|raw| - 1], raw[|raw| - 1];
      EncodingInvertsDecoding(table, front);
      MaskUndone(last, Chain(Decoded(table, front)), Lookup(table, |front|));
      RawSnoc(table, Decoded(table, front), Xor(Xor(Chain(Decoded(table, front)), Lookup(table, |front|)), last));
    }
  }

  // ---------------------------------------------------------------------------------
  // Letters

  predicate IsLetter(c: nat) {
    LETTER_A <= c < LETTER_A + 16
  }

  predicate Lettered(encoded: text) {
    |encoded| % 2 == 0 && forall i | 0 <= i < |encoded| :: IsLetter(encoded[i])
  }

  function Letters(raw: bytes): (t: text)
    ensures |t| == 2 * |raw|
  {
    if raw == [] then []
    else
      var last: nat := raw[|raw| - 1];
      Letters(raw[..|raw| - 1]) + [LETTER_A + last / 16, LETTER_A + last % 16]
  }

  /** `high << 4 | low` for each pair of letters. */
  function FromLetters(t: text): (raw: bytes)
    requires Lettered(t)
    ensures |raw| == |t| / 2
  {
    if t == [] then []
    else
      var high, low := t[|t| - 2], t[|t| - 1];
      FromLetters(t[..|t| - 2]) + [(high - LETTER_A) * 16 + (low - LETTER_A)]
  }

  lemma {:induction false} LettersRoundTrip(raw: bytes)
    ensures Lettered(Letters(raw)) && FromLetters(Letters(raw)) == raw
  {
    if raw != [] {
      LettersRoundTrip(raw[..|raw| - 1]);
      assert Letters(raw)[..|Letters(raw)| - 2] == Letters(raw[..|raw| - 1]);
    }
  }

  lemma {:induction false} LettersCover(t: text)
    requires Lettered(t)
    ensures Letters(FromLetters(t)) == t
  {
    if t != [] {
      LettersCover(t[..|t| - 2]);
      var raw := FromLetters(t);
      assert raw[..|raw| - 1] == FromLetters(t[..|t| - 2]);
    }
  }

  /** For any mask table, on octet strings and on valid letter strings, the codes are each other's inverses. */
  lemma CodecIsBijective(table: Table, octets: bytes, letters: text)
    requires Lettered(letters)
    ensures Lettered(Letters(Raw(table, octets))) && Decoded(table, FromLetters(Letters(Raw(table, octets)))) == octets
    ensures Letters(Raw(table, Decoded(table, FromLetters(letters)))) == letters
  {
    LettersRoundTrip(Raw(table, octets));
    DecodingInvertsEncoding(table, octets);
    LettersCover(letters);
    EncodingInvertsDecoding(table, FromLetters(letters));
  }

  // ---------------------------------------------------------------------------------
  // Lists

  /** `b",".join(parts)` */
  function Join(parts: seq<bytes>): bytes {
    if |parts| == 0 then []
    else if |parts| == 1 then parts[0]
    else parts[0] + [COMMA] + Join(parts[1..])
  }

  /** Where the first comma is, or the length. */
  function Comma(s: bytes): (n: nat)
    ensures n <= |s| && (n < |s| ==> s[n] == COMMA) && forall i | 0 <= i < n :: s[i] != COMMA
  {
    if s == [] || s[0] == COMMA then 0 else 1 + Comma(s[1..])
  }

  /** The non-empty items of `s.split(",")`. */
  function Items(s: bytes): seq<bytes>
    decreases |s|
  {
    var n := Comma(s);
    var first := if n == 0 then [] else [s[..n]];
    if n == |s| then first else first + Items(s[n + 1..])
  }

  predicate IsItem(s: bytes) {
    s != [] && forall i | 0 <= i < |s| :: 0 < s[i] < 0x80 && s[i] != COMMA
  }

  lemma {:induction false} CommaAfter(item: bytes, rest: bytes)
    requires IsItem(item) && (rest == [] || rest[0] == COMMA)
    ensures Comma(item + rest) == |item|
  {
    if |item| > 1 {
      CommaAfter(item[1..], rest);
      assert (item + rest)[1..] == item[1..] + rest;
    } else {
      assert (item + rest)[1..] == rest;
    }
  }

  /** The items of a list with another item in front. */
  lemma ItemsAfterComma(item: bytes, rest: bytes)
    requires IsItem(item)
    ensures Items(item + [COMMA] + rest) == [item] + Items(rest)
  {
    CommaAfter(item, [COMMA] + rest);
    var all := item + [COMMA] + rest;
    assert all == item + ([COMMA] + rest);
    assert all[..|item|] == item && all[|item| + 1..] == rest;
  }

  lemma OneItem(item: bytes)
    requires IsItem(item)
    ensures Items(item) == [item]
  {
    CommaAfter(item, []);
    assert item + [] == item && item[..|item|] == item;
  }

  predicate AllItems(parts: seq<bytes>) {
    forall i | 0 <= i < |parts| :: IsItem(parts[i])
  }

  lemma {:induction false} ItemsOfJoin(parts: seq<bytes>)
    requires parts != [] && AllItems(parts)
    ensures Items(Join(parts)) == parts
    decreases |parts|
  {
    var item := parts[0];
    if |parts| == 1 {
      OneItem(item);
    } else {
      ItemsOfJoin(parts[1..]);
      ItemsAfterComma(item, Join(parts[1..]));
      assert parts == [item] + parts[1..];
    }
  }

  predicate IsPlain(s: bytes) {
    s != [] && forall i | 0 <= i < |s| :: 0 < s[i] < 0x80
  }

  lemma {:induction false} JoinIsPlain(parts: seq<bytes>)
    requires parts != [] && AllItems(parts)
    ensures IsPlain(Join(parts))
    decreases |parts|
  {
    if |parts| > 1 {
      JoinIsPlain(parts[1..]);
    }
  }

  /** `s.rstrip(b"\0")` */
  function Stripped(s: bytes): bytes {
    if s != [] && s[|s| - 1] == 0 then Stripped(s[..|s| - 1]) else s
  }

  /** Empty items are skipped. */
  lemma ItemsSkipEmpty(rest: bytes)
    ensures Items([]) == [] && Items([0x2C] + rest) == Items(rest)
  {
    assert ([0x2C] + rest)[1..] == rest;
  }

  /** Stripped off are zeros, and all of them. */
  lemma {:induction false} StrippedIsExact(s: bytes)
    ensures Stripped(s) <= s && (forall i | |Stripped(s)| <= i < |s| :: s[i] == 0)
    ensures Stripped(s) != [] ==> Stripped(s)[|Stripped(s)| - 1] != 0
  {
    if s != [] && s[|s| - 1] == 0 {
      StrippedIsExact(s[..|s| - 1]);
    }
  }

  // ---------------------------------------------------------------------------------
  // The parameter

  predicate IsAscii(s: seq<nat>) {
    forall i | 0 <= i < |s| :: s[i] < 0x80
  }

  /** Where the first colon is, or the length. */
  function Colon(t: text): (n: nat)
    ensures n <= |t| && (n < |t| ==> t[n] == COLON) && forall i | 0 <= i < n :: t[i] != COLON
  {
    if t == [] || t[0] == COLON then 0 else 1 + Colon(t[1..])
  }

  /** The servers a letter string lists, if it lists one to sixteen addresses. */
  function Servers(encoded: text, isAddress: bytes -> bool): Option<seq<bytes>>
    requires Lettered(encoded)
  {
    var plain := Stripped(Decoded(DecodeLookup(), FromLetters(encoded)));
    var servers := Items(plain);
    if IsAscii(plain) && 1 <= |servers| <= 16 && forall i | 0 <= i < |servers| :: isAddress(servers[i])
    then Some(servers) else None
  }

  /** What the parameter means; malformed ones mean nothing. */
  function Meaning(value: text, isAddress: bytes -> bool): Option<(seq<bytes>, text)> {
    var n := Colon(value);
    if n == |value| then None
    else
      var encoded, key := value[..n], value[n + 1..];
      if key == [] || |key| > 128 || encoded == [] || |encoded| > MAX_FIELD_BYTES || !Lettered(encoded) || !IsAscii(key)
      then None
      else
        match Servers(encoded, isAddress)
        case None => None
        case Some(servers) => Some((servers, key))
  }

  /** What a parameter that means something looks like: an even number of letters A to P, a colon, and a key. */
  lemma MeaningIsStrict(value: text, isAddress: bytes -> bool, n: nat)
    requires Meaning(value, isAddress).Some? && n == Colon(value)
    ensures 2 <= n <= 4096 && n % 2 == 0 && n < |value| && (forall i | 0 <= i < n :: 0x41 <= value[i] <= 0x50)
    ensures var (servers, key) := Meaning(value, isAddress).value;
            && 1 <= |servers| <= 16 && (forall i | 0 <= i < |servers| :: isAddress(servers[i]))
            && value[n] == 0x3A && key == value[n + 1..] && 1 <= |key| <= 128 && (forall i | 0 <= i < |key| :: key[i] < 128)
  {
    LettersOf(value, n);
    ServersAre(value[..n], isAddress);
  }

  lemma LettersOf(value: text, n: nat)
    requires n <= |value| && Lettered(value[..n])
    ensures n % 2 == 0 && forall i | 0 <= i < n :: 0x41 <= value[i] <= 0x50
  {
    forall i | 0 <= i < n
      ensures 0x41 <= value[i] <= 0x50
    {
      assert IsLetter(value[..n][i]);
    }
  }

  lemma ServersAre(encoded: text, isAddress: bytes -> bool)
    requires Lettered(encoded) && Servers(encoded, isAddress).Some?
    ensures var servers := Servers(encoded, isAddress).value;
            1 <= |servers| <= 16 && forall i | 0 <= i < |servers| :: isAddress(servers[i])
  {
  }

  function Encoded(servers: seq<bytes>, key: text): text {
    Letters(Raw(DecodeLookup(), Join(servers))) + [COLON] + key
  }

  lemma ColonAfterLetters(letters: text, key: text)
    requires forall i | 0 <= i < |letters| :: IsLetter(letters[i])
    ensures Colon(letters + [COLON] + key) == |letters|
  {
    var all := letters + [COLON] + key;
    assert all[|letters|] == COLON;
    assert forall i | 0 <= i < |letters| :: all[i] != COLON;
  }

  lemma PlainIsKept(s: bytes)
    requires IsPlain(s)
    ensures Stripped(s) == s && IsAscii(s)
  {
  }

  lemma ServersRoundTrip(servers: seq<bytes>, isAddress: bytes -> bool)
    requires 1 <= |servers| <= 16 && AllItems(servers)
    requires forall i | 0 <= i < |servers| :: isAddress(servers[i])
    ensures Lettered(Letters(Raw(DecodeLookup(), Join(servers))))
    ensures Servers(Letters(Raw(DecodeLookup(), Join(servers))), isAddress) == Some(servers)
  {
    var plain := Join(servers);
    ItemsOfJoin(servers);
    JoinIsPlain(servers);
    LettersRoundTrip(Raw(DecodeLookup(), plain));
    DecodingInvertsEncoding(DecodeLookup(), plain);
    PlainIsKept(plain);
  }

  lemma EncodedParts(letters: text, key: text)
    requires Lettered(letters)
    ensures var value := letters + [COLON] + key;
            Colon(value) == |letters| && value[..|letters|] == letters && value[|letters| + 1..] == key
  {
    ColonAfterLetters(letters, key);
  }

  /** Encoding one to sixteen addresses and a key, and decoding the result, gives them back. */
  lemma ParameterRoundTrip(servers: seq<bytes>, key: text, isAddress: bytes -> bool)
    requires 1 <= |servers| <= 16 && AllItems(servers) && 2 * |Join(servers)| <= 4096
    requires forall i | 0 <= i < |servers| :: isAddress(servers[i])
    requires 1 <= |key| <= 128 && IsAscii(key)
    ensures Meaning(Encoded(servers, key), isAddress) == Some((servers, key))
  {
    ServersRoundTrip(servers, isAddress);
    JoinIsPlain(servers);
    EncodedParts(Letters(Raw(DecodeLookup(), Join(servers))), key);
  }

  lemma ChainSnoc(decoded: bytes, last: byte)
    ensures Chain(decoded + [last]) == Xor(Chain(decoded), last)
  {
    assert (decoded + [last])[..|decoded|] == decoded;
  }

  lemma LettersSnoc(raw: bytes, last: byte)
    ensures Letters(raw + [last]) == Letters(raw) + [65 + (last as nat) / 16, 65 + (last as nat) % 16]
  {
    assert (raw + [last])[..|raw|] == raw;
  }

  /** The encoder, with one accumulator that starts at 57. */
  method EncodeServiceParameter(servers: seq<bytes>, key: text) returns (value: text)
    ensures value == Encoded(servers, key)
  {
    var decoded := Join(servers);
    var letters: text := [];
    var chained: byte := 57;
    for index := 0 to |decoded|
      invariant chained == Chain(decoded[..index])
      invariant letters == Letters(Raw(DecodeLookup(), decoded[..index]))
    {
      var octet := decoded[index];
      var raw: byte := Xor(Xor(octet, chained), DecodeLookup()[index % 54]);
      RawSnoc(DecodeLookup(), decoded[..index], octet);
      LettersSnoc(Raw(DecodeLookup(), decoded[..index]), raw);
      ChainSnoc(decoded[..index], octet);
      assert decoded[..index + 1] == decoded[..index] + [octet];
      letters := letters + [65 + (raw as nat) / 16, 65 + (raw as nat) % 16];
      chained := Xor(chained, octet);
    }
    assert decoded[..|decoded|] == decoded;
    return letters + [0x3A] + key;
  }

  // ---------------------------------------------------------------------------------
  // The decoder's loops

  /** Recomputing the accumulator from all earlier octets gives the running one. */
  method ChainOf(decoded: bytes) returns (chained: byte)
    ensures chained == Chain(decoded)
  {
    chained := SEED;
    for i := 0 to |decoded|
      invariant chained == Chain(decoded[..i])
    {
      assert decoded[..i + 1][..i] == decoded[..i];
      chained := Xor(chained, decoded[i]);
    }
    assert decoded[..|decoded|] == decoded;
  }

  method DecodePair(table: Table, decoded: bytes, high: nat, low: nat) returns (octet: byte)
    requires IsLetter(high) && IsLetter(low)
    ensures octet == Xor(Xor(Chain(decoded), Lookup(table, |decoded|)), (high - LETTER_A) * 16 + (low - LETTER_A))
  {
    var chained := ChainOf(decoded);
    return Xor(Xor(chained, Lookup(table, |decoded|)), (high - LETTER_A) * 16 + (low - LETTER_A));
  }

  method DecodeLetters(table: Table, encoded: text) returns (decoded: Option<bytes>)
    requires |encoded| % 2 == 0
    ensures decoded == if Lettered(encoded) then Some(Decoded(table, FromLetters(encoded))) else None
  {
    var output: bytes := [];
    for index := 0 to |encoded| / 2
      invariant Lettered(encoded[..2 * index]) && |output| == index && output == DecodedPairs(table, encoded, index)
    {
      var high, low := encoded[2 * index], encoded[2 * index + 1];
      if !IsLetter(high) || !IsLetter(low) {
        return None;
      }
      DecodedStep(table, encoded, index);
      var octet := DecodePair(table, output, high, low);
      output := output + [octet];
    }
    assert encoded[..2 * (|encoded| / 2)] == encoded;
    return Some(output);
  }

  /** What the first `n` pairs of letters decode to. */
  function DecodedPairs(table: Table, encoded: text, n: nat): bytes
    requires 2 * n <= |encoded| && Lettered(encoded[..2 * n])
  {
    Decoded(table, FromLetters(encoded[..2 * n]))
  }

  lemma DecodedStep(table: Table, encoded: text, n: nat)
    requires 2 * n + 1 < |encoded| && Lettered(encoded[..2 * n])
    requires IsLetter(encoded[2 * n]) && IsLetter(encoded[2 * n + 1])
    ensures Lettered(encoded[..2 * (n + 1)])
    ensures var front := DecodedPairs(table, encoded, n);
            var raw := (encoded[2 * n] - LETTER_A) * 16 + (encoded[2 * n + 1] - LETTER_A);
            DecodedPairs(table, encoded, n + 1) == front + [Xor(Xor(Chain(front), Lookup(table, n)), raw)]
  {
    var longer := encoded[..2 * (n + 1)];
    assert longer[..|longer| - 2] == encoded[..2 * n];
    var raw := FromLetters(longer);
    assert raw[..|raw| - 1] == FromLetters(encoded[..2 * n]);
  }

  method AreAddresses(servers: seq<bytes>, isAddress: bytes -> bool) returns (valid: bool)
    ensures valid <==> forall i | 0 <= i < |servers| :: isAddress(servers[i])
  {
    for i := 0 to |servers|
      invariant forall j | 0 <= j < i :: isAddress(servers[j])
    {
      if !isAddress(servers[i]) {
        return false;
      }
    }
    return true;
  }

  method DecodeServiceParameter(value: text, isAddress: bytes -> bool) returns (r: Option<(seq<bytes>, text)>)
    ensures r == Meaning(value, isAddress)
  {
    var n := Colon(value);
    if n == |value| {
      return None;
    }
    var encoded, key := value[..n], value[n + 1..];
    if key == [] || |key| > 128 || |encoded| % 2 != 0 || encoded == [] || |encoded| > MAX_FIELD_BYTES {
      return None;
    }
    var decoded := DecodeLetters(DecodeLookup(), encoded);
    if decoded.None? {
      return None;
    }
    var plain := Stripped(decoded.value);
    var servers := Items(plain);
    if !IsAscii(plain) || servers == [] || |servers| > 16 || !IsAscii(key) {
      return None;
    }
    var valid := AreAddresses(servers, isAddress);
    return if valid then Some((servers, key)) else None;
  }
}
