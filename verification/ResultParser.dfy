/**
 The two parsers of a camera's `result=` field: the Python one, which reads a number of any
 length, and the C one, which works in a 32-bit `int` and gives up on long numbers.
 */
module ResultParser {
  import opened Octets

  const WORD: bytes := [0x72, 0x65, 0x73, 0x75, 0x6C, 0x74] // "result"
  const EQUALS: byte := 0x3D
  const MINUS: byte := 0x2D
  const ZERO: byte := 0x30

  /** The largest magnitude the C parser can return. */
  const LARGEST: int := 1_000_009

  newtype int32 = x: int | -0x8000_0000 <= x < 0x8000_0000

  datatype Class = Blank | Padding | Digit

  predicate Belongs(b: byte, c: Class) {
    match c
    case Blank => b == 0x20 || b == 0x09
    case Padding => b == 0x20 || b == 0x09 || b == 0x22 || b == 0x27
    case Digit => 0x30 <= b <= 0x39
  }

  predicate MarkerAt(p: bytes, i: nat) {
    i + 6 <= |p| && p[i..i + 6] == WORD
  }

  /** The end of the longest run of octets of the class that starts at `i`. */
  function Skip(p: bytes, i: nat, c: Class): (end: nat)
    requires i <= |p|
    ensures i <= end <= |p|
    ensures forall j | i <= j < end :: Belongs(p[j], c)
    ensures end < |p| ==> !Belongs(p[end], c)
    decreases |p| - i
  {
    if i < |p| && Belongs(p[i], c) then Skip(p, i + 1, c) else i
  }

  /** The decimal value of the digits from `i` up to but not including `j`. */
  function Value(p: bytes, i: nat, j: nat): (v: nat)
    requires i <= j <= |p| && forall k | i <= k < j :: Belongs(p[k], Digit)
    decreases j
  {
    if i == j then 0
    else
      assert Belongs(p[j - 1], Digit);
      var digit: nat := p[j - 1] - 0x30;
      Value(p, i, j - 1) * 10 + digit
  }

  function Signed(negative: bool, v: int): int {
    if negative then -v else v
  }

  /** The number that follows the marker at `m`, if one does. */
  function Reading(p: bytes, m: nat): Option<int>
    requires MarkerAt(p, m)
  {
    var eq := Skip(p, m + 6, Blank);
    if eq == |p| || p[eq] != EQUALS then None
    else
      var start := Skip(p, eq + 1, Padding);
      var negative := start < |p| && p[start] == MINUS;
      var first := if negative then start + 1 else start;
      var end := Skip(p, first, Digit);
      if end == first then None
      else Some(Signed(negative, Value(p, first, end)))
  }

  /** The number after the first marker, at `i` or later, that is followed by one. */
  function FirstFrom(p: bytes, i: nat): Option<int>
    decreases |p| - i
  {
    if i + 6 > |p| then None
    else if MarkerAt(p, i) && Reading(p, i).Some? then Reading(p, i)
    else FirstFrom(p, i + 1)
  }

  /** The first marker, at `i` or later, that has a number has this one. */
  ghost predicate IsFirst(p: bytes, i: nat, m: nat, v: int) {
    && i <= m && MarkerAt(p, m) && Reading(p, m) == Some(v)
    && forall j: nat | i <= j < m && MarkerAt(p, j) :: Reading(p, j) == None
  }

  /** No marker before `j`, at `i` or later, has a number. */
  lemma {:induction false} SkipMarkers(p: bytes, i: nat, j: nat)
    requires i <= j && forall k: nat | i <= k < j && MarkerAt(p, k) :: Reading(p, k) == None
    ensures FirstFrom(p, i) == FirstFrom(p, j)
    decreases j - i
  {
    if i < j {
      SkipMarkers(p, i + 1, j);
    }
  }

  lemma {:induction false} FoundIsFirst(p: bytes, i: nat) returns (m: nat)
    requires FirstFrom(p, i).Some?
    ensures IsFirst(p, i, m, FirstFrom(p, i).value)
    decreases |p| - i
  {
    if MarkerAt(p, i) && Reading(p, i).Some? {
      m := i;
    } else {
      m := FoundIsFirst(p, i + 1);
    }
  }

  /** `FirstFrom` finds a number exactly when some marker has one, and then it is the first's. */
  lemma FirstFromFindsFirst(p: bytes, i: nat, v: int)
    ensures FirstFrom(p, i) == Some(v) <==> exists m: nat :: IsFirst(p, i, m, v)
  {
    if m: nat :| IsFirst(p, i, m, v) {
      SkipMarkers(p, i, m);
    } else if FirstFrom(p, i) == Some(v) {
      var m := FoundIsFirst(p, i);
    }
  }

  /** `payload.find(b"result", from)`. */
  method Find(p: bytes, from: nat) returns (i: int)
    requires from <= |p|
    ensures i >= 0 ==> from <= i && MarkerAt(p, i) && FirstFrom(p, from) == FirstFrom(p, i)
    ensures i < 0 ==> FirstFrom(p, from) == None
  {
    i := from;
    while i + 6 <= |p|
      invariant from <= i <= |p| && FirstFrom(p, from) == FirstFrom(p, i)
    {
      if p[i..i + 6] == WORD {
        return;
      }
      i := i + 1;
    }
    i := -1;
  }

  method SkipFrom(p: bytes, i: nat, c: Class) returns (cursor: nat)
    requires i <= |p|
    ensures cursor == Skip(p, i, c)
  {
    cursor := i;
    while cursor < |p| && Belongs(p[cursor], c)
      invariant i <= cursor <= |p| && Skip(p, cursor, c) == Skip(p, i, c)
    {
      cursor := cursor + 1;
    }
  }

  /** `int(payload[start:end])` for a run of digits. */
  method Decimal(p: bytes, start: nat, end: nat) returns (v: nat)
    requires start <= end <= |p| && forall k | start <= k < end :: Belongs(p[k], Digit)
    ensures v == Value(p, start, end)
  {
    v := 0;
    for k := start to end
      invariant v == Value(p, start, k)
    {
      v := v * 10 + (p[k] - ZERO);
    }
  }

  /** What the Python parser does with one marker. */
  method ReadAfter(p: bytes, marker: nat) returns (r: Option<int>)
    requires MarkerAt(p, marker)
    ensures r == Reading(p, marker)
  {
    var cursor := SkipFrom(p, marker + 6, Blank);
    if cursor < |p| && p[cursor] == EQUALS {
      cursor := SkipFrom(p, cursor + 1, Padding);
      var negative := false;
      if cursor < |p| && p[cursor] == MINUS {
        negative, cursor := true, cursor + 1;
      }
      var start := cursor;
      cursor := SkipFrom(p, cursor, Digit);
      if cursor > start {
        var v := Decimal(p, start, cursor);
        return Some(Signed(negative, v));
      }
    }
    return None;
  }

  /** The Python parser. */
  method ParseResult(p: bytes) returns (r: Option<int>)
    ensures r == FirstFrom(p, 0)
  {
    var marker := Find(p, 0);
    while marker >= 0
      invariant marker >= 0 ==> MarkerAt(p, marker) && FirstFrom(p, 0) == FirstFrom(p, marker)
      invariant marker < 0 ==> FirstFrom(p, 0) == None
      decreases if marker < 0 then 0 else |p| - marker
    {
      r := ReadAfter(p, marker);
      if r.Some? {
        return;
      }
      marker := Find(p, marker + 1);
    }
    return None;
  }

  /** A number one of whose proper prefixes exceeds 100000 exceeds the largest. */
  lemma {:induction false} LongNumber(p: bytes, start: nat, cursor: nat, end: nat)
    requires start <= cursor < end <= |p| && forall k | start <= k < end :: Belongs(p[k], Digit)
    requires Value(p, start, cursor) > 100_000
    ensures Value(p, start, end) > LARGEST
    decreases end
  {
    if cursor + 1 < end {
      LongNumber(p, start, cursor, end - 1);
    }
  }

  predicate Fits(v: int) {
    -LARGEST <= v <= LARGEST
  }

  /** The digit loop of the C parser; it gives up once a further digit could overflow. */
  method ReadDigits(p: bytes, start: nat) returns (ok: bool, value: int32)
    requires start < |p| && Belongs(p[start], Digit)
    ensures ok <==> Value(p, start, Skip(p, start, Digit)) <= LARGEST
    ensures ok ==> value as int == Value(p, start, Skip(p, start, Digit))
  {
    value := 0;
    var cursor := start;
    ghost var end := Skip(p, start, Digit);
    while cursor < |p| && Belongs(p[cursor], Digit)
      invariant start <= cursor <= end && Skip(p, cursor, Digit) == end
      invariant value as int == Value(p, start, cursor) <= LARGEST
    {
      if value > 100_000 {
        LongNumber(p, start, cursor, end);
        return false, 0;
      }
      value := value * 10 + (p[cursor] - ZERO) as int32;
      cursor := cursor + 1;
    }
    return true, value;
  }

  /** What the C parser does with one marker: move on, or answer `ok` with `result`. */
  method ReadCodeAfter(p: bytes, i: nat) returns (found: bool, ok: bool, result: int32)
    requires MarkerAt(p, i)
    ensures found <==> Reading(p, i).Some?
    ensures found ==> (ok <==> Fits(Reading(p, i).value))
    ensures found && ok ==> result as int == Reading(p, i).value
  {
    var cursor := SkipFrom(p, i + 6, Blank);
    if cursor >= |p| || p[cursor] != EQUALS {
      return false, false, 0;
    }
    cursor := SkipFrom(p, cursor + 1, Padding);
    var sign: int32 := 1;
    if cursor < |p| && p[cursor] == MINUS {
      sign, cursor := -1, cursor + 1;
    }
    if cursor >= |p| || !Belongs(p[cursor], Digit) {
      return false, false, 0;
    }
    var value: int32;
    ok, value := ReadDigits(p, cursor);
    return true, ok, if ok then sign * value else 0;
  }

  /**
   The C parser. It answers exactly when the Python parser finds a number of magnitude at
   most 1000009, with that number, and no `int` it computes on the way overflows.
   */
  method ParseResultCode(p: bytes) returns (ok: bool, result: int32)
    ensures ok <==> FirstFrom(p, 0).Some? && Fits(FirstFrom(p, 0).value)
    ensures ok ==> FirstFrom(p, 0) == Some(result as int)
  {
    var i := 0;
    while i + 6 < |p|
      invariant FirstFrom(p, 0) == FirstFrom(p, i)
    {
      if p[i..i + 6] == WORD {
        var found;
        found, ok, result := ReadCodeAfter(p, i);
        if found {
          return;
        }
      }
      i := i + 1;
    }
    return false, 0;
  }

  /**
   The field as text: blanks up to `b`, an equals sign, blanks or quotes up to `c`, an
   optional minus, and digits up to `e`, after which no digit follows.
   */
  ghost predicate FieldAt(p: bytes, m: nat, b: nat, c: nat, negative: bool, e: nat) {
    var d := if negative then c + 1 else c;
    && m + 6 <= b < c <= d < e <= |p| && p[m..m + 6] == [0x72, 0x65, 0x73, 0x75, 0x6C, 0x74]
    && (forall k | m + 6 <= k < b :: p[k] == 0x20 || p[k] == 0x09)
    && p[b] == 0x3D
    && (forall k | b + 1 <= k < c :: p[k] == 0x20 || p[k] == 0x09 || p[k] == 0x22 || p[k] == 0x27)
    && (negative <==> p[c] == 0x2D)
    && (forall k | d <= k < e :: 0x30 <= p[k] <= 0x39)
    && (e < |p| ==> !(0x30 <= p[e] <= 0x39))
  }

  ghost function FieldValue(p: bytes, m: nat, b: nat, c: nat, negative: bool, e: nat): int
    requires FieldAt(p, m, b, c, negative, e)
  {
    if negative then 0 - Value(p, c + 1, e) else Value(p, c, e)
  }

  lemma SkipAll(p: bytes, i: nat, j: nat, c: Class)
    requires i <= j <= |p| && forall k | i <= k < j :: Belongs(p[k], c)
    requires j == |p| || !Belongs(p[j], c)
    ensures Skip(p, i, c) == j
  {
  }

  lemma FieldIsRead(p: bytes, m: nat, b: nat, c: nat, negative: bool, e: nat)
    requires FieldAt(p, m, b, c, negative, e)
    ensures Reading(p, m) == Some(FieldValue(p, m, b, c, negative, e))
  {
    var d := if negative then c + 1 else c;
    assert Belongs(p[d], Digit);
    SkipAll(p, m + 6, b, Blank);
    SkipAll(p, b + 1, c, Padding);
    SkipAll(p, d, e, Digit);
  }

  lemma FieldOf(p: bytes, m: nat) returns (b: nat, c: nat, negative: bool, e: nat)
    requires MarkerAt(p, m) && Reading(p, m).Some?
    ensures FieldAt(p, m, b, c, negative, e) && Reading(p, m) == Some(FieldValue(p, m, b, c, negative, e))
  {
    b := Skip(p, m + 6, Blank);
    c := Skip(p, b + 1, Padding);
    negative := c < |p| && p[c] == MINUS;
    e := Skip(p, if negative then c + 1 else c, Digit);
  }

  /** A marker has a number exactly when a field of this form starts there. */
  lemma ReadingIsField(p: bytes, m: nat, v: int)
    requires MarkerAt(p, m)
    ensures Reading(p, m) == Some(v) <==>
            exists b, c, negative, e :: FieldAt(p, m, b, c, negative, e) && v == FieldValue(p, m, b, c, negative, e)
  {
    if b, c, negative, e :| FieldAt(p, m, b, c, negative, e) && v == FieldValue(p, m, b, c, negative, e) {
      FieldIsRead(p, m, b, c, negative, e);
    }
    if Reading(p, m) == Some(v) {
      var b, c, negative, e := FieldOf(p, m);
    }
  }
}
