/**
 Making a session from what a user gives: a camera identifier and a service parameter, as
 text. What the platform says of characters, numbers and addresses is a parameter.
 */
module Opening {
  import opened Octets
  import opened Environment
  import opened ServiceParameter
  import Session

  datatype Platform = Platform(
    isAlnum: nat -> bool,
    isDigit: nat -> bool,
    isAlpha: nat -> bool,
    number: seq<nat> -> Option<nat>,       // what `int` makes of digits
    resolve: bytes -> Option<bytes>)       // what `inet_aton` makes of a host

  predicate AllAre(s: text, p: nat -> bool) {
    forall i | 0 <= i < |s| :: p(s[i])
  }

  function PutBig32(n: nat): (s: bytes)
    requires n < 0x1_0000_0000
    ensures |s| == 4 && Big16(s[0], s[1]) * 0x1_0000 + Big16(s[2], s[3]) == n
  {
    PutBig16(n / 0x1_0000) + PutBig16(n % 0x1_0000)
  }

  /** Four letters or digits, a number of six digits, and five letters. */
  predicate IsUid(uid: text, platform: Platform) {
    && |uid| == 15
    && AllAre(uid[..4], platform.isAlnum) && AllAre(uid[4..10], platform.isDigit) && AllAre(uid[10..], platform.isAlpha)
    && IsAscii(uid[..4]) && IsAscii(uid[10..])
    && platform.number(uid[4..10]).Some? && platform.number(uid[4..10]).value < 0x1_0000_0000
  }

  /** The octets of ASCII text. */
  function AsciiOctets(s: text): (b: bytes)
    requires IsAscii(s)
    ensures |b| == |s| && forall i | 0 <= i < |s| :: b[i] == s[i]
  {
    seq(|s|, i requires 0 <= i < |s| => s[i])
  }

  function EncodeUid(uid: text, platform: Platform): (r: Option<bytes>)
    ensures r.Some? ==> |r.value| == 20
  {
    if !IsUid(uid, platform) then None
    else
      Some(AsciiOctets(uid[..4]) + [0, 0, 0, 0] + PutBig32(platform.number(uid[4..10]).value)
           + AsciiOctets(uid[10..]) + [0, 0, 0])
  }

  /** Which identifiers are encoded, and where their parts go. */
  lemma UidOctets(uid: text, platform: Platform)
    ensures EncodeUid(uid, platform).Some? <==>
            && |uid| == 15
            && (forall i | 0 <= i < 4 :: platform.isAlnum(uid[i]) && uid[i] < 128)
            && (forall i | 4 <= i < 10 :: platform.isDigit(uid[i]))
            && (forall i | 10 <= i < 15 :: platform.isAlpha(uid[i]) && uid[i] < 128)
            && platform.number(uid[4..10]).Some? && platform.number(uid[4..10]).value < 4294967296
    ensures EncodeUid(uid, platform).Some? ==>
              var r, n := EncodeUid(uid, platform).value, platform.number(uid[4..10]).value;
              && |r| == 20 && (forall i | 0 <= i < 4 :: r[i] == uid[i]) && (forall i | 4 <= i < 8 :: r[i] == 0)
              && n == 16777216 * (r[8] as int) + 65536 * (r[9] as int) + 256 * (r[10] as int) + r[11] as int
              && (forall i | 12 <= i < 17 :: r[i] == uid[i - 2]) && (forall i | 17 <= i < 20 :: r[i] == 0)
  {
    if IsUid(uid, platform) {
      var r, n := EncodeUid(uid, platform).value, platform.number(uid[4..10]).value;
      assert r[8..12] == PutBig32(n);
      assert r[..4] == AsciiOctets(uid[..4]);
      assert r[12..17] == AsciiOctets(uid[10..]);
    }
    if |uid| == 15 {
      assert forall i | 0 <= i < 4 :: uid[..4][i] == uid[i];
      assert forall i | 4 <= i < 10 :: uid[4..10][i - 4] == uid[i];
      assert forall i | 10 <= i < 15 :: uid[10..][i - 10] == uid[i];
    }
  }

  /** Identifiers with the same encoding have the same letters and the same number. */
  lemma UidIsFaithful(a: text, b: text, platform: Platform)
    requires EncodeUid(a, platform).Some? && EncodeUid(a, platform) == EncodeUid(b, platform)
    ensures a[..4] == b[..4] && a[10..] == b[10..]
    ensures platform.number(a[4..10]) == platform.number(b[4..10])
  {
    var x, y := EncodeUid(a, platform).value, EncodeUid(b, platform).value;
    assert x[..4] == AsciiOctets(a[..4]) && y[..4] == AsciiOctets(b[..4]);
    assert x[8..12] == PutBig32(platform.number(a[4..10]).value);
    assert y[8..12] == PutBig32(platform.number(b[4..10]).value);
    assert x[12..17] == AsciiOctets(a[10..]) && y[12..17] == AsciiOctets(b[10..]);
  }

  function IsAddress(platform: Platform): bytes -> bool {
    s => platform.resolve(s).Some?
  }

  /** The hosts of a parameter's servers. */
  predicate AreHosts(hosts: seq<bytes>, servers: seq<bytes>, platform: Platform) {
    |hosts| == |servers| && forall i | 0 <= i < |hosts| :: platform.resolve(servers[i]) == Some(hosts[i])
  }

  /** A session is made exactly if both texts are well-formed, and from what they mean. */
  method Open(uid: text, parameter: text, platform: Platform, preferRelay: bool, clock: int, feed: seq<Tick>)
    returns (session: Option<Session.CS2Session>, key: text)
    requires forall i | 0 <= i < |feed| :: feed[i].received.Some? ==> |feed[i].received.value.0| >= 4
    ensures session.Some? <==> EncodeUid(uid, platform).Some? && Meaning(parameter, IsAddress(platform)).Some?
    ensures session.Some? ==>
              && fresh(session.value) && session.value.Valid() && !session.value.started && !session.value.closed
              && session.value.uid == EncodeUid(uid, platform).value && session.value.preferRelay == preferRelay
              && AreHosts(session.value.servers, Meaning(parameter, IsAddress(platform)).value.0, platform)
              && key == Meaning(parameter, IsAddress(platform)).value.1
  {
    var encoded := EncodeUid(uid, platform);
    if encoded.None? {
      return None, [];
    }
    var decoded := DecodeServiceParameter(parameter, IsAddress(platform));
    if decoded.None? {
      return None, [];
    }
    var hosts := Resolve(decoded.value.0, platform);
    var made := new Session.CS2Session(encoded.value, hosts, preferRelay, clock, feed);
    return Some(made), decoded.value.1;
  }

  method Resolve(servers: seq<bytes>, platform: Platform) returns (hosts: seq<bytes>)
    requires forall i | 0 <= i < |servers| :: platform.resolve(servers[i]).Some?
    ensures AreHosts(hosts, servers, platform)
  {
    hosts := [];
    for i := 0 to |servers|
      invariant |hosts| == i && forall j | 0 <= j < i :: platform.resolve(servers[j]) == Some(hosts[j])
    {
      hosts := hosts + [platform.resolve(servers[i]).value];
    }
  }
}
