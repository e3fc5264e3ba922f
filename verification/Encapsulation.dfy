/** The authentication and origin headers of section 5.1.1 of RFC 4380. */
module Encapsulation {
  import opened Bytes
  import opened Addresses

  datatype Auth = Auth(nonce: seq<Byte>, fail: bool)

  /** A parsed datagram; `orig` is all zeros when there is no origin indication. */
  datatype Payload = Payload(auth: Option<Auth>, orig: Endpoint, ip6: seq<Byte>)

  /** A datagram together with where it came from: `struct teredo_packet`. */
  datatype Packet = Packet(source: Endpoint, destIp: Word32, auth: Option<Auth>, orig: Endpoint, ip6: seq<Byte>)

  const NOWHERE := Endpoint(0, 0)

  /** The fields of an authentication header. */
  datatype AuthFields = AuthFields(id: seq<Byte>, au: seq<Byte>, nonce: seq<Byte>, confirm: Byte) {
    predicate Valid() {
      |id| < 0x100 && |au| < 0x100 && |nonce| == 8
    }
  }

  function AuthHeader(h: AuthFields): (b: seq<Byte>)
    requires h.Valid()
    ensures |b| == 13 + |h.id| + |h.au|
  {
    [0, 1, |h.id|, |h.au|] + h.id + h.au + h.nonce + [h.confirm]
  }

  function OriginIndication(at: Endpoint): (b: seq<Byte>)
    ensures |b| == 8
  {
    [0, 0] + Put16(Flip16(at.port)) + Put32(Flip32(at.ip))
  }

  function WrapOrigin(o: Option<Endpoint>, ip6: seq<Byte>): seq<Byte> {
    if o.Some? then OriginIndication(o.value) + ip6 else ip6
  }

  function Wrap(h: Option<AuthFields>, o: Option<Endpoint>, ip6: seq<Byte>): seq<Byte>
    requires h.Some? ==> h.value.Valid()
  {
    if h.Some? then AuthHeader(h.value) + WrapOrigin(o, ip6) else WrapOrigin(o, ip6)
  }

  predicate StartsWith(d: seq<Byte>, a: Byte, b: Byte) {
    |d| >= 2 && d[0] == a && d[1] == b
  }

  function ParseOrigin(auth: Option<Auth>, d: seq<Byte>): Option<Payload> {
    if !StartsWith(d, 0, 0) then Some(Payload(auth, NOWHERE, d))
    else if |d| < 8 then None
    else Some(Payload(auth, Endpoint(Flip32(Get32(d[4..8])), Flip16(Get16(d[2..4]))), d[8..]))
  }

  /** Length of the authentication header that starts `d`. */
  function AuthLength(d: seq<Byte>): (n: nat)
    requires |d| >= 4
    ensures n >= 13
  {
    13 + d[2] as int + d[3] as int
  }

  function Parse(d: seq<Byte>): Option<Payload> {
    if |d| < 2 then None
    else if !StartsWith(d, 0, 1) then ParseOrigin(None, d)
    else if |d| < 13 || |d| < AuthLength(d) then None
    else
      var skip := AuthLength(d);
      ParseOrigin(Some(Auth(d[skip - 9..skip - 1], d[skip - 1] != 0)), d[skip..])
  }

  function AuthOf(h: Option<AuthFields>): Option<Auth> {
    if h.Some? then Some(Auth(h.value.nonce, h.value.confirm != 0)) else None
  }

  /** Strips the authentication header and moves what follows to the start of the buffer. */
  method StripAuth(buf: array<Byte>, received: nat) returns (ok: bool, auth: Option<Auth>, length: nat)
    requires 2 <= received <= buf.Length
    modifies buf
    ensures ok ==> length <= received
    ensures Parse(old(buf[..received])) == if ok then ParseOrigin(auth, buf[..length]) else None
    // with fewer than two bytes left, the second one is still the authentication code
    ensures ok && length < 2 ==> buf[1] == 1
  {
    hide ParseOrigin;
    ok, auth, length := true, None, received;
    if buf[0] == 0 && buf[1] == 1 {
      ghost var d := buf[..received];
      if length < 13 {
        ok := false;
        return;
      }
      length := length - 13;
      var idLen: int, auLen: int := buf[2], buf[3];
      if length < idLen + auLen {
        ok := false;
        return;
      }
      length := length - idLen - auLen;
      var ptr := 4 + idLen + auLen;
      var nonce := buf[ptr..ptr + 8];
      assert nonce == d[ptr..ptr + 8] by {
        assert forall k :: 0 <= k < received ==> d[k] == buf[k];
      }
      ptr := ptr + 8;
      auth := Some(Auth(nonce, buf[ptr] != 0));
      ptr := ptr + 1;
      forall i | 0 <= i < length {
        buf[i] := buf[ptr + i];
      }
      assert buf[..length] == d[ptr..];
    }
  }

  /** The part of `teredo_recv_inner` that parses in place the first `received` bytes of `buf`. */
  method RecvInner(buf: array<Byte>, received: nat)
    returns (ok: bool, auth: Option<Auth>, orig: Endpoint, ptr: nat, length: nat)
    requires received <= buf.Length
    modifies buf
    ensures ok ==> ptr + length <= received && (ptr == 0 || ptr == 8)
    ensures Parse(old(buf[..received]))
            == if ok then Some(Payload(auth, orig, buf[ptr..ptr + length])) else None
  {
    ok, auth, orig, ptr, length := false, None, NOWHERE, 0, received;
    if received < 2 {
      return;
    }
    ok, auth, length := StripAuth(buf, received);
    if !ok {
      return;
    }
    ghost var rest := buf[..length];
    assert buf[0] == 0 && buf[1] == 0 <==> StartsWith(rest, 0, 0);
    if buf[0] == 0 && buf[1] == 0 {
      if length < 8 {
        ok := false;
        return;
      }
      length := length - 8;
      assert buf[2..4] == [buf[2], buf[3]] == rest[2..4];
      assert buf[4..8] == [buf[4], buf[5], buf[6], buf[7]] == rest[4..8];
      orig := Endpoint(Flip32(Get32(buf[4..8])), Flip16(Get16(buf[2..4])));
      ptr := 8;
    }
    assert buf[ptr..ptr + length] == rest[ptr..];
  }

  lemma OriginRoundTrip(auth: Option<Auth>, at: Endpoint, ip6: seq<Byte>)
    ensures ParseOrigin(auth, OriginIndication(at) + ip6) == Some(Payload(auth, at, ip6))
  {
    var d := OriginIndication(at) + ip6;
    assert d[2..4] == Put16(Flip16(at.port)) && d[4..8] == Put32(Flip32(at.ip)) && d[8..] == ip6;
    Words16(Flip16(at.port), d[2..4]);
    Words32(Flip32(at.ip), d[4..8]);
  }

  lemma AuthRoundTrip(h: AuthFields, inner: seq<Byte>)
    requires h.Valid()
    ensures Parse(AuthHeader(h) + inner) == ParseOrigin(AuthOf(Some(h)), inner)
  {
    var d := AuthHeader(h) + inner;
    var n := |AuthHeader(h)|;
    assert d[2] == |h.id| && d[3] == |h.au|;
    assert d[n - 9..n - 1] == h.nonce;
    assert d[n - 1] == h.confirm;
    assert d[n..] == inner;
  }

  /** The payload does not look like one of the headers that are not there. IPv6 never does. */
  predicate Unambiguous(h: Option<AuthFields>, o: Option<Endpoint>, ip6: seq<Byte>) {
    && (o.None? ==> !StartsWith(ip6, 0, 0))
    && (o.None? && h.None? ==> |ip6| >= 2 && !StartsWith(ip6, 0, 1))
  }

  /** What is wrapped is parsed back, exactly when the payload cannot be taken for a header. */
  lemma WrapRoundTrip(h: Option<AuthFields>, o: Option<Endpoint>, ip6: seq<Byte>)
    requires h.Some? ==> h.value.Valid()
    ensures Parse(Wrap(h, o, ip6)) == Some(Payload(AuthOf(h), if o.Some? then o.value else NOWHERE, ip6))
            <==> Unambiguous(h, o, ip6)
  {
    if o.Some? {
      OriginRoundTrip(AuthOf(h), o.value, ip6);
      var d := OriginIndication(o.value) + ip6;
      assert d[0] == 0 && d[1] == 0;
    }
    if h.Some? {
      AuthRoundTrip(h.value, WrapOrigin(o, ip6));
    }
  }

  lemma AuthSound(d: seq<Byte>) returns (h: AuthFields)
    requires StartsWith(d, 0, 1) && |d| >= 13 && |d| >= AuthLength(d)
    ensures h.Valid() && d == AuthHeader(h) + d[AuthLength(d)..]
    ensures AuthOf(Some(h)) == Some(Auth(d[AuthLength(d) - 9..AuthLength(d) - 1], d[AuthLength(d) - 1] != 0))
  {
    var n, i := AuthLength(d), 4 + d[2] as int;
    h := AuthFields(d[4..i], d[i..n - 9], d[n - 9..n - 1], d[n - 1]);
    assert d[..n] == d[..4] + d[4..i] + d[i..n - 9] + d[n - 9..n - 1] + [d[n - 1]];
    assert d == d[..n] + d[n..];
  }

  lemma OriginSound(d: seq<Byte>)
    requires StartsWith(d, 0, 0) && |d| >= 8
    ensures d == OriginIndication(ParseOrigin(None, d).value.orig) + d[8..]
  {
    Words16(0, d[2..4]);
    Words32(0, d[4..8]);
    assert d == d[..2] + d[2..4] + d[4..8] + d[8..];
  }

  /** Whatever is accepted was wrapped: its payload is an exact suffix behind the headers it reports. */
  lemma ParseSound(d: seq<Byte>) returns (h: Option<AuthFields>, o: Option<Endpoint>)
    requires Parse(d).Some?
    ensures h.Some? ==> h.value.Valid()
    ensures d == Wrap(h, o, Parse(d).value.ip6)
    ensures Parse(d).value.auth == AuthOf(h)
    ensures Parse(d).value.orig == if o.Some? then o.value else NOWHERE
  {
    h, o := None, None;
    var rest := d;
    if StartsWith(d, 0, 1) {
      var f := AuthSound(d);
      rest := d[AuthLength(d)..];
      h := Some(f);
    }
    if StartsWith(rest, 0, 0) {
      OriginSound(rest);
      o := Some(Parse(d).value.orig);
    }
  }

  /** A datagram that arrives from `from`. */
  function Received(from: Endpoint, destIp: Word32, d: seq<Byte>): Option<Packet> {
    match Parse(d)
    case None => None
    case Some(pl) => Some(Packet(from, destIp, pl.auth, pl.orig, pl.ip6))
  }
}
