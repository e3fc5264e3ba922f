/** The keyed hash and the authenticators built on it. */
module Security {
  import opened Bytes
  import opened Addresses
  import Md5

  type Digest = d: seq<Byte> | |d| == 16 witness Zeros(16)

  /** A keyed hash with its key fixed. */
  type Hash = seq<Byte> -> Digest

  /** What authenticators depend on besides their arguments. */
  datatype Secret = Secret(hash: Hash, pid: Word16)

  function Xor(a: Byte, b: Byte): Byte {
    ((a as bv8) ^ (b as bv8)) as int
  }

  function XorAll(s: seq<Byte>, b: Byte): (r: seq<Byte>)
    ensures |r| == |s|
  {
    seq(|s|, i requires 0 <= i < |s| => Xor(s[i], b))
  }

  /** Section 2 of RFC 2104, for a key of at most one block. */
  function Hmac(f: Md5.Compression, key: seq<Byte>, m: seq<Byte>): (d: Digest)
    requires |key| <= 64
  {
    var k := key + Zeros(64 - |key|);
    Md5.Digest(f, XorAll(k, 0x5c) + Md5.Digest(f, XorAll(k, 0x36) + m))
  }

  /** Precomputes the padded keys in place. */
  method PadKeys(inner: array<Byte>, outer: array<Byte>)
    requires inner.Length == outer.Length == 64 && inner != outer
    modifies inner, outer
    ensures inner[..] == XorAll(old(inner[..]), 0x36)
    ensures outer[..] == XorAll(old(inner[..]), 0x5c)
  {
    forall i | 0 <= i < 64 {
      outer[i] := inner[i];
    }
    for i := 0 to 64
      invariant forall j :: 0 <= j < i ==> inner[j] == Xor(old(inner[j]), 0x36) && outer[j] == Xor(old(inner[j]), 0x5c)
      invariant forall j :: i <= j < 64 ==> inner[j] == outer[j] == old(inner[j])
    {
      inner[i] := Xor(inner[i], 0x36);
      outer[i] := Xor(outer[i], 0x5c);
    }
  }

  lemma FlattenMore(iov: seq<seq<Byte>>, x: seq<Byte>)
    ensures Flatten(iov + [x]) == Flatten(iov) + x
  {
    assert (iov + [x])[..|iov|] == iov;
  }

  lemma FlattenPair(x: seq<Byte>, y: seq<Byte>)
    ensures Flatten([x, y]) == x + y
  {
    FlattenMore([x], y);
    FlattenMore([], x);
    assert [] + [x] == [x] && [x] + [y] == [x, y];
  }

  lemma FlattenFive(a: seq<Byte>, b: seq<Byte>, c: seq<Byte>, d: seq<Byte>, e: seq<Byte>)
    ensures Flatten([a, b, c, d, e]) == a + (b + c + d + e)
  {
    FlattenPair(a, b);
    FlattenMore([a, b], c);
    FlattenMore([a, b, c], d);
    FlattenMore([a, b, c, d], e);
    assert [a, b] + [c] == [a, b, c];
    assert [a, b, c] + [d] == [a, b, c, d];
    assert [a, b, c, d] + [e] == [a, b, c, d, e];
  }

  /** Two streamed MD5 passes over the padded keys are the HMAC of the concatenated inputs. */
  method TeredoHash(f: Md5.Compression, ghost key: seq<Byte>, inner: array<Byte>, outer: array<Byte>,
                    src: seq<Byte>, dst: seq<Byte>, pid: seq<Byte>, timestamp: seq<Byte>)
    returns (hash: seq<Byte>)
    requires |key| <= 64
    requires inner[..] == XorAll(key + Zeros(64 - |key|), 0x36)
    requires outer[..] == XorAll(key + Zeros(64 - |key|), 0x5c)
    requires |src| < 0x1000_0000 && |dst| < 0x1000_0000 && |pid| == 2 && |timestamp| == 4
    ensures hash == Hmac(f, key, src + dst + pid + timestamp)
  {
    var ipad, opad := inner[..], outer[..];
    FlattenFive(ipad, src, dst, pid, timestamp);
    var ctx := new Md5.Context(f);
    hash := ctx.Pass([ipad, src, dst, pid, timestamp]);
    FlattenPair(opad, hash);
    hash := ctx.Pass([opad, hash]);
  }

  /** What `teredo_hash` computes once the key is fixed. */
  function KeyedHash(s: Secret, src: seq<Byte>, dst: seq<Byte>, timestamp: seq<Byte>): Digest {
    s.hash(src + dst + Put16(s.pid) + timestamp)
  }

  function GetNonce(s: Secret, timestamp: seq<Byte>, at: Endpoint): (n: seq<Byte>)
    ensures |n| == 8
  {
    KeyedHash(s, Put32(at.ip), Put16(at.port), timestamp)[..8]
  }

  /** The identifier, sequence and payload of an authenticated echo request. */
  function GetPingHash(s: Secret, timestamp: Word32, src: Addr, dst: Addr): (h: seq<Byte>)
    ensures |h| == 22
  {
    var t := Put32(timestamp);
    Put16(s.pid) + t[2..] + t[..2] + KeyedHash(s, Encode(src), Encode(dst), t)
  }

  predicate VerifyPingHash(s: Secret, now: Word32, src: Addr, dst: Addr, hash: seq<Byte>)
    requires |hash| == 22
  {
    && hash[..2] == Put16(s.pid)
    && var t := hash[4..6] + hash[2..4];
    && (now - Get32(t)) % 0x1_0000_0000 < 30
    && KeyedHash(s, Encode(src), Encode(dst), t) == hash[6..]
  }

  /** The time elapsed since `since` on a 32-bit clock. */
  function Ticks(now: Word32, since: Word32): Word32 {
    (now - since) % 0x1_0000_0000
  }

  lemma PingHashFields(s: Secret, t: Word32, src: Addr, dst: Addr)
    ensures var h := GetPingHash(s, t, src, dst);
            && h[..2] == Put16(s.pid)
            && h[4..6] + h[2..4] == Put32(t)
            && h[6..] == KeyedHash(s, Encode(src), Encode(dst), Put32(t))
  {
    assert Put32(t) == Put32(t)[..2] + Put32(t)[2..];
  }

  /** Verification accepts the hash of some time in the last 30 ticks, and nothing else. */
  lemma VerifyPingHashExact(s: Secret, now: Word32, src: Addr, dst: Addr, hash: seq<Byte>)
    requires |hash| == 22
    ensures VerifyPingHash(s, now, src, dst, hash)
            <==> exists t: Word32 :: Ticks(now, t) < 30 && hash == GetPingHash(s, t, src, dst)
  {
    if VerifyPingHash(s, now, src, dst, hash) {
      var b := hash[4..6] + hash[2..4];
      var t: Word32 := Get32(b);
      Words32(t, b);
      assert b[..2] == hash[4..6] && b[2..] == hash[2..4];
      assert hash == hash[..2] + hash[2..4] + hash[4..6] + hash[6..];
      assert hash == GetPingHash(s, t, src, dst);
    }
    forall t: Word32 | Ticks(now, t) < 30 && hash == GetPingHash(s, t, src, dst)
      ensures VerifyPingHash(s, now, src, dst, hash)
    {
      PingHashFields(s, t, src, dst);
      Words32(t, Put32(t));
    }
  }

  /** Hence our own hash is accepted exactly in the 30 ticks from its time, wrap-around included. */
  lemma PingHashLifetime(s: Secret, now: Word32, t: Word32, src: Addr, dst: Addr)
    ensures VerifyPingHash(s, now, src, dst, GetPingHash(s, t, src, dst)) <==> Ticks(now, t) < 30
  {
    PingHashFields(s, t, src, dst);
    Words32(t, Put32(t));
  }
}
