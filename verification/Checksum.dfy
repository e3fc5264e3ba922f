/** The scatter-gather Internet checksum against its definition in RFC 1071. */
module Checksum {
  import opened Bytes
  import opened Addresses

  /** A 16-bit memory word with bytes `a`, `b` in address order, as the host reads it. */
  function WordOf(host: Endian, a: Byte, b: Byte): Word16 {
    match host
    case Big => a as int * 0x100 + b as int
    case Little => a as int + b as int * 0x100
  }

  /** The bytes, in address order, of a 16-bit word the host stores. */
  function Store(host: Endian, w: Word16): (b: seq<Byte>)
    ensures |b| == 2
  {
    match host
    case Big => [w / 0x100, w % 0x100]
    case Little => [w % 0x100, w / 0x100]
  }

  /** Section 1 of RFC 1071: adjacent octets are paired, a last odd octet is padded with zero. */
  function Total(host: Endian, d: seq<Byte>): nat {
    if |d| == 0 then 0
    else if |d| == 1 then WordOf(host, d[0], 0)
    else WordOf(host, d[0], d[1]) + Total(host, d[2..])
  }

  /** Carries out of 16 bits are added back until none is left. */
  function EndAround(n: nat): nat {
    if n < 0x1_0000 then n else EndAround(n % 0x1_0000 + n / 0x1_0000)
  }

  /** The one's complement of the one's complement sum. */
  function Cksum(host: Endian, d: seq<Byte>): Word16 {
    assert EndAround(Total(host, d)) <= 0xffff by { var q := EndAroundQuotient(Total(host, d)); }
    0xffff - EndAround(Total(host, d))
  }

  /** The folded sum is congruent to the sum modulo 65535, and zero only for zero. */
  lemma {:induction false} EndAroundQuotient(n: nat) returns (q: nat)
    ensures n == EndAround(n) + 0xffff * q
    ensures 0 <= EndAround(n) <= 0xffff && (EndAround(n) == 0 <==> n == 0)
  {
    if n < 0x1_0000 {
      q := 0;
    } else {
      var hi := n / 0x1_0000;
      q := EndAroundQuotient(n % 0x1_0000 + hi);
      q := q + hi;
    }
  }

  lemma EndAroundUnique(n: nat, e: int, q: int)
    requires n > 0 && 1 <= e <= 0xffff && n == e + 0xffff * q
    ensures EndAround(n) == e
  {
    var p := EndAroundQuotient(n);
    assert EndAround(n) - e == 0xffff * (q - p);
    assert p == q;
  }

  /** One addition with immediate carry, as the loop does it. */
  function AddCarry(sum: Word16, w: Word16): Word16 {
    var s: int := sum + w;
    if s > 0xffff then s - 0xffff else s
  }

  lemma AddCarryIsEndAround(n: nat, w: Word16)
    ensures EndAround(n) < 0x1_0000
    ensures AddCarry(EndAround(n), w) == EndAround(n + w)
  {
    var q := EndAroundQuotient(n);
    var e := EndAround(n) + w as int;
    if e > 0 {
      if e > 0xffff {
        EndAroundUnique(n + w, e - 0xffff, q + 1);
      } else {
        EndAroundUnique(n + w, e, q);
      }
    }
  }

  lemma {:induction false} TotalConcat(host: Endian, d: seq<Byte>, e: seq<Byte>)
    requires |d| % 2 == 0
    ensures Total(host, d + e) == Total(host, d) + Total(host, e)
  {
    if |d| == 0 {
      assert d + e == e;
    } else {
      assert (d + e)[2..] == d[2..] + e;
      TotalConcat(host, d[2..], e);
    }
  }

  /** What the loop has summed after consuming `seen`. */
  ghost predicate Summed(host: Endian, seen: seq<Byte>, sum: Word16, odd: bool, pending: Byte) {
    && odd == (|seen| % 2 == 1)
    && (!odd ==> sum == EndAround(Total(host, seen)))
    && (odd ==> pending == seen[|seen| - 1] && sum == EndAround(Total(host, seen[..|seen| - 1])))
  }

  lemma SummedStep(host: Endian, seen: seq<Byte>, sum: Word16, pending: Byte, b: Byte)
    requires Summed(host, seen, sum, true, pending)
    ensures Summed(host, seen + [b], AddCarry(sum, WordOf(host, pending, b)), false, pending)
  {
    var front := seen[..|seen| - 1];
    assert seen + [b] == front + [pending, b];
    TotalConcat(host, front, [pending, b]);
    AddCarryIsEndAround(Total(host, front), WordOf(host, pending, b));
  }

  lemma SummedStart(host: Endian)
    ensures Summed(host, [], 0, false, 0)
  {
  }

  lemma SummedHalf(host: Endian, seen: seq<Byte>, sum: Word16, pending: Byte, b: Byte)
    requires Summed(host, seen, sum, false, pending)
    ensures Summed(host, seen + [b], sum, true, b)
  {
    assert (seen + [b])[..|seen|] == seen;
  }

  lemma SummedEnd(host: Endian, d: seq<Byte>, sum: Word16, odd: bool, pending: Byte)
    requires Summed(host, d, sum, odd, pending)
    ensures EndAround(Total(host, d)) == if odd then AddCarry(sum, WordOf(host, pending, 0)) else sum
  {
    if odd {
      var front := d[..|d| - 1];
      assert d == front + [pending];
      TotalConcat(host, front, [pending]);
      AddCarryIsEndAround(Total(host, front), WordOf(host, pending, 0));
    }
  }

  lemma FlattenNext(iov: seq<seq<Byte>>, i: nat)
    requires i < |iov|
    ensures Flatten(iov[..i + 1]) == Flatten(iov[..i]) + iov[i]
  {
    assert iov[..i + 1][..i] == iov[..i];
  }

  /** Over any segmentation the loop computes the checksum of the concatenated octets. */
  method InCksum(host: Endian, iov: seq<seq<Byte>>) returns (ck: Word16)
    ensures ck == Cksum(host, Flatten(iov))
  {
    assert Flatten(iov[..0]) == [];
    hide Summed, Total, EndAround, WordOf, Flatten;
    SummedStart(host);
    var sum: Word16 := 0;
    var w0: Byte := 0;
    var odd := false;
    for i := 0 to |iov|
      invariant Summed(host, Flatten(iov[..i]), sum, odd, w0)
    {
      ghost var front := Flatten(iov[..i]);
      assert front + iov[i][..0] == front;
      for j := 0 to |iov[i]|
        invariant Summed(host, front + iov[i][..j], sum, odd, w0)
      {
        ghost var seen := front + iov[i][..j];
        var b := iov[i][j];
        assert front + iov[i][..j + 1] == seen + [b];
        if odd {
          SummedStep(host, seen, sum, w0, b);
          sum := AddCarry(sum, WordOf(host, w0, b));
        } else {
          SummedHalf(host, seen, sum, w0, b);
          w0 := b;
        }
        odd := !odd;
      }
      FlattenNext(iov, i);
      assert iov[i][..|iov[i]|] == iov[i];
    }
    assert iov[..|iov|] == iov;
    SummedEnd(host, Flatten(iov), sum, odd, w0);
    if odd {
      sum := AddCarry(sum, WordOf(host, w0, 0));
    }
    ck := 0xffff - sum;
  }

  /** The IPv6 pseudo-header of section 8.1 of RFC 2460, as the code lays it out. */
  function PseudoHeader(src: Addr, dst: Addr, protocol: Byte, length: Word32): (h: seq<Byte>)
    ensures |h| == 40
  {
    Encode(src) + Encode(dst) + Put32(length) + Put32(protocol)
  }

  lemma {:induction false} FlattenPrepend(x: seq<Byte>, iov: seq<seq<Byte>>)
    ensures Flatten([x] + iov) == x + Flatten(iov)
  {
    if |iov| == 0 {
      assert [x] + iov == [x];
      assert Flatten([x][..0]) == [];
    } else {
      var n := |iov| - 1;
      assert ([x] + iov)[..n + 1] == [x] + iov[..n];
      FlattenPrepend(x, iov[..n]);
    }
  }

  method TeredoCksum(host: Endian, src: Addr, dst: Addr, protocol: Byte, data: seq<seq<Byte>>)
    returns (ck: Word16)
    requires |Flatten(data)| < 0x1_0000_0000
    ensures ck == Cksum(host, PseudoHeader(src, dst, protocol, |Flatten(data)|) + Flatten(data))
  {
    var plen := 0;
    for i := 0 to |data|
      invariant plen == |Flatten(data[..i])|
    {
      assert data[..i + 1][..i] == data[..i];
      plen := plen + |data[i]|;
    }
    assert data[..|data|] == data;
    var pseudo := Put32(plen) + Put32(protocol);
    var iov := [Encode(src)] + ([Encode(dst)] + ([pseudo] + data));
    FlattenPrepend(pseudo, data);
    FlattenPrepend(Encode(dst), [pseudo] + data);
    FlattenPrepend(Encode(src), [Encode(dst)] + ([pseudo] + data));
    assert Flatten(iov) == PseudoHeader(src, dst, protocol, plen) + Flatten(data);
    ck := InCksum(host, iov);
  }

  /** Reading the octets in the other order multiplies the sum by 256 modulo 65535. */
  lemma {:induction false} TotalSwapped(d: seq<Byte>) returns (q: int)
    ensures 0x100 * Total(Big, d) == Total(Little, d) + 0xffff * q
    ensures Total(Big, d) == 0 <==> Total(Little, d) == 0
  {
    if |d| == 0 {
      q := 0;
    } else if |d| == 1 {
      q := d[0];
    } else {
      var rest := TotalSwapped(d[2..]);
      q := rest + d[0];
    }
  }

  /** Modulo 65535, multiplying a non-zero word by 256 swaps its octets. */
  lemma SwapIsMultiplication(b: int, l: int, k: int)
    requires 1 <= b <= 0xffff && 1 <= l <= 0xffff
    requires 0x100 * b + 0xffff * k == l
    ensures l == b / 0x100 + 0x100 * (b % 0x100)
  {
    var s := b / 0x100 + 0x100 * (b % 0x100);
    assert s + 0xffff * (b / 0x100 + k) == l;
    assert 1 <= s <= 0xffff;
  }

  lemma SumsSwapped(d: seq<Byte>)
    ensures var b, l := EndAround(Total(Big, d)), EndAround(Total(Little, d));
            0 <= b <= 0xffff && l == b / 0x100 + 0x100 * (b % 0x100)
  {
    var q := TotalSwapped(d);
    var n, m := Total(Big, d), Total(Little, d);
    if n > 0 {
      var i := EndAroundQuotient(n);
      var j := EndAroundQuotient(m);
      SwapIsMultiplication(EndAround(n), EndAround(m), 0x100 * i - q - j);
    }
  }

  /** Section 2 of RFC 1071: the checksum field is the same whatever the host byte order. */
  lemma ByteOrderIndependent(d: seq<Byte>)
    ensures Store(Big, Cksum(Big, d)) == Store(Little, Cksum(Little, d))
  {
    SumsSwapped(d);
    var b := EndAround(Total(Big, d));
    ComplementOctets(b / 0x100, b % 0x100);
  }

  lemma ComplementOctets(hi: Byte, lo: Byte)
    ensures var big, little := 0xffff - (0x100 * hi as int + lo as int), 0xffff - (hi as int + 0x100 * lo as int);
            Store(Big, big) == Store(Little, little)
  {
    var big: int, little: int := 0xffff - (0x100 * hi as int + lo as int), 0xffff - (hi as int + 0x100 * lo as int);
    assert big == 0x100 * (0xff - hi as int) + (0xff - lo as int);
    assert little == 0x100 * (0xff - lo as int) + (0xff - hi as int);
    assert big / 0x100 == 0xff - hi as int && big % 0x100 == 0xff - lo as int;
    assert little / 0x100 == 0xff - lo as int && little % 0x100 == 0xff - hi as int;
  }

  lemma TotalAround(host: Endian, pre: seq<Byte>, field: seq<Byte>, post: seq<Byte>)
    requires |pre| % 2 == 0 && |field| == 2
    ensures Total(host, pre + field + post) == Total(host, pre) + Total(host, field) + Total(host, post)
  {
    hide Total;
    TotalConcat(host, pre + field, post);
    TotalConcat(host, pre, field);
  }

  lemma TotalOfStored(host: Endian, w: Word16)
    ensures Total(host, Store(host, w)) == w
  {
    assert Store(host, w)[2..] == [];
  }

  lemma TotalOfNothing(host: Endian)
    ensures Total(host, [0, 0]) == 0
  {
    assert [0, 0][2..] == [];
  }

  /** A packet with its checksum stored over a zero field at an even offset sums to zero. */
  lemma ChecksumVerifies(host: Endian, pre: seq<Byte>, post: seq<Byte>)
    requires |pre| % 2 == 0
    ensures Cksum(host, pre + Store(host, Cksum(host, pre + [0, 0] + post)) + post) == 0
  {
    hide Total, Store, EndAround;
    var blank := pre + [0, 0] + post;
    var field := Store(host, Cksum(host, blank));
    TotalAround(host, pre, [0, 0], post);
    TotalAround(host, pre, field, post);
    TotalOfNothing(host);
    TotalOfStored(host, Cksum(host, blank));
    AddCarryIsEndAround(Total(host, blank), Cksum(host, blank));
  }
}
