/** Streaming MD5 (RFC 1321) against its one-shot definition, for any compression function. */
module Md5 {
  import opened Bytes

  /** The four chaining words. */
  datatype Chain = Chain(a: Word32, b: Word32, c: Word32, d: Word32)

  /** Section 3.4: the processing of one 64-byte block. */
  type Compression = (Chain, seq<Byte>) -> Chain

  const TWO32 := 0x1_0000_0000
  const TWO64 := 0x1_0000_0000_0000_0000

  /** Section 3.3. */
  const INITIAL := Chain(0x67452301, 0xefcdab89, 0x98badcfe, 0x10325476)

  function Le32(x: Word32): (b: seq<Byte>)
    ensures |b| == 4
  {
    [x % 0x100, x / 0x100 % 0x100, x / 0x1_0000 % 0x100, x / 0x100_0000]
  }

  function Le64(n: nat): (b: seq<Byte>)
    ensures |b| == 8
  {
    Le32(n % TWO32) + Le32(n / TWO32 % TWO32)
  }

  /** Chaining value after the full blocks of `m`; a last partial block is not absorbed. */
  function Absorb(f: Compression, h: Chain, m: seq<Byte>): Chain
    decreases |m|
  {
    if |m| < 64 then h else Absorb(f, f(h, m[..64]), m[64..])
  }

  lemma PadFills(n: nat)
    ensures (n + 1 + (55 - n) % 64 + 8) % 64 == 0
  {
    var k := (55 - n) / 64;
    assert n + 1 + (55 - n) % 64 + 8 == 64 * (1 - k);
  }

  /** Sections 3.1 and 3.2: a one bit, zeros up to 56 modulo 64 bytes, the length in bits. */
  function Pad(m: seq<Byte>): (p: seq<Byte>)
    ensures |p| % 64 == 0
    ensures m < p && |p| - |m| <= 72
  {
    PadFills(|m|);
    m + [0x80] + Zeros((55 - |m|) % 64) + Le64(8 * |m|)
  }

  function Digest(f: Compression, m: seq<Byte>): (d: seq<Byte>)
    ensures |d| == 16
  {
    var h := Absorb(f, INITIAL, Pad(m));
    Le32(h.a) + Le32(h.b) + Le32(h.c) + Le32(h.d)
  }

  /** `n` bytes are full blocks. */
  ghost predicate Aligned(n: int) { n % 64 == 0 }

  lemma {:induction false} AbsorbConcat(f: Compression, h: Chain, x: seq<Byte>, y: seq<Byte>)
    requires Aligned(|x|)
    ensures Absorb(f, h, x + y) == Absorb(f, Absorb(f, h, x), y)
    decreases |x|
  {
    if |x| == 0 {
      assert x + y == y;
    } else {
      assert (x + y)[..64] == x[..64] && (x + y)[64..] == x[64..] + y;
      AbsorbConcat(f, f(h, x[..64]), x[64..], y);
    }
  }

  lemma OneBlock(f: Compression, h: Chain, block: seq<Byte>)
    requires |block| == 64
    ensures Absorb(f, h, block) == f(h, block)
  {
    assert block[..64] == block && block[64..] == [];
  }

  /** A last partial block does not count. */
  lemma AbsorbSplit(f: Compression, h: Chain, full: seq<Byte>, t: seq<Byte>)
    requires Aligned(|full|) && |t| < 64
    ensures Absorb(f, h, full + t) == Absorb(f, h, full)
  {
    AbsorbConcat(f, h, full, t);
  }

  /** What is absorbed of `m` followed by the first `p` bytes of `data`. */
  ghost function After(f: Compression, m: seq<Byte>, data: seq<Byte>, p: nat): Chain
    requires p <= |data|
  {
    Absorb(f, INITIAL, m + data[..p])
  }

  /** The bytes of `m` that wait in the buffer. */
  ghost function Tail(m: seq<Byte>): (t: seq<Byte>) {
    m[|m| - |m| % 64..]
  }

  lemma Floor64(n: nat)
    ensures Aligned(n - n % 64)
  {
  }

  lemma Plus64(a: nat, b: nat)
    requires Aligned(a)
    ensures (a + b) % 64 == b % 64
  {
    var k := a / 64;
    assert a + b == b + 64 * k;
  }

  lemma FillsBlock(n: nat, k: nat)
    requires n % 64 + k == 64
    ensures Aligned(n + k)
  {
    Floor64(n);
    Plus64(n - n % 64, 64);
  }

  lemma PadCount(a: nat, b: nat)
    requires a % 64 == b % 64
    ensures (55 - a) % 64 == (55 - b) % 64
  {
    var d := b / 64 - a / 64;
    assert 55 - a == 55 - b + 64 * d;
  }

  lemma Tails(m: seq<Byte>)
    ensures |Tail(m)| == |m| % 64
  {
  }

  /** Full blocks and the tail. */
  lemma Split(m: seq<Byte>) returns (full: seq<Byte>)
    ensures m == full + Tail(m) && Aligned(|full|) && |Tail(m)| < 64
  {
    var n := |m| - |m| % 64;
    Floor64(|m|);
    full := m[..n];
    assert m == m[..n] + m[n..];
  }

  lemma TailOf(full: seq<Byte>, t: seq<Byte>)
    requires Aligned(|full|) && |t| < 64
    ensures Tail(full + t) == t
  {
    Plus64(|full|, |t|);
    assert (full + t)[|full|..] == t;
  }

  lemma Assoc(a: seq<Byte>, b: seq<Byte>, c: seq<Byte>)
    ensures (a + b) + c == a + (b + c)
  {
  }

  lemma ShortAfter(f: Compression, full: seq<Byte>, t: seq<Byte>, d: seq<Byte>)
    requires Aligned(|full|) && |t| + |d| < 64
    ensures Absorb(f, INITIAL, (full + t) + d) == Absorb(f, INITIAL, full + t)
    ensures Tail((full + t) + d) == t + d
  {
    hide Absorb, Tail, Aligned;
    Assoc(full, t, d);
    AbsorbSplit(f, INITIAL, full, t);
    AbsorbSplit(f, INITIAL, full, t + d);
    TailOf(full, t + d);
  }

  lemma AppendShort(f: Compression, m: seq<Byte>, data: seq<Byte>)
    requires |Tail(m)| + |data| < 64
    ensures Absorb(f, INITIAL, m + data) == Absorb(f, INITIAL, m)
    ensures Tail(m + data) == Tail(m) + data
  {
    var full := Split(m);
    hide Absorb, Tail, Aligned;
    ShortAfter(f, full, Tail(m), data);
  }

  lemma BlockAfter(f: Compression, full: seq<Byte>, t: seq<Byte>, d: seq<Byte>)
    requires Aligned(|full|) && |t| < 64 && |t| + |d| == 64
    ensures Absorb(f, INITIAL, (full + t) + d) == f(Absorb(f, INITIAL, full + t), t + d)
  {
    hide Absorb, Aligned;
    Assoc(full, t, d);
    AbsorbSplit(f, INITIAL, full, t);
    AbsorbConcat(f, INITIAL, full, t + d);
    OneBlock(f, Absorb(f, INITIAL, full), t + d);
  }

  lemma AppendFirst(f: Compression, m: seq<Byte>, data: seq<Byte>, copy: nat)
    requires |Tail(m)| + copy == 64 && copy <= |data|
    ensures After(f, m, data, copy) == f(Absorb(f, INITIAL, m), Tail(m) + data[..copy])
    ensures Aligned(|m| + copy)
  {
    Tails(m);
    FillsBlock(|m|, copy);
    var full := Split(m);
    hide Absorb, Tail, Aligned;
    BlockAfter(f, full, Tail(m), data[..copy]);
  }

  lemma AppendBlock(f: Compression, m: seq<Byte>, data: seq<Byte>, p: nat)
    requires Aligned(|m| + p) && p + 64 <= |data|
    ensures After(f, m, data, p + 64) == f(After(f, m, data, p), data[p..p + 64])
    ensures Aligned(|m| + p + 64)
  {
    Plus64(|m| + p, 64);
    assert Aligned(|m| + p + 64);
    hide Absorb, Aligned;
    var x, block := m + data[..p], data[p..p + 64];
    assert m + data[..p + 64] == x + block;
    AbsorbConcat(f, INITIAL, x, block);
    OneBlock(f, Absorb(f, INITIAL, x), block);
  }

  lemma Join(m: seq<Byte>, data: seq<Byte>, p: nat)
    requires p <= |data|
    ensures m + data == (m + data[..p]) + data[p..]
  {
  }

  lemma AppendLast(f: Compression, m: seq<Byte>, data: seq<Byte>, p: nat)
    requires Aligned(|m| + p) && p <= |data| < p + 64
    ensures Absorb(f, INITIAL, m + data) == After(f, m, data, p)
    ensures Tail(m + data) == data[p..]
  {
    hide Absorb, Tail, Aligned;
    var x, t := m + data[..p], data[p..];
    Join(m, data, p);
    assert |x| == |m| + p && |t| < 64;
    AbsorbSplit(f, INITIAL, x, t);
    TailOf(x, t);
  }

  /** The two count words hold the length in bits modulo 2^64. */
  ghost predicate Counts(lo: Word32, hi: Word32, length: nat) {
    lo + 0x1_0000_0000 * hi == 8 * length % TWO64
  }

  lemma SplitBits(bits: nat, lo: Word32, c: nat)
    requires bits == lo + 0x1_0000_0000 * c
    ensures bits % 0x1_0000_0000 == lo && bits / 0x1_0000_0000 == c
  {
  }

  lemma CountsHigh(lo: Word32, hi: Word32, length: nat) returns (k: nat)
    requires Counts(lo, hi, length)
    ensures 8 * length == lo + 0x1_0000_0000 * (hi + 0x1_0000_0000 * k)
  {
    k := 8 * length / 0x1_0000_0000_0000_0000;
  }

  lemma CountsOffset(lo: Word32, hi: Word32, length: nat)
    requires Counts(lo, hi, length)
    ensures lo / 8 % 64 == length % 64
  {
    var k := CountsHigh(lo, hi, length);
    Eighth(lo, hi + 0x1_0000_0000 * k, length);
  }

  lemma Eighth(lo: Word32, c: nat, length: nat)
    requires 8 * length == lo + 0x1_0000_0000 * c
    ensures lo / 8 % 64 == length % 64
  {
    var r := length - 0x2000_0000 * c;
    assert lo == 8 * r && lo / 8 == r;
    assert length == r + 64 * (0x80_0000 * c);
  }

  lemma CountsBytes(lo: Word32, hi: Word32, length: nat)
    requires Counts(lo, hi, length)
    ensures Le32(lo) + Le32(hi) == Le64(8 * length)
  {
    var k := CountsHigh(lo, hi, length);
    SplitBits(8 * length, lo, hi + 0x1_0000_0000 * k);
    SplitBits(hi + 0x1_0000_0000 * k, hi, k);
  }

  lemma CountsFrom(lo: Word32, hi: Word32, length: nat, k: nat)
    requires 8 * length == lo + 0x1_0000_0000 * (hi + 0x1_0000_0000 * k)
    ensures Counts(lo, hi, length)
  {
    assert 8 * length == lo + 0x1_0000_0000 * hi + TWO64 * k;
  }

  lemma CountsAdd(lo: Word32, hi: Word32, length: nat, n: nat, lo': Word32, hi': Word32)
    requires Counts(lo, hi, length) && n < 0x1000_0000
    requires lo' == (lo + 8 * n) % TWO32
    requires hi' == if lo' < 8 * n then (hi + 1) % TWO32 else hi
    ensures Counts(lo', hi', length + n)
  {
    var k := CountsHigh(lo, hi, length);
    if lo + 8 * n < 0x1_0000_0000 {
      CountsFrom(lo', hi', length + n, k);
    } else {
      assert lo' == lo + 8 * n - 0x1_0000_0000;
      CountsFrom(lo', hi', length + n, if hi == 0xffff_ffff then k + 1 else k);
    }
  }

  /** What `md5_finish` appends is the padding. */
  lemma PadShape(m: seq<Byte>, lo: Word32, hi: Word32)
    requires Counts(lo, hi, |m|)
    ensures Pad(m) == m + ([0x80] + Zeros(63))[..(55 - lo / 8) % 64 + 1] + (Le32(lo) + Le32(hi))
  {
    hide Counts, Le32;
    CountsOffset(lo, hi, |m|);
    CountsBytes(lo, hi, |m|);
    PadCount(lo / 8, |m|);
    var n := (55 - |m|) % 64;
    assert ([0x80] + Zeros(63))[..n + 1] == [0x80] + Zeros(n);
  }

  class Context {
    const process: Compression
    var count0: Word32
    var count1: Word32
    var abcd: Chain
    const buf: array<Byte>
    /** Everything appended so far. */
    ghost var message: seq<Byte>

    ghost predicate Valid()
      reads this, buf
    {
      && Counts(count0, count1, |message|)
      && Holds(message)
    }

    /** The full blocks of `m` are in the chaining words and its tail is in the buffer. */
    ghost predicate Holds(m: seq<Byte>)
      reads `abcd, buf
    {
      && buf.Length == 64
      && abcd == Absorb(process, INITIAL, m)
      && |Tail(m)| < 64 && buf[..|Tail(m)|] == Tail(m)
    }

    constructor (f: Compression)
      ensures Valid() && message == [] && process == f && fresh(buf)
    {
      process := f;
      count0, count1 := 0, 0;
      abcd := INITIAL;
      buf := new Byte[64];
      message := [];
    }

    /** `md5_init` on a context in use. */
    method Init()
      requires Valid()
      modifies this
      ensures Valid() && message == []
    {
      count0, count1 := 0, 0;
      abcd := INITIAL;
      message := [];
    }

    /** Updates the message length. */
    method CountBits(nbytes: nat)
      requires Counts(count0, count1, |message|) && nbytes < 0x1000_0000
      modifies `count0, `count1
      ensures Counts(count0, count1, |message| + nbytes)
    {
      var nbits: Word32 := 8 * nbytes;
      count1 := (count1 + nbytes / 0x2000_0000) % TWO32;
      count0 := (count0 + nbits) % TWO32;
      if count0 < nbits {
        count1 := (count1 + 1) % TWO32;
      }
      CountsAdd(old(count0), old(count1), |message|, nbytes, count0, count1);
    }

    method Fill(at: nat, data: seq<Byte>)
      requires at + |data| <= buf.Length
      modifies buf
      ensures buf[..at] == old(buf[..at])
      ensures buf[at..at + |data|] == data
    {
      forall i | 0 <= i < |data| {
        buf[at + i] := data[i];
      }
    }

    /** Completes a partial block; `p` is how much of `data` went into it. */
    method FirstBlock(data: seq<Byte>, offset: nat) returns (done: bool, p: nat)
      requires Holds(message) && offset == |Tail(message)|
      modifies `abcd, buf
      ensures done ==> Holds(message + data)
      ensures !done ==> p <= |data| && Aligned(|message| + p)
      ensures !done ==> abcd == After(process, message, data, p)
    {
      done, p := false, 0;
      assert offset == 0 ==> Aligned(|message| + p) by { Tails(message); }
      hide Absorb, Tail, Aligned;
      if offset != 0 {
        var copy := if offset + |data| > 64 then 64 - offset else |data|;
        Fill(offset, data[..copy]);
        assert buf[..offset + copy] == Tail(message) + data[..copy];
        if offset + copy < 64 {
          AppendShort(process, message, data);
          done := true;
          return;
        }
        AppendFirst(process, message, data, copy);
        p := copy;
        assert buf[..] == buf[..64];
        abcd := process(abcd, buf[..]);
      } else {
        assert message + data[..0] == message;
      }
    }

    /** Processes the full blocks and keeps the last partial one. */
    method Blocks(data: seq<Byte>, start: nat)
      requires buf.Length == 64
      requires start <= |data| && Aligned(|message| + start)
      requires abcd == After(process, message, data, start)
      modifies `abcd, buf
      ensures Holds(message + data)
    {
      hide Absorb, Tail, Aligned;
      var p := start;
      while |data| - p >= 64
        invariant p <= |data| && Aligned(|message| + p)
        invariant abcd == After(process, message, data, p)
      {
        AppendBlock(process, message, data, p);
        abcd := process(abcd, data[p..p + 64]);
        p := p + 64;
      }
      AppendLast(process, message, data, p);
      if p < |data| {
        Fill(0, data[p..]);
      }
      assert buf[..|data| - p] == data[p..];
    }

    method Append(data: seq<Byte>)
      requires Valid() && |data| < 0x1000_0000
      modifies this, buf
      ensures Valid() && message == old(message) + data
    {
      hide Absorb, Tail, Aligned, Counts;
      var offset := count0 / 8 % 64;
      CountsOffset(count0, count1, |message|);
      Tails(message);
      if |data| == 0 {
        assert message + data == message;
        return;
      }
      CountBits(|data|);
      var done, p := FirstBlock(data, offset);
      if !done {
        Blocks(data, p);
      }
      assert |message + data| == |message| + |data|;
      message := message + data;
    }

    method Finish() returns (digest: seq<Byte>)
      requires Valid()
      modifies this, buf
      ensures digest == Digest(process, old(message))
      ensures Valid()
    {
      hide Absorb, Counts, Le32;
      ghost var m := message;
      var data := Le32(count0) + Le32(count1);
      var padding := [0x80] + Zeros(63);
      var n := (55 - count0 / 8) % 64 + 1;
      PadShape(m, count0, count1);
      Append(padding[..n]);
      Append(data);
      digest := Le32(abcd.a) + Le32(abcd.b) + Le32(abcd.c) + Le32(abcd.d);
    }

    /** Starts over, appends the segments one after the other and finishes. */
    method Pass(segments: seq<seq<Byte>>) returns (digest: seq<Byte>)
      requires Valid()
      requires forall s :: s in segments ==> |s| < 0x1000_0000
      modifies this, buf
      ensures Valid()
      ensures digest == Digest(process, Flatten(segments))
    {
      Init();
      for i := 0 to |segments|
        invariant Valid() && message == Flatten(segments[..i])
      {
        assert segments[..i + 1][..i] == segments[..i];
        Append(segments[i]);
      }
      assert segments[..|segments|] == segments;
      digest := Finish();
    }
  }

  /** Whatever the segmentation, streaming gives the one-shot digest. */
  method Stream(f: Compression, segments: seq<seq<Byte>>) returns (digest: seq<Byte>)
    requires forall s :: s in segments ==> |s| < 0x1000_0000
    ensures digest == Digest(f, Flatten(segments))
  {
    var ctx := new Context(f);
    digest := ctx.Pass(segments);
  }
}
