/** Octets, network-order words and the option type shared by all modules. */
module Bytes {

  type Byte = x: int | 0 <= x < 0x100
  type Word16 = x: int | 0 <= x < 0x1_0000
  type Word32 = x: int | 0 <= x < 0x1_0000_0000

  datatype Option<+T> = None | Some(value: T)

  /** Byte order of the machine that runs the code. */
  datatype Endian = Big | Little

  function Put16(x: Word16): (b: seq<Byte>)
    ensures |b| == 2
  {
    [x / 0x100, x % 0x100]
  }

  function Put32(x: Word32): (b: seq<Byte>)
    ensures |b| == 4
  {
    Put16(x / 0x1_0000) + Put16(x % 0x1_0000)
  }

  function Get16(b: seq<Byte>): Word16
    requires |b| == 2
  {
    b[0] as int * 0x100 + b[1] as int
  }

  function Get32(b: seq<Byte>): Word32
    requires |b| == 4
  {
    Get16(b[..2]) as int * 0x1_0000 + Get16(b[2..]) as int
  }

  /** Words survive being written to the wire and read back, in both directions. */
  lemma Words16(x: Word16, b: seq<Byte>)
    requires |b| == 2
    ensures Get16(Put16(x)) == x
    ensures Put16(Get16(b)) == b
  {
  }

  lemma Words32(x: Word32, b: seq<Byte>)
    requires |b| == 4
    ensures Get32(Put32(x)) == x
    ensures Put32(Get32(b)) == b
  {
    var p := Put32(x);
    assert p[..2] == Put16(x / 0x1_0000) && p[2..] == Put16(x % 0x1_0000);
    Words16(x / 0x1_0000, b[..2]);
    Words16(x % 0x1_0000, b[2..]);
    assert b == b[..2] + b[2..];
    var hi, lo := Get16(b[..2]), Get16(b[2..]);
    assert Get32(b) / 0x1_0000 == hi && Get32(b) % 0x1_0000 == lo;
  }

  lemma SliceOfSlice<T>(s: seq<T>, a: nat, b: nat, i: nat, j: nat)
    requires a <= b <= |s| && i <= j <= b - a
    ensures s[a..b][i..j] == s[a + i..a + j]
  {
    assert forall k :: 0 <= k < j - i ==> s[a..b][i..j][k] == s[a..b][i + k] == s[a + i + k];
  }

  /** The octets of a scatter-gather array, in order. */
  function Flatten(iov: seq<seq<Byte>>): seq<Byte> {
    if |iov| == 0 then [] else Flatten(iov[..|iov| - 1]) + iov[|iov| - 1]
  }

  function Zeros(n: nat): (z: seq<Byte>)
    ensures |z| == n && forall i :: 0 <= i < n ==> z[i] == 0
  {
    seq(n, _ => 0)
  }
}
