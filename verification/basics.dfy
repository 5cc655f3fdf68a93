/** Machine integers, bytes, failure-compatible wrappers and little-endian
    encoding shared by the hash, the container decoder and the asset index. */
module Basics {

  /** A byte as the hash sees it: a bit-vector, so that it can be shifted into a word. */
  type u8 = bv8

  /** A byte of a file, as a number. */
  type byte = b: int | 0 <= b < 256

  const U32_LIMIT: int := 0x1_0000_0000
  const U64_LIMIT: int := 0x1_0000_0000_0000_0000

  type u32 = x: int | 0 <= x < 0x1_0000_0000
  type u64 = x: int | 0 <= x < 0x1_0000_0000_0000_0000

  datatype Option<+T> = None | Some(value: T) {
    predicate IsFailure() { None? }

    function PropagateFailure<U>(): Option<U>
      requires None?
    {
      None
    }

    function Extract(): T
      requires Some?
    {
      value
    }
  }

  datatype Result<+T, +E> = Success(value: T) | Failure(error: E)

  /** 256 to the power n. */
  function Pow256(n: nat): (p: nat)
    ensures p > 0
  {
    if n == 0 then 1 else 256 * Pow256(n - 1)
  }

  /** The unsigned integer whose little-endian encoding is `s` (least significant byte first). */
  function LittleEndian(s: seq<byte>): nat
  {
    if |s| == 0 then 0 else s[0] + 256 * LittleEndian(s[1..])
  }

  /** The `n`-byte little-endian encoding of `v`. */
  function ToLittleEndian(v: nat, n: nat): (s: seq<byte>)
    requires v < Pow256(n)
    ensures |s| == n
  {
    if n == 0 then [] else [v % 256] + ToLittleEndian(v / 256, n - 1)
  }

  /** `n` zero bytes, the value of skipped padding in an encoding. */
  function Zeros(n: nat): (s: seq<byte>)
    ensures |s| == n && forall i | 0 <= i < n :: s[i] == 0
  {
    seq(n, _ => 0)
  }

  lemma {:induction false} LittleEndianBound(s: seq<byte>)
    ensures LittleEndian(s) < Pow256(|s|)
  {
    if |s| > 0 {
      LittleEndianBound(s[1..]);
    }
  }

  lemma Pow256Values()
    ensures Pow256(4) == U32_LIMIT && Pow256(8) == U64_LIMIT
  {
    assert Pow256(2) == 0x1_0000;
    assert Pow256(4) == 0x1_0000_0000 by {
      assert Pow256(3) == 0x100_0000;
    }
    assert Pow256(6) == 0x1_0000_0000_0000 by {
      assert Pow256(5) == 0x100_0000_0000;
    }
    assert Pow256(7) == 0x100_0000_0000_0000;
  }

  /** Decoding an encoding gives back the value. */
  lemma {:induction false} LittleEndianOfToLittleEndian(v: nat, n: nat)
    requires v < Pow256(n)
    ensures LittleEndian(ToLittleEndian(v, n)) == v
  {
    if n > 0 {
      var s := ToLittleEndian(v, n);
      LittleEndianOfToLittleEndian(v / 256, n - 1);
      assert s[1..] == ToLittleEndian(v / 256, n - 1);
    }
  }

  /** Encoding a decoded byte string gives back the bytes. */
  lemma {:induction false} ToLittleEndianOfLittleEndian(s: seq<byte>)
    ensures LittleEndian(s) < Pow256(|s|)
    ensures ToLittleEndian(LittleEndian(s), |s|) == s
  {
    LittleEndianBound(s);
    if |s| > 0 {
      ToLittleEndianOfLittleEndian(s[1..]);
      var v := LittleEndian(s);
      assert v % 256 == s[0] && v / 256 == LittleEndian(s[1..]);
    }
  }

  /** A slice of a slice is a slice of the whole. */
  lemma SliceOfSlice(s: seq<int>, a: nat, b: nat, c: nat, d: nat)
    requires a + d <= b <= |s| && c <= d
    ensures s[a..b][c..d] == s[a + c..a + d]
  {
    var l, r := s[a..b][c..d], s[a + c..a + d];
    forall t | 0 <= t < |l|
      ensures l[t] == r[t]
    {
    }
  }

  /** A slice within the left operand of a concatenation. */
  lemma SliceOfConcatLeft(x: seq<int>, y: seq<int>, a: nat, b: nat)
    requires a <= b <= |x|
    ensures (x + y)[a..b] == x[a..b]
  {
  }

  /** A slice within the right operand of a concatenation. */
  lemma SliceOfConcatRight(x: seq<int>, y: seq<int>, a: nat, b: nat)
    requires a <= b <= |y|
    ensures (x + y)[|x| + a..|x| + b] == y[a..b]
  {
  }

  /** A slice inside the first part of `(x + y)[..len] + z`. */
  lemma SliceOfFirstPart(x: seq<int>, y: seq<int>, z: seq<int>, len: nat, a: nat, b: nat)
    requires a <= b <= |x| && b <= len <= |x| + |y|
    ensures ((x + y)[..len] + z)[a..b] == x[a..b]
  {
    SliceOfConcatLeft((x + y)[..len], z, a, b);
    SliceOfSlice(x + y, 0, len, a, b);
    SliceOfConcatLeft(x, y, a, b);
  }

  /** A slice inside the second part of `(x + y)[..len] + z`. */
  lemma SliceOfSecondPart(x: seq<int>, y: seq<int>, z: seq<int>, len: nat, a: nat, b: nat)
    requires |x| + a <= |x| + b <= len <= |x| + |y|
    ensures ((x + y)[..len] + z)[|x| + a..|x| + b] == y[a..b]
  {
    SliceOfConcatLeft((x + y)[..len], z, |x| + a, |x| + b);
    SliceOfSlice(x + y, 0, len, |x| + a, |x| + b);
    SliceOfConcatRight(x, y, a, b);
  }
}
