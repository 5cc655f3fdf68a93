/** The engine's name hash (MurmurHash64A with seed 0) and the identity hasher
    used for maps keyed by 64-bit asset ids (src/hash.rs). */
module Hash {
  import opened Basics

  /** The multiplier of MurmurHash64A. */
  const M: bv64 := 0xc6a4a7935bd1e995

  /** Rust's `len as u64`: the length reduced modulo 2^64. */
  function LengthWord(n: nat): bv64
  {
    (n % U64_LIMIT) as bv64
  }

  /** Up to eight bytes assembled into a word, least significant byte first. */
  function Block(s: seq<u8>): bv64
    requires |s| <= 8
  {
    if |s| == 0 then 0 else (s[0] as bv64) | (Block(s[1..]) << 8)
  }

  /** Byte `j` of `s`, or zero past its end. */
  function ByteAt(s: seq<u8>, j: nat): u8
  {
    if j < |s| then s[j] else 0
  }

  /** The word shifted right by `8 * j` bits, one byte at a time. */
  function ShiftBytes(w: bv64, j: nat): bv64
  {
    if j == 0 then w else ShiftBytes(w >> 8, j - 1)
  }

  /** Rust's `wrapping_mul` on `u64`: the product modulo 2^64. */
  function WrappingMul(a: bv64, b: bv64): bv64
  {
    a * b
  }

  /** One `x ^= x >> r` round, with the shift r = 47 written out. */
  function XorShift(x: bv64): bv64
  {
    x ^ (x >> 47)
  }

  function Xor(a: bv64, b: bv64): bv64
  {
    a ^ b
  }

  /** Folds one 8-byte block `k` into the running hash `h`. */
  function MixBlock(h: bv64, k: bv64): bv64
  {
    WrappingMul(Xor(h, WrappingMul(XorShift(WrappingMul(k, M)), M)), M)
  }

  /** The running hash after the first `n` full blocks of `key`. */
  function Blocks(h: bv64, key: seq<u8>, n: nat): bv64
    requires 8 * n <= |key|
  {
    if n == 0 then h else MixBlock(Blocks(h, key, n - 1), Block(key[8 * (n - 1)..8 * n]))
  }

  /** Folds the final partial block (fewer than eight bytes); nothing when it is empty. */
  function Tail(h: bv64, rest: seq<u8>): bv64
    requires |rest| < 8
  {
    if |rest| == 0 then h else WrappingMul(Xor(h, Block(rest)), M)
  }

  /** The two final shift/multiply rounds. */
  function Avalanche(h: bv64): bv64
  {
    XorShift(WrappingMul(XorShift(h), M))
  }

  /** Reference definition of the name hash: a fold over the 8-byte blocks, the tail, the final mix. */
  function MurmurHash64A(key: seq<u8>): bv64
  {
    var n := |key| / 8;
    Avalanche(Tail(Blocks(WrappingMul(LengthWord(|key|), M), key, n), key[8 * n..]))
  }

  /** `Block` is the little-endian assembly of its bytes: byte `j` of the word is `s[j]`. */
  lemma {:induction false} BlockIsLittleEndian(s: seq<u8>, j: nat)
    requires j < |s| <= 8
    ensures ShiftBytes(Block(s), j) & 0xFF == s[j] as bv64
  {
    if j > 0 {
      BlockBelow(s[1..]);
      assert Block(s) >> 8 == Block(s[1..]);
      assert ShiftBytes(Block(s), j) == ShiftBytes(Block(s[1..]), j - 1);
      BlockIsLittleEndian(s[1..], j - 1);
    }
  }

  /** A block of at most seven bytes leaves the top byte clear. */
  lemma BlockBelow(s: seq<u8>)
    requires |s| <= 7
    ensures Block(s) >> 56 == 0
  {
    BlockUnrolled(s);
    assert ByteAt(s, 7) == 0;
  }

  /** Eight bytes or-ed together at bit offsets 0, 8, ..., 56, as the source assembles a block. */
  function Word(b0: u8, b1: u8, b2: u8, b3: u8, b4: u8, b5: u8, b6: u8, b7: u8): bv64
  {
    (b0 as bv64) | ((b1 as bv64) << 8) | ((b2 as bv64) << 16) | ((b3 as bv64) << 24)
    | ((b4 as bv64) << 32) | ((b5 as bv64) << 40) | ((b6 as bv64) << 48) | ((b7 as bv64) << 56)
  }

  lemma ShiftWord(b0: u8, b1: u8, b2: u8, b3: u8, b4: u8, b5: u8, b6: u8, b7: u8, x: bv64)
    requires x == Word(b1, b2, b3, b4, b5, b6, b7, 0)
    ensures (b0 as bv64) | (x << 8) == Word(b0, b1, b2, b3, b4, b5, b6, b7)
  {
  }

  /** `Block` written out as the source assembles it: byte `j` or-ed in at bit `8 * j`. */
  lemma {:induction false} BlockUnrolled(s: seq<u8>)
    requires |s| <= 8
    ensures Block(s) == Word(ByteAt(s, 0), ByteAt(s, 1), ByteAt(s, 2), ByteAt(s, 3),
                             ByteAt(s, 4), ByteAt(s, 5), ByteAt(s, 6), ByteAt(s, 7))
  {
    if |s| == 0 {
      assert ByteAt(s, 0) == 0 && ByteAt(s, 1) == 0 && ByteAt(s, 2) == 0 && ByteAt(s, 3) == 0;
      assert ByteAt(s, 4) == 0 && ByteAt(s, 5) == 0 && ByteAt(s, 6) == 0 && ByteAt(s, 7) == 0;
      assert Word(0, 0, 0, 0, 0, 0, 0, 0) == 0;
    } else {
      var t := s[1..];
      BlockUnrolled(t);
      assert ByteAt(t, 0) == ByteAt(s, 1) && ByteAt(t, 1) == ByteAt(s, 2);
      assert ByteAt(t, 2) == ByteAt(s, 3) && ByteAt(t, 3) == ByteAt(s, 4);
      assert ByteAt(t, 4) == ByteAt(s, 5) && ByteAt(t, 5) == ByteAt(s, 6);
      assert ByteAt(t, 6) == ByteAt(s, 7) && ByteAt(t, 7) == 0;
      assert ByteAt(s, 0) == s[0];
      ShiftWord(ByteAt(s, 0), ByteAt(s, 1), ByteAt(s, 2), ByteAt(s, 3),
                ByteAt(s, 4), ByteAt(s, 5), ByteAt(s, 6), ByteAt(s, 7), Block(t));
    }
  }

  /** The empty name hashes to 0. */
  lemma EmptyKeyHashesToZero()
    ensures MurmurHash64A([]) == 0
  {
  }

  /** The tail multiply by `M` happens exactly when the length is not a multiple of 8. */
  lemma TailMultiplyOnlyForPartialBlock(key: seq<u8>)
    ensures var n := |key| / 8; var h := Blocks(WrappingMul(LengthWord(|key|), M), key, n);
      && (|key| % 8 == 0 ==> MurmurHash64A(key) == Avalanche(h))
      && (|key| % 8 != 0 ==> MurmurHash64A(key) == Avalanche(WrappingMul(Xor(h, Block(key[8 * n..])), M)))
  {
  }

  /** Rust's `len - (len & 7)`: the end of the last full 8-byte block. */
  function FullBlocksEnd(len: nat): (e: nat)
    ensures e % 8 == 0 && e <= len < e + 8
    ensures e == 8 * (len / 8)
  {
    len - len % 8
  }

  lemma NextBlockFits(i: nat, blocks: nat, len: nat)
    requires i == 8 * blocks <= FullBlocksEnd(len) && i != FullBlocksEnd(len)
    ensures i + 8 <= FullBlocksEnd(len) <= len
  {
  }

  /** `stingray_hash`: the loop over 8-byte blocks, the tail xors, the final mix, as the source does them. */
  method StingrayHash(key: seq<u8>) returns (h: bv64)
    ensures h == MurmurHash64A(key)
  {
    var len := |key|;
    h := WrappingMul(LengthWord(len), M);
    var i;
    h, i := MixBlocks(h, key);
    var over := len % 8;
    h := FinishHash(h, key, i, over, len / 8);
  }

  /** The block loop of `stingray_hash`: starting from `h0`, fold in all `len / 8` full
      8-byte blocks, stopping at `len - (len & 7)`. */
  method MixBlocks(h0: bv64, key: seq<u8>) returns (h: bv64, i: nat)
    ensures i == FullBlocksEnd(|key|)
    ensures h == Blocks(h0, key, |key| / 8)
  {
    var endpos := FullBlocksEnd(|key|);
    h := h0;
    i := 0;
    ghost var blocks := 0;
    while i != endpos
      invariant i == 8 * blocks <= endpos
      invariant h == Blocks(h0, key, blocks)
      decreases endpos - i
    {
      NextBlockFits(i, blocks, |key|);
      h := MixNextBlock(h, key, i, h0, blocks);
      i := i + 8;
      blocks := blocks + 1;
    }
  }

  /** The body of the block loop of `stingray_hash`: load the block at `i`, scramble it
      and fold it into the hash `h` of the blocks before it. */
  method MixNextBlock(h: bv64, key: seq<u8>, i: nat, ghost h0: bv64, ghost blocks: nat) returns (h': bv64)
    requires i == 8 * blocks && i + 8 <= |key| && h == Blocks(h0, key, blocks)
    ensures h' == Blocks(h0, key, blocks + 1)
  {
    var k := ReadBlock(key, i);
    k := WrappingMul(k, M);
    k := XorShift(k);
    k := WrappingMul(k, M);
    h' := Xor(h, k);
    h' := WrappingMul(h', M);
  }

  /** The part of `stingray_hash` after the block loop: the tail xors of the `over` bytes
      left at `i`, the multiply when there are any, and the final mix. */
  method FinishHash(h0: bv64, key: seq<u8>, i: nat, over: nat, ghost blocks: nat) returns (h: bv64)
    requires i == 8 * blocks == FullBlocksEnd(|key|) && over == |key| % 8
    requires h0 == Blocks(WrappingMul(LengthWord(|key|), M), key, blocks)
    ensures h == MurmurHash64A(key)
  {
    h := XorTail(h0, key, i, over);
    SourceTailIsBlockXor(h0, key[i..]);
    if over > 0 {
      h := WrappingMul(h, M);
    }
    h := XorShift(h);
    h := WrappingMul(h, M);
    h := XorShift(h);
  }

  /** The eight loads and shifts that assemble the block at `i` in the source's loop. */
  method ReadBlock(key: seq<u8>, i: nat) returns (k: bv64)
    requires i + 8 <= |key|
    ensures k == Block(key[i..i + 8])
  {
    k := key[i + 0] as bv64;
    k := k | ((key[i + 1] as bv64) << 8);
    k := k | ((key[i + 2] as bv64) << 16);
    k := k | ((key[i + 3] as bv64) << 24);
    k := k | ((key[i + 4] as bv64) << 32);
    k := k | ((key[i + 5] as bv64) << 40);
    k := k | ((key[i + 6] as bv64) << 48);
    k := k | ((key[i + 7] as bv64) << 56);
    BlockUnrolled(key[i..i + 8]);
  }

  /** Byte `b` moved to byte position `j` of a word: the source's `(b as u64) << (8 * j)`. */
  function Lane(b: u8, j: nat): bv64
    requires j < 8
  {
    match j
    case 0 => b as bv64
    case 1 => (b as bv64) << 8
    case 2 => (b as bv64) << 16
    case 3 => (b as bv64) << 24
    case 4 => (b as bv64) << 32
    case 5 => (b as bv64) << 40
    case 6 => (b as bv64) << 48
    case _ => (b as bv64) << 56
  }

  /** `h ^ x` when `c` holds, `h` otherwise: one guarded `h ^= ...` of the tail. */
  function XorIf(c: bool, h: bv64, x: bv64): bv64
  {
    if c then Xor(h, x) else h
  }

  /** The tail as the source writes it: byte `j` of `rest` is xored in at lane `j` when
      `rest` is longer than `j`, the highest byte first. */
  function SourceTail(h: bv64, rest: seq<u8>): bv64
    requires |rest| < 8
  {
    var n := |rest|;
    var h6 := XorIf(n == 7, h, Lane(ByteAt(rest, 6), 6));
    var h5 := XorIf(n >= 6, h6, Lane(ByteAt(rest, 5), 5));
    var h4 := XorIf(n >= 5, h5, Lane(ByteAt(rest, 4), 4));
    var h3 := XorIf(n >= 4, h4, Lane(ByteAt(rest, 3), 3));
    var h2 := XorIf(n >= 3, h3, Lane(ByteAt(rest, 2), 2));
    var h1 := XorIf(n >= 2, h2, Lane(ByteAt(rest, 1), 1));
    XorIf(n >= 1, h1, Lane(ByteAt(rest, 0), 0))
  }

  /** The source's seven conditional xors of the `over` bytes left after the last full block. */
  method XorTail(h0: bv64, key: seq<u8>, i: nat, over: nat) returns (h: bv64)
    requires i + over == |key| && over < 8
    ensures h == SourceTail(h0, key[i..])
  {
    ghost var rest := key[i..];
    h := h0;
    if over == 7 {
      h := Xor(h, Lane(key[i + 6], 6));
    }
    if over >= 6 {
      h := Xor(h, Lane(key[i + 5], 5));
    }
    if over >= 5 {
      h := Xor(h, Lane(key[i + 4], 4));
    }
    if over >= 4 {
      h := Xor(h, Lane(key[i + 3], 3));
    }
    if over >= 3 {
      h := Xor(h, Lane(key[i + 2], 2));
    }
    if over >= 2 {
      h := Xor(h, Lane(key[i + 1], 1));
    }
    if over >= 1 {
      h := Xor(h, Lane(key[i + 0], 0));
    }
  }

  lemma LaneOfZero(j: nat)
    requires j < 8
    ensures Lane(0, j) == 0
  {
  }

  /** A guarded xor with a lane of a byte past the end (zero) changes nothing. */
  lemma XorIfLane(c: bool, h: bv64, b: u8, j: nat)
    requires j < 8 && (!c ==> b == 0)
    ensures XorIf(c, h, Lane(b, j)) == Xor(h, Lane(b, j))
  {
    if !c {
      LaneOfZero(j);
      assert Xor(h, 0) == h ^ 0;
    }
  }

  /** Seven nested xors are one xor chain. */
  lemma XorChain(h: bv64, l0: bv64, l1: bv64, l2: bv64, l3: bv64, l4: bv64, l5: bv64, l6: bv64)
    ensures Xor(Xor(Xor(Xor(Xor(Xor(Xor(h, l6), l5), l4), l3), l2), l1), l0)
      == h ^ l6 ^ l5 ^ l4 ^ l3 ^ l2 ^ l1 ^ l0
  {
    calc {
      Xor(Xor(Xor(Xor(Xor(Xor(Xor(h, l6), l5), l4), l3), l2), l1), l0);
      Xor(Xor(Xor(Xor(Xor(Xor(h ^ l6, l5), l4), l3), l2), l1), l0);
      Xor(Xor(Xor(Xor(Xor(h ^ l6 ^ l5, l4), l3), l2), l1), l0);
      Xor(Xor(Xor(Xor(h ^ l6 ^ l5 ^ l4, l3), l2), l1), l0);
      Xor(Xor(Xor(h ^ l6 ^ l5 ^ l4 ^ l3, l2), l1), l0);
      Xor(Xor(h ^ l6 ^ l5 ^ l4 ^ l3 ^ l2, l1), l0);
      Xor(h ^ l6 ^ l5 ^ l4 ^ l3 ^ l2 ^ l1, l0);
      h ^ l6 ^ l5 ^ l4 ^ l3 ^ l2 ^ l1 ^ l0;
    }
  }

  /** The seven lanes of a partial block, xored into `h`, xor `h` with the block's word. */
  lemma LanesFormWord(h: bv64, b0: u8, b1: u8, b2: u8, b3: u8, b4: u8, b5: u8, b6: u8)
    ensures h ^ Lane(b6, 6) ^ Lane(b5, 5) ^ Lane(b4, 4) ^ Lane(b3, 3) ^ Lane(b2, 2) ^ Lane(b1, 1) ^ Lane(b0, 0)
      == Xor(h, Word(b0, b1, b2, b3, b4, b5, b6, 0))
  {
    assert h ^ Lane(b6, 6) ^ Lane(b5, 5) ^ Lane(b4, 4) ^ Lane(b3, 3) ^ Lane(b2, 2) ^ Lane(b1, 1) ^ Lane(b0, 0)
      == h ^ ((b6 as bv64) << 48) ^ ((b5 as bv64) << 40) ^ ((b4 as bv64) << 32) ^ ((b3 as bv64) << 24)
        ^ ((b2 as bv64) << 16) ^ ((b1 as bv64) << 8) ^ (b0 as bv64);
    DisjointLanes(h, b0, b1, b2, b3, b4, b5, b6);
  }

  /** Lanes occupy disjoint bits, so xoring them is or-ing them. */
  lemma DisjointLanes(h: bv64, b0: u8, b1: u8, b2: u8, b3: u8, b4: u8, b5: u8, b6: u8)
    ensures h ^ ((b6 as bv64) << 48) ^ ((b5 as bv64) << 40) ^ ((b4 as bv64) << 32) ^ ((b3 as bv64) << 24)
        ^ ((b2 as bv64) << 16) ^ ((b1 as bv64) << 8) ^ (b0 as bv64)
      == Xor(h, Word(b0, b1, b2, b3, b4, b5, b6, 0))
  {
  }

  /** Every guard of the source's tail either holds or guards a byte past the end, which is zero. */
  lemma TailGuardsVanish(h: bv64, rest: seq<u8>)
    requires |rest| < 8
    ensures SourceTail(h, rest) == Xor(Xor(Xor(Xor(Xor(Xor(Xor(h,
      Lane(ByteAt(rest, 6), 6)), Lane(ByteAt(rest, 5), 5)), Lane(ByteAt(rest, 4), 4)), Lane(ByteAt(rest, 3), 3)),
      Lane(ByteAt(rest, 2), 2)), Lane(ByteAt(rest, 1), 1)), Lane(ByteAt(rest, 0), 0))
  {
    var n := |rest|;
    var b0, b1, b2, b3 := ByteAt(rest, 0), ByteAt(rest, 1), ByteAt(rest, 2), ByteAt(rest, 3);
    var b4, b5, b6 := ByteAt(rest, 4), ByteAt(rest, 5), ByteAt(rest, 6);
    var l0, l1, l2, l3 := Lane(b0, 0), Lane(b1, 1), Lane(b2, 2), Lane(b3, 3);
    var l4, l5, l6 := Lane(b4, 4), Lane(b5, 5), Lane(b6, 6);
    var x6 := Xor(h, l6);
    XorIfLane(n == 7, h, b6, 6);
    var x5 := Xor(x6, l5);
    XorIfLane(n >= 6, x6, b5, 5);
    var x4 := Xor(x5, l4);
    XorIfLane(n >= 5, x5, b4, 4);
    var x3 := Xor(x4, l3);
    XorIfLane(n >= 4, x4, b3, 3);
    var x2 := Xor(x3, l2);
    XorIfLane(n >= 3, x3, b2, 2);
    var x1 := Xor(x2, l1);
    XorIfLane(n >= 2, x2, b1, 1);
    XorIfLane(n >= 1, x1, b0, 0);
  }

  /** The source's seven guarded xors amount to one xor with the little-endian block of the tail. */
  lemma SourceTailIsBlockXor(h: bv64, rest: seq<u8>)
    requires |rest| < 8
    ensures SourceTail(h, rest) == Xor(h, Block(rest))
  {
    var b0, b1, b2, b3 := ByteAt(rest, 0), ByteAt(rest, 1), ByteAt(rest, 2), ByteAt(rest, 3);
    var b4, b5, b6 := ByteAt(rest, 4), ByteAt(rest, 5), ByteAt(rest, 6);
    TailGuardsVanish(h, rest);
    TailXorsFormWord(h, b0, b1, b2, b3, b4, b5, b6);
    PartialBlockWord(rest);
  }

  /** The source's seven tail xors, highest lane first, xor `h` with the word of the seven bytes. */
  lemma TailXorsFormWord(h: bv64, b0: u8, b1: u8, b2: u8, b3: u8, b4: u8, b5: u8, b6: u8)
    ensures Xor(Xor(Xor(Xor(Xor(Xor(Xor(h, Lane(b6, 6)), Lane(b5, 5)), Lane(b4, 4)), Lane(b3, 3)),
      Lane(b2, 2)), Lane(b1, 1)), Lane(b0, 0)) == Xor(h, Word(b0, b1, b2, b3, b4, b5, b6, 0))
  {
    XorChain(h, Lane(b0, 0), Lane(b1, 1), Lane(b2, 2), Lane(b3, 3), Lane(b4, 4), Lane(b5, 5), Lane(b6, 6));
    LanesFormWord(h, b0, b1, b2, b3, b4, b5, b6);
  }

  /** A block of fewer than eight bytes has a zero top byte. */
  lemma PartialBlockWord(rest: seq<u8>)
    requires |rest| < 8
    ensures Block(rest) == Word(ByteAt(rest, 0), ByteAt(rest, 1), ByteAt(rest, 2), ByteAt(rest, 3),
                                ByteAt(rest, 4), ByteAt(rest, 5), ByteAt(rest, 6), 0)
  {
    BlockUnrolled(rest);
    assert ByteAt(rest, 7) == 0;
  }

  /** `NoHash`: the hasher builder of the maps keyed by 64-bit values that are already hashes. */
  datatype NoHash = NoHash {
    /** A fresh hasher in the state `NoHashHasher(0)`. */
    method BuildHasher() returns (hasher: NoHashHasher)
      ensures fresh(hasher) && hasher.Finish() == 0
    {
      hasher := new NoHashHasher(0);
    }
  }

  /** The identity hasher: it keeps the last `u64` written to it. */
  class NoHashHasher {
    var state: u64

    constructor(initial: u64)
      ensures state == initial
    {
      state := initial;
    }

    function Finish(): u64
      reads this
    {
      state
    }

    /** Overwrites the state with `i`, whatever was written before. */
    method WriteU64(i: u64)
      modifies this
      ensures state == i && Finish() == i
    {
      state := i;
    }
  }

  /** What a map built with `NoHash` does to a `u64` key: build a hasher, write the key, finish.
      The key is its own hash. */
  method HashKey(builder: NoHash, key: u64) returns (h: u64)
    ensures h == key
  {
    var hasher := builder.BuildHasher();
    hasher.WriteU64(key);
    h := hasher.Finish();
  }
}
