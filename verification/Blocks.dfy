/** Disk blocks: bytes, little-endian words and bitmap bits. */
module Blocks {
  const BLOCK_SIZE := 4096
  const WORDS := 1024

  type Byte = x: int | 0 <= x < 256
  type Word = x: int | 0 <= x < 0x1_0000_0000
  type Block = b: seq<Byte> | |b| == BLOCK_SIZE witness seq(BLOCK_SIZE, i => 0)
  type Disk = seq<Block>

  // ----- words

  /** A little-endian word in memory. */
  function WordAt(mem: seq<Byte>, a: nat): (w: Word)
    requires a + 4 <= |mem|
  {
    var b0: int, b1: int, b2: int, b3: int := mem[a], mem[a + 1], mem[a + 2], mem[a + 3];
    b0 + 0x100 * b1 + 0x1_0000 * b2 + 0x100_0000 * b3
  }

  function PutWord(mem: seq<Byte>, a: nat, w: Word): (r: seq<Byte>)
    requires a + 4 <= |mem|
    ensures |r| == |mem|
  {
    mem[a := w % 0x100][a + 1 := w / 0x100 % 0x100]
       [a + 2 := w / 0x100 / 0x100 % 0x100][a + 3 := w / 0x100 / 0x100 / 0x100]
  }

  lemma WordBack(mem: seq<Byte>, a: nat, w: Word)
    requires a + 4 <= |mem|
    ensures WordAt(PutWord(mem, a, w), a) == w
  {
    var w1 := w / 0x100;
    var w2 := w1 / 0x100;
    var w3 := w2 / 0x100;
    assert w == 0x100 * w1 + w % 0x100 && w1 == 0x100 * w2 + w1 % 0x100 && w2 == 0x100 * w3 + w2 % 0x100;
  }

  lemma WordFrame(mem: seq<Byte>, now: seq<Byte>, a: nat)
    requires a + 4 <= |mem| == |now| && forall k :: a <= k < a + 4 ==> now[k] == mem[k]
    ensures WordAt(now, a) == WordAt(mem, a)
  {
  }

  function GetWord(b: Block, i: nat): (w: Word)
    requires i < WORDS
  {
    WordAt(b, 4 * i)
  }

  function SetWord(b: Block, i: nat, w: Word): (r: Block)
    requires i < WORDS
  {
    PutWord(b, 4 * i, w)
  }

  lemma WordRoundTrip(b: Block, i: nat, w: Word, j: nat)
    requires i < WORDS && j < WORDS
    ensures GetWord(SetWord(b, i, w), j) == if i == j then w else GetWord(b, j)
  {
    if i == j {
      WordBack(b, 4 * i, w);
    } else {
      WordFrame(b, SetWord(b, i, w), 4 * j);
    }
  }

  /** Every word of the block is zero. */
  ghost predicate ZeroBlock(b: Block) {
    forall i :: 0 <= i < WORDS ==> GetWord(b, i) == 0
  }

  // ----- bits

  /** `x & (1 << b)` */
  function TestBit(x: nat, b: nat): bool
    decreases b
  {
    if b == 0 then x % 2 == 1 else TestBit(x / 2, b - 1)
  }

  /** `x | (1 << b)` */
  function SetBit(x: nat, b: nat): (r: nat)
    decreases b
  {
    if b == 0 then x / 2 * 2 + 1 else 2 * SetBit(x / 2, b - 1) + x % 2
  }

  /** `x & ~(1 << b)` */
  function ClearBit(x: nat, b: nat): (r: nat)
    decreases b
  {
    if b == 0 then x / 2 * 2 else 2 * ClearBit(x / 2, b - 1) + x % 2
  }

  lemma {:induction false} BitAfter(x: nat, b: nat, c: nat)
    ensures TestBit(SetBit(x, b), c) == (b == c || TestBit(x, c))
    ensures TestBit(ClearBit(x, b), c) == (b != c && TestBit(x, c))
    decreases b
  {
    if b == 0 {
      assert SetBit(x, b) / 2 == x / 2 && ClearBit(x, b) / 2 == x / 2;
    } else {
      var s, r := SetBit(x / 2, b - 1), ClearBit(x / 2, b - 1);
      assert SetBit(x, b) == 2 * s + x % 2 && ClearBit(x, b) == 2 * r + x % 2;
      if c > 0 {
        BitAfter(x / 2, b - 1, c - 1);
        assert (2 * s + x % 2) / 2 == s && (2 * r + x % 2) / 2 == r;
      }
    }
  }

  lemma {:induction false} ClearUndoesSet(x: nat, b: nat)
    requires !TestBit(x, b)
    ensures ClearBit(SetBit(x, b), b) == x
    decreases b
  {
    if b > 0 {
      ClearUndoesSet(x / 2, b - 1);
      assert SetBit(x, b) / 2 == SetBit(x / 2, b - 1) && SetBit(x, b) % 2 == x % 2;
    }
  }

  function Width(n: nat): (r: nat)
    ensures r >= 1
  {
    if n == 0 then 1 else 2 * Width(n - 1)
  }

  lemma {:induction false} BitInWidth(x: nat, b: nat, n: nat)
    requires x < Width(n) && b < n
    ensures SetBit(x, b) < Width(n) && ClearBit(x, b) < Width(n)
    decreases n
  {
    var h, w := x / 2, Width(n - 1);
    assert h < w && Width(n) == 2 * w;
    if b > 0 {
      BitInWidth(h, b - 1, n - 1);
      var p, q := SetBit(h, b - 1), ClearBit(h, b - 1);
      assert SetBit(x, b) == 2 * p + x % 2 && ClearBit(x, b) == 2 * q + x % 2;
    }
  }

  /** Setting a clear bit adds its value, clearing a set bit takes it away. */
  lemma {:induction false} BitWorth(x: nat, b: nat)
    ensures !TestBit(x, b) ==> SetBit(x, b) == x + Width(b)
    ensures TestBit(x, b) ==> ClearBit(x, b) == x - Width(b)
    decreases b
  {
    if b > 0 { BitWorth(x / 2, b - 1); }
  }

  lemma ByteBits(x: Byte, b: nat)
    requires b < 8
    ensures SetBit(x, b) < 256 && ClearBit(x, b) < 256
  {
    assert Width(8) == 2 * Width(7) == 4 * Width(6) == 8 * Width(5) == 16 * Width(4) && Width(4) == 16;
    BitInWidth(x, b, 8);
  }

  ghost predicate Ones(x: nat, n: nat) {
    forall b :: 0 <= b < n ==> TestBit(x, b)
  }

  lemma OnesHalf(x: nat, n: nat)
    requires n > 0
    ensures Ones(x, n) <==> x % 2 == 1 && Ones(x / 2, n - 1)
  {
    if Ones(x, n) {
      assert TestBit(x, 0);
      forall b | 0 <= b < n - 1 ensures TestBit(x / 2, b) { assert TestBit(x, b + 1); }
    }
    if x % 2 == 1 && Ones(x / 2, n - 1) {
      forall b | 0 <= b < n ensures TestBit(x, b) {
        if b > 0 { assert TestBit(x / 2, b - 1); }
      }
    }
  }

  lemma {:induction false} AllOnes(x: nat, n: nat)
    requires x < Width(n)
    ensures x == Width(n) - 1 <==> Ones(x, n)
    decreases n
  {
    if n > 0 {
      hide Ones;
      AllOnes(x / 2, n - 1);
      OnesHalf(x, n);
      assert x == 2 * (x / 2) + x % 2;
    }
  }

  /** A byte is 0xff exactly when all its bits are set. */
  lemma FullByte(x: Byte)
    ensures x == 0xff <==> Ones(x, 8)
  {
    assert Width(8) == 2 * Width(7) == 4 * Width(6) == 8 * Width(5) == 16 * Width(4) && Width(4) == 16;
    AllOnes(x, 8);
  }
}
