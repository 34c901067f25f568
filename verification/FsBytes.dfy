/** Blocks as bytes, with the bits and the little-endian 32-bit words that kernel/fs.c keeps in them. */
module FsBytes {
  import opened Params

  const BPB: nat := 8192

  type Byte = x: int | 0 <= x < 256

  type Block = b: seq<Byte> | |b| == 1024 witness seq(1024, _ => 0)

  function Fill(x: Byte): (b: Block) {
    seq(1024, _ => x)
  }

  const ZEROS: Block := Fill(0)

  // ----- bits -----

  /** x & (1 << k) != 0. */
  predicate BitOn(x: nat, k: nat) {
    if k == 0 then x % 2 == 1 else BitOn(x / 2, k - 1)
  }

  /** x | (1 << k) if on, else x & ~(1 << k). */
  function WithBit(x: nat, k: nat, on: bool): (y: nat) {
    if k == 0 then x / 2 * 2 + (if on then 1 else 0) else WithBit(x / 2, k - 1, on) * 2 + x % 2
  }

  lemma {:induction false} WithBitOn(x: nat, k: nat, on: bool, j: nat)
    ensures BitOn(WithBit(x, k, on), j) == if j == k then on else BitOn(x, j)
  {
    if k > 0 && j > 0 {
      WithBitOn(x / 2, k - 1, on, j - 1);
    }
  }

  function Power2(n: nat): (p: nat) {
    if n == 0 then 1 else 2 * Power2(n - 1)
  }

  lemma {:induction false} WithBitFits(x: nat, k: nat, on: bool, n: nat)
    requires x < Power2(n) && k < n
    ensures WithBit(x, k, on) < Power2(n)
  {
    var half, p := x / 2, Power2(n - 1);
    assert x == 2 * half + x % 2 && Power2(n) == 2 * p;
    assert half < p;
    if k > 0 {
      WithBitFits(half, k - 1, on, n - 1);
    }
  }

  /** Bit i of a bitmap block: byte i / 8, mask 1 << (i % 8). */
  predicate Bit(b: Block, i: nat)
    requires i < BPB
  {
    BitOn(b[i / 8], i % 8)
  }

  function SetBit(b: Block, i: nat, on: bool): (c: Block)
    requires i < BPB
  {
    assert Power2(8) == 256;
    WithBitFits(b[i / 8], i % 8, on, 8);
    b[i / 8 := WithBit(b[i / 8], i % 8, on)]
  }

  lemma SetBitAt(b: Block, i: nat, on: bool, j: nat)
    requires i < BPB && j < BPB
    ensures Bit(SetBit(b, i, on), j) == if j == i then on else Bit(b, j)
  {
    WithBitOn(b[i / 8], i % 8, on, j % 8);
  }

  lemma {:induction false} ZeroBits(k: nat)
    ensures !BitOn(0, k)
  {
    if k > 0 {
      ZeroBits(k - 1);
    }
  }

  // ----- words -----

  predicate IsWord(w: int) {
    0 <= w < 0x1_0000_0000
  }

  function Word(b: Block, j: nat): (w: nat)
    requires j < WORDS
  {
    var b0: int, b1: int, b2: int, b3: int := b[4 * j], b[4 * j + 1], b[4 * j + 2], b[4 * j + 3];
    b0 + b1 * 0x100 + b2 * 0x1_0000 + b3 * 0x100_0000
  }

  function SetWord(b: Block, j: nat, w: nat): (c: Block)
    requires j < WORDS && IsWord(w)
  {
    b[4 * j := w % 0x100][4 * j + 1 := w / 0x100 % 0x100]
     [4 * j + 2 := w / 0x1_0000 % 0x100][4 * j + 3 := w / 0x100_0000]
  }

  lemma BytesOfWord(w: nat)
    requires IsWord(w)
    ensures w % 0x100 + w / 0x100 % 0x100 * 0x100 + w / 0x1_0000 % 0x100 * 0x1_0000 + w / 0x100_0000 * 0x100_0000 == w
  {
    var a, b := w / 0x100, w / 0x1_0000;
    assert b == a / 0x100 && w / 0x100_0000 == b / 0x100;
  }

  lemma SetWordAt(b: Block, j: nat, w: nat, k: nat)
    requires j < WORDS && k < WORDS && IsWord(w)
    ensures Word(SetWord(b, j, w), k) == if k == j then w else Word(b, k)
  {
    BytesOfWord(w);
  }

  lemma ZeroWords(j: nat)
    requires j < WORDS
    ensures Word(ZEROS, j) == 0
  {
  }
}
