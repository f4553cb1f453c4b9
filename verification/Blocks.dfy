/** Disk blocks as the kernel sees them: BSIZE raw bytes, which the log header,
    the indirect blocks and the on-disk inodes read as little-endian 32-bit words. */
module Blocks {

  const BSIZE := 512
  const NWORDS := 128

  type byte = b: int | 0 <= b < 256
  type word = w: int | 0 <= w < 0x1_0000_0000
  type Block = s: seq<byte> | |s| == BSIZE witness seq(BSIZE, _ => 0)

  function ZeroBlock(): Block {
    seq(BSIZE, _ => 0)
  }

  /** The i-th little-endian word of a block. */
  function GetWord(b: Block, i: nat): word
    requires i < NWORDS
  {
    var b0: int, b1: int, b2: int, b3: int := b[4 * i], b[4 * i + 1], b[4 * i + 2], b[4 * i + 3];
    b0 + 0x100 * b1 + 0x1_0000 * b2 + 0x100_0000 * b3
  }

  /** The block with its i-th word overwritten. */
  function PutWord(b: Block, i: nat, w: word): Block
    requires i < NWORDS
  {
    b[4 * i := w % 0x100][4 * i + 1 := w / 0x100 % 0x100]
     [4 * i + 2 := w / 0x1_0000 % 0x100][4 * i + 3 := w / 0x100_0000]
  }

  /** Overwriting a word changes that word and no other. */
  lemma GetPut(b: Block, i: nat, w: word, j: nat)
    requires i < NWORDS && j < NWORDS
    ensures GetWord(PutWord(b, i, w), j) == if j == i then w else GetWord(b, j)
  {
  }

  /** Overwrites consecutive words, starting at word `from`. */
  function PutWords(b: Block, from: nat, ws: seq<word>): Block
    requires from + |ws| <= NWORDS
    decreases |ws|
  {
    if ws == [] then b
    else PutWord(PutWords(b, from, ws[..|ws| - 1]), from + |ws| - 1, ws[|ws| - 1])
  }

  lemma {:induction false} GetPutWords(b: Block, from: nat, ws: seq<word>, j: nat)
    requires from + |ws| <= NWORDS && j < NWORDS
    ensures GetWord(PutWords(b, from, ws), j)
         == if from <= j < from + |ws| then ws[j - from] else GetWord(b, j)
    decreases |ws|
  {
    hide GetWord;
    hide PutWord;
    if ws != [] {
      var init := ws[..|ws| - 1];
      GetPutWords(b, from, init, j);
      GetPut(PutWords(b, from, init), from + |ws| - 1, ws[|ws| - 1], j);
    }
  }
}
