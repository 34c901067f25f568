/** Sizes that several components share (kernel/param.h, kernel/fs.h). */
module Params {

  /** The most blocks that an operation is said to log. */
  const MAXOPBLOCKS: nat := 10
  const LOGSIZE: nat := MAXOPBLOCKS * 3

  const BSIZE: nat := 1024
  /** The 32-bit words of a block. */
  const WORDS: nat := 256
}
