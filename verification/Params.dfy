/** Constants of param.h, fs.h and buf.h. */
module Params {
  const MAXOPBLOCKS: nat := 10 // most blocks any file-system operation writes
  const LOGSIZE: nat := MAXOPBLOCKS * 3 // entries in a log header
  const NBUF: nat := MAXOPBLOCKS * 3 // slots in the buffer cache

  const BSIZE: nat := 512 // bytes in a block
  const WORDS: nat := 128 // 32-bit words in a block (BSIZE / sizeof(uint))
  const UINT: nat := 0x1_0000_0000 // number of values of a uint
}
