// The sizes of a 64-bit machine word and of a page.
module Words {
  const WORD: nat := 0x1_0000_0000_0000_0000
  const PAGE: nat := 4096
}
