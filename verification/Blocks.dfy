/** internal/piece/piece.go: cutting a piece of `length` bytes into blocks. */
module Blocks {
  import opened Common

  const BLOCK_SIZE := 16 * 1024

  datatype Block = Block(index: nat, begin: nat, length: nat)

  function NumBlocks(length: nat): nat {
    length / BLOCK_SIZE + (if length % BLOCK_SIZE != 0 then 1 else 0)
  }

  function GetBlock(length: nat, i: nat): Option<Block> {
    if i >= NumBlocks(length) then None
    else
      var last := length % BLOCK_SIZE != 0 && i == NumBlocks(length) - 1;
      Some(Block(i, i * BLOCK_SIZE, if last then length % BLOCK_SIZE else BLOCK_SIZE))
  }

  function FindBlock(length: nat, begin: nat, size: nat): Option<Block> {
    if begin % BLOCK_SIZE != 0 then None
    else
      match GetBlock(length, begin / BLOCK_SIZE)
      case None => None
      case Some(b) => if b.length != size then None else Some(b)
  }

  /** The blocks tile the piece: block i starts where block i - 1 ended, none is empty
      or longer than BLOCK_SIZE, and the last one ends the piece. */
  lemma BlocksTile(length: nat, i: nat)
    requires i < NumBlocks(length)
    ensures var b := GetBlock(length, i).value;
            && b.index == i && 0 < b.length <= BLOCK_SIZE
            && b.begin + b.length <= length
            && (if i == 0 then b.begin == 0
                else var p := GetBlock(length, i - 1).value; b.begin == p.begin + p.length)
            && (i == NumBlocks(length) - 1 ==> b.begin + b.length == length)
  {
  }

  /** FindBlock accepts exactly the (begin, length) pairs of the piece's own blocks. */
  lemma FindBlockExact(length: nat, begin: nat, size: nat, b: Block)
    ensures FindBlock(length, begin, size) == Some(b) <==>
            b.begin == begin && b.length == size && GetBlock(length, b.index) == Some(b)
  {
    if GetBlock(length, b.index) == Some(b) && b.begin == begin {
      assert begin == b.index * BLOCK_SIZE;
      assert begin % BLOCK_SIZE == 0 && begin / BLOCK_SIZE == b.index;
    }
  }
}
