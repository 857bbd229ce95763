/** File blocks as mutable objects, and the block splitter that fills them. */
module FileBlocks {
  import opened FlatFile
  import opened Pointers

  datatype IndirectPtr = IndirectPtr(ptr: Ptr, encodedSize: nat, off: nat)

  class FileBlock {
    var isInd: bool
    var iptrs: seq<IndirectPtr>
    var contents: Bytes

    constructor (isInd: bool, iptrs: seq<IndirectPtr>, contents: Bytes)
      ensures this.isInd == isInd && this.iptrs == iptrs && this.contents == contents
    {
      this.isInd, this.iptrs, this.contents := isInd, iptrs, contents;
    }
  }

  method DeepCopy(b: FileBlock) returns (c: FileBlock)
    ensures fresh(c)
    ensures c.isInd == b.isInd && c.iptrs == b.iptrs && c.contents == b.contents
  {
    c := new FileBlock(b.isInd, b.iptrs, b.contents);
  }

  // How long the block is after a copy of n bytes at off was asked for.
  function GrownLength(len: nat, n: nat, off: nat, maxSize: nat): nat {
    if off + n <= len then len
    else if off + n <= maxSize then off + n
    else Max(len, maxSize)
  }

  /** BlockSplitterSimple.CopyUntilSplit: grow the block with zeros, up to maxSize, and
      copy what fits.  A block already over maxSize is left alone when it would have to
      grow. */
  method CopyUntilSplit(maxSize: nat, block: FileBlock, data: Bytes, off: nat) returns (copied: nat)
    modifies block`contents
    ensures CopiedInto(old(block.contents), data, off, copied, block.contents)
    ensures |block.contents| == GrownLength(|old(block.contents)|, |data|, off, maxSize)
    ensures off + |data| <= |old(block.contents)| || off + |data| <= maxSize ==> copied == |data|
    ensures |old(block.contents)| < off + |data| && maxSize < off + |data| ==>
              copied == if |old(block.contents)| <= maxSize && off <= maxSize then maxSize - off else 0
  {
    var n, currLen := |data|, |block.contents|;
    var toCopy := n;
    if currLen < off + n {
      var moreNeeded := (n + off) - currLen;
      if moreNeeded + currLen > maxSize {
        moreNeeded := maxSize - currLen;
        if moreNeeded < 0 {
          return 0;
        }
        toCopy := maxSize - off;
      }
      if moreNeeded > 0 {
        block.contents := block.contents + Zeros(moreNeeded);
      }
    }
    if off > |block.contents| {
      return 0;
    }
    block.contents := block.contents[..off] + data[..toCopy] + block.contents[off + toCopy..];
    return toCopy;
  }

  /** Any block splitter: where a block should be split (0: it is fine, negative: it wants
      more bytes), and how much of the next block's data it would append. */
  datatype Splitter = Splitter(check: Bytes -> int, take: (Bytes, Bytes) -> nat)

  // The contract of the BlockSplitter interface.
  ghost predicate SplitterOk(sp: Splitter) {
    && (forall b: Bytes :: sp.check(b) <= |b|)
    && (forall b: Bytes, d: Bytes :: sp.take(b, d) <= |d|)
  }

  // BlockSplitterSimple never asks for a block to be split again.
  function SimpleSplitter(maxSize: nat): Splitter {
    Splitter((b: Bytes) => 0, (b: Bytes, d: Bytes) => if |b| < maxSize then Min(maxSize - |b|, |d|) else 0)
  }

  lemma SimpleSplitterOk(maxSize: nat)
    ensures SplitterOk(SimpleSplitter(maxSize))
    ensures forall b: Bytes :: SimpleSplitter(maxSize).check(b) == 0
  {
  }
}
