/** The file data path of folderBlockOps: blocks are shared objects, a dirty map
    shadows the clean blocks, and a sync in flight freezes the objects it captured. */
module FolderBlocks {
  import opened FlatFile
  import opened FileBlocks
  import opened BlockCache
  import opened Pointers

  ghost predicate LeafValues(objs: seq<FileBlock>, leaves: seq<Bytes>)
    reads objs`isInd, objs`contents
  {
    && |objs| == |leaves|
    && forall i :: 0 <= i < |objs| ==> !objs[i].isInd && objs[i].contents == leaves[i]
  }

  // Go's copy, into dest[at..at + n].
  method CopyBytes(dest: array<byte>, at: nat, src: Bytes, start: nat, n: nat)
    requires at + n <= dest.Length && start + n <= |src|
    modifies dest
    ensures dest[..] == Splice(old(dest[..]), at, src[start..start + n])
  {
    for i := 0 to n
      invariant dest[..at] == old(dest[..at]) && dest[at + n..] == old(dest[at + n..])
      invariant dest[at..at + i] == src[start..start + i]
    {
      dest[at + i] := src[start + i];
    }
  }

  datatype Outcome = Done | FileTooBig | BadSplit

  class FolderBlockOps {
    const maxSize: nat
    const maxFileBytes: nat
    var cache: Cache
    // File sizes: from modified entries, and from the committed parent directory.
    var deCache: map<Ptr, nat>
    var entries: map<Ptr, nat>
    var deferredWrites: seq<FileOp>
    var deferredDirtyDeletes: seq<Ptr>
    var doDeferWrite: bool
    ghost var marks: Marks
    // The leaf blocks of the file, and what they hold.
    ghost var objs: seq<FileBlock>
    ghost var leaves: seq<Bytes>
    // The same for the file as the sync in flight captured it.
    ghost var syncObjs: seq<FileBlock>
    ghost var syncLeaves: seq<Bytes>

    // getDirtyEntryLocked: the size in the file's possibly modified entry.
    function EntrySize(file: Ptr): nat
      reads this`deCache, this`entries
    {
      if file in deCache then deCache[file] else if file in entries then entries[file] else 0
    }

    ghost predicate EntriesOk()
      reads this`cache, this`deCache
    {
      forall p: Ptr :: p in deCache ==> p < cache.nextID
    }

    /** The file at rest: its blocks are in the cache, laid out as the splitter packs them,
        and the entry records the length of the flat contents. */
    ghost predicate Valid(file: Ptr)
      reads this`cache, this`marks, this`objs, this`leaves, this`deCache, this`entries, marks.repr, marks.frozen, objs
    {
      && CacheOk(cache, marks)
      && cache.Known(file)
      && Holds(file, cache.Obj(file), objs, leaves)
      && Packed(leaves, maxSize)
      && file in entries && file < cache.nextID && EntriesOk()
      && EntrySize(file) == |Flat(leaves)|
    }

    // The blocks of the file that may be written in place.
    ghost function Written(file: Ptr): set<FileBlock>
      requires cache.Known(file)
      reads this`cache, this`objs, this`marks
    {
      (set b | b in objs + [cache.Obj(file)]) - marks.frozen
    }

    lemma WrittenInRepr(file: Ptr)
      requires Valid(file)
      ensures cache.Known(file) && forall b :: b in Written(file) ==> b in marks.repr - marks.frozen
    {
      hide Contiguous, Packed, LeafValues, Flat;
    }

    lemma ValidParts(file: Ptr)
      requires Valid(file)
      ensures cache.Known(file) && Packed(leaves, maxSize) && file in entries && EntriesOk() && maxSize > 0
      ensures leaves != []
    {
    }

    // The leaf blocks the file does not have any more are as they were.
    twostate predicate DroppedSame(before: seq<FileBlock>)
      reads this`objs, before
    {
      forall i :: |objs| <= i < |before| ==> before[i].contents == old(before[i].contents)
    }

    // A folder with one clean file of a single block, under pointer 0.
    constructor (maxSize: nat, maxFileBytes: nat, contents: Bytes)
      requires |contents| <= maxSize && 0 < maxSize
      ensures Valid(0) && leaves == [contents]
      ensures this.maxSize == maxSize && this.maxFileBytes == maxFileBytes
      ensures cache.states == map[] && cache.dirty == map[] && !doDeferWrite && deferredWrites == []
      ensures deferredDirtyDeletes == []
      ensures fresh(marks.frozen) && marks.repr == {}
    {
      var block := new FileBlock(false, [], contents);
      this.maxSize, this.maxFileBytes := maxSize, maxFileBytes;
      cache := Cache(map[], map[0 := block], map[], 1);
      deCache, entries := map[], map[0 := |contents|];
      deferredWrites, deferredDirtyDeletes, doDeferWrite := [], [], false;
      marks := Marks({}, {block}, {});
      objs, leaves := [block], [contents];
      syncObjs, syncLeaves := [], [];
      FlatOne(contents);
    }

    // The operation cuts a multi-block file: truncateLocked then keeps quiet about the
    // leaf it made dirty.
    ghost predicate CutsLeaf(file: Ptr, op: FileOp)
      requires cache.Known(file)
      reads this`cache, this`leaves, cache.Obj(file)
    {
      op.TruncateOp? && op.size < |Flat(leaves)| && cache.Obj(file).isInd
    }

    // What a cut leaves: a dirty top block with the leaves up to the cut, the last one dirty.
    ghost predicate CutDone(file: Ptr, before: seq<IndirectPtr>, size: nat)
      reads this`cache, if file in cache.dirty then {cache.dirty[file]} else {}
    {
      && file in cache.dirty
      && var top := cache.dirty[file];
      top.isInd && CutFrom(top.iptrs, before, size) && top.iptrs[|top.iptrs| - 1].ptr in cache.dirty
    }

    // The caller may write `top`, the top block of `file`, in place.
    ghost predicate OwnsTop(file: Ptr, top: FileBlock)
      reads this`cache, this`marks
    {
      CacheOk(cache, marks) && file < cache.nextID && Owned(cache, marks, file, top)
    }

    // `top` is the top block of a multi-block file whose leaf blocks `objs` hold `leaves`;
    // leaf k (when there is one) has not been put back in the cache yet.
    ghost predicate HoldsBut(file: Ptr, top: FileBlock, objs: seq<FileBlock>, leaves: seq<Bytes>, k: int)
      reads this`cache, this`marks, top, objs
    {
      && top.isInd && 0 < |top.iptrs| == |leaves| == |objs|
      && Contiguous(top.iptrs, leaves)
      && LeafValues(objs, leaves)
      && Linked(cache, marks, file, top, top.iptrs, objs, k)
    }

    ghost predicate Holds(file: Ptr, top: FileBlock, objs: seq<FileBlock>, leaves: seq<Bytes>)
      reads this`cache, this`marks, top, objs
    {
      if top.isInd then HoldsBut(file, top, objs, leaves, -1)
      else objs == [top] && leaves == [top.contents]
    }

    method GetFileBlock(ptr: Ptr, forWrite: bool) returns (b: FileBlock)
      requires cache.Known(ptr) && CacheOk(cache, marks)
      ensures !forWrite ==> b == cache.Obj(ptr)
      ensures forWrite ==> Owned(cache, marks, ptr, b)
      ensures forWrite && ptr in cache.dirty && cache.StateOf(ptr) != SyncingNotDirty ==> b == cache.dirty[ptr]
      ensures forWrite ==> fresh(b) || (b in marks.repr && ptr in cache.dirty && b == cache.dirty[ptr])
      ensures var o := cache.Obj(ptr); b.isInd == o.isInd && b.iptrs == o.iptrs && b.contents == o.contents
    {
      b := cache.Obj(ptr);
      if forWrite {
        if ptr !in cache.dirty || cache.StateOf(ptr) == SyncingNotDirty {
          b := DeepCopy(b);
        }
      }
    }

    // The cached block of leaf i.
    function LeafOf(top: FileBlock, i: nat): FileBlock
      requires i < |top.iptrs| && cache.Known(top.iptrs[i].ptr)
      reads this`cache, top`iptrs
    {
      cache.Obj(top.iptrs[i].ptr)
    }

    method CacheBlockIfNotYetDirty(ptr: Ptr, block: FileBlock)
      modifies this`cache, this`doDeferWrite, this`marks
      ensures cache == old(cache).Put(ptr, block)
      ensures doDeferWrite == (old(doDeferWrite) ||
                               (ptr in old(cache).dirty && old(cache).StateOf(ptr) != NotBeingSynced))
      ensures marks == old(marks).(repr := old(marks).repr + {block})
    {
      marks := marks.(repr := marks.repr + {block});
      if ptr !in cache.dirty {
        cache := cache.(dirty := cache.dirty[ptr := block]);
        return;
      }
      match cache.StateOf(ptr)
      case NotBeingSynced =>
      case SyncingNotDirty =>
        cache := cache.(dirty := cache.dirty[ptr := block]);
        cache := cache.(states := cache.states[ptr := SyncingAndDirty]);
        doDeferWrite := true;
      case SyncingAndDirty =>
        doDeferWrite := true;
    }

    // A new, empty leaf at the right end of the file.
    method NewRightBlock(file: Ptr, pblock: FileBlock, off: nat) returns (rblock: FileBlock)
      modifies this`cache, this`doDeferWrite, this`marks, pblock`iptrs
      ensures fresh(rblock) && !rblock.isInd && rblock.contents == []
      ensures cache == old(cache).PutNew(rblock).Put(file, pblock)
      ensures marks == old(marks).(repr := old(marks).repr + {pblock} + {rblock})
      ensures pblock.iptrs == old(pblock.iptrs) + [IndirectPtr(old(cache).nextID, 0, off)]
      ensures old(cache).states == map[] ==> cache.states == map[] && doDeferWrite == old(doDeferWrite)
    {
      rblock := new FileBlock(false, [], []);
      pblock.iptrs := pblock.iptrs + [IndirectPtr(cache.nextID, 0, off)];
      cache := cache.PutNew(rblock);
      CacheBlockIfNotYetDirty(file, pblock);
      marks := marks.(repr := marks.repr + {rblock});
    }

    /** getFileBlockAtOffsetLocked for writing, on a multi-block file. */
    method GetFileBlockAtOffset(file: Ptr, top: FileBlock, off: nat, ghost objs: seq<FileBlock>,
                                ghost leaves: seq<Bytes>)
      returns (idx: nat, block: FileBlock)
      requires OwnsTop(file, top) && HoldsBut(file, top, objs, leaves, -1)
      ensures idx < |leaves| && Start(leaves, idx) <= off && top.iptrs[idx].off == Start(leaves, idx)
      ensures !block.isInd && block.contents == leaves[idx]
      ensures idx < |leaves| - 1 ==> off < Start(leaves, idx + 1)
      ensures top.iptrs[|top.iptrs| - 1].off <= off ==> idx == |top.iptrs| - 1
      ensures AtLeaf(top.iptrs, idx, off)
      ensures idx < |objs| && (fresh(block) || (block == objs[idx] && block in marks.repr - marks.frozen))
      ensures HoldsBut(file, top, objs[idx := block], leaves, idx)
    {
      hide CacheOk, Linked, Contiguous;
      ContiguousIncreasing(top.iptrs, leaves);
      idx := FindLeaf(top.iptrs, off);
      LinkKnown(cache, marks, file, top, top.iptrs, objs, idx);
      block := GetFileBlock(top.iptrs[idx].ptr, true);
      LinkOpen(cache, marks, file, top, top.iptrs, objs, idx, block);
    }

    /** A round of the write loop up to CopyUntilSplit, on a multi-block file. */
    method CopyIntoLeaf(file: Ptr, top: FileBlock, data: Bytes, off: nat, nCopied: nat,
                        ghost f: Bytes, ghost objs: seq<FileBlock>, ghost leaves: seq<Bytes>)
      returns (idx: nat, block: FileBlock, copied: nat, oldLen: nat, ghost newObjs: seq<FileBlock>,
               ghost newLeaves: seq<Bytes>)
      requires OwnsTop(file, top) && HoldsBut(file, top, objs, leaves, -1)
      requires Packed(leaves, maxSize) && nCopied < |data|
      requires PartlyWritten(f, data, off, nCopied, Flat(leaves))
      modifies set b | b in objs && b !in marks.frozen
      ensures unchanged(this) && top.iptrs == old(top.iptrs) && top.isInd
      ensures idx < |leaves| && |objs| == |leaves| == |top.iptrs|
      ensures newObjs == objs[idx := block] && newLeaves == leaves[idx := block.contents]
      ensures HoldsBut(file, top, newObjs, newLeaves, idx)
      ensures fresh(block) || (block in objs && block in marks.repr - marks.frozen)
      ensures block == newObjs[idx] && AtLeaf(top.iptrs, idx, off + nCopied)
      ensures idx < |leaves| - 1 && nCopied + copied < |data| ==> off + nCopied + copied == top.iptrs[idx + 1].off
      ensures nCopied + copied == |data| ==> EndsIn(newLeaves, idx, off + |data|)
      ensures oldLen == |leaves[idx]| <= |block.contents|
      ensures |Flat(newLeaves)| == |Flat(leaves)| + |block.contents| - oldLen
      ensures PartlyWritten(f, data, off, nCopied + copied, Flat(newLeaves))
      ensures Packed(newLeaves, maxSize)
      ensures idx < |leaves| - 1 ==> copied > 0 && |block.contents| == oldLen
      ensures top.iptrs[|top.iptrs| - 1].off <= off + nCopied ==> idx == |top.iptrs| - 1
      ensures idx == |leaves| - 1 && nCopied + copied < |data| ==>
                |block.contents| == maxSize && top.iptrs[idx].off + |block.contents| <= off + nCopied + copied
      ensures copied > 0 || (|leaves| <= off + nCopied && idx == |leaves| - 1)
    {
      hide CacheOk, Owned, Linked, Contiguous, Packed, PartlyWritten, CopiedInto, GrownLength, Flat, Start;
      idx, block := GetFileBlockAtOffset(file, top, off + nCopied, objs, leaves);
      newObjs := objs[idx := block];
      LinkDistinct(cache, marks, file, top, top.iptrs, newObjs, idx);
      oldLen := |block.contents|;
      copied := CopyUntilSplit(maxSize, block, data[nCopied..], off + nCopied - top.iptrs[idx].off);
      newLeaves := leaves[idx := block.contents];
      CopyRound(f, data, off, nCopied, leaves, idx, copied, block.contents, maxSize);
      ReplaceLeaf(top.iptrs, leaves, idx, block.contents);
      ContiguousIncreasing(top.iptrs, leaves);
      ContiguousIncreasing(top.iptrs, newLeaves);
      assert LeafValues(newObjs, newLeaves);
    }

    method PutLeaf(file: Ptr, top: FileBlock, idx: nat, block: FileBlock, ghost objs: seq<FileBlock>,
                   ghost leaves: seq<Bytes>)
      requires OwnsTop(file, top) && idx < |leaves| && HoldsBut(file, top, objs, leaves, idx) && block == objs[idx]
      modifies this`cache, this`doDeferWrite, this`marks, top`iptrs
      ensures OwnsTop(file, top) && HoldsBut(file, top, objs, leaves, -1)
      ensures top.iptrs == old(top.iptrs)[idx := old(top.iptrs[idx]).(encodedSize := 0)]
      ensures cache == old(cache).Put(old(top.iptrs[idx]).ptr, block)
      ensures old(cache).states == map[] ==> cache.states == map[] && doDeferWrite == old(doDeferWrite)
      ensures marks == old(marks).(repr := old(marks).repr + {block})
    {
      LinkPutLeaf(cache, marks, file, top, top.iptrs, objs, leaves, idx);
      top.iptrs := top.iptrs[idx := top.iptrs[idx].(encodedSize := 0)];
      CacheBlockIfNotYetDirty(top.iptrs[idx].ptr, block);
      assert LeafValues(objs, leaves);
    }

    // newRightBlockLocked on a file whose leaf k, when there is one, is still out.
    method AddRight(file: Ptr, top: FileBlock, off: nat, ghost topObjs: seq<FileBlock>, ghost topLeaves: seq<Bytes>,
                    ghost k: int)
      returns (ghost rblock: FileBlock, ghost newObjs: seq<FileBlock>, ghost newLeaves: seq<Bytes>)
      requires OwnsTop(file, top) && HoldsBut(file, top, topObjs, topLeaves, k) && k < |topLeaves|
      requires off == |Flat(topLeaves)| && topLeaves[|topLeaves| - 1] != []
      modifies this`cache, this`doDeferWrite, this`marks, top`iptrs
      ensures newObjs == topObjs + [rblock] && newLeaves == topLeaves + [[]]
      ensures OwnsTop(file, top) && HoldsBut(file, top, newObjs, newLeaves, k)
      ensures Flat(newLeaves) == Flat(topLeaves)
      ensures fresh(rblock) && top.iptrs == old(top.iptrs) + [IndirectPtr(old(cache).nextID, 0, off)]
      ensures cache == old(cache).PutNew(rblock).Put(file, top)
      ensures marks == old(marks).(repr := old(marks).repr + {top} + {rblock})
      ensures old(cache).states == map[] ==> cache.states == map[] && doDeferWrite == old(doDeferWrite)
    {
      hide CacheOk, Owned, Linked, Contiguous;
      AppendEmptyFlat(topLeaves);
      AppendEmptyLeaf(top.iptrs, topLeaves, IndirectPtr(cache.nextID, 0, off));
      var block := NewRightBlock(file, top, off);
      rblock, newObjs, newLeaves := block, topObjs + [block], topLeaves + [[]];
      LinkNewRight(old(cache), old(marks), file, top, old(top.iptrs), topObjs, k, rblock, off);
      assert LeafValues(topObjs, topLeaves);
    }

    // Make a new leaf on the right when the loop needs one.
    method ExtendRight(file: Ptr, top: FileBlock, idx: nat, block: FileBlock, needed: bool,
                       ghost objs: seq<FileBlock>, ghost leaves: seq<Bytes>)
      returns (ghost rblock: FileBlock, ghost newObjs: seq<FileBlock>, ghost newLeaves: seq<Bytes>)
      requires OwnsTop(file, top) && idx < |leaves| && HoldsBut(file, top, objs, leaves, idx) && block == objs[idx]
      requires Packed(leaves, maxSize)
      requires needed ==> idx == |leaves| - 1 && |leaves[idx]| == maxSize
      modifies this`cache, this`doDeferWrite, this`marks, top`iptrs
      ensures OwnsTop(file, top) && HoldsBut(file, top, newObjs, newLeaves, idx)
      ensures idx < |newObjs| == |newLeaves| == |top.iptrs| && newObjs[idx] == block
      ensures top.iptrs[idx] == old(top.iptrs[idx])
      ensures Packed(newLeaves, maxSize) && Flat(newLeaves) == Flat(leaves)
      ensures |newLeaves| == |leaves| + if needed then 1 else 0
      ensures cache == Extended(old(cache), file, top, needed, rblock)
      ensures marks == ExtendedMarks(old(marks), top, needed, rblock)
      ensures forall b :: b in marks.repr ==> b in old(marks).repr || b == top || fresh(b)
      ensures old(cache).states == map[] ==> cache.states == map[] && doDeferWrite == old(doDeferWrite)
      ensures needed ==> fresh(rblock)
      ensures newObjs == objs + (if needed then [rblock] else []) && newLeaves == leaves + if needed then [[]] else []
      ensures Prefix(old(top.iptrs), top.iptrs) && (!needed ==> top.iptrs == old(top.iptrs))
      ensures needed ==> top.iptrs[|top.iptrs| - 1] ==
                           IndirectPtr(old(cache).nextID, 0, old(top.iptrs[idx]).off + |block.contents|)
    {
      rblock, newObjs, newLeaves := block, objs, leaves;
      if needed {
        StartNext(leaves, idx);
        StartAll(leaves);
        rblock, newObjs, newLeaves := AddRight(file, top, top.iptrs[idx].off + |block.contents|, objs, leaves, idx);
      }
    }

    // The end of a round of the write loop: a new leaf when it is needed, and the leaf put back.
    method StoreLeaf(file: Ptr, top: FileBlock, idx: nat, block: FileBlock, needed: bool, x: nat, x': nat,
                     ghost more: bool, ghost objs: seq<FileBlock>, ghost leaves: seq<Bytes>)
      returns (ghost rblock: FileBlock, ghost newObjs: seq<FileBlock>, ghost newLeaves: seq<Bytes>)
      requires OwnsTop(file, top) && idx < |leaves| && HoldsBut(file, top, objs, leaves, idx) && block == objs[idx]
      requires Packed(leaves, maxSize) && needed == (more && idx == |top.iptrs| - 1) && AtLeaf(top.iptrs, idx, x)
      requires needed ==> |block.contents| == maxSize && top.iptrs[idx].off + |block.contents| <= x'
      requires more && !needed ==> idx < |top.iptrs| - 1 && top.iptrs[idx + 1].off == x'
      modifies this`cache, this`doDeferWrite, this`marks, top`iptrs
      ensures OwnsTop(file, top) && HoldsBut(file, top, newObjs, newLeaves, -1)
      ensures Packed(newLeaves, maxSize) && Flat(newLeaves) == Flat(leaves)
      ensures newObjs == objs + (if needed then [rblock] else []) && newLeaves == leaves + if needed then [[]] else []
      ensures needed ==> fresh(rblock)
      ensures var m1 := ExtendedMarks(old(marks), top, needed, rblock); marks == m1.(repr := m1.repr + {block})
      ensures RoundDone(old(cache), old(top.iptrs), cache, top.iptrs, file, top, idx, needed, rblock, block, x, x',
                        more)
      ensures old(cache).states == map[] ==> cache.states == map[] && doDeferWrite == old(doDeferWrite)
    {
      hide Packed, Extended, ExtendedMarks, Flat, CacheOk, Owned, Linked, Contiguous, RoundDone;
      rblock, newObjs, newLeaves := ExtendRight(file, top, idx, block, needed, objs, leaves);
      PutLeaf(file, top, idx, block, newObjs, newLeaves);
      RoundIs(old(cache), old(top.iptrs), cache, top.iptrs, file, top, idx, needed, rblock, block, x, x', more);
    }

    method UpdateSize(file: Ptr, size: nat, oldLen: nat, newLen: nat) returns (newSize: nat)
      requires oldLen <= size + newLen
      modifies this`deCache
      ensures newSize == size + newLen - oldLen
      ensures deCache == if newSize != size then old(deCache)[file := newSize] else old(deCache)
    {
      newSize := size + newLen - oldLen;
      if oldLen != newLen {
        deCache := deCache[file := newSize];
      }
    }

    /** What holds between the rounds of the write loop: the first nCopied bytes of the data are in. */
    ghost predicate Writing(file: Ptr, top: FileBlock, objs: seq<FileBlock>, leaves: seq<Bytes>, f: Bytes, data: Bytes,
                            off: nat, nCopied: nat, size: nat)
      reads this`cache, this`marks, top, objs
    {
      && OwnsTop(file, top) && Holds(file, top, objs, leaves) && Packed(leaves, maxSize)
      && PartlyWritten(f, data, off, nCopied, Flat(leaves)) && size == |Flat(leaves)|
    }

    // Where the write loop goes on, or where it ended.
    ghost predicate Heading(iptrs: seq<IndirectPtr>, leaves: seq<Bytes>, next: nat, data: Bytes, off: nat,
                            nCopied: nat)
    {
      if nCopied < |data| then AtLeaf(iptrs, next, off + nCopied)
      else 0 < next && EndsIn(leaves, next - 1, off + |data|)
    }

    // A single-block file that the write did not make a multi-block one.
    ghost predicate StaysDirect(file: Ptr, fblock: FileBlock, c: Cache, dirtyPtrs: seq<Ptr>)
      reads this`cache, this`doDeferWrite
    {
      && file in cache.dirty && cache.dirty[file] == fblock && dirtyPtrs == [file]
      && (UnderSync(c, file) ==> doDeferWrite)
      && forall p: Ptr :: p in cache.dirty ==> p in c.dirty || p == file
    }

    // What the write loop has put so far, from the cache c and the pointers iptrs.
    ghost predicate Tracking(file: Ptr, fblock: FileBlock, leaves: seq<Bytes>, c: Cache, iptrs: seq<IndirectPtr>,
                             was: bool, w: Progress, dirtyPtrs: seq<Ptr>, data: Bytes, off: nat, nCopied: nat)
      reads this`cache, fblock`iptrs
    {
      && Progressed(w, cache, fblock.iptrs, file, nCopied < |data|)
      && Heading(fblock.iptrs, leaves, w.next, data, off, nCopied)
      && Tracked(c, iptrs, was, w, dirtyPtrs, file) && (nCopied == |data| ==> w.lo < w.next)
    }

    /** One round of the write loop on a multi-block file: find the leaf, copy what fits,
        add a leaf on the right when the data goes on past a full last leaf. */
    method WriteRoundIndirect(file: Ptr, top: FileBlock, data: Bytes, off: nat, nCopied: nat, size: nat,
                              ghost f: Bytes, ghost objs: seq<FileBlock>, ghost leaves: seq<Bytes>)
      returns (copied: nat, newSize: nat, badSplit: bool, idx: nat, block: FileBlock, needed: bool,
               ghost rblock: FileBlock, ghost newObjs: seq<FileBlock>, ghost newLeaves: seq<Bytes>)
      requires Writing(file, top, objs, leaves, f, data, off, nCopied, size) && top.isInd && nCopied < |data|
      modifies this`cache, this`doDeferWrite, this`marks, this`deCache, top`iptrs, set b | b in objs
        && b !in marks.frozen
      ensures !badSplit && Writing(file, top, newObjs, newLeaves, f, data, off, nCopied + copied, newSize) && top.isInd
      ensures copied > 0 || (|newLeaves| == |leaves| + 1 && |leaves| <= off + nCopied)
      ensures size <= newSize && deCache == if newSize != size then old(deCache)[file := newSize] else old(deCache)
      ensures old(cache).states == map[] ==> cache.states == map[] && doDeferWrite == old(doDeferWrite)
      ensures needed ==> fresh(rblock)
      ensures idx < |objs| && newObjs == objs[idx := block] + if needed then [rblock] else []
      ensures fresh(block) || (block in objs && block in old(marks).repr)
      ensures RoundDone(old(cache), old(top.iptrs), cache, top.iptrs, file, top, idx, needed, rblock, block,
                        off + nCopied, off + nCopied + copied, nCopied + copied < |data|)
      ensures var m1 := ExtendedMarks(old(marks), top, needed, rblock); marks == m1.(repr := m1.repr + {block})
      ensures nCopied + copied == |data| ==> EndsIn(newLeaves, idx, off + |data|)
    {
      hide Packed, PartlyWritten, ExtendedMarks, Flat, EndsIn, FolderBlockOps.HoldsBut, FolderBlockOps.OwnsTop,
        RoundDone;
      var oldLen;
      idx, block, copied, oldLen, newObjs, newLeaves := CopyIntoLeaf(file, top, data, off, nCopied, f, objs, leaves);
      var more := idx != |top.iptrs| - 1;
      var ptr := top.iptrs[idx].ptr;
      badSplit := more && oldLen < |block.contents|;
      needed := nCopied + copied < |data| && !more;
      ghost var copiedLeaves := newLeaves;
      rblock, newObjs, newLeaves := StoreLeaf(file, top, idx, block, needed, off + nCopied, off + nCopied + copied,
                                              nCopied + copied < |data|, newObjs, newLeaves);
      newSize := UpdateSize(file, size, oldLen, |block.contents|);
      StillEnds(copiedLeaves, newLeaves, idx, off + |data|);
    }

    // The same with the write loop's bookkeeping.
    method TrackedRound(file: Ptr, top: FileBlock, data: Bytes, off: nat, nCopied: nat, size: nat, dirtyPtrs: seq<Ptr>,
                        ghost f: Bytes, ghost objs: seq<FileBlock>, ghost leaves: seq<Bytes>,
                        ghost c0: Cache, ghost iptrs0: seq<IndirectPtr>, ghost was: bool, ghost w: Progress)
      returns (copied: nat, newSize: nat, badSplit: bool, ptrs: seq<Ptr>,
               ghost newObjs: seq<FileBlock>, ghost newLeaves: seq<Bytes>, ghost w': Progress)
      requires Writing(file, top, objs, leaves, f, data, off, nCopied, size) && top.isInd && nCopied < |data|
      requires Tracking(file, top, leaves, c0, iptrs0, was, w, dirtyPtrs, data, off, nCopied)
      modifies this`cache, this`doDeferWrite, this`marks, this`deCache, top`iptrs, set b | b in objs
        && b !in marks.frozen
      ensures !badSplit && Writing(file, top, newObjs, newLeaves, f, data, off, nCopied + copied, newSize) && top.isInd
      ensures copied > 0 || (|newLeaves| == |leaves| + 1 && |leaves| <= off + nCopied)
      ensures nCopied + copied <= |data| && size <= newSize
      ensures deCache == if newSize != size then old(deCache)[file := newSize] else old(deCache)
      ensures Grows(old(cache), old(marks), cache, marks)
      ensures old(cache).states == map[] ==> cache.states == map[] && doDeferWrite == old(doDeferWrite)
      ensures forall b :: b in marks.repr ==> b in old(marks).repr || b == top || fresh(b)
      ensures forall b :: b in newObjs ==> b in objs || fresh(b)
      ensures Tracking(file, top, newLeaves, c0, iptrs0, was, w', ptrs, data, off, nCopied + copied) && w'.lo == w.lo
    {
      hide CacheOk, Owned, Linked, LeafValues, Grows, Packed, PartlyWritten, Extended, Flat, Progressed, Contiguous,
        EndsIn, Tracked;
      var idx, block, needed; ghost var rblock;
      ghost var iptrs := top.iptrs;
      PtrsApart(cache, marks, file, top, iptrs, objs, -1);
      copied, newSize, badSplit, idx, block, needed, rblock, newObjs, newLeaves :=
        WriteRoundIndirect(file, top, data, off, nCopied, size, f, objs, leaves);
      WrittenBound(f, data, off, nCopied + copied, Flat(newLeaves));
      LeafUnique(iptrs, leaves, idx, w.next, off + nCopied);
      var ptr := top.iptrs[idx].ptr;
      ptrs, w' := dirtyPtrs + [ptr], Through(w, ptr);
      RoundGrows(old(cache), old(marks), file, top, needed, rblock, ptr, block);
      ProgressRound(w, old(cache), iptrs, file, top, needed, rblock, block, top.iptrs);
      ProgressMore(w', cache, top.iptrs, file, needed, nCopied + copied < |data|);
      TrackedNext(c0, iptrs0, was, w, dirtyPtrs, file, ptr);
      if nCopied + copied < |data| { NextLeaf(top.iptrs, newLeaves, idx + 1, off + nCopied + copied); }
    }

    // The file's only block moves to a new ID and becomes the first leaf of a new top
    // block, with an empty leaf to its right.
    method MoveUnderNewTop(file: Ptr, top: FileBlock) returns (newTop: FileBlock, rblock: FileBlock)
      modifies this`cache, this`doDeferWrite, this`marks
      ensures cache == Converted(old(cache), file, top, newTop, rblock)
      ensures marks == ConvertedMarks(old(marks), top, newTop, rblock)
      ensures old(cache).states == map[] ==> cache.states == map[] && doDeferWrite == old(doDeferWrite)
      ensures fresh(newTop) && fresh(rblock) && newTop != rblock
      ensures newTop.isInd && !rblock.isInd && rblock.contents == []
      ensures newTop.iptrs == [IndirectPtr(old(cache).nextID, 0, 0),
                               IndirectPtr(old(cache).nextID + 1, 0, |top.contents|)]
    {
      hide Cache.Put, Cache.StateOf;
      var newID := cache.nextID;
      newTop := new FileBlock(true, [IndirectPtr(newID, 0, 0)], []);
      cache := cache.(dirty := cache.dirty[file := newTop], nextID := newID + 1);
      rblock := NewRightBlock(file, newTop, |top.contents|);
      NoStates(cache, newID, top);
      CacheBlockIfNotYetDirty(newID, top);
    }

    method MakeIndirect(file: Ptr, top: FileBlock)
      returns (newTop: FileBlock, ghost objs: seq<FileBlock>, ghost leaves: seq<Bytes>)
      requires OwnsTop(file, top) && !top.isInd
      requires 0 < |top.contents| == maxSize
      modifies this`cache, this`doDeferWrite, this`marks
      ensures OwnsTop(file, newTop) && HoldsBut(file, newTop, objs, leaves, -1)
      ensures fresh(newTop) && |newTop.iptrs| == 2 && newTop.iptrs[0].ptr == old(cache).nextID
      ensures newTop.iptrs[1].off == |top.contents| && newTop.iptrs[1].ptr == old(cache).nextID + 1
      ensures leaves == [top.contents, []] && forall b :: b in objs ==> b == top || fresh(b)
      ensures Grows(old(cache), old(marks), cache, marks)
      ensures old(cache).states == map[] ==> cache.states == map[] && doDeferWrite == old(doDeferWrite)
      ensures forall b :: b in marks.repr ==> b in old(marks).repr || b == top || fresh(b)
      ensures forall p: Ptr :: p in cache.dirty ==>
                p in old(cache).dirty || p == file || p == newTop.iptrs[0].ptr || p == newTop.iptrs[1].ptr
    {
      hide CacheOk, Owned, Linked, Grows, Converted;
      var rblock;
      newTop, rblock := MoveUnderNewTop(file, top);
      objs, leaves := [top, rblock], [top.contents, []];
      assert Contiguous(newTop.iptrs, leaves) by {
        assert leaves[..0] == [];
        assert leaves[..1] == [top.contents];
        FlatOne(top.contents);
      }
      LinkConvert(old(cache), old(marks), file, top, newTop, rblock, |top.contents|);
      ConvertGrows(old(cache), old(marks), file, top, newTop, rblock);
    }

    /** One round of the write loop on a single-block file. */
    method WriteRoundDirect(file: Ptr, top: FileBlock, data: Bytes, off: nat, size: nat,
                            ghost f: Bytes, ghost objs: seq<FileBlock>, ghost leaves: seq<Bytes>,
                            ghost iptrs0: seq<IndirectPtr>)
      returns (newTop: FileBlock, copied: nat, newSize: nat, ptrs: seq<Ptr>,
               ghost newObjs: seq<FileBlock>, ghost newLeaves: seq<Bytes>, ghost w: Progress)
      requires Writing(file, top, objs, leaves, f, data, off, 0, size) && !top.isInd && data != []
      modifies this`cache, this`doDeferWrite, this`marks, this`deCache, top`contents
      ensures Writing(file, newTop, newObjs, newLeaves, f, data, off, copied, newSize)
      ensures newTop == top || fresh(newTop)
      ensures copied > 0 || (|newLeaves| == |leaves| + 1 && |leaves| <= off)
      ensures copied <= |data| && size <= newSize && forall b :: b in newObjs ==> b in objs || fresh(b)
      ensures if copied < |data| then newTop.isInd else !newTop.isInd && StaysDirect(file, newTop, old(cache), ptrs)
      ensures newTop.isInd ==> Tracking(file, newTop, newLeaves, old(cache), iptrs0, false, w, ptrs, data, off, copied)
      ensures deCache == if newSize != size then old(deCache)[file := newSize] else old(deCache)
      ensures Grows(old(cache), old(marks), cache, marks)
      ensures old(cache).states == map[] ==> cache.states == map[] && doDeferWrite == old(doDeferWrite)
      ensures forall b :: b in marks.repr ==> b in old(marks).repr || b == top || fresh(b)
    {
      hide CacheOk, Owned, Linked, Grows, Contiguous, EndsIn, Progressed, PartlyWritten, CopiedInto, GrownLength, Flat;
      ghost var before := top.contents;
      FlatOne(before);
      var oldLen := |top.contents|;
      copied := CopyUntilSplit(maxSize, top, data, off);
      assert data[0..] == data;
      StartZero([before]);
      CopyRound(f, data, off, 0, [before], 0, copied, top.contents, maxSize);
      newLeaves := [before][0 := top.contents];
      assert newLeaves == [top.contents];
      FlatOne(top.contents);
      if copied < |data| {
        ptrs := [cache.nextID];
        newTop, newObjs, newLeaves := MakeIndirect(file, top);
        AppendEmptyFlat([top.contents]);
        assert [top.contents] + [[]] == newLeaves;
        w := Progress(cache, newTop.iptrs, 1, 1, []);
        NoProgress(cache, newTop.iptrs, file, 1);
        GrowsParts(old(cache), old(marks), cache, marks);
      } else {
        ptrs, newTop, newObjs := [file], top, [top];
        CachePut(cache, marks, file, top);
        PutGrows(cache, marks, file, top);
        CacheBlockIfNotYetDirty(file, top);
        w := Progress(cache, [], 0, 0, []);
      }
      newSize := UpdateSize(file, size, oldLen, |top.contents|);
    }

    // The write loop's bookkeeping before its first round.
    lemma StartTracking(file: Ptr, top: FileBlock, objs: seq<FileBlock>, leaves: seq<Bytes>, data: Bytes, off: nat,
                        size: nat)
      returns (w: Progress)
      requires Writing(file, top, objs, leaves, Flat(leaves), data, off, 0, size) && data != []
      ensures top.isInd ==>
        Tracking(file, top, leaves, cache, top.iptrs, true, w, [], data, off, 0) && AtLeaf(top.iptrs, w.lo, off)
    {
      hide CacheOk, Owned, Linked, LeafValues, Packed, PartlyWritten, Flat, Progressed, Contiguous, EndsIn;
      w := Progress(cache, top.iptrs, 0, 0, []);
      if top.isInd {
        var k := LeafFor(top.iptrs, leaves, off);
        w := w.(lo := k, next := k);
        NoProgress(cache, top.iptrs, file, k);
      }
    }

    // The top block, opened for writing.
    method OpenTop(file: Ptr) returns (top: FileBlock, ghost topObjs: seq<FileBlock>)
      requires Valid(file)
      ensures OwnsTop(file, top) && Holds(file, top, topObjs, leaves)
      ensures fresh(top) || (top in Written(file) && top in marks.repr)
      ensures forall b :: b in topObjs ==> b in objs || fresh(b)
      ensures !top.isInd <==> !cache.Obj(file).isInd
      ensures cache.Obj(file).isInd ==> topObjs == objs && top.iptrs == cache.Obj(file).iptrs
    {
      top := GetFileBlock(file, true);
      topObjs := if top.isInd then objs else [top];
    }

    /** The write loop.  It ends because every round copies something or adds a leaf on the
        way to the offset. */
    method WriteLoop(file: Ptr, top: FileBlock, data: Bytes, off: nat, size: nat,
                     ghost topObjs: seq<FileBlock>, ghost topLeaves: seq<Bytes>)
      returns (fblock: FileBlock, badSplit: bool, newSize: nat, dirtyPtrs: seq<Ptr>,
               ghost newObjs: seq<FileBlock>, ghost newLeaves: seq<Bytes>, ghost w: Progress)
      requires Writing(file, top, topObjs, topLeaves, Flat(topLeaves), data, off, 0, size) && data != []
      modifies this`cache, this`doDeferWrite, this`marks, this`deCache, top, set b | b in topObjs && b !in marks.frozen
      ensures !badSplit && Writing(file, fblock, newObjs, newLeaves, Flat(topLeaves), data, off, |data|, newSize)
      ensures if old(top.isInd) then fblock == top && fblock.isInd else fblock == top || fresh(fblock)
      ensures deCache == if newSize != size then old(deCache)[file := newSize] else old(deCache)
      ensures !fblock.isInd ==> StaysDirect(file, fblock, old(cache), dirtyPtrs)
      ensures fblock.isInd ==>
        Tracking(file, fblock, newLeaves, old(cache), old(top.iptrs), old(top.isInd), w, dirtyPtrs, data, off, |data|)
      ensures old(top.isInd) ==> AtLeaf(old(top.iptrs), w.lo, off)
      ensures Grows(old(cache), old(marks), cache, marks)
      ensures old(cache).states == map[] ==> cache.states == map[] && doDeferWrite == old(doDeferWrite)
      ensures forall b :: b in marks.repr ==> b in old(marks).repr || b == top || fresh(b)
      ensures forall b :: b in newObjs ==> b in topObjs || fresh(b)
    {
      hide Writing, Tracking, Grows, Flat, AtLeaf, StaysDirect, Tracked;
      ghost var f := Flat(topLeaves);
      var n, nCopied := |data|, 0;
      fblock, badSplit, newSize, dirtyPtrs, newObjs, newLeaves := top, false, size, [], topObjs, topLeaves;
      w := StartTracking(file, top, topObjs, topLeaves, data, off, size);
      GrowsReflexive(cache, marks);
      while nCopied < n && !badSplit
        invariant nCopied <= n && !badSplit && Writing(file, fblock, newObjs, newLeaves, f, data, off, nCopied, newSize)
        invariant if old(top.isInd) then fblock == top && fblock.isInd else fblock == top || fresh(fblock)
        invariant forall b :: b in newObjs ==> b in topObjs || fresh(b)
        invariant size <= newSize && deCache == if newSize != size then old(deCache)[file := newSize] else old(deCache)
        invariant !fblock.isInd ==>
          if nCopied == 0 then cache == old(cache) && dirtyPtrs == []
          else nCopied == n && StaysDirect(file, fblock, old(cache), dirtyPtrs)
        invariant fblock.isInd ==>
          Tracking(file, fblock, newLeaves, old(cache), old(top.iptrs), old(top.isInd), w, dirtyPtrs, data, off,
                   nCopied)
        invariant old(top.isInd) ==> AtLeaf(old(top.iptrs), w.lo, off)
        invariant Grows(old(cache), old(marks), cache, marks)
        invariant old(cache).states == map[] ==> cache.states == map[] && doDeferWrite == old(doDeferWrite)
        invariant forall b :: b in marks.repr ==> b in old(marks).repr || b == top || fresh(b)
        decreases n - nCopied, Max(0, off + n - |newLeaves|)
      {
        var copied;
        ghost var c, m, k := cache, marks, |newLeaves|;
        GrowsParts(old(cache), old(marks), c, m);
        if fblock.isInd {
          copied, newSize, badSplit, dirtyPtrs, newObjs, newLeaves, w :=
            TrackedRound(file, fblock, data, off, nCopied, newSize, dirtyPtrs, f, newObjs, newLeaves,
                         old(cache), old(top.iptrs), old(top.isInd), w);
        } else {
          fblock, copied, newSize, dirtyPtrs, newObjs, newLeaves, w :=
            WriteRoundDirect(file, fblock, data, off, newSize, f, newObjs, newLeaves, old(top.iptrs));
        }
        GrowsTransitive(old(cache), old(marks), c, m, cache, marks);
        nCopied := nCopied + copied;
      }
    }

    // The end of a write or shrinking truncate: the top block of a multi-block file is
    // always made dirty.
    method FinishWrite(file: Ptr, top: FileBlock, ghost newObjs: seq<FileBlock>, ghost newLeaves: seq<Bytes>)
      requires OwnsTop(file, top) && Holds(file, top, newObjs, newLeaves)
      requires top.isInd || (file in cache.dirty && cache.dirty[file] == top)
      requires Packed(newLeaves, maxSize) && file in entries && EntrySize(file) == |Flat(newLeaves)| && EntriesOk()
      modifies this`cache, this`doDeferWrite, this`marks, this`objs, this`leaves
      ensures Valid(file) && file in cache.dirty && cache.dirty[file] == top
      ensures objs == newObjs && leaves == newLeaves
      ensures Grows(old(cache), old(marks), cache, marks)
      ensures old(cache).states == map[] ==> cache.states == map[] && doDeferWrite == old(doDeferWrite)
      ensures doDeferWrite || !old(doDeferWrite)
      ensures top.isInd && UnderSync(old(cache), file) ==> doDeferWrite
      ensures marks.repr <= old(marks).repr + {top}
      ensures cache == if top.isInd then old(cache).Put(file, top) else old(cache)
      ensures forall p: Ptr :: p in cache.dirty ==> p in old(cache).dirty || (top.isInd && p == file)
    {
      hide CacheOk, Owned, Linked, Contiguous, LeafValues, Packed, Grows;
      objs, leaves := newObjs, newLeaves;
      GrowsReflexive(cache, marks);
      if top.isInd {
        CachePut(cache, marks, file, top);
        LinkPutTop(cache, marks, file, top, top.iptrs, objs, -1);
        PutGrows(cache, marks, file, top);
        CacheBlockIfNotYetDirty(file, top);
      }
    }

    /** writeDataLocked: either the write is refused and nothing changes, or the file
        becomes WriteAt of what it was.  No clean or captured block is touched, and every
        pointer the write made dirty is reported: on a multi-block file those of exactly the
        leaves the data goes to, and the file's own. */
    method WriteData(file: Ptr, data: Bytes, off: nat) returns (r: Outcome, dirtyPtrs: seq<Ptr>)
      requires Valid(file)
      modifies this`cache, this`doDeferWrite, this`marks, this`deCache, this`objs, this`leaves, Written(file)
      ensures Valid(file)
      ensures r == if off + |data| > maxFileBytes then FileTooBig else Done
      ensures Flat(leaves) == if r.Done? then WriteAt(old(Flat(leaves)), data, off) else old(Flat(leaves))
      ensures Flat(leaves) != old(Flat(leaves)) ==> file in cache.dirty
      ensures !r.Done? ==> cache == old(cache)
      ensures Grows(old(cache), old(marks), cache, marks)
      ensures old(cache).states == map[] ==> cache.states == map[] && doDeferWrite == old(doDeferWrite)
      ensures UnderSync(old(cache), file) ==>
                doDeferWrite || (cache == old(cache) && Flat(leaves) == old(Flat(leaves)))
      ensures forall b :: b in marks.repr ==> b in old(marks).repr || fresh(b)
      ensures forall b :: b in objs ==> b in old(objs) || b == old(cache.Obj(file)) || fresh(b)
      ensures Reports(old(cache), cache, file, false, dirtyPtrs)
      ensures !old(cache.Obj(file).isInd) ==> OwnOrNew(old(cache), file, dirtyPtrs)
      ensures data != [] && r.Done? && UnderSync(old(cache), file) ==> doDeferWrite
      ensures maxSize > 0 && (old(cache.Obj(file).isInd) ==>
        && cache.Obj(file).isInd
        && Effect(if r.Done? then WriteReach(|data|, off, |old(leaves)|, maxSize) else Nowhere,
                  old(cache), old(cache.Obj(file).iptrs), cache, cache.Obj(file).iptrs, file, dirtyPtrs))
    {
      hide CacheOk, Owned, Linked, Contiguous, LeafValues, Grows, Packed, PartlyWritten, WriteAt, Flat, Splice, Effect;
      PackedPositive(leaves, maxSize);
      GrowsReflexive(cache, marks);
      NoEffect(cache, cache.Obj(file).iptrs, file);
      if off + |data| > maxFileBytes {
        return FileTooBig, [];
      }
      r, dirtyPtrs := Done, [];
      var fblock; ghost var topObjs;
      fblock, topObjs := OpenTop(file);
      if data == [] {
        if fblock.isInd {
          FinishWrite(file, fblock, topObjs, leaves);
          dirtyPtrs := [file];
          EffectNone(old(cache), old(cache.Obj(file).iptrs), file, fblock);
        }
        assert WriteAt(Flat(leaves), data, off) == Flat(leaves) by {
          EmptyWrite(Flat(leaves), off);
        }
        return;
      }
      var badSplit;
      badSplit, dirtyPtrs := WriteSome(file, fblock, topObjs, data, off);
      if badSplit {
        return BadSplit, [];
      }
    }

    // The part of writeDataLocked from its loop on.
    method WriteSome(file: Ptr, top: FileBlock, ghost topObjs: seq<FileBlock>, data: Bytes, off: nat)
      returns (badSplit: bool, dirtyPtrs: seq<Ptr>)
      requires OwnsTop(file, top) && Holds(file, top, topObjs, leaves) && Packed(leaves, maxSize) && data != []
      requires file in entries && EntriesOk() && EntrySize(file) == |Flat(leaves)|
      modifies this`cache, this`doDeferWrite, this`marks, this`deCache, this`objs, this`leaves,
               top, set b | b in topObjs && b !in marks.frozen
      ensures !badSplit && Valid(file) && file in cache.dirty && Flat(leaves) == WriteAt(old(Flat(leaves)), data, off)
      ensures Grows(old(cache), old(marks), cache, marks)
      ensures old(cache).states == map[] ==> cache.states == map[] && doDeferWrite == old(doDeferWrite)
      ensures UnderSync(old(cache), file) ==> doDeferWrite
      ensures forall b :: b in marks.repr ==> b in old(marks).repr || b == top || fresh(b)
      ensures forall b :: b in objs ==> b in topObjs || fresh(b)
      ensures Reports(old(cache), cache, file, false, dirtyPtrs)
      ensures !old(top.isInd) ==> OwnOrNew(old(cache), file, dirtyPtrs)
      ensures maxSize > 0 && (old(top.isInd) ==>
        && cache.dirty[file].isInd
        && Effect(WriteReach(|data|, off, |old(leaves)|, maxSize), old(cache), old(top.iptrs), cache,
                  cache.dirty[file].iptrs, file, dirtyPtrs))
    {
      hide CacheOk, Owned, Linked, Contiguous, LeafValues, Grows, Packed, PartlyWritten, WriteAt, Flat, Splice, Effect,
        Progressed, EndsIn, Tracked, FolderBlockOps.Valid, WriteReach, Cache.StateOf, Reports, OwnOrNew, KnowsAll;
      PackedPositive(leaves, maxSize);
      ghost var f := Flat(leaves);
      if top.isInd { LinkedKnown(cache, marks, file, top, top.iptrs, topObjs); }
      NothingWritten(f, data, off);
      var fblock, size; ghost var newObjs, newLeaves, w;
      fblock, badSplit, size, dirtyPtrs, newObjs, newLeaves, w :=
        WriteLoop(file, top, data, off, EntrySize(file), topObjs, leaves);
      GrowsParts(old(cache), old(marks), cache, marks);
      FullyWritten(f, data, off, Flat(newLeaves));
      ghost var c, m := cache, marks;
      if fblock.isInd {
        WriteReports(old(cache), old(top.iptrs), old(top.isInd), w, dirtyPtrs, file, cache, fblock.iptrs, fblock);
      } else {
        OwnReported(old(cache), cache, file);
      }
      FinishWrite(file, fblock, newObjs, newLeaves);
      GrowsTransitive(old(cache), old(marks), c, m, cache, marks);
      if fblock.isInd {
        dirtyPtrs := dirtyPtrs + [file];
      }
      if old(top.isInd) {
        TrackedFrom(old(cache), old(top.iptrs), w, dirtyPtrs[..|dirtyPtrs| - 1], file);
        WriteEffect(old(leaves), newLeaves, old(top.iptrs), w, c, fblock.iptrs, file, fblock, data, off);
      }
    }

    // Where the write loop started and ended says which leaves it went to.
    lemma WriteEffect(before: seq<Bytes>, after: seq<Bytes>, iptrs: seq<IndirectPtr>, w: Progress, c: Cache,
                      iptrs': seq<IndirectPtr>, file: Ptr, top: FileBlock, data: Bytes, off: nat)
      requires Packed(before, maxSize) && Packed(after, maxSize) && Contiguous(iptrs, before)
      requires w.iptrs == iptrs && Progressed(w, c, iptrs', file, false) && w.lo < w.next
      requires AtLeaf(iptrs, w.lo, off) && EndsIn(after, w.next - 1, off + |data|) && data != []
      ensures Effect(WriteReach(|data|, off, |before|, maxSize), w.cache, iptrs, c.Put(file, top), iptrs', file,
                     w.ptrs + [file])
    {
      hide Progressed, Effect, Packed;
      ContiguousIncreasing(iptrs, before);
      LeafIs(before, maxSize, w.lo, off);
      LeafBefore(after, maxSize, w.next - 1, off + |data|);
      WroteLeaves(w, c, iptrs', file);
      EffectTop(Leaves(w.lo, w.next), w.cache, iptrs, c, iptrs', file, w.ptrs + [file], top);
    }

    // Cut leaf idx and drop the leaves after it.
    method CutAt(file: Ptr, top: FileBlock, size: nat, idx: nat, block: FileBlock,
                 ghost topObjs: seq<FileBlock>, ghost topLeaves: seq<Bytes>)
      returns (ghost newObjs: seq<FileBlock>, ghost newLeaves: seq<Bytes>)
      requires OwnsTop(file, top) && idx < |topLeaves| && HoldsBut(file, top, topObjs, topLeaves, idx)
      requires block == topObjs[idx]
      requires Start(topLeaves, idx) <= size < Start(topLeaves, idx) + |topLeaves[idx]|
      modifies block`contents, top`iptrs
      ensures newLeaves == CutLeaves(topLeaves, idx, size)
      ensures OwnsTop(file, top) && HoldsBut(file, top, newObjs, newLeaves, idx) && idx < |newObjs|
      ensures newObjs[idx] == block
      ensures idx < |old(top.iptrs)| && top.iptrs == old(top.iptrs)[..idx + 1] && |newLeaves| == |newObjs| == idx + 1
      ensures idx < |topObjs| && newObjs == topObjs[..idx + 1]
    {
      LinkDistinct(cache, marks, file, top, top.iptrs, topObjs, idx);
      LinkCut(cache, marks, file, top, top.iptrs, topObjs, idx);
      CutContiguous(top.iptrs, topLeaves, idx, size);
      newObjs, newLeaves := topObjs[..idx + 1], CutLeaves(topLeaves, idx, size);
      block.contents := block.contents[..size - top.iptrs[idx].off];
      top.iptrs := top.iptrs[..idx + 1];
      assert LeafValues(newObjs, newLeaves);
    }

    // Cut leaf idx, drop the leaves after it, and put the leaf back.
    method CutAndPut(file: Ptr, top: FileBlock, size: nat, idx: nat, block: FileBlock, ghost topObjs: seq<FileBlock>)
      returns (ghost newObjs: seq<FileBlock>)
      requires OwnsTop(file, top) && idx < |leaves| && HoldsBut(file, top, topObjs, leaves, idx)
      requires block == topObjs[idx]
      requires Start(leaves, idx) <= size < Start(leaves, idx) + |leaves[idx]|
      modifies this`cache, this`doDeferWrite, this`marks, block`contents, top`iptrs
      ensures OwnsTop(file, top) && HoldsBut(file, top, newObjs, CutLeaves(leaves, idx, size), -1)
      ensures Grows(old(cache), old(marks), cache, marks)
      ensures old(cache).states == map[] ==> cache.states == map[] && doDeferWrite == old(doDeferWrite)
      ensures idx < |topObjs| && newObjs == topObjs[..idx + 1]
      ensures marks == old(marks).(repr := old(marks).repr + {block})
      ensures idx < |old(top.iptrs)| && cache == old(cache).Put(old(top.iptrs)[idx].ptr, block)
      ensures top.iptrs == old(top.iptrs)[..idx + 1][idx := old(top.iptrs)[idx].(encodedSize := 0)]
    {
      hide CacheOk, Owned, Linked, Contiguous, LeafValues, Grows, CutLeaves, Flat, Start;
      LinkDistinct(cache, marks, file, top, top.iptrs, topObjs, idx);
      ghost var newLeaves;
      newObjs, newLeaves := CutAt(file, top, size, idx, block, topObjs, leaves);
      PutGrows(cache, marks, top.iptrs[idx].ptr, block);
      PutLeaf(file, top, idx, block, newObjs, newLeaves);
    }

    // The shrinking branch of truncateLocked on a multi-block file.  The leaf goes back
    // before the top block; the pointers differ, so the order does not show.
    method ShrinkIndirect(file: Ptr, top: FileBlock, size: nat, idx: nat, block: FileBlock,
                          ghost topObjs: seq<FileBlock>)
      requires OwnsTop(file, top) && idx < |leaves| && HoldsBut(file, top, topObjs, leaves, idx)
      requires block == topObjs[idx]
      requires Start(leaves, idx) <= size < Start(leaves, idx) + |leaves[idx]|
      requires idx < |leaves| - 1 ==> size < Start(leaves, idx + 1)
      requires Packed(leaves, maxSize) && file in entries && EntriesOk()
      modifies this`cache, this`doDeferWrite, this`marks, this`deCache, this`objs, this`leaves, block`contents,
        top`iptrs
      ensures CutDone(file, old(top.iptrs), size)
      ensures Valid(file) && Flat(leaves) == TruncateTo(old(Flat(leaves)), size)
      ensures Grows(old(cache), old(marks), cache, marks)
      ensures old(cache).states == map[] ==> cache.states == map[] && doDeferWrite == old(doDeferWrite)
      ensures UnderSync(old(cache), file) ==> doDeferWrite
      ensures forall b :: b in marks.repr ==> b in old(marks).repr || b == top || b == block
      ensures forall b :: b in objs ==> b in topObjs
      ensures file in cache.dirty && cache.dirty[file] == top
      ensures Effect(Cut(idx), old(cache), old(top.iptrs), cache, top.iptrs, file, [])
      ensures top.isInd && |objs| == idx + 1
      ensures forall i :: idx < i < |topObjs| ==> topObjs[i].contents == old(topObjs[i].contents)
    {
      hide CacheOk, Owned, Linked, Contiguous, LeafValues, Packed, Grows, CutLeaves, CutFrom, Effect, Flat;
      CutIsTruncate(leaves, idx, size, maxSize);
      CutUndersize(top.iptrs, leaves, idx, size);
      LinkDistinct(cache, marks, file, top, top.iptrs, topObjs, idx);
      ghost var newLeaves := CutLeaves(leaves, idx, size);
      ghost var newObjs := CutAndPut(file, top, size, idx, block, topObjs);
      CutEffect(old(cache), old(top.iptrs), top.iptrs, file, idx, block, top);
      deCache := deCache[file := size];
      ghost var c, m := cache, marks;
      GrowsParts(old(cache), old(marks), c, m);
      FinishWrite(file, top, newObjs, newLeaves);
      GrowsParts(c, m, cache, marks);
      GrowsTransitive(old(cache), old(marks), c, m, cache, marks);
    }

    // The shrinking branch of truncateLocked on a single-block file.
    method ShrinkDirect(file: Ptr, top: FileBlock, size: nat)
      requires OwnsTop(file, top) && !top.isInd && leaves == [top.contents] && size < |top.contents|
      requires Packed(leaves, maxSize) && file in entries && EntriesOk()
      modifies this`cache, this`doDeferWrite, this`marks, this`deCache, this`objs, this`leaves, top`contents
      ensures Valid(file) && Flat(leaves) == TruncateTo(old(Flat(leaves)), size)
      ensures Grows(old(cache), old(marks), cache, marks)
      ensures old(cache).states == map[] ==> cache.states == map[] && doDeferWrite == old(doDeferWrite)
      ensures UnderSync(old(cache), file) ==> doDeferWrite
      ensures file in cache.dirty && objs == [top] && forall b :: b in marks.repr ==> b in old(marks).repr || b == top
      ensures forall p: Ptr :: p in cache.dirty ==> p in old(cache).dirty || p == file
    {
      hide CacheOk, Owned, Linked, Contiguous, LeafValues, Grows;
      FlatOne(top.contents);
      top.contents := top.contents[..size];
      FlatOne(top.contents);
      deCache := deCache[file := size];
      CachePut(cache, marks, file, top);
      PutGrows(cache, marks, file, top);
      CacheBlockIfNotYetDirty(file, top);
      objs, leaves := [top], [top.contents];
    }

    // How an operation on the file at hand spreads over its leaves.
    ghost function Reaching(op: FileOp): Reach
      requires maxSize > 0
      reads this`leaves
    {
      ReachOf(op, |Flat(leaves)|, |leaves|, maxSize, maxFileBytes)
    }

    // truncateLocked on a single-block file.
    method TruncateDirect(file: Ptr, top: FileBlock, size: nat) returns (r: Outcome, dirtyPtrs: seq<Ptr>)
      requires Valid(file) && OwnsTop(file, top) && !top.isInd && leaves == [top.contents] && !cache.Obj(file).isInd
      modifies this`cache, this`doDeferWrite, this`marks, this`deCache, this`objs, this`leaves, top, Written(file)
      ensures Valid(file)
      ensures r == if size > |old(Flat(leaves))| && size > maxFileBytes then FileTooBig else Done
      ensures Flat(leaves) == if r.Done? then TruncateTo(old(Flat(leaves)), size) else old(Flat(leaves))
      ensures Flat(leaves) != old(Flat(leaves)) ==> file in cache.dirty
      ensures !r.Done? ==> cache == old(cache)
      ensures Grows(old(cache), old(marks), cache, marks)
      ensures old(cache).states == map[] ==> cache.states == map[] && doDeferWrite == old(doDeferWrite)
      ensures UnderSync(old(cache), file) ==> doDeferWrite || (cache == old(cache) && Flat(leaves) == old(Flat(leaves)))
      ensures forall b :: b in marks.repr ==> b in old(marks).repr || b == top || fresh(b)
      ensures forall b :: b in objs ==> b in old(objs) || b == old(cache.Obj(file)) || b == top || fresh(b)
      ensures Reports(old(cache), cache, file, size < |old(Flat(leaves))|, dirtyPtrs)
      ensures OwnOrNew(old(cache), file, dirtyPtrs) && (size < |old(Flat(leaves))| ==> dirtyPtrs == [])
    {
      hide FolderBlockOps.Valid, FolderBlockOps.OwnsTop, Grows, WriteAt, TruncateTo, Effect, LeafValues, Linked,
        Contiguous, CacheOk, Packed, Flat, Reports, OwnOrNew;
      NothingReported(cache, file, false);
      ValidParts(file);
      GrowsReflexive(cache, marks);
      r, dirtyPtrs := Done, [];
      FlatOne(top.contents);
      TruncateSame(Flat(leaves));
      var currLen := |top.contents|;
      if currLen < size {
        ExtendByZeros(Flat(leaves), size);
        r, dirtyPtrs := WriteData(file, Zeros(size - currLen), currLen);
      } else if currLen > size {
        ShrinkDirect(file, top, size);
        OwnReported(old(cache), cache, file);
      }
    }

    // truncateLocked on a multi-block file.
    method TruncateIndirect(file: Ptr, top: FileBlock, size: nat) returns (r: Outcome, dirtyPtrs: seq<Ptr>)
      requires Valid(file) && OwnsTop(file, top) && HoldsBut(file, top, objs, leaves, -1)
      requires cache.Obj(file).isInd && top.iptrs == cache.Obj(file).iptrs
      modifies this`cache, this`doDeferWrite, this`marks, this`deCache, this`objs, this`leaves, top, Written(file)
      ensures Valid(file)
      ensures r == if size > |old(Flat(leaves))| && size > maxFileBytes then FileTooBig else Done
      ensures Flat(leaves) == if r.Done? then TruncateTo(old(Flat(leaves)), size) else old(Flat(leaves))
      ensures Flat(leaves) != old(Flat(leaves)) ==> file in cache.dirty
      ensures !r.Done? ==> cache == old(cache)
      ensures Grows(old(cache), old(marks), cache, marks)
      ensures old(cache).states == map[] ==> cache.states == map[] && doDeferWrite == old(doDeferWrite)
      ensures UnderSync(old(cache), file) ==> doDeferWrite || (cache == old(cache) && Flat(leaves) == old(Flat(leaves)))
      ensures forall b :: b in marks.repr ==> b in old(marks).repr || b == top || fresh(b)
      ensures forall b :: b in objs ==> b in old(objs) || b == old(cache.Obj(file)) || fresh(b)
      ensures size < |old(Flat(leaves))| ==> CutDone(file, old(top.iptrs), size) && DroppedSame(old(objs))
      ensures maxSize > 0
      ensures old(Reaching(TruncateOp(size))) != Nowhere && UnderSync(old(cache), file) ==> doDeferWrite
      ensures cache.Obj(file).isInd
      ensures Effect(old(Reaching(TruncateOp(size))), old(cache), old(top.iptrs), cache, cache.Obj(file).iptrs, file,
                     dirtyPtrs)
      ensures Reports(old(cache), cache, file, size < |old(Flat(leaves))|, dirtyPtrs)
    {
      hide FolderBlockOps.Valid, FolderBlockOps.OwnsTop, FolderBlockOps.CutDone, LeafValues, Linked, Contiguous,
        CacheOk, Packed, Grows, WriteAt, TruncateTo, Flat, Effect, CutFrom, Reports;
      NothingReported(cache, file, false);
      LinkedKnown(cache, marks, file, top, top.iptrs, objs);
      ValidParts(file);
      GrowsReflexive(cache, marks);
      NoEffect(cache, cache.Obj(file).iptrs, file);
      r, dirtyPtrs := Done, [];
      var idx, block := GetFileBlockAtOffset(file, top, size, objs, leaves);
      LocateEnd(leaves, idx, size);
      TruncateSame(Flat(leaves));
      var currLen := top.iptrs[idx].off + |block.contents|;
      if currLen < size {
        ExtendByZeros(Flat(leaves), size);
        r, dirtyPtrs := WriteData(file, Zeros(size - currLen), currLen);
      } else if currLen > size {
        ghost var before, topObjs := objs, objs[idx := block];
        LeafIs(leaves, maxSize, idx, size);
        ShrinkIndirect(file, top, size, idx, block, topObjs);
        CutReports(idx, old(cache), old(top.iptrs), cache, top.iptrs, file, []);
        forall i | |objs| <= i < |before| ensures before[i].contents == old(before[i].contents) {
          assert topObjs[i] == before[i];
        }
      }
    }

    /** truncateLocked: cut or zero-extend the flat contents to the size.  A cut reports no
        dirty pointers, although it made the leaf that holds the new end dirty. */
    method TruncateData(file: Ptr, size: nat) returns (r: Outcome, dirtyPtrs: seq<Ptr>)
      requires Valid(file)
      modifies this`cache, this`doDeferWrite, this`marks, this`deCache, this`objs, this`leaves, Written(file)
      ensures Valid(file)
      ensures r == if size > |old(Flat(leaves))| && size > maxFileBytes then FileTooBig else Done
      ensures Flat(leaves) == if r.Done? then TruncateTo(old(Flat(leaves)), size) else old(Flat(leaves))
      ensures Flat(leaves) != old(Flat(leaves)) ==> file in cache.dirty
      ensures !r.Done? ==> cache == old(cache)
      ensures Grows(old(cache), old(marks), cache, marks)
      ensures old(cache).states == map[] ==> cache.states == map[] && doDeferWrite == old(doDeferWrite)
      ensures UnderSync(old(cache), file) ==> doDeferWrite || (cache == old(cache) && Flat(leaves) == old(Flat(leaves)))
      ensures forall b :: b in marks.repr ==> b in old(marks).repr || fresh(b)
      ensures forall b :: b in objs ==> b in old(objs) || b == old(cache.Obj(file)) || fresh(b)
      ensures old(CutsLeaf(file, TruncateOp(size))) ==>
        CutDone(file, old(cache.Obj(file).iptrs), size) && DroppedSame(old(objs))
      ensures maxSize > 0 && (old(cache.Obj(file).isInd) ==>
        && cache.Obj(file).isInd
        && (old(Reaching(TruncateOp(size))) != Nowhere && UnderSync(old(cache), file) ==> doDeferWrite)
        && Effect(old(Reaching(TruncateOp(size))), old(cache), old(cache.Obj(file).iptrs), cache,
                  cache.Obj(file).iptrs, file, dirtyPtrs))
      ensures Reports(old(cache), cache, file, size < |old(Flat(leaves))|, dirtyPtrs)
      ensures !old(cache.Obj(file).isInd) ==>
        OwnOrNew(old(cache), file, dirtyPtrs) && (size < |old(Flat(leaves))| ==> dirtyPtrs == [])
    {
      hide FolderBlockOps.Valid, FolderBlockOps.OwnsTop, FolderBlockOps.CutDone, FolderBlockOps.HoldsBut, Flat, Effect,
        Grows, TruncateTo, ReachOf, Reports, OwnOrNew;
      ValidParts(file);
      var fblock; ghost var topObjs;
      fblock, topObjs := OpenTop(file);
      if fblock.isInd {
        r, dirtyPtrs := TruncateIndirect(file, fblock, size);
      } else {
        r, dirtyPtrs := TruncateDirect(file, fblock, size);
      }
    }

    // getFileBlockAtOffsetLocked for reading.
    method LookupAtOffset(file: Ptr, top: FileBlock, off: nat) returns (block: FileBlock, startOff: nat, ghost idx: nat)
      requires CacheOk(cache, marks) && Holds(file, top, objs, leaves)
      ensures idx < |leaves| && block.contents == leaves[idx]
      ensures startOff == Start(leaves, idx) <= off
      ensures idx < |leaves| - 1 ==> off < Start(leaves, idx + 1)
    {
      block, startOff, idx := top, 0, 0;
      StartZero(leaves);
      if top.isInd {
        ContiguousIncreasing(top.iptrs, leaves);
        var nextIndex := FindLeaf(top.iptrs, off);
        startOff, idx := top.iptrs[nextIndex].off, nextIndex;
        block := GetFileBlock(top.iptrs[nextIndex].ptr, false);
      }
    }

    /** Read: the slice of the flat contents at the offset, short or empty at the end of the
        file. */
    method Read(file: Ptr, dest: array<byte>, off: nat) returns (n: nat)
      requires Valid(file)
      modifies dest
      ensures n == |ReadAt(Flat(leaves), off, dest.Length)| <= dest.Length
      ensures dest[..] == Splice(old(dest[..]), 0, ReadAt(Flat(leaves), off, dest.Length))
    {
      hide CacheOk, Linked, Contiguous, Packed, Splice, ReadAt, Flat, Owned;
      var fblock := GetFileBlock(file, false);
      var nRead := 0;
      ReadNothing(Flat(leaves), off, dest[..]);
      while nRead < dest.Length
        invariant nRead == |ReadAt(Flat(leaves), off, nRead)| <= dest.Length
        invariant dest[..] == Splice(old(dest[..]), 0, ReadAt(Flat(leaves), off, nRead))
        invariant Holds(file, fblock, objs, leaves)
      {
        var nextByte, toRead := nRead + off, dest.Length - nRead;
        var block, startOff; ghost var idx;
        block, startOff, idx := LookupAtOffset(file, fblock, nextByte);
        LocateEnd(leaves, idx, nextByte);
        var lastByteInBlock := startOff + |block.contents|;
        if nextByte >= lastByteInBlock {
          ReadEnd(Flat(leaves), off, nRead, dest.Length);
          return nRead;
        } else if toRead > lastByteInBlock - nextByte {
          toRead := lastByteInBlock - nextByte;
        }
        var firstByteToRead := nextByte - startOff;
        FlatSlice(leaves, idx, nextByte, toRead);
        CopyBytes(dest, nRead, block.contents, firstByteToRead, toRead);
        ReadRound(Flat(leaves), off, old(dest[..]), nRead, toRead);
        nRead := nRead + toRead;
      }
      return dest.Length;
    }

    // The leaf after dirty leaf i, opened for writing: it starts where leaf i ends.
    method OpenNext(file: Ptr, top: FileBlock, i: nat, endOfBlock: nat, ghost topObjs: seq<FileBlock>,
                    ghost topLeaves: seq<Bytes>)
      returns (rblock: FileBlock)
      requires OwnsTop(file, top) && HoldsBut(file, top, topObjs, topLeaves, -1) && cache.states == map[]
      requires i + 1 < |topLeaves| && top.iptrs[i].ptr in cache.dirty
      requires endOfBlock == top.iptrs[i].off + |topLeaves[i]|
      ensures HoldsBut(file, top, topObjs[i + 1 := rblock], topLeaves, i + 1)
      ensures rblock.contents == topLeaves[i + 1]
      ensures fresh(rblock) || rblock in marks.repr - marks.frozen
      ensures topObjs[i] in marks.repr - marks.frozen && topObjs[i] == cache.dirty[top.iptrs[i].ptr]
      ensures forall j :: 0 <= j < |topObjs| && j != i && j != i + 1 ==>
        topObjs[j] != topObjs[i] && topObjs[j] != rblock
      ensures topObjs[i] != rblock
    {
      hide CacheOk, Owned, Linked, Contiguous;
      ContiguousIncreasing(top.iptrs, topLeaves);
      StartNext(topLeaves, i);
      var idx;
      idx, rblock := GetFileBlockAtOffset(file, top, endOfBlock, topObjs, topLeaves);
      assert idx == i + 1;
      LinkDistinct(cache, marks, file, top, top.iptrs, topObjs[i + 1 := rblock], i + 1);
      LinkDistinctDirty(cache, marks, file, top, top.iptrs, topObjs, -1, i);
      assert topObjs[i + 1 := rblock][i] == topObjs[i];
      forall j | 0 <= j < |topObjs| && j != i && j != i + 1 ensures topObjs[j] != rblock {
        assert topObjs[i + 1 := rblock][j] == topObjs[j];
      }
    }

    // The boundary between leaves i and i + 1 has moved: fix the offset and put the next
    // leaf back.
    method PutNext(file: Ptr, top: FileBlock, i: nat, block: FileBlock, rblock: FileBlock,
                   ghost newObjs: seq<FileBlock>, ghost topLeaves: seq<Bytes>, ghost a: Bytes, ghost b: Bytes)
      requires OwnsTop(file, top) && i + 1 < |topLeaves| == |newObjs| && block == newObjs[i] && rblock == newObjs[i + 1]
      requires top.isInd && |top.iptrs| == |topLeaves| && Contiguous(top.iptrs, topLeaves)
      requires Linked(cache, marks, file, top, top.iptrs, newObjs, i + 1)
      requires a + b == topLeaves[i] + topLeaves[i + 1] && a != [] && (i + 2 < |topLeaves| ==> b != [])
      requires LeafValues(newObjs, Resplit(topLeaves, i, a, b))
      modifies this`cache, this`doDeferWrite, this`marks, top`iptrs
      ensures OwnsTop(file, top) && HoldsBut(file, top, newObjs, Resplit(topLeaves, i, a, b), -1)
      ensures Flat(Resplit(topLeaves, i, a, b)) == Flat(topLeaves)
      ensures Start(Resplit(topLeaves, i, a, b), i + 1) == Start(topLeaves, i) + |a|
      ensures LeftAlone(old(cache), old(top.iptrs), cache, top.iptrs, i)
      ensures marks == old(marks).(repr := old(marks).repr + {rblock})
      ensures old(cache).states == map[] ==> cache.states == map[] && doDeferWrite == old(doDeferWrite)
    {
      hide CacheOk, Owned, Linked, Contiguous, Flat;
      ghost var newLeaves := Resplit(topLeaves, i, a, b);
      assert newLeaves[i] == a;
      ContiguousIncreasing(top.iptrs, topLeaves);
      ResplitFlat(topLeaves, i, a, b);
      ResplitLayout(top.iptrs, topLeaves, i, a, b);
      ResplitStart(topLeaves, i, a, b, i + 1);
      var off := top.iptrs[i].off + |block.contents|;
      LinkMove(cache, marks, file, top, top.iptrs, newObjs, i + 1, i + 1, off);
      top.iptrs := top.iptrs[i + 1 := top.iptrs[i + 1].(off := off)];
      PutLeavesAlone(cache, marks, file, top, top.iptrs, newObjs, i + 1, rblock);
      PutLeaf(file, top, i + 1, rblock, newObjs, newLeaves);
    }

    // The bytes of leaf i from splitAt on go in front of the next leaf.
    method PushRight(file: Ptr, top: FileBlock, i: nat, splitAt: nat, ghost topObjs: seq<FileBlock>,
                     ghost topLeaves: seq<Bytes>)
      returns (ghost newObjs: seq<FileBlock>, ghost newLeaves: seq<Bytes>)
      requires OwnsTop(file, top) && HoldsBut(file, top, topObjs, topLeaves, -1) && cache.states == map[]
      requires i + 1 < |topLeaves| && 0 < splitAt <= |topLeaves[i]| && top.iptrs[i].ptr in cache.dirty
      modifies this`cache, this`doDeferWrite, this`marks, top`iptrs, marks.repr - marks.frozen
      ensures OwnsTop(file, top) && HoldsBut(file, top, newObjs, newLeaves, -1)
      ensures Flat(newLeaves) == Flat(topLeaves) && |newLeaves| == |topLeaves|
      ensures Start(newLeaves, i + 1) == Start(topLeaves, i) + splitAt
      ensures newLeaves[..i] == topLeaves[..i] && newLeaves[i] == topLeaves[i][..splitAt]
      ensures LeftAlone(old(cache), old(top.iptrs), cache, top.iptrs, i)
      ensures cache.states == map[] && doDeferWrite == old(doDeferWrite)
      ensures marks.frozen == old(marks).frozen
      ensures forall b :: b in marks.repr ==> b in old(marks).repr || fresh(b)
    {
      hide CacheOk, Owned, Linked, Contiguous, Flat;
      LinkKnown(cache, marks, file, top, top.iptrs, topObjs, i);
      ContiguousIncreasing(top.iptrs, topLeaves);
      var block := GetFileBlock(top.iptrs[i].ptr, true);
      var rblock := OpenNext(file, top, i, top.iptrs[i].off + |block.contents|, topObjs, topLeaves);
      newObjs := topObjs[i + 1 := rblock];
      ghost var a, b := topLeaves[i][..splitAt], topLeaves[i][splitAt..] + topLeaves[i + 1];
      assert a + b == topLeaves[i] + topLeaves[i + 1];
      newLeaves := Resplit(topLeaves, i, a, b);
      var extraBytes := block.contents[splitAt..];
      block.contents := block.contents[..splitAt];
      rblock.contents := extraBytes + rblock.contents;
      assert LeafValues(newObjs, newLeaves);
      PutNext(file, top, i, block, rblock, newObjs, topLeaves, a, b);
    }

    // Leaf i has too many bytes: the surplus goes in front of the next leaf, which is made
    // when there is none.
    method SplitLeaf(file: Ptr, top: FileBlock, i: nat, splitAt: nat, ghost topObjs: seq<FileBlock>,
                     ghost topLeaves: seq<Bytes>)
      returns (ghost newObjs: seq<FileBlock>, ghost newLeaves: seq<Bytes>)
      requires OwnsTop(file, top) && HoldsBut(file, top, topObjs, topLeaves, -1) && cache.states == map[]
      requires i < |topLeaves| && 0 < splitAt <= |topLeaves[i]| && top.iptrs[i].ptr in cache.dirty
      modifies this`cache, this`doDeferWrite, this`marks, top, marks.repr - marks.frozen
      ensures OwnsTop(file, top) && HoldsBut(file, top, newObjs, newLeaves, -1)
      ensures Flat(newLeaves) == Flat(topLeaves) && i + 1 < |newLeaves|
      ensures Start(newLeaves, i + 1) == Start(topLeaves, i) + splitAt
      ensures newLeaves[..i] == topLeaves[..i] && newLeaves[i] == topLeaves[i][..splitAt]
      ensures LeftAlone(old(cache), old(top.iptrs), cache, top.iptrs, i)
      ensures cache.states == map[] && doDeferWrite == old(doDeferWrite)
      ensures marks.frozen == old(marks).frozen
      ensures forall b :: b in marks.repr ==> b in old(marks).repr || b == top || fresh(b)
    {
      hide CacheOk, Owned, Linked, Contiguous, Flat;
      newObjs, newLeaves := topObjs, topLeaves;
      if i == |top.iptrs| - 1 {
        ContiguousIncreasing(top.iptrs, topLeaves);
        StartNext(topLeaves, i);
        StartAll(topLeaves);
        LinkKnown(cache, marks, file, top, top.iptrs, topObjs, i);
        ghost var right;
        right, newObjs, newLeaves := AddRight(file, top, top.iptrs[i].off + |LeafOf(top, i).contents|, topObjs,
                                              topLeaves, -1);
        StartSameLengths(topLeaves, newLeaves, i);
        NewRightLeavesAlone(old(cache), old(marks), file, top, old(top.iptrs), topObjs, -1, right,
                            top.iptrs[|topLeaves|]);
      }
      newObjs, newLeaves := PushRight(file, top, i, splitAt, newObjs, newLeaves);
    }

    // Leaf i has taken over all of the next leaf, which goes away.
    method DropNext(file: Ptr, top: FileBlock, i: nat, ghost topObjs: seq<FileBlock>, ghost topLeaves: seq<Bytes>)
      returns (ghost newObjs: seq<FileBlock>, ghost newLeaves: seq<Bytes>)
      requires OwnsTop(file, top) && i + 1 < |topLeaves| == |topObjs| == |top.iptrs|
      requires top.isInd && Contiguous(top.iptrs, topLeaves)
      requires Linked(cache, marks, file, top, top.iptrs, topObjs, i + 1)
      requires LeafValues(topObjs, Resplit(topLeaves, i, topLeaves[i] + topLeaves[i + 1], []))
      modifies top`iptrs
      ensures OwnsTop(file, top) && HoldsBut(file, top, newObjs, newLeaves, -1)
      ensures newLeaves == Merged(topLeaves, i) && Flat(newLeaves) == Flat(topLeaves)
      ensures Start(newLeaves, i + 1) >= Start(topLeaves, i + 1)
      ensures top.iptrs[..i] == old(top.iptrs[..i])
    {
      hide CacheOk, Owned, Linked, Contiguous, Flat;
      LinkRemove(cache, marks, file, top, top.iptrs, topObjs, i + 1);
      MergedLayout(top.iptrs, topLeaves, i);
      MergedStart(topLeaves, i, i + 1);
      StartMonotone(topLeaves, i + 1, i + 2);
      newObjs, newLeaves := topObjs[..i + 1] + topObjs[i + 2..], Merged(topLeaves, i);
      ghost var was := Resplit(topLeaves, i, topLeaves[i] + topLeaves[i + 1], []);
      assert newLeaves == was[..i + 1] + was[i + 2..];
      top.iptrs := top.iptrs[..i + 1] + top.iptrs[i + 2..];
      assert LeafValues(topObjs, was);
    }

    // Leaf i takes the bytes of the next leaf that the splitter wants in it.
    method TakeBytes(file: Ptr, top: FileBlock, i: nat, sp: Splitter, ghost topObjs: seq<FileBlock>,
                     ghost topLeaves: seq<Bytes>)
      returns (block: FileBlock, rblock: FileBlock, ghost newObjs: seq<FileBlock>, ghost a: Bytes, ghost b: Bytes)
      requires OwnsTop(file, top) && HoldsBut(file, top, topObjs, topLeaves, -1) && cache.states == map[]
      requires i + 1 < |topLeaves| && top.iptrs[i].ptr in cache.dirty && SplitterOk(sp)
      modifies marks.repr - marks.frozen
      ensures unchanged(this) && top.iptrs == old(top.iptrs) && top.isInd
      ensures fresh(rblock) || rblock in marks.repr
      ensures newObjs == topObjs[i + 1 := rblock] && block == newObjs[i]
      ensures Linked(cache, marks, file, top, top.iptrs, newObjs, i + 1)
      ensures a + b == topLeaves[i] + topLeaves[i + 1] && |a| >= |topLeaves[i]| && rblock.contents == b
      ensures a == topLeaves[i] + topLeaves[i + 1][..sp.take(topLeaves[i], topLeaves[i + 1])]
      ensures LeafValues(newObjs, Resplit(topLeaves, i, a, b))
    {
      hide CacheOk, Owned, Linked, Contiguous, Flat;
      LinkKnown(cache, marks, file, top, top.iptrs, topObjs, i);
      block := GetFileBlock(top.iptrs[i].ptr, true);
      rblock := OpenNext(file, top, i, top.iptrs[i].off + |block.contents|, topObjs, topLeaves);
      newObjs := topObjs[i + 1 := rblock];
      var nCopied := sp.take(block.contents, rblock.contents);
      a, b := topLeaves[i] + topLeaves[i + 1][..nCopied], topLeaves[i + 1][nCopied..];
      block.contents := block.contents + rblock.contents[..nCopied];
      rblock.contents := rblock.contents[nCopied..];
    }

    // Leaf i wants more bytes: it takes some of the next leaf, or all of it.
    method FillLeaf(file: Ptr, top: FileBlock, i: nat, sp: Splitter, ghost topObjs: seq<FileBlock>,
                    ghost topLeaves: seq<Bytes>)
      returns (ghost newObjs: seq<FileBlock>, ghost newLeaves: seq<Bytes>)
      requires OwnsTop(file, top) && HoldsBut(file, top, topObjs, topLeaves, -1) && cache.states == map[]
      requires i + 1 < |topLeaves| && top.iptrs[i].ptr in cache.dirty && SplitterOk(sp)
      modifies this`cache, this`doDeferWrite, this`marks, top`iptrs, marks.repr - marks.frozen
      ensures OwnsTop(file, top) && HoldsBut(file, top, newObjs, newLeaves, -1)
      ensures Flat(newLeaves) == Flat(topLeaves) && i < |newLeaves| <= |topLeaves|
      ensures Start(newLeaves, i + 1) >= Start(topLeaves, i + 1)
      ensures newLeaves[..i] == topLeaves[..i]
      ensures newLeaves[i] == topLeaves[i] + topLeaves[i + 1][..sp.take(topLeaves[i], topLeaves[i + 1])]
      ensures topLeaves[i + 1] == [] ==> |newLeaves| == i + 1
      ensures LeftAlone(old(cache), old(top.iptrs), cache, top.iptrs, i)
      ensures cache.states == map[] && doDeferWrite == old(doDeferWrite)
      ensures marks.frozen == old(marks).frozen
      ensures forall b :: b in marks.repr ==> b in old(marks).repr || fresh(b)
    {
      hide CacheOk, Owned, Linked, Contiguous, Flat, SplitterOk;
      ContiguousIncreasing(top.iptrs, topLeaves);
      StartNext(topLeaves, i);
      var block, rblock; ghost var a, b;
      block, rblock, newObjs, a, b := TakeBytes(file, top, i, sp, topObjs, topLeaves);
      if |rblock.contents| > 0 {
        PutNext(file, top, i, block, rblock, newObjs, topLeaves, a, b);
        newLeaves := Resplit(topLeaves, i, a, b);
      } else {
        newObjs, newLeaves := DropNext(file, top, i, newObjs, topLeaves);
      }
    }

    // One leaf of that loop.
    method RebalanceLeaf(file: Ptr, top: FileBlock, i: nat, sp: Splitter, ghost topObjs: seq<FileBlock>,
                         ghost topLeaves: seq<Bytes>)
      returns (inconsistent: bool, ghost newObjs: seq<FileBlock>, ghost newLeaves: seq<Bytes>)
      requires OwnsTop(file, top) && HoldsBut(file, top, topObjs, topLeaves, -1)
      requires cache.states == map[] && SplitterOk(sp) && i < |topLeaves|
      modifies this`cache, this`doDeferWrite, this`marks, top, marks.repr - marks.frozen
      ensures !inconsistent
      ensures OwnsTop(file, top) && HoldsBut(file, top, newObjs, newLeaves, -1)
      ensures Flat(newLeaves) == Flat(topLeaves) && i < |newLeaves|
      ensures Start(newLeaves, i + 1) > Start(topLeaves, i) ||
              (Start(newLeaves, i + 1) == Start(topLeaves, i) && |newLeaves| <= |topLeaves|)
      ensures newLeaves[..i] == topLeaves[..i] && LeftAlone(old(cache), old(top.iptrs), cache, top.iptrs, i)
      ensures top.iptrs[i].ptr in cache.dirty ==> Ends(sp, newLeaves, i)
      ensures cache.states == map[] && doDeferWrite == old(doDeferWrite)
      ensures marks.frozen == old(marks).frozen
      ensures forall b :: b in marks.repr ==> b in old(marks).repr || b == top || fresh(b)
      ensures (forall b: Bytes :: sp.check(b) == 0) ==>
                unchanged(this) && unchanged(top) && newObjs == topObjs && newLeaves == topLeaves
    {
      hide CacheOk, Owned, Linked, Contiguous, Flat, Ends;
      inconsistent, newObjs, newLeaves := false, topObjs, topLeaves;
      var ip := top.iptrs[i];
      StartMonotone(topLeaves, i, i + 1);
      LinkEncoded(cache, marks, file, top, top.iptrs, topObjs, i);
      LinkKnown(cache, marks, file, top, top.iptrs, topObjs, i);
      if ip.encodedSize > 0 && ip.ptr in cache.dirty {
        inconsistent := true;
        return;
      }
      if ip.ptr in cache.dirty {
        var splitAt := sp.check(LeafOf(top, i).contents);
        if splitAt > 0 {
          newObjs, newLeaves := SplitLeaf(file, top, i, splitAt, topObjs, topLeaves);
        } else if splitAt < 0 && i != |top.iptrs| - 1 {
          newObjs, newLeaves := FillLeaf(file, top, i, sp, topObjs, topLeaves);
        }
        EndsNow(sp, topLeaves, newLeaves, i);
      }
    }

    /** The first loop of startSyncWriteLocked, for any block splitter: every dirty leaf is
        split or filled where the splitter says, so that a settling splitter would not split
        it again.  The loop ends, the flat contents do not change, and no dirty leaf ever
        carries an encoded size. */
    method Rebalance(file: Ptr, top: FileBlock, sp: Splitter, ghost topObjs: seq<FileBlock>,
                     ghost topLeaves: seq<Bytes>)
      returns (inconsistent: bool, ghost newObjs: seq<FileBlock>, ghost newLeaves: seq<Bytes>)
      requires OwnsTop(file, top) && HoldsBut(file, top, topObjs, topLeaves, -1)
      requires cache.states == map[] && SplitterOk(sp)
      modifies this`cache, this`doDeferWrite, this`marks, top, marks.repr - marks.frozen
      ensures !inconsistent
      ensures OwnsTop(file, top) && HoldsBut(file, top, newObjs, newLeaves, -1)
      ensures Flat(newLeaves) == Flat(topLeaves)
      ensures forall j :: 0 <= j < |newLeaves| && top.iptrs[j].ptr in cache.dirty ==>
        Ends(sp, newLeaves, j) && (Settling(sp) ==> sp.check(newLeaves[j]) <= 0)
      ensures cache.states == map[] && doDeferWrite == old(doDeferWrite)
      ensures (forall b: Bytes :: sp.check(b) == 0) ==>
                unchanged(this) && unchanged(top) && newObjs == topObjs && newLeaves == topLeaves
    {
      hide CacheOk, Owned, Linked, Contiguous, Flat, Ends, Settling, SplitterOk;
      inconsistent, newObjs, newLeaves := false, topObjs, topLeaves;
      var i := 0;
      while i < |top.iptrs|
        invariant i <= |top.iptrs| && !inconsistent
        invariant OwnsTop(file, top) && HoldsBut(file, top, newObjs, newLeaves, -1)
        invariant Flat(newLeaves) == Flat(topLeaves)
        invariant forall j :: 0 <= j < i && top.iptrs[j].ptr in cache.dirty ==> Ends(sp, newLeaves, j)
        invariant cache.states == map[] && doDeferWrite == old(doDeferWrite)
        invariant marks.frozen == old(marks).frozen
        invariant forall b :: b in marks.repr ==> b in old(marks).repr || b == top || fresh(b)
        invariant (forall b: Bytes :: sp.check(b) == 0) ==>
                    unchanged(this) && unchanged(top) && newObjs == topObjs && newLeaves == topLeaves
        decreases |Flat(newLeaves)| - Start(newLeaves, i), |newLeaves| - i
      {
        ghost var was := newLeaves;
        inconsistent, newObjs, newLeaves := RebalanceLeaf(file, top, i, sp, newObjs, newLeaves);
        if inconsistent { return; }
        StartAll(newLeaves);
        StartMonotone(newLeaves, i + 1, |newLeaves|);
        forall j | 0 <= j < i && top.iptrs[j].ptr in cache.dirty ensures Ends(sp, newLeaves, j) {
          EndsKept(sp, was, newLeaves, i, j);
        }
        i := i + 1;
      }
      forall j | 0 <= j < |newLeaves| && Ends(sp, newLeaves, j) && Settling(sp) ensures sp.check(newLeaves[j]) <= 0 {
        EndsSettled(sp, newLeaves, j);
      }
    }

    method ApplyData(file: Ptr, op: FileOp) returns (r: Outcome, dirtyPtrs: seq<Ptr>)
      requires Valid(file)
      modifies this`cache, this`doDeferWrite, this`marks, this`deCache, this`objs, this`leaves, Written(file)
      ensures Valid(file)
      ensures r == if TooBig(old(Flat(leaves)), op, maxFileBytes) then FileTooBig else Done
      ensures Flat(leaves) == ApplyOp(old(Flat(leaves)), op, maxFileBytes)
      ensures Flat(leaves) != old(Flat(leaves)) ==> file in cache.dirty
      ensures Grows(old(cache), old(marks), cache, marks)
      ensures old(cache).states == map[] ==> cache.states == map[] && doDeferWrite == old(doDeferWrite)
      ensures UnderSync(old(cache), file) ==>
                doDeferWrite || (cache == old(cache) && Flat(leaves) == old(Flat(leaves)))
      ensures !r.Done? ==> cache == old(cache) && Flat(leaves) == old(Flat(leaves))
      ensures forall b :: b in marks.repr ==> b in old(marks).repr || fresh(b)
      ensures forall b :: b in objs ==> b in old(objs) || b == old(cache.Obj(file)) || fresh(b)
      ensures old(CutsLeaf(file, op)) ==> CutDone(file, old(cache.Obj(file).iptrs), op.size)
      ensures old(CutsLeaf(file, op)) ==> DroppedSame(old(objs))
      ensures maxSize > 0 && (old(cache.Obj(file).isInd) ==>
        && cache.Obj(file).isInd
        && (old(Reaching(op)) != Nowhere && UnderSync(old(cache), file) ==>
          doDeferWrite)
        && Effect(old(Reaching(op)), old(cache), old(cache.Obj(file).iptrs), cache, cache.Obj(file).iptrs, file,
                  dirtyPtrs))
      ensures Reports(old(cache), cache, file, Shortens(old(Flat(leaves)), op), dirtyPtrs)
      ensures !old(cache.Obj(file).isInd) ==>
        OwnOrNew(old(cache), file, dirtyPtrs) && (Shortens(old(Flat(leaves)), op) ==> dirtyPtrs == [])
    {
      hide Reports, OwnOrNew, CacheOk, Owned, Linked, Contiguous, Packed, Grows, FolderBlockOps.Holds, WriteAt,
        TruncateTo, Flat, Effect, CutFrom;
      match op {
        case WriteOp(data, off) =>
          r, dirtyPtrs := WriteData(file, data, off);
        case TruncateOp(size) =>
          r, dirtyPtrs := TruncateData(file, size);
      }
    }

    method Record(file: Ptr, op: FileOp, ptrs: seq<Ptr>, deferred: bool)
      requires Valid(file)
      modifies this`deferredWrites, this`deferredDirtyDeletes, this`doDeferWrite
      ensures Valid(file) && !doDeferWrite
      ensures deferredWrites == if deferred then old(deferredWrites) + [op] else old(deferredWrites)
      ensures deferredDirtyDeletes == if deferred then old(deferredDirtyDeletes) + ptrs else old(deferredDirtyDeletes)
    {
      hide CacheOk, Packed, Flat, Contiguous, Linked;
      if deferred {
        deferredDirtyDeletes := deferredDirtyDeletes + ptrs;
        deferredWrites := deferredWrites + [op];
      }
      doDeferWrite := false;
    }

    /** Write and Truncate: apply the operation; while a sync holds the file's blocks, also
        record it, and the pointers it reports, for FinishSync. */
    method Apply(file: Ptr, op: FileOp) returns (r: Outcome, ghost dirtyPtrs: seq<Ptr>)
      requires Valid(file) && !doDeferWrite
      modifies this`cache, this`doDeferWrite, this`marks, this`deCache, this`objs, this`leaves,
               this`deferredWrites, this`deferredDirtyDeletes, Written(file)
      ensures Valid(file) && !doDeferWrite
      ensures r == if TooBig(old(Flat(leaves)), op, maxFileBytes) then FileTooBig else Done
      ensures Flat(leaves) == ApplyOp(old(Flat(leaves)), op, maxFileBytes)
      ensures Flat(leaves) != old(Flat(leaves)) ==> file in cache.dirty
      ensures Grows(old(cache), old(marks), cache, marks)
      ensures forall b :: b in marks.repr ==> b in old(marks).repr || fresh(b)
      ensures forall b :: b in objs ==> b in old(objs) || b == old(cache.Obj(file)) || fresh(b)
      ensures old(cache).states == map[] ==>
        cache.states == map[] && unchanged(this`deferredWrites, this`deferredDirtyDeletes)
      ensures deferredWrites == old(deferredWrites) || (r.Done? && deferredWrites == old(deferredWrites) + [op])
      ensures deferredDirtyDeletes ==
        old(deferredDirtyDeletes) + if deferredWrites == old(deferredWrites) then [] else dirtyPtrs
      ensures UnderSync(old(cache), file) ==>
                deferredWrites == old(deferredWrites) + [op]
                  || (cache == old(cache) && Flat(leaves) == old(Flat(leaves)))
      ensures old(CutsLeaf(file, op)) ==> CutDone(file, old(cache.Obj(file).iptrs), op.size)
      ensures old(CutsLeaf(file, op)) ==> DroppedSame(old(objs))
      ensures maxSize > 0 && (old(cache.Obj(file).isInd) ==>
        && cache.Obj(file).isInd
        && (old(Reaching(op)) != Nowhere && UnderSync(old(cache), file) ==>
          deferredWrites == old(deferredWrites) + [op])
        && Effect(old(Reaching(op)), old(cache), old(cache.Obj(file).iptrs), cache, cache.Obj(file).iptrs, file,
                  dirtyPtrs))
      ensures Reports(old(cache), cache, file, Shortens(old(Flat(leaves)), op), dirtyPtrs)
      ensures !old(cache.Obj(file).isInd) ==>
        OwnOrNew(old(cache), file, dirtyPtrs) && (Shortens(old(Flat(leaves)), op) ==> dirtyPtrs == [])
    {
      hide Reports, OwnOrNew, Shortens, CacheOk, Owned, Linked, Contiguous, Packed, Grows, FolderBlockOps.Holds,
        ApplyOp, Flat, Effect, CutFrom, ReachOf, Cache.Put, Cache.StateOf, FolderBlockOps.CutDone, TooBig, UnderSync,
        FolderBlockOps.DroppedSame, FolderBlockOps.Valid;
      NotTooBig(Flat(leaves), op, |leaves|, maxSize, maxFileBytes);
      var ptrs;
      r, ptrs := ApplyData(file, op);
      dirtyPtrs := ptrs;
      WrittenInRepr(file);
      Record(file, op, ptrs, r.Done? && doDeferWrite);
    }

    /** The second loop of startSyncWriteLocked: every dirty leaf is readied, and its block
        is from now on in the hands of the sync. */
    method ReadyLeaves(file: Ptr, top: FileBlock, ghost topObjs: seq<FileBlock>, ghost topLeaves: seq<Bytes>)
      returns (inconsistent: bool, oldPtrs: seq<Ptr>)
      requires OwnsTop(file, top) && HoldsBut(file, top, topObjs, topLeaves, -1) && cache.states == map[]
      modifies this`cache, this`marks, top`iptrs
      ensures !inconsistent
      ensures OwnsTop(file, top) && HoldsBut(file, top, topObjs, topLeaves, -1)
      ensures AllClean(cache, marks, top, top.iptrs, topObjs)
      ensures forall i :: 0 <= i < |topObjs| ==> topObjs[i] in marks.frozen
      ensures CleanUpTo(cache, top.iptrs, |top.iptrs|)
      ensures marks.repr == old(marks).repr && old(marks).frozen <= marks.frozen
      ensures cache.dirty == old(cache).dirty && cache.nextID >= old(cache).nextID
      ensures forall p: Ptr :: cache.StateOf(p) != NotBeingSynced ==> p in oldPtrs
      ensures forall p: Ptr :: p in oldPtrs ==> p in cache.dirty
    {
      hide CacheOk, Owned, Linked, Contiguous, LeafValues, AllClean;
      inconsistent, oldPtrs := false, [];
      for i := 0 to |top.iptrs|
        invariant |top.iptrs| == |old(top.iptrs)|
        invariant OwnsTop(file, top) && HoldsBut(file, top, topObjs, topLeaves, -1)
        invariant CleanUpTo(cache, top.iptrs, i)
        invariant marks.repr == old(marks).repr && old(marks).frozen <= marks.frozen
        invariant forall j :: i <= j < |top.iptrs| ==>
          top.iptrs[j] == old(top.iptrs)[j] && cache.StateOf(top.iptrs[j].ptr) == NotBeingSynced
        invariant cache.dirty == old(cache).dirty && cache.nextID >= old(cache).nextID
        invariant forall p: Ptr :: cache.StateOf(p) != NotBeingSynced ==> p in oldPtrs
        invariant forall p: Ptr :: p in oldPtrs ==> p in cache.dirty
      {
        var ip := top.iptrs[i];
        LinkEncoded(cache, marks, file, top, top.iptrs, topObjs, i);
        if ip.encodedSize > 0 && ip.ptr in cache.dirty {
          inconsistent := true;
          return;
        }
        if ip.ptr in cache.dirty {
          var block := cache.dirty[ip.ptr];
          var encodedSize: nat :| encodedSize > 0;
          LinkKnown(cache, marks, file, top, top.iptrs, topObjs, i);
          LinkOthers(cache, marks, file, top, top.iptrs, topObjs, i);
          ReadyOk(cache, marks, file, top, ip.ptr);
          ReadyLinked(cache, marks, file, top, top.iptrs, topObjs, i, encodedSize);
          ReadyClean(cache, marks, file, top, top.iptrs, topObjs, i, encodedSize);
          ReadyLayout(top.iptrs, topLeaves, i, cache.nextID, encodedSize);
          top.iptrs := top.iptrs[i := IndirectPtr(cache.nextID, encodedSize, ip.off)];
          cache := Readied(cache, ip.ptr, block);
          marks := Captured(marks, block);
          oldPtrs := oldPtrs + [ip.ptr];
        }
      }
      CleanIsFrozen(cache, marks, file, top, top.iptrs, topObjs);
    }

    /** What the sync captured: a top block and clean leaf blocks that hold syncLeaves.  All
        of these objects are frozen. */
    ghost predicate Snapshot(top: FileBlock)
      reads this`cache, this`marks, this`syncObjs, this`syncLeaves, top, syncObjs
    {
      && top in marks.captured && top in marks.frozen
      && Packed(syncLeaves, maxSize)
      && (forall i :: 0 <= i < |syncObjs| ==> syncObjs[i] in marks.frozen)
      && if top.isInd then
           && 0 < |top.iptrs| == |syncLeaves| == |syncObjs|
           && Contiguous(top.iptrs, syncLeaves)
           && LeafValues(syncObjs, syncLeaves)
           && AllClean(cache, marks, top, top.iptrs, syncObjs)
         else
           syncObjs == [top] && syncLeaves == [top.contents]
    }

    /** Between StartSync and FinishSync: the file shows the captured contents with the
        deferred operations applied to them. */
    ghost predicate InSync(file: Ptr, top: FileBlock, oldPtrs: seq<Ptr>, size: nat)
      reads this, top, syncObjs, marks.repr, marks.frozen, objs
    {
      && Valid(file) && !doDeferWrite
      && CacheOk(cache, marks) && Snapshot(top)
      && size == |Flat(syncLeaves)|
      && UnderSync(cache, file)
      && (forall p: Ptr :: cache.StateOf(p) != NotBeingSynced ==> p in oldPtrs)
      && Flat(leaves) == ApplyOps(Flat(syncLeaves), deferredWrites, maxFileBytes)
      && Accepted(Flat(syncLeaves), deferredWrites, maxFileBytes)
    }

    // Every captured leaf that is dirty again is on the list of dirty blocks to drop.
    ghost predicate Covered(file: Ptr, top: FileBlock)
      reads this`cache, this`deferredDirtyDeletes, top
    {
      top.isInd ==> forall i :: 0 <= i < |top.iptrs| ==>
        top.iptrs[i].ptr != file && (top.iptrs[i].ptr in cache.dirty ==> top.iptrs[i].ptr in deferredDirtyDeletes)
    }

    // The top block joins the sync.
    method CaptureTop(file: Ptr, top: FileBlock)
      requires CacheOk(cache, marks) && file in cache.dirty && cache.dirty[file] == top
      requires Holds(file, top, objs, leaves)
      modifies this`cache, this`marks
      ensures CacheOk(cache, marks) && Holds(file, top, objs, leaves)
      ensures cache == old(cache).(states := old(cache).states[file := SyncingNotDirty])
      ensures marks == Captured(old(marks), top)
      ensures top.isInd && old(AllClean(cache, marks, top, top.iptrs, objs)) ==>
        AllClean(cache, marks, top, top.iptrs, objs)
    {
      hide CacheOk, Linked, Contiguous, LeafValues;
      ReadyTop(cache, marks, file, top);
      if top.isInd {
        LinkReadyTop(cache, marks, file, top, top.iptrs, objs);
      }
      cache := cache.(states := cache.states[file := SyncingNotDirty]);
      marks := Captured(marks, top);
    }

    // The part of startSyncWriteLocked before the top block is captured.
    method SyncLeaves(file: Ptr) returns (top: FileBlock, oldPtrs: seq<Ptr>)
      requires Valid(file) && file in cache.dirty && cache.states == map[]
      modifies this`cache, this`marks, this`doDeferWrite, marks.repr - marks.frozen
      ensures CacheOk(cache, marks) && Holds(file, top, objs, leaves)
      ensures doDeferWrite == old(doDeferWrite) && objs == old(objs) && leaves == old(leaves)
      ensures cache.dirty == old(cache).dirty && top == cache.dirty[file] && top.isInd == old(top.isInd)
      ensures old(cache).nextID <= cache.nextID && marks.repr == old(marks).repr && old(marks).frozen <= marks.frozen
      ensures top.isInd ==>
        AllClean(cache, marks, top, top.iptrs, objs) && forall i :: 0 <= i < |objs| ==> objs[i] in marks.frozen
      ensures top.isInd ==>
        forall i :: 0 <= i < |top.iptrs| ==> top.iptrs[i].ptr != file && top.iptrs[i].ptr !in cache.dirty
      ensures forall p: Ptr :: cache.StateOf(p) != NotBeingSynced ==> p in oldPtrs
      ensures forall p: Ptr :: p in oldPtrs ==> p in cache.dirty
    {
      hide CacheOk, Owned, Linked, Contiguous, LeafValues, AllClean, Packed, Flat, SplitterOk;
      top := GetFileBlock(file, true);
      oldPtrs := [];
      SimpleSplitterOk(maxSize);
      if top.isInd {
        var inconsistent; ghost var o, l;
        inconsistent, o, l := Rebalance(file, top, SimpleSplitter(maxSize), objs, leaves);
        inconsistent, oldPtrs := ReadyLeaves(file, top, objs, leaves);
        forall i | 0 <= i < |top.iptrs| ensures top.iptrs[i].ptr != file {
          LinkOthers(cache, marks, file, top, top.iptrs, objs, i);
        }
      }
    }

    // What has become of the captured leaves of a multi-block file since the sync started.
    ghost predicate Following(file: Ptr, top: FileBlock, t: Trail, base: Ptr)
      reads this`cache, this`leaves, this`syncLeaves, this`deferredDirtyDeletes, this`marks, top, marks.repr,
        marks.frozen
    {
      top.isInd ==>
        && cache.Known(file) && CacheOk(cache, marks) && cache.Obj(file).isInd && |top.iptrs| == |syncLeaves|
        && OnTrail(t, cache, cache.Obj(file).iptrs, top.iptrs, file, deferredDirtyDeletes, base)
        && Lengths(t, leaves, syncLeaves) && DroppedShort(top, t)
    }

    // Captured leaves that were cut, never written to, and then dropped are shorter than captured.
    ghost predicate DroppedShort(top: FileBlock, t: Trail)
      reads this`cache, this`syncLeaves, this`marks, top, marks.repr
      requires CacheOk(cache, marks) && |top.iptrs| == |syncLeaves|
    {
      forall j ::
        && 0 <= j < |top.iptrs| && t.kept <= j && j in t.cut && j !in t.recorded
        && top.iptrs[j].ptr in cache.dirty
        ==> |cache.dirty[top.iptrs[j].ptr].contents| < |syncLeaves[j]|
    }

    /** StartSync of a dirty file, with the simple splitter, when no work is left over from
        an earlier sync. */
    method StartSync(file: Ptr) returns (top: FileBlock, oldPtrs: seq<Ptr>, size: nat)
      requires Valid(file) && file in cache.dirty && cache.states == map[] && !doDeferWrite
      requires deferredWrites == [] && deferredDirtyDeletes == []
      modifies this`cache, this`marks, this`doDeferWrite, this`syncObjs, this`syncLeaves, marks.repr - marks.frozen
      ensures InSync(file, top, oldPtrs, size) && Following(file, top, Trail(|leaves|, {}, {}), cache.nextID)
      ensures cache.dirty[file] == top && marks.repr == old(marks).repr && old(marks).frozen <= marks.frozen
      ensures cache.dirty == old(cache).dirty
      ensures top.isInd ==> forall i :: 0 <= i < |top.iptrs| ==> top.iptrs[i].ptr !in oldPtrs
      ensures leaves == old(leaves) == syncLeaves && deferredWrites == [] && deferredDirtyDeletes == []
      ensures top == old(cache).dirty[file] && top.isInd == old(cache.dirty[file].isInd)
    {
      hide CacheOk, Owned, Linked, Contiguous, LeafValues, AllClean, Packed, ApplyOps, Accepted, Flat,
        FolderBlockOps.Following;
      top, oldPtrs := SyncLeaves(file);
      CaptureTop(file, top);
      oldPtrs := oldPtrs + [file];
      size := EntrySize(file);
      syncObjs, syncLeaves := objs, leaves;
      ApplyNone(Flat(syncLeaves), maxFileBytes);
      StartFollowing(file, top);
    }

    lemma StartFollowing(file: Ptr, top: FileBlock)
      requires CacheOk(cache, marks) && file in cache.dirty && cache.dirty[file] == top && leaves == syncLeaves
      requires deferredDirtyDeletes == [] && Holds(file, top, objs, leaves)
      requires top.isInd ==> AllClean(cache, marks, top, top.iptrs, objs)
      requires top.isInd ==>
        forall i :: 0 <= i < |top.iptrs| ==> top.iptrs[i].ptr != file && top.iptrs[i].ptr !in cache.dirty
      ensures Following(file, top, Trail(|leaves|, {}, {}), cache.nextID)
    {
      hide CacheOk, Linked, Contiguous, AllClean, OnTrail;
      if top.isInd {
        ApartClean(cache, marks, top, top.iptrs, objs);
        TrailStart(cache, top.iptrs, file, cache.nextID);
      }
    }

    /** A write or truncate while the sync is in flight.  The blocks the sync captured do not
        change, whatever the operation, and of the captured leaves it records exactly those it
        writes to. */
    method ApplyInSync(file: Ptr, op: FileOp, ghost top: FileBlock, ghost oldPtrs: seq<Ptr>, ghost size: nat)
      returns (r: Outcome, ghost dirtyPtrs: seq<Ptr>)
      requires InSync(file, top, oldPtrs, size)
      modifies this`cache, this`doDeferWrite, this`marks, this`deCache, this`objs, this`leaves,
               this`deferredWrites, this`deferredDirtyDeletes, Written(file)
      ensures InSync(file, top, oldPtrs, size)
      ensures r == if TooBig(old(Flat(leaves)), op, maxFileBytes) then FileTooBig else Done
      ensures Flat(leaves) == ApplyOp(old(Flat(leaves)), op, maxFileBytes)
      ensures forall b :: b in old(marks).frozen ==>
                b.isInd == old(b.isInd) && b.iptrs == old(b.iptrs) && b.contents == old(b.contents)
      ensures marks.captured == old(marks).captured && marks.frozen == old(marks).frozen
      ensures forall b :: b in marks.repr ==> b in old(marks).repr || fresh(b)
      ensures old(cache).nextID <= cache.nextID
      ensures deferredDirtyDeletes ==
        old(deferredDirtyDeletes) + if deferredWrites == old(deferredWrites) then [] else dirtyPtrs
      ensures old(CutsLeaf(file, op)) ==>
        && deferredWrites == old(deferredWrites) + [op] && deferredDirtyDeletes == old(deferredDirtyDeletes)
        && DroppedSame(old(objs)) && CutDone(file, old(cache.Obj(file).iptrs), op.size)
      ensures maxSize > 0 && (old(cache.Obj(file).isInd) ==>
        && cache.Obj(file).isInd
        && (old(Reaching(op)) != Nowhere ==>
          deferredWrites == old(deferredWrites) + [op])
        && Effect(old(Reaching(op)), old(cache), old(cache.Obj(file).iptrs), cache, cache.Obj(file).iptrs, file,
                  dirtyPtrs))
      ensures forall before: set<Ptr> :: file in before && old(Accounted(cache, deferredDirtyDeletes, before)) ==>
        Accounted(cache, deferredDirtyDeletes, before)
    {
      hide CacheOk, Owned, Linked, Contiguous, LeafValues, AllClean, Packed, Grows, ApplyOps, ApplyOp, TooBig, Accepted,
        Flat, Effect, CutFrom, Cache.Put, Cache.StateOf, FolderBlockOps.Holds, Reports, Accounted;
      r, dirtyPtrs := Apply(file, op);
      GrowsParts(old(cache), old(marks), cache, marks);
      if top.isInd {
        AllCleanGrows(old(cache), old(marks), cache, marks, top, top.iptrs, syncObjs);
      }
      ApplySnoc(Flat(syncLeaves), old(deferredWrites), op, maxFileBytes);
      CutLength(old(Flat(leaves)), op, maxFileBytes);
      if old(CutsLeaf(file, op)) {
        CutSilent(old(Reaching(op)), old(cache), old(cache.Obj(file).iptrs), cache, cache.Obj(file).iptrs, file,
                  dirtyPtrs);
      }
      forall before: set<Ptr> | file in before && old(Accounted(cache, deferredDirtyDeletes, before))
        ensures Accounted(cache, deferredDirtyDeletes, before)
      {
        AccountedNext(old(cache), cache, file, Shortens(old(Flat(leaves)), op), dirtyPtrs, old(deferredDirtyDeletes),
                      deferredDirtyDeletes, before);
      }
    }

    // Where the captured leaves that were cut and not written to are: dropped ones are not the
    // file's any more, and one the file still has is short.
    ghost predicate Poised(file: Ptr, top: FileBlock, t: Trail)
      requires cache.Known(file) && |top.iptrs| == |syncLeaves|
      reads this`cache, this`objs, this`marks, this`syncLeaves, top, objs
    {
      forall j :: 0 <= j < |top.iptrs| && j in t.cut && j !in t.recorded && top.iptrs[j].ptr in cache.dirty ==>
        if j < t.kept
        then j < |objs| && cache.dirty[top.iptrs[j].ptr] == objs[j] && |objs[j].contents| < |syncLeaves[j]|
        else cache.dirty[top.iptrs[j].ptr] !in Written(file)
    }

    lemma IsPoised(file: Ptr, top: FileBlock, t: Trail, base: Ptr)
      requires Valid(file) && top.isInd && Following(file, top, t, base)
      ensures cache.Known(file) && |top.iptrs| == |syncLeaves| && Poised(file, top, t)
    {
      hide Contiguous, Packed, Flat;
      forall j | 0 <= j < |top.iptrs| && j in t.cut && j !in t.recorded && top.iptrs[j].ptr in cache.dirty
        ensures if j < t.kept
          then j < |objs| && cache.dirty[top.iptrs[j].ptr] == objs[j] && |objs[j].contents| < |syncLeaves[j]|
          else cache.dirty[top.iptrs[j].ptr] !in Written(file)
      {
        if j < t.kept {
          LengthAt(t, leaves, syncLeaves, j);
        } else {
          NotTheFiles(file, top, t, base, j);
        }
      }
    }

    lemma NotTheFiles(file: Ptr, top: FileBlock, t: Trail, base: Ptr, j: nat)
      requires Valid(file) && top.isInd && Following(file, top, t, base)
      requires t.kept <= j < |top.iptrs| && top.iptrs[j].ptr in cache.dirty
      ensures cache.Known(file) && cache.dirty[top.iptrs[j].ptr] !in Written(file)
    {
      hide Contiguous, Packed, Flat, LeafValues, Lengths;
      var b, iptrs := cache.dirty[top.iptrs[j].ptr], cache.Obj(file).iptrs;
      forall i | 0 <= i < |objs| ensures objs[i] != b || b in marks.frozen {
        CapturedAt(t, cache, iptrs, top.iptrs, file, deferredDirtyDeletes, base, j, i);
      }
    }

    // The same, with what becomes of captured leaves the file does not have any more.
    method ApplyPoised(file: Ptr, op: FileOp, ghost top: FileBlock, ghost oldPtrs: seq<Ptr>, ghost size: nat,
                       ghost t: Trail, ghost base: Ptr)
      returns (r: Outcome, ghost dirtyPtrs: seq<Ptr>)
      requires InSync(file, top, oldPtrs, size)
      requires top.isInd ==>
        && cache.Obj(file).isInd && |top.iptrs| == |syncLeaves| && Poised(file, top, t) && DroppedShort(top, t)
        && OnTrail(t, cache, cache.Obj(file).iptrs, top.iptrs, file, deferredDirtyDeletes, base)
      modifies this`cache, this`doDeferWrite, this`marks, this`deCache, this`objs, this`leaves,
               this`deferredWrites, this`deferredDirtyDeletes, Written(file)
      ensures InSync(file, top, oldPtrs, size) && CacheOk(cache, marks) && cache.Known(file)
      ensures top.iptrs == old(top.iptrs) && top.isInd == old(top.isInd)
      ensures Flat(leaves) == ApplyOp(old(Flat(leaves)), op, maxFileBytes)
      ensures marks.frozen == old(marks).frozen && forall b :: b in marks.repr ==> b in old(marks).repr || fresh(b)
      ensures maxSize > 0
      ensures deferredDirtyDeletes ==
        old(deferredDirtyDeletes) + if deferredWrites != old(deferredWrites) then dirtyPtrs else []
      ensures old(cache).nextID <= cache.nextID
      ensures top.isInd ==>
        && (old(Reaching(op)) != Nowhere ==> deferredWrites != old(deferredWrites))
        && cache.Obj(file).isInd && |top.iptrs| == |syncLeaves| && DroppedShort(top, Follow(t, old(Reaching(op))))
        && Effect(old(Reaching(op)), old(cache), old(cache.Obj(file).iptrs), cache, cache.Obj(file).iptrs, file,
                  dirtyPtrs)
      ensures forall before: set<Ptr> :: file in before && old(Accounted(cache, deferredDirtyDeletes, before)) ==>
        Accounted(cache, deferredDirtyDeletes, before)
    {
      hide Accounted, ApplyOp, Flat, Effect, TooBig, CacheOk, Accepted, ApplyOps, LeafValues, Linked, Contiguous,
        Packed, AllClean, OnTrail, FolderBlockOps.CutDone, ReachOf;
      ValidParts(file);
      ghost var deletes, iptrs, reach := deferredDirtyDeletes, cache.Obj(file).iptrs, Reaching(op);
      r, dirtyPtrs := ApplyInSync(file, op, top, oldPtrs, size);
      ghost var t' := Follow(t, reach);
      LeafAtMost(op, |old(Flat(leaves))|, |old(leaves)|, maxSize, maxFileBytes);
      forall j | top.isInd && 0 <= j < |top.iptrs| && t'.kept <= j && j in t'.cut && j !in t'.recorded &&
                 top.iptrs[j].ptr in cache.dirty
        ensures |cache.dirty[top.iptrs[j].ptr].contents| < |syncLeaves[j]|
      {
        SameBlock(t, reach, old(cache), iptrs, cache, cache.Obj(file).iptrs, top.iptrs, file, deletes, dirtyPtrs, base,
                  j);
      }
    }

    /** The same for any file, with the whole of what becomes of the captured leaves. */
    method FollowInSync(file: Ptr, op: FileOp, ghost top: FileBlock, ghost oldPtrs: seq<Ptr>, ghost size: nat,
                        ghost t: Trail, ghost base: Ptr)
      returns (r: Outcome, ghost t': Trail)
      requires InSync(file, top, oldPtrs, size) && Following(file, top, t, base)
      modifies this`cache, this`doDeferWrite, this`marks, this`deCache, this`objs, this`leaves,
               this`deferredWrites, this`deferredDirtyDeletes, Written(file)
      ensures InSync(file, top, oldPtrs, size) && Following(file, top, t', base)
      ensures Flat(leaves) == ApplyOp(old(Flat(leaves)), op, maxFileBytes)
      ensures marks.frozen == old(marks).frozen && forall b :: b in marks.repr ==> b in old(marks).repr || fresh(b)
      ensures maxSize > 0 && (top.isInd ==>
        t' == Follow(t, old(Reaching(op))) && |leaves| == CountAfter(|old(leaves)|, old(Reaching(op))))
      ensures forall before: set<Ptr> :: file in before && old(Accounted(cache, deferredDirtyDeletes, before)) ==>
        Accounted(cache, deferredDirtyDeletes, before)
    {
      hide Accounted, ApplyOp, Flat, Effect, TooBig, CacheOk, Accepted, ApplyOps, LeafValues, Linked, Contiguous,
        Packed, AllClean, Lengths, OnTrail, ReachOf, FolderBlockOps.Poised, FolderBlockOps.DroppedShort;
      ghost var deletes, writes, iptrs := deferredDirtyDeletes, deferredWrites, cache.Obj(file).iptrs;
      ValidParts(file);
      t' := Follow(t, Reaching(op));
      ghost var dirtyPtrs;
      if top.isInd { IsPoised(file, top, t, base); }
      r, dirtyPtrs := ApplyPoised(file, op, top, oldPtrs, size, t, base);
      if top.isInd {
        ValidParts(file);
        TrailStep(t, old(Reaching(op)), old(cache), iptrs, cache, cache.Obj(file).iptrs, top.iptrs, file, deletes,
                  dirtyPtrs, deferredWrites != writes, base);
        LengthsNext(t, op, old(leaves), leaves, syncLeaves, maxSize, maxFileBytes);
      }
    }

    method DeleteDirty(ptrs: seq<Ptr>)
      modifies this`cache
      ensures cache == old(cache).(dirty := old(cache).dirty - (set p | p in ptrs))
    {
      for i := 0 to |ptrs|
        invariant cache == old(cache).(dirty := old(cache).dirty - (set p | p in ptrs[..i]))
      {
        cache := cache.(dirty := cache.dirty - {ptrs[i]});
        assert ptrs[..i + 1] == ptrs[..i] + [ptrs[i]];
      }
      assert ptrs[..|ptrs|] == ptrs;
    }

    method DropSyncBlocks(newFile: Ptr, top: FileBlock, oldPtrs: seq<Ptr>)
      modifies this`cache
      ensures cache == Finished(old(cache), newFile, top, oldPtrs, deferredDirtyDeletes)
    {
      DeleteDirty(oldPtrs);
      DeleteDirty(deferredDirtyDeletes);
      cache := Cache(cache.dirty, cache.clean[newFile := top], map[], newFile + 1);
    }

    // The first half of FinishSync, together with the pointer update: the synced blocks
    // become the file, and the dirty blocks of the sync and of the deferred operations go.
    method SwitchPointers(file: Ptr, top: FileBlock, oldPtrs: seq<Ptr>, size: nat) returns (newFile: Ptr)
      requires InSync(file, top, oldPtrs, size)
      modifies this`cache, this`marks, this`deCache, this`entries, this`objs, this`leaves
      ensures newFile == old(cache).nextID && objs == syncObjs && leaves == syncLeaves
      ensures cache == Finished(old(cache), newFile, top, oldPtrs, deferredDirtyDeletes)
      ensures marks == old(marks).(captured := {})
      ensures CacheOk(cache, marks) && cache.states == map[] && newFile < cache.nextID
      ensures newFile !in cache.dirty && newFile in cache.clean && cache.clean[newFile] == top
      ensures forall p: Ptr :: p in cache.dirty ==> p < newFile
      ensures newFile in entries && EntriesOk() && EntrySize(newFile) == size
      ensures forall before: set<Ptr> :: old(Accounted(cache, deferredDirtyDeletes, before)) ==>
        NoneLeft(cache, before, newFile)
    {
      hide Accounted, NoneLeft, CacheOk, Linked, Contiguous, LeafValues, AllClean, Packed, ApplyOps, Accepted, Flat,
        Finished;
      assert Finished(cache, cache.nextID, top, oldPtrs, deferredDirtyDeletes).nextID == cache.nextID + 1 by {
        FinishedNext(cache, top, oldPtrs, deferredDirtyDeletes);
      }
      FinishedOk(cache, marks, top, oldPtrs, deferredDirtyDeletes);
      forall before: set<Ptr> | Accounted(cache, deferredDirtyDeletes, before)
        ensures NoneLeft(Finished(cache, cache.nextID, top, oldPtrs, deferredDirtyDeletes), before, cache.nextID)
      {
        FinishedNone(cache, top, oldPtrs, deferredDirtyDeletes, before);
      }
      newFile := cache.nextID;
      DropSyncBlocks(newFile, top, oldPtrs);
      marks := marks.(captured := {});
      deCache, entries := deCache - {file}, entries[newFile := size];
      objs, leaves := syncObjs, syncLeaves;
      DirtyBelow(cache, marks, newFile);
    }

    // The new path shows the file as the sync captured it.
    ghost predicate ShowsSynced(newFile: Ptr, top: FileBlock)
      reads this`cache, this`syncLeaves, this`marks, top, marks.repr, marks.frozen
      requires CacheOk(cache, marks)
    {
      && cache.Known(newFile) && cache.Obj(newFile) == top
      && if !top.isInd then syncLeaves == [top.contents]
         else |top.iptrs| == |syncLeaves| && forall i :: 0 <= i < |top.iptrs| ==>
           cache.Known(top.iptrs[i].ptr) && cache.Obj(top.iptrs[i].ptr).contents == syncLeaves[i]
    }

    /** The same at the end of any sync: the new path shows the file that was synced if and only if every
        captured leaf that was cut is one that was written to as well. */
    method SwitchAfter(file: Ptr, top: FileBlock, oldPtrs: seq<Ptr>, size: nat, ghost t: Trail, ghost base: Ptr)
      returns (newFile: Ptr)
      requires InSync(file, top, oldPtrs, size) && Following(file, top, t, base)
      requires top.isInd ==> forall i :: 0 <= i < |top.iptrs| ==> top.iptrs[i].ptr !in oldPtrs
      modifies this`cache, this`marks, this`deCache, this`entries, this`objs, this`leaves
      ensures CacheOk(cache, marks) && (ShowsSynced(newFile, top) <==> (top.isInd ==> t.cut <= t.recorded))
      ensures newFile == old(cache).nextID && forall p: Ptr :: p in cache.dirty ==> p < newFile
      ensures forall before: set<Ptr> :: old(Accounted(cache, deferredDirtyDeletes, before)) ==>
        NoneLeft(cache, before, newFile)
    {
      hide Accounted, NoneLeft, CacheOk, Linked, Contiguous, Packed, ApplyOps, Accepted, Flat;
      if top.isInd { IsPoised(file, top, t, base); }
      newFile := SwitchPointers(file, top, oldPtrs, size);
      forall j | top.isInd && j in t.cut && j !in t.recorded ensures !ShowsSynced(newFile, top) {
        assert 0 <= j < |top.iptrs| && top.iptrs[j].ptr in cache.dirty;
      }
    }

    method SwitchToSynced(file: Ptr, top: FileBlock, oldPtrs: seq<Ptr>, size: nat) returns (newFile: Ptr)
      requires InSync(file, top, oldPtrs, size) && Covered(file, top)
      modifies this`cache, this`marks, this`deCache, this`entries, this`objs, this`leaves
      ensures Valid(newFile) && newFile == old(cache).nextID
      ensures leaves == syncLeaves && cache.states == map[]
      ensures marks.repr == old(marks).repr && marks.frozen == old(marks).frozen
      ensures forall p: Ptr :: p in cache.dirty ==> p < newFile
      ensures forall before: set<Ptr> :: old(Accounted(cache, deferredDirtyDeletes, before)) ==>
        NoneLeft(cache, before, newFile)
    {
      hide Accounted, NoneLeft, CacheOk, Linked, Contiguous, LeafValues, AllClean, Packed, ApplyOps, Accepted, Flat,
        Finished;
      if top.isInd {
        FinishedLinked(cache, marks, top, top.iptrs, syncObjs, oldPtrs, deferredDirtyDeletes);
      }
      newFile := SwitchPointers(file, top, oldPtrs, size);
    }

    /** The node's pointer update and FinishSync: when every captured leaf that was made
        dirty again is recorded, replaying the deferred operations on the new path shows
        exactly what the old path showed, and nothing is left over. */
    method FinishSync(file: Ptr, top: FileBlock, oldPtrs: seq<Ptr>, size: nat)
      returns (newFile: Ptr, stillDirty: bool, r: Outcome)
      requires InSync(file, top, oldPtrs, size) && Covered(file, top)
      modifies this`cache, this`doDeferWrite, this`marks, this`deCache, this`entries, this`objs, this`leaves,
               this`deferredWrites, this`deferredDirtyDeletes, marks.repr - marks.frozen
      ensures r.Done? && Valid(newFile) && newFile == old(cache).nextID
      ensures forall before: set<Ptr> :: old(Accounted(cache, deferredDirtyDeletes, before)) ==>
        NoneLeft(cache, before, newFile)
      ensures Flat(leaves) == ApplyOps(Flat(syncLeaves), old(deferredWrites), maxFileBytes)
      ensures Flat(leaves) == old(Flat(leaves))
      ensures stillDirty == (old(deferredWrites) != [])
      ensures !stillDirty ==> forall p: Ptr :: p in cache.dirty ==> p < newFile
      ensures cache.states == map[] && !doDeferWrite && deferredWrites == [] && deferredDirtyDeletes == []
    {
      hide CacheOk, Owned, Linked, Contiguous, LeafValues, AllClean, Packed, Grows, ApplyOps, ApplyOp, Accepted, TooBig,
        Flat, Holds, Cache.Put, Cache.StateOf, Accounted, NoneLeft, Reports;
      newFile := SwitchToSynced(file, top, oldPtrs, size);
      var writes := deferredWrites;
      stillDirty := |deferredWrites| != 0;
      deferredWrites, deferredDirtyDeletes := [], [];
      ghost var f := Flat(syncLeaves);
      ApplyNone(f, maxFileBytes);
      assert writes[..0] == [];
      r := Done;
      for i := 0 to |writes|
        invariant Valid(newFile) && cache.states == map[] && !doDeferWrite && r.Done?
        invariant deferredWrites == [] && deferredDirtyDeletes == []
        invariant Flat(leaves) == ApplyOps(f, writes[..i], maxFileBytes)
        invariant marks.frozen == old(marks).frozen
        invariant forall b :: b in marks.repr ==> b in old(marks).repr || fresh(b)
        invariant newFile < cache.nextID && (writes == [] ==> forall p: Ptr :: p in cache.dirty ==> p < newFile)
        invariant forall before: set<Ptr> :: old(Accounted(cache, deferredDirtyDeletes, before)) ==>
          NoneLeft(cache, before, newFile)
      {
        AcceptedAt(f, writes, i, maxFileBytes);
        ghost var shorter := Shortens(Flat(leaves), writes[i]);
        ghost var c, m := cache, marks;
        WrittenInRepr(newFile);
        var dirtyPtrs;
        r, dirtyPtrs := ApplyData(newFile, writes[i]);
        GrowsParts(c, m, cache, marks);
        forall before: set<Ptr> | NoneLeft(c, before, newFile) ensures NoneLeft(cache, before, newFile) {
          NoneLeftNext(c, cache, newFile, shorter, dirtyPtrs, before, newFile);
        }
        if !r.Done? {
          return;
        }
      }
      assert writes[..|writes|] == writes;
    }

    // truncateLocked's lookup and its same-size test, on a multi-block file whose leaves
    // need not be as long as their offsets say.
    method SameSize(file: Ptr, size: nat) returns (same: bool, ghost idx: nat)
      requires CacheOk(cache, marks) && cache.Known(file) && cache.Obj(file).isInd
      requires var iptrs := cache.Obj(file).iptrs;
               && iptrs != [] && iptrs[0].off <= size
               && (forall i, j :: 0 <= i < j < |iptrs| ==> iptrs[i].off < iptrs[j].off)
               && (forall i :: 0 <= i < |iptrs| ==> cache.Known(iptrs[i].ptr))
      ensures var iptrs := cache.Obj(file).iptrs;
              && idx < |iptrs| && iptrs[idx].off <= size && (idx < |iptrs| - 1 ==> size < iptrs[idx + 1].off)
              && same == (iptrs[idx].off + |cache.Obj(iptrs[idx].ptr).contents| == size)
    {
      var fblock := GetFileBlock(file, true);
      var i := FindLeaf(fblock.iptrs, size);
      var block := GetFileBlock(fblock.iptrs[i].ptr, true);
      same, idx := fblock.iptrs[i].off + |block.contents| == size, i;
    }

    // Where the dirty leaf of a cut file ends.
    lemma CutEnd(file: Ptr, top: FileBlock, oldPtrs: seq<Ptr>, size: nat, newSize: nat)
      requires InSync(file, top, oldPtrs, size) && top.isInd && newSize < size
      requires deferredWrites == [TruncateOp(newSize)] && CutDone(file, top.iptrs, newSize)
      ensures var iptrs, k := top.iptrs, |cache.dirty[file].iptrs| - 1;
              && k < |iptrs| && iptrs[k].off <= newSize && (k < |iptrs| - 1 ==> newSize < iptrs[k + 1].off)
              && iptrs[k].ptr in cache.dirty
              && iptrs[k].off + |cache.dirty[iptrs[k].ptr].contents| == newSize
    {
      hide CacheOk, Linked, Contiguous, AllClean, Packed, Accepted, Flat, ApplyOps;
      var cur := cache.dirty[file];
      var k := |cur.iptrs| - 1;
      ContiguousIncreasing(cur.iptrs, leaves);
      LinkKnown(cache, marks, file, cur, cur.iptrs, objs, k);
      StartNext(leaves, k);
      StartAll(leaves);
      ApplyOne(Flat(syncLeaves), TruncateOp(newSize), maxFileBytes);
      CutLength(Flat(syncLeaves), TruncateOp(newSize), maxFileBytes);
    }

    /** FinishSync when the one operation of the sync was a truncate that cut a leaf of a
        multi-block file.  Nothing had recorded the cut leaf, so on the new path the replayed
        truncate finds the leaf already cut and does nothing: the entry keeps the old size
        and the file counts as clean. */
    method FinishCutSync(file: Ptr, top: FileBlock, oldPtrs: seq<Ptr>, size: nat, newSize: nat) returns (newFile: Ptr)
      requires InSync(file, top, oldPtrs, size) && top.isInd && newSize < size
      requires deferredWrites == [TruncateOp(newSize)] && deferredDirtyDeletes == []
      requires CutDone(file, top.iptrs, newSize)
      requires forall i :: 0 <= i < |top.iptrs| ==> top.iptrs[i].ptr !in oldPtrs
      modifies this`cache, this`marks, this`deCache, this`entries, this`objs, this`leaves,
               this`deferredWrites, this`deferredDirtyDeletes
      ensures EntrySize(newFile) == size && newFile in cache.clean && newFile !in cache.dirty
    {
      hide CacheOk, Linked, Contiguous, LeafValues, Packed, ApplyOps, Accepted, Flat, Cache.Put, Cache.StateOf;
      CutEnd(file, top, oldPtrs, size, newSize);
      ContiguousIncreasing(top.iptrs, syncLeaves);
      newFile := SwitchPointers(file, top, oldPtrs, size);
      var writes := deferredWrites;
      deferredWrites, deferredDirtyDeletes := [], [];
      var same; ghost var idx;
      same, idx := SameSize(newFile, writes[0].size);
      assert same;
    }
  }
}
