/** The block cache of a folder as a value: dirty blocks shadow clean ones, and the sync
    states say which dirty blocks a sync in flight holds. */
module BlockCache {
  import opened FlatFile
  import opened FileBlocks
  import opened Pointers

  datatype SyncBlockState = NotBeingSynced | SyncingNotDirty | SyncingAndDirty

  // Offsets of the leaves follow their lengths, and only the last leaf may be empty.
  ghost predicate Contiguous(iptrs: seq<IndirectPtr>, leaves: seq<Bytes>) {
    && |iptrs| == |leaves|
    && (forall i :: 0 <= i < |iptrs| ==> iptrs[i].off == Start(leaves, i))
    && (forall i :: 0 <= i < |leaves| - 1 ==> leaves[i] != [])
  }

  lemma ContiguousIncreasing(iptrs: seq<IndirectPtr>, leaves: seq<Bytes>)
    requires Contiguous(iptrs, leaves)
    ensures forall i, j :: 0 <= i < j < |iptrs| ==> iptrs[i].off < iptrs[j].off
    ensures iptrs != [] ==> iptrs[0].off == 0
    ensures |iptrs| == |leaves| && forall i :: 0 <= i < |iptrs| ==> iptrs[i].off == Start(leaves, i)
    ensures forall i :: 0 <= i < |leaves| - 1 ==> leaves[i] != []
  {
    forall i, j | 0 <= i < j < |iptrs| ensures iptrs[i].off < iptrs[j].off {
      StartNext(leaves, i);
      StartMonotone(leaves, i + 1, j);
    }
    assert leaves[..0] == [];
  }

  lemma AppendEmptyLeaf(iptrs: seq<IndirectPtr>, leaves: seq<Bytes>, ip: IndirectPtr)
    requires Contiguous(iptrs, leaves) && leaves != [] && leaves[|leaves| - 1] != []
    requires ip.off == |Flat(leaves)|
    ensures Contiguous(iptrs + [ip], leaves + [[]])
  {
    forall i | 0 <= i < |iptrs| + 1 ensures (iptrs + [ip])[i].off == Start(leaves + [[]], i) {
      assert (leaves + [[]])[..i] == leaves[..i];
    }
    assert leaves[..|leaves|] == leaves;
  }

  // Replacing leaf idx keeps the layout when the lengths of the leaves before the last do
  // not change.
  lemma ReplaceLeaf(iptrs: seq<IndirectPtr>, leaves: seq<Bytes>, idx: nat, b: Bytes)
    requires Contiguous(iptrs, leaves) && idx < |leaves|
    requires idx < |leaves| - 1 ==> |b| == |leaves[idx]|
    ensures Contiguous(iptrs, leaves[idx := b])
    ensures |Flat(leaves[idx := b])| == |Flat(leaves)| + |b| - |leaves[idx]|
  {
    forall i | 0 <= i < |iptrs| ensures iptrs[i].off == Start(leaves[idx := b], i) {
      StartSameLengths(leaves, leaves[idx := b], i);
    }
    FlatSplit(leaves, idx);
    FlatUpdate(leaves, idx, b);
  }

  lemma CutContiguous(iptrs: seq<IndirectPtr>, leaves: seq<Bytes>, k: nat, size: nat)
    requires Contiguous(iptrs, leaves)
    requires k < |leaves| && Start(leaves, k) <= size <= Start(leaves, k) + |leaves[k]|
    ensures Contiguous(iptrs[..k + 1], CutLeaves(leaves, k, size))
  {
    forall i | 0 <= i <= k ensures iptrs[i].off == Start(CutLeaves(leaves, k, size), i) {
      StartSameLengths(leaves, CutLeaves(leaves, k, size), i);
    }
  }

  lemma AppendEmptyFlat(leaves: seq<Bytes>)
    ensures Flat(leaves + [[]]) == Flat(leaves)
  {
    FlatAppend(leaves, [[]]);
    FlatOne([]);
  }

  // What one round of the write loop does to the leaves of a packed file: progress, no
  // growth before the last leaf, and a full last leaf when data is left over.
  lemma CopyRound(f: Bytes, data: Bytes, off: nat, nCopied: nat, leaves: seq<Bytes>, idx: nat,
                  copied: nat, b: Bytes, maxSize: nat)
    requires Packed(leaves, maxSize) && nCopied < |data| && idx < |leaves|
    requires PartlyWritten(f, data, off, nCopied, Flat(leaves))
    requires Start(leaves, idx) <= off + nCopied
    requires idx < |leaves| - 1 ==> off + nCopied < Start(leaves, idx + 1)
    requires var o := off + nCopied - Start(leaves, idx); var n := |data| - nCopied;
             && CopiedInto(leaves[idx], data[nCopied..], o, copied, b)
             && |b| == GrownLength(|leaves[idx]|, n, o, maxSize)
             && (o + n <= |leaves[idx]| || o + n <= maxSize ==> copied == n)
             && (|leaves[idx]| < o + n && maxSize < o + n ==>
                   copied == if |leaves[idx]| <= maxSize && o <= maxSize then maxSize - o else 0)
    ensures PartlyWritten(f, data, off, nCopied + copied, Flat(leaves[idx := b]))
    ensures Packed(leaves[idx := b], maxSize)
    ensures idx < |leaves| - 1 ==> copied > 0 && |b| == |leaves[idx]|
    ensures idx == |leaves| - 1 && nCopied + copied < |data| ==>
              |b| == maxSize && Start(leaves, idx) + |b| <= off + nCopied + copied
    ensures copied > 0 || (|leaves| <= off + nCopied && idx == |leaves| - 1)
    ensures idx < |leaves| - 1 && nCopied + copied < |data| ==> off + nCopied + copied == Start(leaves, idx + 1)
    ensures nCopied + copied == |data| ==> Start(leaves, idx) < off + |data| <= Start(leaves, idx) + |b|
  {
    PackedCount(leaves, maxSize);
    StartNext(leaves, idx);
    if idx == |leaves| - 1 {
      StartAll(leaves);
    }
    assert idx < |leaves| - 1 ==> copied > 0 && |b| == |leaves[idx]|;
    WriteRound(f, data, off, nCopied, leaves, idx, copied, b);
  }

  /** The search loop of getFileBlockAtOffsetLocked: the last leaf that starts at or
      before the offset. */
  method FindLeaf(iptrs: seq<IndirectPtr>, off: nat) returns (nextIndex: nat)
    requires iptrs != [] && iptrs[0].off <= off
    requires forall i, j :: 0 <= i < j < |iptrs| ==> iptrs[i].off < iptrs[j].off
    ensures nextIndex < |iptrs| && iptrs[nextIndex].off <= off
    ensures nextIndex < |iptrs| - 1 ==> off < iptrs[nextIndex + 1].off
  {
    nextIndex := |iptrs| - 1;
    for i := 0 to |iptrs|
      invariant nextIndex == |iptrs| - 1
      invariant forall j :: 0 <= j < i ==> iptrs[j].off < off
    {
      if iptrs[i].off == off {
        nextIndex := i;
        break;
      } else if iptrs[i].off > off {
        nextIndex := i - 1;
        break;
      }
    }
  }

  /** The dirty blocks; the blocks that clean caches and the server hold; which blocks
      are being synced (fileBlockStates); the next block ID. */
  datatype Cache = Cache(dirty: map<Ptr, FileBlock>, clean: map<Ptr, FileBlock>,
                         states: map<Ptr, SyncBlockState>, nextID: Ptr)
  {
    function StateOf(p: Ptr): SyncBlockState {
      if p in states then states[p] else NotBeingSynced
    }

    predicate Known(p: Ptr) {
      p in dirty || p in clean
    }

    // BlockCache.Get: dirty blocks take precedence.
    function Obj(p: Ptr): FileBlock
      requires Known(p)
    {
      if p in dirty then dirty[p] else clean[p]
    }

    predicate MustCopy(p: Ptr) {
      p !in dirty || StateOf(p) == SyncingNotDirty
    }

    // What cacheBlockIfNotYetDirtyLocked leaves behind.
    function Put(p: Ptr, b: FileBlock): Cache {
      if p !in dirty then this.(dirty := dirty[p := b])
      else if StateOf(p) == SyncingNotDirty then
        this.(dirty := dirty[p := b], states := states[p := SyncingAndDirty])
      else this
    }

    function PutNew(b: FileBlock): Cache {
      this.(dirty := dirty[nextID := b], nextID := nextID + 1)
    }
  }

  lemma NoStates(c: Cache, p: Ptr, b: FileBlock)
    ensures c.states == map[] ==> c.StateOf(p) == NotBeingSynced && c.Put(p, b).states == map[]
  {
  }

  // A sync in flight holds the dirty block of p.
  predicate UnderSync(c: Cache, p: Ptr) {
    p in c.dirty && c.StateOf(p) != NotBeingSynced
  }

  /** Object sets that only the proof looks at: the blocks the sync in flight holds, the
      blocks that must never be written, every block that is or was dirty. */
  datatype Marks = Marks(captured: set<FileBlock>, frozen: set<FileBlock>, repr: set<FileBlock>)

  /** No two dirty pointers share an object; a frozen object is dirty only under a
      pointer that must be copied before it is written; the sync states say which
      dirty entries are still the captured object. */
  ghost predicate CacheOk(c: Cache, m: Marks) {
    && (forall p: Ptr :: p in c.dirty ==> c.dirty[p] in m.repr)
    && (forall p: Ptr :: p in c.clean ==> c.clean[p] in m.frozen)
    && m.captured <= m.frozen
    && (forall p: Ptr, q: Ptr :: p in c.dirty && q in c.dirty && p != q ==> c.dirty[p] != c.dirty[q])
    && (forall p: Ptr :: p in c.dirty && c.dirty[p] in m.frozen ==> c.StateOf(p) == SyncingNotDirty)
    && (forall p: Ptr :: p in c.states && c.states[p] == SyncingNotDirty ==>
          p in c.dirty && c.dirty[p] in m.captured)
    && (forall p: Ptr :: p in c.states && c.states[p] == SyncingAndDirty ==>
          p in c.dirty && c.dirty[p] !in m.captured)
    && (forall p: Ptr :: p in c.dirty || p in c.clean || p in c.states ==> p < c.nextID)
  }

  // `b` may be written in place on behalf of `p`: it is the dirty block under `p`, or a
  // copy that is in no cache and that caching it under `p` would install.
  ghost predicate Owned(c: Cache, m: Marks, p: Ptr, b: FileBlock) {
    && p < c.nextID
    && b !in m.frozen
    && (forall q: Ptr :: q in c.dirty && c.dirty[q] == b ==> q == p)
    && (!c.MustCopy(p) ==> c.dirty[p] == b)
  }

  // `objs` are the leaf blocks behind `iptrs`, except that leaf k (when there is one) is
  // a block its writer has not put back in the cache yet.
  ghost predicate Linked(c: Cache, m: Marks, file: Ptr, top: FileBlock, iptrs: seq<IndirectPtr>,
                         objs: seq<FileBlock>, k: int)
  {
    && |objs| == |iptrs|
    && (forall i, j :: 0 <= i < j < |iptrs| ==> iptrs[i].ptr != iptrs[j].ptr)
    && (forall i :: 0 <= i < |iptrs| ==> iptrs[i].ptr < c.nextID && iptrs[i].ptr != file && objs[i] != top)
    && (forall i :: 0 <= i < |iptrs| && i != k ==>
          && c.Known(iptrs[i].ptr) && objs[i] == c.Obj(iptrs[i].ptr)
          && (iptrs[i].ptr in c.dirty ==> iptrs[i].encodedSize == 0))
    && (0 <= k < |iptrs| ==> Owned(c, m, iptrs[k].ptr, objs[k]))
  }

  lemma CachePut(c: Cache, m: Marks, p: Ptr, b: FileBlock)
    requires CacheOk(c, m) && Owned(c, m, p, b)
    ensures CacheOk(c.Put(p, b), m.(repr := m.repr + {b}))
    ensures p in c.Put(p, b).dirty && c.Put(p, b).dirty[p] == b
    ensures Owned(c.Put(p, b), m.(repr := m.repr + {b}), p, b)
  {
  }

  lemma OwnedElsewhere(c: Cache, m: Marks, p: Ptr, b: FileBlock, q: Ptr, d: FileBlock)
    requires CacheOk(c, m) && Owned(c, m, p, b) && Owned(c, m, q, d) && p != q && b != d
    ensures Owned(c.Put(p, b), m.(repr := m.repr + {b}), q, d)
  {
  }

  function Undersize(iptrs: seq<IndirectPtr>, k: nat): seq<IndirectPtr>
    requires k < |iptrs|
  {
    iptrs[k := iptrs[k].(encodedSize := 0)]
  }

  // Clearing the encoded size of the pending leaf and putting it back completes the file.
  lemma LinkPutLeaf(c: Cache, m: Marks, file: Ptr, top: FileBlock, iptrs: seq<IndirectPtr>,
                    objs: seq<FileBlock>, leaves: seq<Bytes>, k: nat)
    requires CacheOk(c, m) && Owned(c, m, file, top)
    requires Linked(c, m, file, top, iptrs, objs, k) && Contiguous(iptrs, leaves) && k < |iptrs|
    ensures var c', m' := c.Put(iptrs[k].ptr, objs[k]), m.(repr := m.repr + {objs[k]});
            && CacheOk(c', m') && Owned(c', m', file, top)
            && Linked(c', m', file, top, Undersize(iptrs, k), objs, -1)
            && Contiguous(Undersize(iptrs, k), leaves)
  {
    CachePut(c, m, iptrs[k].ptr, objs[k]);
    OwnedElsewhere(c, m, iptrs[k].ptr, objs[k], file, top);
  }

  lemma LinkPutTop(c: Cache, m: Marks, file: Ptr, top: FileBlock, iptrs: seq<IndirectPtr>, objs: seq<FileBlock>, k: int)
    requires CacheOk(c, m) && Owned(c, m, file, top)
    requires Linked(c, m, file, top, iptrs, objs, k)
    ensures Linked(c.Put(file, top), m.(repr := m.repr + {top}), file, top, iptrs, objs, k)
  {
    if 0 <= k < |iptrs| {
      OwnedElsewhere(c, m, file, top, iptrs[k].ptr, objs[k]);
    }
  }

  lemma CacheNew(c: Cache, m: Marks, b: FileBlock)
    requires CacheOk(c, m) && b !in m.frozen && (forall p: Ptr :: p in c.dirty ==> c.dirty[p] != b)
    ensures CacheOk(c.PutNew(b), m.(repr := m.repr + {b}))
  {
  }

  lemma OwnedNew(c: Cache, m: Marks, b: FileBlock, p: Ptr, d: FileBlock)
    requires Owned(c, m, p, d) && b != d
    ensures Owned(c.PutNew(b), m.(repr := m.repr + {b}), p, d)
  {
  }

  lemma LinkNew(c: Cache, m: Marks, file: Ptr, top: FileBlock, iptrs: seq<IndirectPtr>, objs: seq<FileBlock>,
                k: int, b: FileBlock, off: nat)
    requires CacheOk(c, m) && b !in m.frozen && b !in m.repr && b != top && b !in objs
    requires Linked(c, m, file, top, iptrs, objs, k) && k < |iptrs| && file < c.nextID
    ensures Linked(c.PutNew(b), m.(repr := m.repr + {b}), file, top,
                   iptrs + [IndirectPtr(c.nextID, 0, off)], objs + [b], k)
  {
    if 0 <= k {
      OwnedNew(c, m, b, iptrs[k].ptr, objs[k]);
    }
  }

  // What writing never does: change a clean block, thaw an object, forget a dirty block,
  // or move a block into or out of the sync in flight.
  ghost predicate Grows(c: Cache, m: Marks, c': Cache, m': Marks) {
    && c'.clean == c.clean && c.nextID <= c'.nextID
    && m'.captured == m.captured && m'.frozen == m.frozen && m.repr <= m'.repr
    && c.dirty.Keys <= c'.dirty.Keys
    && c'.states.Keys == c.states.Keys
    && forall p: Ptr :: c.StateOf(p) == NotBeingSynced <==> c'.StateOf(p) == NotBeingSynced
  }

  lemma GrowsTransitive(c: Cache, m: Marks, c': Cache, m': Marks, c'': Cache, m'': Marks)
    requires Grows(c, m, c', m') && Grows(c', m', c'', m'')
    ensures Grows(c, m, c'', m'')
  {
  }

  lemma GrowsReflexive(c: Cache, m: Marks)
    ensures Grows(c, m, c, m)
  {
  }

  // The parts of Grows that callers use.
  lemma GrowsParts(c: Cache, m: Marks, c': Cache, m': Marks)
    requires Grows(c, m, c', m')
    ensures m'.frozen == m.frozen && m'.captured == m.captured && c'.clean == c.clean && c.nextID <= c'.nextID
    ensures forall p: Ptr :: p in c.dirty ==> p in c'.dirty
    ensures forall p: Ptr :: c.StateOf(p) == NotBeingSynced <==> c'.StateOf(p) == NotBeingSynced
  {
  }

  function Extended(c: Cache, file: Ptr, top: FileBlock, needed: bool, rblock: FileBlock): Cache {
    if needed then c.PutNew(rblock).Put(file, top) else c
  }

  function ExtendedMarks(m: Marks, top: FileBlock, needed: bool, rblock: FileBlock): Marks {
    if needed then m.(repr := m.repr + {top} + {rblock}) else m
  }

  lemma PutGrows(c: Cache, m: Marks, p: Ptr, b: FileBlock)
    ensures Grows(c, m, c.Put(p, b), m.(repr := m.repr + {b})) && c.Put(p, b).nextID == c.nextID
    ensures c.Put(p, b).dirty.Keys == c.dirty.Keys + {p}
  {
  }

  lemma PutNewGrows(c: Cache, m: Marks, b: FileBlock)
    ensures Grows(c, m, c.PutNew(b), m.(repr := m.repr + {b}))
    ensures c.PutNew(b).dirty.Keys == c.dirty.Keys + {c.nextID}
  {
  }

  lemma RoundGrows(c: Cache, m: Marks, file: Ptr, top: FileBlock, needed: bool, rblock: FileBlock, ptr: Ptr,
                   block: FileBlock)
    ensures var m1 := ExtendedMarks(m, top, needed, rblock);
            Grows(c, m, Extended(c, file, top, needed, rblock).Put(ptr, block), m1.(repr := m1.repr + {block}))
    ensures forall p: Ptr :: p in Extended(c, file, top, needed, rblock).Put(ptr, block).dirty ==>
              p in c.dirty || p == ptr || (needed && (p == c.nextID || p == file))
  {
    var c', m' := Extended(c, file, top, needed, rblock), ExtendedMarks(m, top, needed, rblock);
    PutGrows(c', m', ptr, block);
    if needed {
      var c1, m1 := c.PutNew(rblock), m.(repr := m.repr + {rblock});
      PutNewGrows(c, m, rblock);
      PutGrows(c1, m1, file, top);
      assert m1.repr + {top} == m'.repr;
      GrowsTransitive(c, m, c1, m1, c', m');
      GrowsTransitive(c, m, c', m', c'.Put(ptr, block), m'.(repr := m'.repr + {block}));
    }
  }

  // --- which leaves a write goes to -----------------------------------------------------------------

  // Leaf k is where offset x is looked for.
  ghost predicate AtLeaf(iptrs: seq<IndirectPtr>, k: nat, x: nat) {
    k < |iptrs| && iptrs[k].off <= x && (k < |iptrs| - 1 ==> x < iptrs[k + 1].off)
  }

  // Leaf k starts at offset x, or is the last one and starts before it.
  predicate GoesOn(iptrs: seq<IndirectPtr>, k: nat, x: nat)
    requires k < |iptrs|
  {
    if k < |iptrs| - 1 then iptrs[k].off == x else iptrs[k].off <= x
  }

  // What one round of the write loop does, at offset x and up to offset x'.
  ghost predicate RoundDone(c: Cache, iptrs: seq<IndirectPtr>, c': Cache, iptrs': seq<IndirectPtr>, file: Ptr,
                            top: FileBlock, idx: nat, needed: bool, rblock: FileBlock, block: FileBlock,
                            x: nat, x': nat, more: bool)
  {
    && AtLeaf(iptrs, idx, x) && Prefix(iptrs, iptrs') && |iptrs'| == |iptrs| + (if needed then 1 else 0)
    && (needed ==> more && idx == |iptrs| - 1 && iptrs'[idx + 1].ptr == c.nextID)
    && (more ==> idx + 1 < |iptrs'| && GoesOn(iptrs', idx + 1, x'))
    && c' == Extended(c, file, top, needed, rblock).Put(iptrs'[idx].ptr, block)
  }

  lemma RoundIs(c: Cache, iptrs: seq<IndirectPtr>, c': Cache, iptrs': seq<IndirectPtr>, file: Ptr, top: FileBlock,
                idx: nat, needed: bool, rblock: FileBlock, block: FileBlock, x: nat, x': nat, more: bool)
    requires AtLeaf(iptrs, idx, x) && Prefix(iptrs, iptrs') && |iptrs'| == |iptrs| + (if needed then 1 else 0)
    requires needed == (more && idx == |iptrs| - 1)
    requires if needed then iptrs'[idx + 1].ptr == c.nextID && iptrs'[idx + 1].off <= x'
             else more ==> idx < |iptrs| - 1 && iptrs'[idx + 1].off == x'
    requires c' == Extended(c, file, top, needed, rblock).Put(iptrs'[idx].ptr, block)
    ensures RoundDone(c, iptrs, c', iptrs', file, top, idx, needed, rblock, block, x, x', more)
  {
  }

  lemma NextLeaf(iptrs: seq<IndirectPtr>, leaves: seq<Bytes>, k: nat, x: nat)
    requires Contiguous(iptrs, leaves) && k < |iptrs| && GoesOn(iptrs, k, x)
    ensures AtLeaf(iptrs, k, x)
  {
    ContiguousIncreasing(iptrs, leaves);
  }

  // What the write loop does to a multi-block file, from the cache and pointers it found: the
  // leaves from lo up to next, and their pointers.
  datatype Progress = Progress(cache: Cache, iptrs: seq<IndirectPtr>, lo: nat, next: nat, ptrs: seq<Ptr>)

  // The pointers stay, new leaves have new ones, exactly the leaves gone through are put in the
  // cache, and while there is more to write the next leaf may be a new one.
  ghost predicate Progressed(w: Progress, c: Cache, iptrs: seq<IndirectPtr>, file: Ptr, more: bool) {
    && w.cache.nextID <= c.nextID && Prefix(w.iptrs, iptrs)
    && (forall j :: |w.iptrs| <= j < |iptrs| ==> iptrs[j].ptr >= w.cache.nextID)
    && (|iptrs| > |w.iptrs| ==> |iptrs| <= w.next + if more then 1 else 0)
    && w.lo <= w.next <= |iptrs| && |w.ptrs| == w.next - w.lo
    && (forall j :: 0 <= j < |w.ptrs| ==> w.ptrs[j] == iptrs[w.lo + j].ptr)
    && Dirtied(w.cache, c, file, w.ptrs, if more && w.next < |iptrs| then [iptrs[w.next].ptr] else [])
  }

  predicate Prefix(iptrs: seq<IndirectPtr>, iptrs': seq<IndirectPtr>) {
    |iptrs| <= |iptrs'| && forall j :: 0 <= j < |iptrs| ==> iptrs'[j].ptr == iptrs[j].ptr
  }

  // Besides the file itself, the pointers ptrs became dirty, and perhaps some of maybe.
  ghost predicate Dirtied(c: Cache, c': Cache, file: Ptr, ptrs: seq<Ptr>, maybe: seq<Ptr>) {
    && (forall p: Ptr :: p in c.dirty && p != file && p !in ptrs ==> p in c'.dirty && c'.dirty[p] == c.dirty[p])
    && (forall p: Ptr :: p in ptrs ==> p in c'.dirty)
    && (forall p: Ptr :: p in c'.dirty ==> p in c.dirty || p == file || p in ptrs || p in maybe)
  }

  lemma NoProgress(c: Cache, iptrs: seq<IndirectPtr>, file: Ptr, lo: nat)
    requires lo <= |iptrs|
    ensures Progressed(Progress(c, iptrs, lo, lo, []), c, iptrs, file, true)
  {
  }

  function Through(w: Progress, ptr: Ptr): Progress {
    w.(next := w.next + 1, ptrs := w.ptrs + [ptr])
  }

  // One round of the write loop, through the next leaf.
  lemma ProgressRound(w: Progress, c: Cache, iptrs: seq<IndirectPtr>, file: Ptr, top: FileBlock, needed: bool,
                      rblock: FileBlock, block: FileBlock, iptrs': seq<IndirectPtr>)
    requires Progressed(w, c, iptrs, file, true) && w.next < |iptrs|
    requires (forall p: Ptr :: p in c.dirty ==> p < c.nextID) && forall j :: 0 <= j < |iptrs| ==> iptrs[j].ptr != file
    requires Prefix(iptrs, iptrs') && |iptrs'| == |iptrs| + (if needed then 1 else 0)
    requires needed ==> iptrs'[|iptrs|].ptr == c.nextID && w.next == |iptrs| - 1
    ensures var ptr := iptrs[w.next].ptr;
      Progressed(Through(w, ptr), Extended(c, file, top, needed, rblock).Put(ptr, block), iptrs', file, needed)
  {
    hide Dirtied, Extended;
    var ptr := iptrs[w.next].ptr;
    var c', maybe := Extended(c, file, top, needed, rblock).Put(ptr, block), if needed then [c.nextID] else [];
    RoundDirtied(c, file, top, needed, rblock, ptr, block);
    DirtiedAgain(w.cache, c, c', file, w.ptrs, ptr, maybe);
    RoundNextID(c, file, top, needed, rblock, ptr, block);
  }

  lemma RoundNextID(c: Cache, file: Ptr, top: FileBlock, needed: bool, rblock: FileBlock, ptr: Ptr, block: FileBlock)
    ensures c.nextID <= Extended(c, file, top, needed, rblock).Put(ptr, block).nextID
  {
  }

  lemma RoundDirtied(c: Cache, file: Ptr, top: FileBlock, needed: bool, rblock: FileBlock, ptr: Ptr, block: FileBlock)
    requires forall p: Ptr :: p in c.dirty ==> p < c.nextID
    ensures var maybe := if needed then [c.nextID] else [];
      Dirtied(c, Extended(c, file, top, needed, rblock).Put(ptr, block), file, [ptr], maybe)
  {
  }

  lemma DirtiedAgain(c: Cache, c': Cache, c'': Cache, file: Ptr, ptrs: seq<Ptr>, ptr: Ptr, maybe: seq<Ptr>)
    requires Dirtied(c, c', file, ptrs, [ptr]) && Dirtied(c', c'', file, [ptr], maybe) && file !in ptrs
    ensures Dirtied(c, c'', file, ptrs + [ptr], maybe)
  {
  }

  lemma ProgressMore(w: Progress, c: Cache, iptrs: seq<IndirectPtr>, file: Ptr, needed: bool, more: bool)
    requires Progressed(w, c, iptrs, file, needed) && (needed ==> more)
    ensures Progressed(w, c, iptrs, file, more)
  {
  }

  // The pointers of a file's leaves are in use, and none is the file's own.
  lemma PtrsApart(c: Cache, m: Marks, file: Ptr, top: FileBlock, iptrs: seq<IndirectPtr>, objs: seq<FileBlock>, k: int)
    requires CacheOk(c, m) && Linked(c, m, file, top, iptrs, objs, k)
    ensures (forall p: Ptr :: p in c.dirty ==> p < c.nextID) && forall j :: 0 <= j < |iptrs| ==> iptrs[j].ptr != file
  {
  }

  // How the write loop keeps track: from the start on a multi-block file, and otherwise from when the
  // only block became the first of two leaves.
  ghost predicate Tracked(c: Cache, iptrs: seq<IndirectPtr>, was: bool, w: Progress, dirtyPtrs: seq<Ptr>, file: Ptr) {
    if was then w.cache == c && w.iptrs == iptrs && w.ptrs == dirtyPtrs
    else
      && w.lo == 1 && |w.iptrs| == 2 && dirtyPtrs == [w.iptrs[0].ptr] + w.ptrs
      && w.iptrs[0].ptr >= c.nextID && w.iptrs[1].ptr >= c.nextID && w.cache.nextID >= c.nextID
      && forall p: Ptr :: p in w.cache.dirty ==>
        p in c.dirty || p == file || p == w.iptrs[0].ptr || p == w.iptrs[1].ptr
  }

  lemma TrackedFrom(c: Cache, iptrs: seq<IndirectPtr>, w: Progress, dirtyPtrs: seq<Ptr>, file: Ptr)
    requires Tracked(c, iptrs, true, w, dirtyPtrs, file)
    ensures w.cache == c && w.iptrs == iptrs && w.ptrs == dirtyPtrs
  {
  }

  lemma TrackedNext(c: Cache, iptrs: seq<IndirectPtr>, was: bool, w: Progress, dirtyPtrs: seq<Ptr>, file: Ptr, ptr: Ptr)
    requires Tracked(c, iptrs, was, w, dirtyPtrs, file)
    ensures Tracked(c, iptrs, was, Through(w, ptr), dirtyPtrs + [ptr], file)
  {
  }

  lemma LeafFor(iptrs: seq<IndirectPtr>, leaves: seq<Bytes>, x: nat) returns (k: nat)
    requires Contiguous(iptrs, leaves) && iptrs != []
    ensures AtLeaf(iptrs, k, x)
  {
    ContiguousIncreasing(iptrs, leaves);
    k := |iptrs| - 1;
    while iptrs[k].off > x
      invariant k < |iptrs| && (k < |iptrs| - 1 ==> x < iptrs[k + 1].off)
    {
      k := k - 1;
    }
  }

  lemma AllReported(c: Cache, iptrs: seq<IndirectPtr>, was: bool, w: Progress, dirtyPtrs: seq<Ptr>, file: Ptr,
                    c': Cache, iptrs': seq<IndirectPtr>)
    requires Tracked(c, iptrs, was, w, dirtyPtrs, file) && Progressed(w, c', iptrs', file, false) && w.lo < w.next
    ensures forall p: Ptr :: p in c'.dirty ==> p in c.dirty || p == file || p in dirtyPtrs
    ensures !was ==> forall p :: p in dirtyPtrs ==> p >= c.nextID
    ensures was ==> forall p :: p in dirtyPtrs ==> p >= c.nextID || exists i :: 0 <= i < |iptrs| && iptrs[i].ptr == p
  {
    if !was { assert w.ptrs[0] == iptrs'[1].ptr; }
    forall p | was && p in dirtyPtrs && p < c.nextID ensures exists i :: 0 <= i < |iptrs| && iptrs[i].ptr == p {
      var j :| 0 <= j < |w.ptrs| && w.ptrs[j] == p;
      assert iptrs'[w.lo + j].ptr == p && iptrs[w.lo + j].ptr == p;
    }
  }

  // Unless the file got shorter, what became dirty is reported. What became dirty was known before, or, unless
  // the file got shorter, is new.
  ghost predicate Reports(c: Cache, c': Cache, file: Ptr, shorter: bool, reported: seq<Ptr>) {
    && (!shorter ==> forall p: Ptr :: p in c'.dirty ==> p in c.dirty || p in reported)
    && forall p: Ptr :: p in c'.dirty ==> c.Known(p) || p == file || (!shorter && p >= c.nextID)
  }

  // Nothing is reported but the file's own pointer and new ones.
  ghost predicate OwnOrNew(c: Cache, file: Ptr, reported: seq<Ptr>) {
    forall p :: p in reported ==> p == file || p >= c.nextID
  }

  lemma NothingReported(c: Cache, file: Ptr, shorter: bool)
    ensures Reports(c, c, file, shorter, []) && OwnOrNew(c, file, [])
  {
  }

  // Only the file's own pointer became dirty.
  lemma OwnReported(c: Cache, c': Cache, file: Ptr)
    requires forall p: Ptr :: p in c'.dirty ==> p in c.dirty || p == file
    ensures Reports(c, c', file, true, []) && Reports(c, c', file, false, [file])
    ensures OwnOrNew(c, file, [file])
  {
  }

  ghost predicate KnowsAll(c: Cache, iptrs: seq<IndirectPtr>) {
    forall i :: 0 <= i < |iptrs| ==> c.Known(iptrs[i].ptr)
  }

  lemma LinkedKnown(c: Cache, m: Marks, file: Ptr, top: FileBlock, iptrs: seq<IndirectPtr>, objs: seq<FileBlock>)
    requires Linked(c, m, file, top, iptrs, objs, -1)
    ensures KnowsAll(c, iptrs)
  {
  }

  // A write that left the file with several blocks reports all it put, and the top block.
  lemma WriteReports(c: Cache, iptrs: seq<IndirectPtr>, was: bool, w: Progress, dirtyPtrs: seq<Ptr>, file: Ptr,
                     c': Cache, iptrs': seq<IndirectPtr>, top: FileBlock)
    requires Tracked(c, iptrs, was, w, dirtyPtrs, file) && Progressed(w, c', iptrs', file, false) && w.lo < w.next
    requires was ==> KnowsAll(c, iptrs)
    ensures Reports(c, c'.Put(file, top), file, false, dirtyPtrs + [file])
    ensures !was ==> OwnOrNew(c, file, dirtyPtrs + [file])
  {
    hide Tracked, Progressed;
    AllReported(c, iptrs, was, w, dirtyPtrs, file, c', iptrs');
    forall p: Ptr | p in c'.Put(file, top).dirty ensures p in c'.dirty || p == file {
    }
  }

  // Whatever is dirty was before, or shadows a clean block, or is to be deleted.
  ghost predicate Accounted(c: Cache, deletes: seq<Ptr>, before: set<Ptr>) {
    forall p: Ptr :: p in c.dirty ==> p in before || p in c.clean || p in deletes
  }

  // Whatever is dirty was before, or shadows a clean block, or has a pointer from `base` on.
  ghost predicate NoneLeft(c: Cache, before: set<Ptr>, base: Ptr) {
    forall p: Ptr :: p in c.dirty ==> p in before || p in c.clean || p >= base
  }

  lemma AccountedNext(c: Cache, c': Cache, file: Ptr, shorter: bool, reported: seq<Ptr>, deletes: seq<Ptr>,
                      deletes': seq<Ptr>, before: set<Ptr>)
    requires Reports(c, c', file, shorter, reported) && c'.clean == c.clean && file in before
    requires deletes' == deletes + reported || (c' == c && deletes' == deletes)
    ensures Accounted(c, deletes, before) ==> Accounted(c', deletes', before)
  {
  }

  lemma NoneLeftNext(c: Cache, c': Cache, file: Ptr, shorter: bool, reported: seq<Ptr>, before: set<Ptr>, base: Ptr)
    requires Reports(c, c', file, shorter, reported) && c'.clean == c.clean && base <= file && base <= c.nextID
    ensures NoneLeft(c, before, base) ==> NoneLeft(c', before, base)
  {
  }

  lemma DirtyBelow(c: Cache, m: Marks, file: Ptr)
    requires CacheOk(c, m) && c.nextID == file + 1 && file !in c.dirty
    ensures forall p: Ptr :: p in c.dirty ==> p < file
  {
  }

  lemma FinishedNext(c: Cache, top: FileBlock, oldPtrs: seq<Ptr>, deletes: seq<Ptr>)
    ensures Finished(c, c.nextID, top, oldPtrs, deletes).nextID == c.nextID + 1
  {
  }

  // Once what is to be deleted is, nothing new is left.
  lemma FinishedNone(c: Cache, top: FileBlock, oldPtrs: seq<Ptr>, deletes: seq<Ptr>, before: set<Ptr>)
    requires Accounted(c, deletes, before)
    ensures NoneLeft(Finished(c, c.nextID, top, oldPtrs, deletes), before, c.nextID)
  {
  }

  // A cut makes a leaf dirty that the file has, and its own pointer.
  lemma CutReports(k: nat, c: Cache, iptrs: seq<IndirectPtr>, c': Cache, iptrs': seq<IndirectPtr>, file: Ptr,
                   reported: seq<Ptr>)
    requires Effect(Cut(k), c, iptrs, c', iptrs', file, reported)
    requires forall i :: 0 <= i < |iptrs| ==> c.Known(iptrs[i].ptr)
    ensures Reports(c, c', file, true, reported)
  {
  }

  function Ptrs(iptrs: seq<IndirectPtr>, lo: nat, hi: nat): seq<Ptr>
    requires lo <= hi <= |iptrs|
  {
    seq<Ptr>(hi - lo, i requires 0 <= i < hi - lo => iptrs[lo + i].ptr)
  }

  // What an operation does to the pointers of a multi-block file, and which ones it reports.
  ghost predicate Effect(reach: Reach, c: Cache, iptrs: seq<IndirectPtr>, c': Cache, iptrs': seq<IndirectPtr>,
                         file: Ptr, reported: seq<Ptr>)
  {
    match reach
    case Nowhere =>
      && Dirtied(c, c', file, [], []) && Prefix(iptrs, iptrs') && |iptrs'| == |iptrs|
      && forall p :: p in reported ==> p == file
    case Leaves(lo, hi) =>
      && 0 <= lo < hi && Prefix(iptrs, iptrs') && |iptrs'| == Max(|iptrs|, hi)
      && (forall j :: |iptrs| <= j < |iptrs'| ==> iptrs'[j].ptr >= c.nextID)
      && Dirtied(c, c', file, Ptrs(iptrs', lo, hi), []) && reported == Ptrs(iptrs', lo, hi) + [file]
    case Cut(k) =>
      && 0 <= k < |iptrs| && |iptrs'| == k + 1 && Prefix(iptrs', iptrs)
      && Dirtied(c, c', file, [iptrs[k].ptr], []) && reported == []
  }

  lemma WroteLeaves(w: Progress, c': Cache, iptrs': seq<IndirectPtr>, file: Ptr)
    requires Progressed(w, c', iptrs', file, false) && w.lo < w.next
    ensures Effect(Leaves(w.lo, w.next), w.cache, w.iptrs, c', iptrs', file, w.ptrs + [file])
  {
    assert w.ptrs == Ptrs(iptrs', w.lo, w.next);
  }

  lemma NoEffect(c: Cache, iptrs: seq<IndirectPtr>, file: Ptr)
    ensures Effect(Nowhere, c, iptrs, c, iptrs, file, [])
  {
  }

  lemma EffectNone(c: Cache, iptrs: seq<IndirectPtr>, file: Ptr, top: FileBlock)
    ensures Effect(Nowhere, c, iptrs, c.Put(file, top), iptrs, file, [file])
  {
  }

  lemma CutEffect(c: Cache, iptrs: seq<IndirectPtr>, iptrs': seq<IndirectPtr>, file: Ptr, k: nat, block: FileBlock,
                  top: FileBlock)
    requires k < |iptrs| && |iptrs'| == k + 1 && Prefix(iptrs', iptrs)
    ensures Effect(Cut(k), c, iptrs, c.Put(iptrs[k].ptr, block).Put(file, top), iptrs', file, [])
  {
  }

  lemma CutSilent(reach: Reach, c: Cache, iptrs: seq<IndirectPtr>, c': Cache, iptrs': seq<IndirectPtr>, file: Ptr,
                  reported: seq<Ptr>)
    requires Effect(reach, c, iptrs, c', iptrs', file, reported)
    ensures reach.Cut? ==> reported == []
  {
  }

  // Putting the top block afterwards changes nothing of that.
  lemma EffectTop(reach: Reach, c: Cache, iptrs: seq<IndirectPtr>, c': Cache, iptrs': seq<IndirectPtr>, file: Ptr,
                  reported: seq<Ptr>, top: FileBlock)
    requires Effect(reach, c, iptrs, c', iptrs', file, reported)
    ensures Effect(reach, c, iptrs, c'.Put(file, top), iptrs', file, reported)
  {
  }

  // The captured pointers iptrs0 of a file whose pointers now are iptrs: those kept are the same, all
  // others are new; the ones recorded are to be deleted; the ones recorded or cut are dirty.
  ghost predicate OnTrail(t: Trail, c: Cache, iptrs: seq<IndirectPtr>, iptrs0: seq<IndirectPtr>, file: Ptr,
                          deletes: seq<Ptr>, base: Ptr)
  {
    && 0 <= t.kept <= |iptrs| && t.kept <= |iptrs0| && base <= c.nextID
    && (forall j :: 0 <= j < t.kept ==> iptrs[j].ptr == iptrs0[j].ptr)
    && (forall j :: t.kept <= j < |iptrs| ==> iptrs[j].ptr >= base)
    && (forall j :: 0 <= j < |iptrs0| ==> iptrs0[j].ptr < base && iptrs0[j].ptr != file)
    && (forall i, j :: 0 <= i < j < |iptrs0| ==> iptrs0[i].ptr != iptrs0[j].ptr)
    && (forall j :: j in t.recorded || j in t.cut ==> 0 <= j < |iptrs0|)
    && (forall j :: 0 <= j < |iptrs0| ==> (iptrs0[j].ptr in deletes <==> j in t.recorded))
    && forall j :: 0 <= j < |iptrs0| ==> (iptrs0[j].ptr in c.dirty <==> j in t.recorded || j in t.cut)
  }

  lemma ApartClean(c: Cache, m: Marks, top: FileBlock, iptrs: seq<IndirectPtr>, objs: seq<FileBlock>)
    requires AllClean(c, m, top, iptrs, objs)
    ensures forall i, j :: 0 <= i < j < |iptrs| ==> iptrs[i].ptr != iptrs[j].ptr
    ensures |objs| == |iptrs| && forall j :: 0 <= j < |iptrs| ==> iptrs[j].ptr < c.nextID
  {
  }

  lemma TrailStart(c: Cache, iptrs: seq<IndirectPtr>, file: Ptr, base: Ptr)
    requires base == c.nextID && forall j :: 0 <= j < |iptrs| ==> iptrs[j].ptr < base && iptrs[j].ptr != file
    requires forall i, j :: 0 <= i < j < |iptrs| ==> iptrs[i].ptr != iptrs[j].ptr
    requires forall j :: 0 <= j < |iptrs| ==> iptrs[j].ptr !in c.dirty
    ensures OnTrail(Trail(|iptrs|, {}, {}), c, iptrs, iptrs, file, [], base)
  {
  }

  // Of the captured pointers, a write reports exactly those of the leaves it goes to.
  lemma ReportedCaptured(t: Trail, iptrs: seq<IndirectPtr>, iptrs0: seq<IndirectPtr>, c: Cache, file: Ptr,
                         deletes: seq<Ptr>, base: Ptr, lo: nat, hi: nat, iptrs': seq<IndirectPtr>, j: nat)
    requires OnTrail(t, c, iptrs, iptrs0, file, deletes, base) && j < |iptrs0| && lo <= hi <= |iptrs'|
    requires Prefix(iptrs, iptrs') && forall i :: |iptrs| <= i < |iptrs'| ==> iptrs'[i].ptr >= base
    ensures iptrs0[j].ptr in Ptrs(iptrs', lo, hi) <==> lo <= j < hi && j < t.kept
  {
    var ps := Ptrs(iptrs', lo, hi);
    if iptrs0[j].ptr in ps {
      var i :| 0 <= i < |ps| && ps[i] == iptrs0[j].ptr;
      assert iptrs'[lo + i].ptr == iptrs0[j].ptr;
    }
    if lo <= j < hi && j < t.kept {
      assert ps[j - lo] == iptrs'[j].ptr;
    }
  }

  lemma TrailWrite(t: Trail, lo: int, hi: int, c: Cache, iptrs: seq<IndirectPtr>, c': Cache, iptrs': seq<IndirectPtr>,
                   iptrs0: seq<IndirectPtr>, file: Ptr, deletes: seq<Ptr>, reported: seq<Ptr>, base: Ptr)
    requires OnTrail(t, c, iptrs, iptrs0, file, deletes, base) && c.nextID <= c'.nextID
    requires Effect(Leaves(lo, hi), c, iptrs, c', iptrs', file, reported)
    ensures OnTrail(Follow(t, Leaves(lo, hi)), c', iptrs', iptrs0, file, deletes + reported, base)
  {
    hide Ptrs, Dirtied;
    forall j | 0 <= j < |iptrs0|
      ensures iptrs0[j].ptr in Ptrs(iptrs', lo, hi) <==> lo <= j < hi && j < t.kept
      ensures iptrs0[j].ptr in c'.dirty <==> iptrs0[j].ptr in c.dirty || iptrs0[j].ptr in Ptrs(iptrs', lo, hi)
    {
      ReportedCaptured(t, iptrs, iptrs0, c, file, deletes, base, lo, hi, iptrs', j);
      DirtyAfter(c, c', file, Ptrs(iptrs', lo, hi), iptrs0[j].ptr);
    }
  }

  lemma TrailCut(t: Trail, k: int, c: Cache, iptrs: seq<IndirectPtr>, c': Cache, iptrs': seq<IndirectPtr>,
                 iptrs0: seq<IndirectPtr>, file: Ptr, deletes: seq<Ptr>, reported: seq<Ptr>, base: Ptr)
    requires OnTrail(t, c, iptrs, iptrs0, file, deletes, base) && c.nextID <= c'.nextID
    requires Effect(Cut(k), c, iptrs, c', iptrs', file, reported)
    ensures OnTrail(Follow(t, Cut(k)), c', iptrs', iptrs0, file, deletes + reported, base)
  {
    hide Dirtied;
    forall j | 0 <= j < |iptrs0|
      ensures iptrs0[j].ptr in c'.dirty <==> iptrs0[j].ptr in c.dirty || (j == k && k < t.kept)
    {
      DirtyAfter(c, c', file, [iptrs[k].ptr], iptrs0[j].ptr);
      CapturedAt(t, c, iptrs, iptrs0, file, deletes, base, j, k);
    }
    assert deletes + reported == deletes;
  }

  lemma CapturedAt(t: Trail, c: Cache, iptrs: seq<IndirectPtr>, iptrs0: seq<IndirectPtr>, file: Ptr, deletes: seq<Ptr>,
                   base: Ptr, j: nat, k: nat)
    requires OnTrail(t, c, iptrs, iptrs0, file, deletes, base) && j < |iptrs0| && k < |iptrs|
    ensures iptrs0[j].ptr == iptrs[k].ptr <==> j == k && k < t.kept
  {
  }

  lemma DirtyAfter(c: Cache, c': Cache, file: Ptr, ptrs: seq<Ptr>, p: Ptr)
    requires Dirtied(c, c', file, ptrs, []) && p != file
    ensures p in c'.dirty <==> p in c.dirty || p in ptrs
    ensures p in c.dirty && p !in ptrs ==> c'.dirty[p] == c.dirty[p]
  {
  }

  lemma TrailNext(t: Trail, reach: Reach, c: Cache, iptrs: seq<IndirectPtr>, c': Cache, iptrs': seq<IndirectPtr>,
                  iptrs0: seq<IndirectPtr>, file: Ptr, deletes: seq<Ptr>, reported: seq<Ptr>, base: Ptr)
    requires OnTrail(t, c, iptrs, iptrs0, file, deletes, base) && Effect(reach, c, iptrs, c', iptrs', file, reported)
    requires c.nextID <= c'.nextID
    ensures OnTrail(Follow(t, reach), c', iptrs', iptrs0, file, deletes + reported, base)
    ensures |iptrs'| == CountAfter(|iptrs|, reach)
  {
    match reach
    case Nowhere =>
    case Cut(k) => hide OnTrail; TrailCut(t, k, c, iptrs, c', iptrs', iptrs0, file, deletes, reported, base);
    case Leaves(lo, hi) =>
      hide OnTrail;
      TrailWrite(t, lo, hi, c, iptrs, c', iptrs', iptrs0, file, deletes, reported, base);
  }

  // The same for an operation that may not have been queued.
  lemma TrailStep(t: Trail, reach: Reach, c: Cache, iptrs: seq<IndirectPtr>, c': Cache, iptrs': seq<IndirectPtr>,
                  iptrs0: seq<IndirectPtr>, file: Ptr, deletes: seq<Ptr>, reported: seq<Ptr>, queued: bool, base: Ptr)
    requires OnTrail(t, c, iptrs, iptrs0, file, deletes, base) && Effect(reach, c, iptrs, c', iptrs', file, reported)
    requires c.nextID <= c'.nextID && (reach != Nowhere ==> queued)
    ensures OnTrail(Follow(t, reach), c', iptrs', iptrs0, file, deletes + if queued then reported else [], base)
    ensures |iptrs'| == CountAfter(|iptrs|, reach) && t.kept <= |iptrs|
  {
    TrailNext(t, reach, c, iptrs, c', iptrs', iptrs0, file, deletes, reported, base);
    if !queued { assert deletes + [] == deletes; }
  }

  // A captured leaf that was cut and is not the file's any more has the dirty block it had.
  lemma SameBlock(t: Trail, reach: Reach, c: Cache, iptrs: seq<IndirectPtr>, c': Cache, iptrs': seq<IndirectPtr>,
                  iptrs0: seq<IndirectPtr>, file: Ptr, deletes: seq<Ptr>, reported: seq<Ptr>, base: Ptr, j: nat)
    requires OnTrail(t, c, iptrs, iptrs0, file, deletes, base) && Effect(reach, c, iptrs, c', iptrs', file, reported)
    requires j < |iptrs0| && Follow(t, reach).kept <= j && j in Follow(t, reach).cut && j !in Follow(t, reach).recorded
    ensures j in t.cut && j !in t.recorded && iptrs0[j].ptr in c.dirty
    ensures iptrs0[j].ptr in c'.dirty && c'.dirty[iptrs0[j].ptr] == c.dirty[iptrs0[j].ptr]
    ensures j < t.kept ==> reach.Cut? && reach.k < j && |iptrs'| == reach.k + 1
  {
    hide Dirtied, Ptrs;
    var p := iptrs0[j].ptr;
    match reach
    case Nowhere => DirtyAfter(c, c', file, [], p);
    case Cut(k) =>
      CapturedAt(t, c, iptrs, iptrs0, file, deletes, base, j, k);
      DirtyAfter(c, c', file, [iptrs[k].ptr], p);
    case Leaves(lo, hi) =>
      ReportedCaptured(t, iptrs, iptrs0, c, file, deletes, base, lo, hi, iptrs', j);
      DirtyAfter(c, c', file, Ptrs(iptrs', lo, hi), p);
  }

  // The leaf an offset is looked for in is unique.
  lemma LeafUnique(iptrs: seq<IndirectPtr>, leaves: seq<Bytes>, k: nat, l: nat, x: nat)
    requires Contiguous(iptrs, leaves) && AtLeaf(iptrs, k, x) && AtLeaf(iptrs, l, x)
    ensures k == l
  {
    ContiguousIncreasing(iptrs, leaves);
  }

  // A new block for a leaf at the right end, and the top block put in the cache.
  lemma LinkNewRight(c: Cache, m: Marks, file: Ptr, top: FileBlock, iptrs: seq<IndirectPtr>, objs: seq<FileBlock>,
                     k: int, b: FileBlock, off: nat)
    requires CacheOk(c, m) && Owned(c, m, file, top)
    requires b !in m.frozen && b !in m.repr && b != top && b !in objs
    requires Linked(c, m, file, top, iptrs, objs, k) && k < |iptrs|
    ensures var c', m' := c.PutNew(b).Put(file, top), m.(repr := m.repr + {top} + {b});
            && CacheOk(c', m') && Owned(c', m', file, top)
            && Linked(c', m', file, top, iptrs + [IndirectPtr(c.nextID, 0, off)], objs + [b], k)
  {
    var c1, m1 := c.PutNew(b), m.(repr := m.repr + {b});
    CacheNew(c, m, b);
    OwnedNew(c, m, b, file, top);
    LinkNew(c, m, file, top, iptrs, objs, k, b, off);
    CachePut(c1, m1, file, top);
    LinkPutTop(c1, m1, file, top, iptrs + [IndirectPtr(c.nextID, 0, off)], objs + [b], k);
    assert m1.(repr := m1.repr + {top}) == m.(repr := m.repr + {top} + {b});
  }

  // The cache once a direct block has become the first leaf of a new top block.
  function Converted(c: Cache, file: Ptr, top: FileBlock, newTop: FileBlock, rblock: FileBlock): Cache {
    c.(dirty := c.dirty[file := newTop], nextID := c.nextID + 1).PutNew(rblock).Put(file, newTop).Put(c.nextID, top)
  }

  function ConvertedMarks(m: Marks, top: FileBlock, newTop: FileBlock, rblock: FileBlock): Marks {
    m.(repr := m.repr + {newTop} + {rblock} + {top})
  }

  // The dirty top block of a file replaced by another block, which no sync has captured.
  function Retopped(c: Cache, file: Ptr, newTop: FileBlock): Cache {
    c.(dirty := c.dirty[file := newTop],
       states := if c.StateOf(file) == SyncingNotDirty then c.states[file := SyncingAndDirty] else c.states)
  }

  lemma ConvertedForm(c: Cache, m: Marks, file: Ptr, top: FileBlock, newTop: FileBlock, rblock: FileBlock)
    requires CacheOk(c, m) && file < c.nextID
    ensures Converted(c, file, top, newTop, rblock) == Retopped(c, file, newTop).PutNew(top).PutNew(rblock)
  {
    assert c.nextID !in c.dirty;
    ConvertedAs(c, file, top, newTop, rblock);
  }

  lemma ConvertedAs(c: Cache, file: Ptr, top: FileBlock, newTop: FileBlock, rblock: FileBlock)
    requires file < c.nextID && c.nextID !in c.dirty
    ensures Converted(c, file, top, newTop, rblock) == Retopped(c, file, newTop).PutNew(top).PutNew(rblock)
  {
    hide Cache.Put, Cache.StateOf;
    var c1 := c.(dirty := c.dirty[file := newTop], nextID := c.nextID + 1).PutNew(rblock);
    PutAgain(c1, file);
    SameStates(c, c1, file);
    PutFirst(c1.Put(file, newTop), c.nextID, top);
    TwoKeys(c.dirty[file := newTop], c.nextID, top, c.nextID + 1, rblock);
  }

  lemma PutAgain(c: Cache, p: Ptr)
    requires p in c.dirty
    ensures c.Put(p, c.dirty[p]) ==
      c.(states := if c.StateOf(p) == SyncingNotDirty then c.states[p := SyncingAndDirty] else c.states)
  {
    assert c.dirty[p := c.dirty[p]] == c.dirty;
  }

  lemma PutFirst(c: Cache, p: Ptr, b: FileBlock)
    requires p !in c.dirty
    ensures c.Put(p, b) == c.(dirty := c.dirty[p := b])
  {
  }

  lemma SameStates(c: Cache, c': Cache, p: Ptr)
    requires c.states == c'.states
    ensures c.StateOf(p) == c'.StateOf(p)
  {
  }

  lemma TwoKeys(m: map<Ptr, FileBlock>, p: Ptr, a: FileBlock, q: Ptr, b: FileBlock)
    requires p != q
    ensures m[p := a][q := b] == m[q := b][p := a]
  {
  }

  lemma RetopOk(c: Cache, m: Marks, file: Ptr, top: FileBlock, newTop: FileBlock)
    requires CacheOk(c, m) && Owned(c, m, file, top)
    requires newTop !in m.frozen && newTop !in m.repr && newTop != top
    ensures var c', m' := Retopped(c, file, newTop), m.(repr := m.repr + {newTop});
            && CacheOk(c', m') && Owned(c', m', file, newTop)
            && forall p: Ptr :: p in c'.dirty ==> c'.dirty[p] != top
  {
  }

  lemma TwoNew(c: Cache, m: Marks, file: Ptr, newTop: FileBlock, top: FileBlock, rblock: FileBlock)
    requires CacheOk(c, m) && Owned(c, m, file, newTop)
    requires top !in m.frozen && (forall p: Ptr :: p in c.dirty ==> c.dirty[p] != top)
    requires rblock !in m.frozen && rblock !in m.repr && rblock != top && top != newTop && rblock != newTop
    ensures var c', m' := c.PutNew(top).PutNew(rblock), m.(repr := m.repr + {top} + {rblock});
            CacheOk(c', m') && Owned(c', m', file, newTop)
  {
    CacheNew(c, m, top);
    OwnedNew(c, m, top, file, newTop);
    CacheNew(c.PutNew(top), m.(repr := m.repr + {top}), rblock);
    OwnedNew(c.PutNew(top), m.(repr := m.repr + {top}), rblock, file, newTop);
  }

  lemma LinkConvert(c: Cache, m: Marks, file: Ptr, top: FileBlock, newTop: FileBlock, rblock: FileBlock, off: nat)
    requires CacheOk(c, m) && Owned(c, m, file, top)
    requires newTop !in m.frozen && newTop !in m.repr && rblock !in m.frozen && rblock !in m.repr
    requires newTop != rblock && newTop != top && rblock != top
    ensures var c', m' := Converted(c, file, top, newTop, rblock), ConvertedMarks(m, top, newTop, rblock);
            && CacheOk(c', m') && Owned(c', m', file, newTop)
            && Linked(c', m', file, newTop, [IndirectPtr(c.nextID, 0, 0), IndirectPtr(c.nextID + 1, 0, off)],
                      [top, rblock], -1)
  {
    assert file < c.nextID && top !in m.frozen;
    var c', m' := Converted(c, file, top, newTop, rblock), ConvertedMarks(m, top, newTop, rblock);
    ConvertedForm(c, m, file, top, newTop, rblock);
    assert Linked(c', m', file, newTop, [IndirectPtr(c.nextID, 0, 0), IndirectPtr(c.nextID + 1, 0, off)],
                  [top, rblock], -1) by {
      hide CacheOk, Owned;
    }
    assert CacheOk(c', m') && Owned(c', m', file, newTop) by {
      assert m'.repr == m.repr + {newTop} + {top} + {rblock};
      hide CacheOk, Owned, Linked, Converted;
      RetopOk(c, m, file, top, newTop);
      TwoNew(Retopped(c, file, newTop), m.(repr := m.repr + {newTop}), file, newTop, top, rblock);
    }
  }

  lemma ConvertGrows(c: Cache, m: Marks, file: Ptr, top: FileBlock, newTop: FileBlock, rblock: FileBlock)
    requires CacheOk(c, m) && file < c.nextID
    ensures Grows(c, m, Converted(c, file, top, newTop, rblock), ConvertedMarks(m, top, newTop, rblock))
    ensures forall p: Ptr :: p in Converted(c, file, top, newTop, rblock).dirty ==>
              p in c.dirty || p == file || p == c.nextID || p == c.nextID + 1
  {
    ConvertedForm(c, m, file, top, newTop, rblock);
  }

  // Dropping the leaves after leaf k.
  lemma LinkCut(c: Cache, m: Marks, file: Ptr, top: FileBlock, iptrs: seq<IndirectPtr>, objs: seq<FileBlock>, k: nat)
    requires Linked(c, m, file, top, iptrs, objs, k) && k < |iptrs|
    ensures Linked(c, m, file, top, iptrs[..k + 1], objs[..k + 1], k)
  {
  }

  lemma LinkKnown(c: Cache, m: Marks, file: Ptr, top: FileBlock, iptrs: seq<IndirectPtr>, objs: seq<FileBlock>, k: nat)
    requires CacheOk(c, m) && Linked(c, m, file, top, iptrs, objs, -1) && k < |iptrs|
    ensures |objs| == |iptrs| && c.Known(iptrs[k].ptr) && objs[k] == c.Obj(iptrs[k].ptr)
    ensures objs[k] in m.repr || objs[k] in m.frozen
    ensures objs[k] != top
  {
  }

  // Leaf k opened for writing through `b`.
  lemma LinkOpen(c: Cache, m: Marks, file: Ptr, top: FileBlock, iptrs: seq<IndirectPtr>, objs: seq<FileBlock>,
                 k: nat, b: FileBlock)
    requires Linked(c, m, file, top, iptrs, objs, -1) && k < |iptrs|
    requires Owned(c, m, iptrs[k].ptr, b) && b != top
    ensures Linked(c, m, file, top, iptrs, objs[k := b], k)
  {
  }

  // The block a leaf is written through is no other leaf's block.
  lemma LinkDistinct(c: Cache, m: Marks, file: Ptr, top: FileBlock, iptrs: seq<IndirectPtr>, objs: seq<FileBlock>,
                     k: nat)
    requires CacheOk(c, m) && Linked(c, m, file, top, iptrs, objs, k) && k < |iptrs|
    ensures forall i :: 0 <= i < |objs| && i != k ==> objs[i] != objs[k]
  {
  }

  // startSyncWriteLocked readies dirty leaf i: its block is cached clean under the new
  // pointer and is now in the hands of the sync.
  function Readied(c: Cache, p: Ptr, b: FileBlock): Cache {
    c.(clean := c.clean[c.nextID := b], states := c.states[p := SyncingNotDirty], nextID := c.nextID + 1)
  }

  function Captured(m: Marks, b: FileBlock): Marks {
    m.(captured := m.captured + {b}, frozen := m.frozen + {b})
  }

  lemma ReadyOk(c: Cache, m: Marks, file: Ptr, top: FileBlock, p: Ptr)
    requires CacheOk(c, m) && Owned(c, m, file, top)
    requires p in c.dirty && c.dirty[p] != top && p != file && c.StateOf(p) == NotBeingSynced
    ensures CacheOk(Readied(c, p, c.dirty[p]), Captured(m, c.dirty[p]))
    ensures Owned(Readied(c, p, c.dirty[p]), Captured(m, c.dirty[p]), file, top)
  {
  }

  lemma ReadyLinked(c: Cache, m: Marks, file: Ptr, top: FileBlock, iptrs: seq<IndirectPtr>, objs: seq<FileBlock>,
                    i: nat, enc: nat)
    requires CacheOk(c, m) && Owned(c, m, file, top) && Linked(c, m, file, top, iptrs, objs, -1)
    requires i < |iptrs| && iptrs[i].ptr in c.dirty
    ensures Linked(Readied(c, iptrs[i].ptr, objs[i]), Captured(m, objs[i]), file, top,
                   iptrs[i := IndirectPtr(c.nextID, enc, iptrs[i].off)], objs, -1)
  {
  }

  // The top block goes to the sync as well.
  lemma ReadyTop(c: Cache, m: Marks, file: Ptr, top: FileBlock)
    requires CacheOk(c, m) && file in c.dirty && c.dirty[file] == top
    ensures CacheOk(c.(states := c.states[file := SyncingNotDirty]), Captured(m, top))
  {
  }

  lemma LinkReadyTop(c: Cache, m: Marks, file: Ptr, top: FileBlock, iptrs: seq<IndirectPtr>, objs: seq<FileBlock>)
    requires Linked(c, m, file, top, iptrs, objs, -1)
    ensures Linked(c.(states := c.states[file := SyncingNotDirty]), Captured(m, top), file, top, iptrs, objs, -1)
  {
  }

  // The leaves that the sync captured: every one a clean block.
  ghost predicate AllClean(c: Cache, m: Marks, top: FileBlock, iptrs: seq<IndirectPtr>, objs: seq<FileBlock>) {
    && |objs| == |iptrs|
    && (forall i, j :: 0 <= i < j < |iptrs| ==> iptrs[i].ptr != iptrs[j].ptr)
    && (forall i :: 0 <= i < |iptrs| ==>
          iptrs[i].ptr in c.clean && objs[i] == c.clean[iptrs[i].ptr] && iptrs[i].ptr < c.nextID && objs[i] != top)
  }

  // FinishSync: the synced file is clean under its new pointer, nothing is being synced,
  // and the dirty blocks of the sync and of the deferred writes are gone.
  function Finished(c: Cache, newFile: Ptr, top: FileBlock, oldPtrs: seq<Ptr>, deletes: seq<Ptr>): Cache {
    Cache(c.dirty - (set p | p in oldPtrs) - (set p | p in deletes), c.clean[newFile := top], map[], newFile + 1)
  }

  lemma FinishedOk(c: Cache, m: Marks, top: FileBlock, oldPtrs: seq<Ptr>, deletes: seq<Ptr>)
    requires CacheOk(c, m) && top in m.frozen
    requires forall p: Ptr :: c.StateOf(p) != NotBeingSynced ==> p in oldPtrs
    ensures CacheOk(Finished(c, c.nextID, top, oldPtrs, deletes), m.(captured := {}))
    ensures var c' := Finished(c, c.nextID, top, oldPtrs, deletes);
            c'.states == map[] && c.nextID < c'.nextID && c.nextID !in c'.dirty && c.nextID in c'.clean
              && c'.clean[c.nextID] == top
  {
  }

  lemma FinishedLinked(c: Cache, m: Marks, top: FileBlock, iptrs: seq<IndirectPtr>, objs: seq<FileBlock>,
                       oldPtrs: seq<Ptr>, deletes: seq<Ptr>)
    requires CacheOk(c, m) && AllClean(c, m, top, iptrs, objs)
    requires forall i :: 0 <= i < |iptrs| && iptrs[i].ptr in c.dirty ==> iptrs[i].ptr in deletes
    ensures Linked(Finished(c, c.nextID, top, oldPtrs, deletes), m.(captured := {}), c.nextID, top, iptrs, objs, -1)
  {
  }

  // Moving bytes between two neighbouring leaves.
  function Resplit(leaves: seq<Bytes>, i: nat, a: Bytes, b: Bytes): seq<Bytes>
    requires i + 1 < |leaves|
  {
    leaves[i := a][i + 1 := b]
  }

  lemma ResplitFlat(leaves: seq<Bytes>, i: nat, a: Bytes, b: Bytes)
    requires i + 1 < |leaves| && a + b == leaves[i] + leaves[i + 1]
    ensures Flat(Resplit(leaves, i, a, b)) == Flat(leaves)
  {
    hide Flat;
    FlatPair(leaves[..i], leaves[i], leaves[i + 1], leaves[i + 2..]);
    FlatPair(leaves[..i], a, b, leaves[i + 2..]);
    assert leaves == leaves[..i] + [leaves[i], leaves[i + 1]] + leaves[i + 2..];
    assert Resplit(leaves, i, a, b) == leaves[..i] + [a, b] + leaves[i + 2..];
  }

  function Moved(iptrs: seq<IndirectPtr>, i: nat, off: nat): seq<IndirectPtr>
    requires i < |iptrs|
  {
    iptrs[i := iptrs[i].(off := off)]
  }

  lemma ResplitLayout(iptrs: seq<IndirectPtr>, leaves: seq<Bytes>, i: nat, a: Bytes, b: Bytes)
    requires Contiguous(iptrs, leaves) && i + 1 < |leaves|
    requires a + b == leaves[i] + leaves[i + 1] && a != [] && (i + 2 < |leaves| ==> b != [])
    ensures Contiguous(Moved(iptrs, i + 1, iptrs[i].off + |a|), Resplit(leaves, i, a, b))
    ensures Start(Resplit(leaves, i, a, b), i) == Start(leaves, i)
  {
    var leaves', iptrs' := Resplit(leaves, i, a, b), Moved(iptrs, i + 1, iptrs[i].off + |a|);
    forall j | 0 <= j < |iptrs| ensures iptrs'[j].off == Start(leaves', j) {
      if j <= i {
        StartSameLengths(leaves, leaves', j);
      } else {
        ResplitStart(leaves, i, a, b, j);
      }
    }
    StartSameLengths(leaves, leaves', i);
  }

  lemma {:induction false} ResplitStart(leaves: seq<Bytes>, i: nat, a: Bytes, b: Bytes, j: nat)
    requires i + 1 < |leaves| && |a| + |b| == |leaves[i]| + |leaves[i + 1]|
    requires i < j <= |leaves|
    ensures Start(Resplit(leaves, i, a, b), j) == if j == i + 1 then Start(leaves, i) + |a| else Start(leaves, j)
  {
    var leaves' := Resplit(leaves, i, a, b);
    StartNext(leaves, j - 1);
    StartNext(leaves', j - 1);
    if j == i + 1 {
      StartSameLengths(leaves, leaves', i);
    } else {
      ResplitStart(leaves, i, a, b, j - 1);
      StartNext(leaves, i);
    }
  }

  // Leaf i takes over all of leaf i + 1, which goes away.
  function Merged(leaves: seq<Bytes>, i: nat): seq<Bytes>
    requires i + 1 < |leaves|
  {
    leaves[..i] + [leaves[i] + leaves[i + 1]] + leaves[i + 2..]
  }

  lemma MergedStart(leaves: seq<Bytes>, i: nat, j: nat)
    requires i + 1 < |leaves| && j < |leaves|
    ensures Start(Merged(leaves, i), j) == if j <= i then Start(leaves, j) else Start(leaves, j + 1)
    decreases j
  {
    if j <= i {
      assert Merged(leaves, i)[..j] == leaves[..j];
    } else {
      MergedStart(leaves, i, j - 1);
      StartNext(Merged(leaves, i), j - 1);
      StartNext(leaves, j - 1);
      StartNext(leaves, j);
    }
  }

  lemma MergedLayout(iptrs: seq<IndirectPtr>, leaves: seq<Bytes>, i: nat)
    requires Contiguous(iptrs, leaves) && i + 1 < |leaves|
    ensures Contiguous(iptrs[..i + 1] + iptrs[i + 2..], Merged(leaves, i))
    ensures Flat(Merged(leaves, i)) == Flat(leaves)
  {
    hide Flat, Start;
    var iptrs' := iptrs[..i + 1] + iptrs[i + 2..];
    forall j | 0 <= j < |iptrs'| ensures iptrs'[j].off == Start(Merged(leaves, i), j) {
      MergedStart(leaves, i, j);
    }
    MergedFlat(leaves, i);
  }

  lemma MergedFlat(leaves: seq<Bytes>, i: nat)
    requires i + 1 < |leaves|
    ensures Flat(Merged(leaves, i)) == Flat(leaves)
  {
    hide Flat;
    FlatPair(leaves[..i], leaves[i], leaves[i + 1], leaves[i + 2..]);
    FlatMiddle(leaves[..i], leaves[i] + leaves[i + 1], leaves[i + 2..]);
    assert leaves == leaves[..i] + [leaves[i], leaves[i + 1]] + leaves[i + 2..];
  }

  lemma LinkRemove(c: Cache, m: Marks, file: Ptr, top: FileBlock, iptrs: seq<IndirectPtr>, objs: seq<FileBlock>, k: nat)
    requires Linked(c, m, file, top, iptrs, objs, k) && k < |iptrs|
    ensures Linked(c, m, file, top, iptrs[..k] + iptrs[k + 1..], objs[..k] + objs[k + 1..], -1)
  {
  }

  lemma LinkMove(c: Cache, m: Marks, file: Ptr, top: FileBlock, iptrs: seq<IndirectPtr>, objs: seq<FileBlock>,
                 k: int, i: nat, off: nat)
    requires Linked(c, m, file, top, iptrs, objs, k) && i < |iptrs|
    ensures Linked(c, m, file, top, Moved(iptrs, i, off), objs, k)
  {
  }

  // With no sync in flight, a dirty leaf's block is no other leaf's block.
  lemma LinkDistinctDirty(c: Cache, m: Marks, file: Ptr, top: FileBlock, iptrs: seq<IndirectPtr>, objs: seq<FileBlock>,
                          k: int, i: nat)
    requires CacheOk(c, m) && Linked(c, m, file, top, iptrs, objs, k) && c.states == map[]
    requires i < |iptrs| && i != k && iptrs[i].ptr in c.dirty
    ensures objs[i] in m.repr - m.frozen && objs[i] == c.dirty[iptrs[i].ptr]
    ensures forall j :: 0 <= j < |objs| && j != i ==> objs[j] != objs[i]
  {
  }

  lemma LinkEncoded(c: Cache, m: Marks, file: Ptr, top: FileBlock, iptrs: seq<IndirectPtr>, objs: seq<FileBlock>,
                    i: nat)
    requires Linked(c, m, file, top, iptrs, objs, -1) && i < |iptrs|
    ensures iptrs[i].ptr in c.dirty ==> iptrs[i].encodedSize == 0
  {
  }

  // Leaf j ends where the splitter asked when it saw x in the leaf and d after it.
  predicate EndsFrom(sp: Splitter, leaves: seq<Bytes>, j: nat, x: Bytes, d: Bytes)
    requires j < |leaves|
  {
    && Start(leaves, j) <= |Flat(leaves)| && x + d <= Flat(leaves)[Start(leaves, j)..]
    && (sp.check(x) == 0 ==> leaves[j] == x)
    && (sp.check(x) > 0 ==> |leaves[j]| == sp.check(x) && leaves[j] <= x)
    && (sp.check(x) < 0 ==> |leaves[j]| == |x| + sp.take(x, d) && leaves[j] <= x + d)
    && (sp.check(x) < 0 && d == [] ==> j == |leaves| - 1)
  }

  ghost predicate Ends(sp: Splitter, leaves: seq<Bytes>, j: nat)
    requires j < |leaves|
  {
    exists x: Bytes, d: Bytes :: EndsFrom(sp, leaves, j, x, d)
  }

  lemma PairSlice(leaves: seq<Bytes>, i: nat)
    requires i < |leaves|
    ensures Start(leaves, i) <= |Flat(leaves)| && leaves[i] <= Flat(leaves)[Start(leaves, i)..]
    ensures i + 1 < |leaves| ==> leaves[i] + leaves[i + 1] <= Flat(leaves)[Start(leaves, i)..]
  {
    hide Flat;
    FlatSplit(leaves, i);
    if i + 1 < |leaves| {
      FlatPair(leaves[..i], leaves[i], leaves[i + 1], leaves[i + 2..]);
      assert leaves == leaves[..i] + [leaves[i], leaves[i + 1]] + leaves[i + 2..];
    }
  }

  lemma EndsKept(sp: Splitter, was: seq<Bytes>, now: seq<Bytes>, i: nat, j: nat)
    requires j < i < |was| && i <= |now| && now[..i] == was[..i] && Flat(now) == Flat(was) && Ends(sp, was, j)
    ensures Ends(sp, now, j)
  {
    hide Flat;
    assert now[..j] == now[..i][..j] && was[..j] == was[..i][..j];
    assert now[j] == now[..i][j] && was[j] == was[..i][j];
    var x: Bytes, d: Bytes :| EndsFrom(sp, was, j, x, d);
    assert EndsFrom(sp, now, j, x, d);
  }

  // Leaf i has just been looked at.
  lemma EndsNow(sp: Splitter, was: seq<Bytes>, now: seq<Bytes>, i: nat)
    requires SplitterOk(sp) && i < |was| && i < |now| && now[..i] == was[..i] && Flat(now) == Flat(was)
    requires i + 1 < |was| && sp.check(was[i]) < 0 ==> now[i] == was[i] + was[i + 1][..sp.take(was[i], was[i + 1])]
    requires i + 1 < |was| && was[i + 1] == [] && sp.check(was[i]) < 0 ==> |now| == i + 1
    requires i + 1 == |was| && sp.check(was[i]) < 0 ==> now == was
    requires sp.check(was[i]) > 0 ==> now[i] == was[i][..sp.check(was[i])]
    requires sp.check(was[i]) == 0 ==> now == was
    ensures Ends(sp, now, i)
  {
    hide Flat;
    PairSlice(was, i);
    assert EndsFrom(sp, now, i, was[i], if i + 1 < |was| then was[i + 1] else []);
  }

  // A splitter that is content with a block cut where it asked, and that does not make a
  // block too long by appending to it.
  ghost predicate Settling(sp: Splitter) {
    && (forall b: Bytes :: 0 < sp.check(b) <= |b| ==> sp.check(b[..sp.check(b)]) == 0)
    && (forall b: Bytes, d: Bytes :: sp.check(b) < 0 && sp.take(b, d) <= |d| ==>
          sp.check(b + d[..sp.take(b, d)]) <= 0)
  }

  /** Such a splitter would not split the leaf again. */
  lemma EndsSettled(sp: Splitter, leaves: seq<Bytes>, j: nat)
    requires SplitterOk(sp) && Settling(sp) && j < |leaves| && Ends(sp, leaves, j)
    ensures sp.check(leaves[j]) <= 0
  {
    var x: Bytes, d: Bytes :| EndsFrom(sp, leaves, j, x, d);
    if sp.check(x) > 0 {
      assert leaves[j] == x[..sp.check(x)];
    } else if sp.check(x) < 0 {
      assert leaves[j] == x + d[..sp.take(x, d)];
    }
  }

  // The first i leaves keep their pointers, and none of them has become dirty.
  ghost predicate LeftAlone(c: Cache, iptrs: seq<IndirectPtr>, c': Cache, iptrs': seq<IndirectPtr>, i: nat)
    requires i <= |iptrs| && i <= |iptrs'|
  {
    forall j :: 0 <= j < i ==> iptrs'[j].ptr == iptrs[j].ptr && (iptrs'[j].ptr in c'.dirty ==> iptrs[j].ptr in c.dirty)
  }

  lemma PutLeavesAlone(c: Cache, m: Marks, file: Ptr, top: FileBlock, iptrs: seq<IndirectPtr>, objs: seq<FileBlock>,
                       k: nat, b: FileBlock)
    requires Linked(c, m, file, top, iptrs, objs, k) && k < |iptrs|
    ensures LeftAlone(c, iptrs, c.Put(iptrs[k].ptr, b), iptrs, k)
  {
  }

  lemma NewRightLeavesAlone(c: Cache, m: Marks, file: Ptr, top: FileBlock, iptrs: seq<IndirectPtr>,
                            objs: seq<FileBlock>, k: int, r: FileBlock, ip: IndirectPtr)
    requires Linked(c, m, file, top, iptrs, objs, k)
    ensures LeftAlone(c, iptrs, c.PutNew(r).Put(file, top), iptrs + [ip], |iptrs|)
  {
  }

  // The first i leaves are clean.
  ghost predicate CleanUpTo(c: Cache, iptrs: seq<IndirectPtr>, i: nat)
    requires i <= |iptrs|
  {
    forall j :: 0 <= j < i ==> iptrs[j].ptr !in c.dirty
  }

  lemma ReadyLayout(iptrs: seq<IndirectPtr>, leaves: seq<Bytes>, i: nat, ptr: Ptr, enc: nat)
    requires Contiguous(iptrs, leaves) && i < |iptrs|
    ensures Contiguous(iptrs[i := IndirectPtr(ptr, enc, iptrs[i].off)], leaves)
  {
  }

  lemma ReadyClean(c: Cache, m: Marks, file: Ptr, top: FileBlock, iptrs: seq<IndirectPtr>, objs: seq<FileBlock>, i: nat,
                   enc: nat)
    requires CacheOk(c, m) && Linked(c, m, file, top, iptrs, objs, -1)
    requires i < |iptrs| && iptrs[i].ptr in c.dirty && CleanUpTo(c, iptrs, i)
    ensures CleanUpTo(Readied(c, iptrs[i].ptr, objs[i]), iptrs[i := IndirectPtr(c.nextID, enc, iptrs[i].off)], i + 1)
  {
  }

  lemma CleanIsFrozen(c: Cache, m: Marks, file: Ptr, top: FileBlock, iptrs: seq<IndirectPtr>, objs: seq<FileBlock>)
    requires CacheOk(c, m) && Linked(c, m, file, top, iptrs, objs, -1) && CleanUpTo(c, iptrs, |iptrs|)
    ensures AllClean(c, m, top, iptrs, objs)
    ensures forall i :: 0 <= i < |objs| ==> objs[i] in m.frozen
  {
  }

  // Writing keeps the captured leaves as they were.
  lemma AllCleanGrows(c: Cache, m: Marks, c': Cache, m': Marks, top: FileBlock, iptrs: seq<IndirectPtr>,
                      objs: seq<FileBlock>)
    requires AllClean(c, m, top, iptrs, objs) && Grows(c, m, c', m')
    ensures AllClean(c', m', top, iptrs, objs)
  {
  }

  lemma LinkOthers(c: Cache, m: Marks, file: Ptr, top: FileBlock, iptrs: seq<IndirectPtr>, objs: seq<FileBlock>, i: nat)
    requires Linked(c, m, file, top, iptrs, objs, -1) && i < |iptrs|
    ensures iptrs[i].ptr != file && forall j :: 0 <= j < |iptrs| && j != i ==> iptrs[j].ptr != iptrs[i].ptr
  {
  }

  // `iptrs` is what a cut at `size` leaves of `before`: the leaves up to the one it falls in.
  predicate CutFrom(iptrs: seq<IndirectPtr>, before: seq<IndirectPtr>, size: nat) {
    && 0 < |iptrs| <= |before|
    && (forall i :: 0 <= i < |iptrs| ==> iptrs[i].ptr == before[i].ptr && iptrs[i].off == before[i].off)
    && iptrs[|iptrs| - 1].off <= size
    && (|iptrs| < |before| ==> size < before[|iptrs|].off)
  }

  lemma CutUndersize(iptrs: seq<IndirectPtr>, leaves: seq<Bytes>, k: nat, size: nat)
    requires Contiguous(iptrs, leaves) && k < |iptrs| && Start(leaves, k) <= size
    requires k < |leaves| - 1 ==> size < Start(leaves, k + 1)
    ensures CutFrom(iptrs[..k + 1][k := iptrs[..k + 1][k].(encodedSize := 0)], iptrs, size)
  {
  }
}
