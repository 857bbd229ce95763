/** Whole runs of the file data path: any number of writes and truncates, outside a sync,
    during one, and across one. */
module FileRuns {
  import opened FlatFile
  import opened FileBlocks
  import opened BlockCache
  import opened FolderBlocks
  import opened Pointers

  lemma ApplyPrefix(f: Bytes, ops: seq<FileOp>, i: nat, maxFileBytes: nat)
    requires i < |ops|
    ensures ApplyOps(f, ops[..i + 1], maxFileBytes) ==
      ApplyOp(ApplyOps(f, ops[..i], maxFileBytes), ops[i], maxFileBytes)
  {
    assert ops[..i + 1] == ops[..i] + [ops[i]];
    ApplySnoc(f, ops[..i], ops[i], maxFileBytes);
  }

  /** Outside a sync: a run of operations followed by a read sees the flat model. */
  method RunAndRead(fbo: FolderBlockOps, file: Ptr, ops: seq<FileOp>, dest: array<byte>, off: nat) returns (n: nat)
    requires fbo.Valid(file) && fbo.cache.states == map[] && !fbo.doDeferWrite
    modifies fbo, fbo.marks.repr - fbo.marks.frozen, dest
    ensures fbo.Valid(file)
    ensures Flat(fbo.leaves) == ApplyOps(old(Flat(fbo.leaves)), ops, fbo.maxFileBytes)
    ensures fbo.EntrySize(file) == |Flat(fbo.leaves)|
    ensures var seen := ReadAt(ApplyOps(old(Flat(fbo.leaves)), ops, fbo.maxFileBytes), off, dest.Length);
            n == |seen| <= dest.Length && dest[..] == Splice(old(dest[..]), 0, seen)
  {
    hide CacheOk, Linked, Contiguous, Packed, Grows, ApplyOps, ApplyOp, TooBig, Flat, Splice, ReadAt;
    ghost var f := Flat(fbo.leaves);
    ApplyNone(f, fbo.maxFileBytes);
    assert ops[..0] == [];
    for i := 0 to |ops|
      invariant fbo.Valid(file) && fbo.cache.states == map[] && !fbo.doDeferWrite
      invariant Flat(fbo.leaves) == ApplyOps(f, ops[..i], fbo.maxFileBytes)
      invariant fbo.marks.frozen == old(fbo.marks).frozen
      invariant forall b :: b in fbo.marks.repr ==> b in old(fbo.marks).repr || fresh(b)
      invariant dest[..] == old(dest[..])
    {
      ghost var c, m := fbo.cache, fbo.marks;
      ApplyPrefix(f, ops, i, fbo.maxFileBytes);
      fbo.WrittenInRepr(file);
      var r; ghost var dirtyPtrs;
      r, dirtyPtrs := fbo.Apply(file, ops[i]);
      GrowsParts(c, m, fbo.cache, fbo.marks);
    }
    assert ops[..|ops|] == ops;
    n := fbo.Read(file, dest, off);
  }

  // Every captured leaf that the run cuts is one it writes to, as far as the file has several blocks.
  ghost predicate NothingLost(fbo: FolderBlockOps, file: Ptr, ops: seq<FileOp>)
    requires file in fbo.cache.dirty && fbo.maxSize > 0
    reads fbo, fbo.cache.dirty[file]
  {
    fbo.cache.dirty[file].isInd ==> CutsRecorded(Flat(fbo.leaves), |fbo.leaves|, ops, fbo.maxSize, fbo.maxFileBytes)
  }

  // A file that is about to be synced, with nothing left over from an earlier sync.
  ghost predicate ReadyToSync(fbo: FolderBlockOps, file: Ptr)
    reads fbo, fbo.marks.repr, fbo.marks.frozen, fbo.objs
  {
    && fbo.Valid(file) && file in fbo.cache.dirty && fbo.cache.states == map[] && !fbo.doDeferWrite
    && fbo.deferredWrites == [] && fbo.deferredDirtyDeletes == [] && fbo.maxSize > 0
  }

  // Starts a sync and applies a run of operations while it is in flight.
  method RunInSync(fbo: FolderBlockOps, file: Ptr, ops: seq<FileOp>)
    returns (top: FileBlock, oldPtrs: seq<Ptr>, size: nat, ghost t: Trail, ghost base: Ptr)
    requires ReadyToSync(fbo, file)
    modifies fbo, fbo.marks.repr - fbo.marks.frozen
    ensures fbo.InSync(file, top, oldPtrs, size) && fbo.Following(file, top, t, base)
    ensures top.isInd == old(fbo.cache.dirty[file].isInd) && fbo.syncLeaves == old(fbo.leaves)
    ensures top.isInd ==> forall i :: 0 <= i < |top.iptrs| ==> top.iptrs[i].ptr !in oldPtrs
    ensures Flat(fbo.leaves) == ApplyOps(old(Flat(fbo.leaves)), ops, fbo.maxFileBytes)
    ensures top.isInd ==>
      t == TrailOf(old(Flat(fbo.leaves)), |old(fbo.leaves)|, ops, fbo.maxSize, fbo.maxFileBytes).0
    ensures forall b :: b in fbo.marks.repr ==> b in old(fbo.marks).repr || fresh(b)
    ensures old(fbo.marks).frozen <= fbo.marks.frozen
    ensures Accounted(fbo.cache, fbo.deferredDirtyDeletes, old(fbo.cache.dirty.Keys))
  {
    hide CacheOk, Linked, Contiguous, LeafValues, AllClean, Packed, Grows, ApplyOps, ApplyOp, TooBig, Accepted, Flat,
      OnTrail, Lengths, TrailOf, ReachOf, Follow;
    ghost var dirty := fbo.cache.dirty.Keys;
    ghost var f, n := Flat(fbo.leaves), |fbo.leaves|;
    top, oldPtrs, size := fbo.StartSync(file);
    t, base := Trail(n, {}, {}), fbo.cache.nextID;
    ApplyNone(f, fbo.maxFileBytes);
    TrailNone(f, n, fbo.maxSize, fbo.maxFileBytes);
    ghost var iptrs := top.iptrs;
    assert ops[..0] == [];
    for i := 0 to |ops|
      invariant fbo.InSync(file, top, oldPtrs, size) && fbo.Following(file, top, t, base)
      invariant top.isInd == old(fbo.cache.dirty[file].isInd) && top.iptrs == iptrs && fbo.syncLeaves == old(fbo.leaves)
      invariant Flat(fbo.leaves) == ApplyOps(f, ops[..i], fbo.maxFileBytes)
      invariant top.isInd ==> (t, |fbo.leaves|) == TrailOf(f, n, ops[..i], fbo.maxSize, fbo.maxFileBytes)
      invariant forall b :: b in fbo.marks.repr ==> b in old(fbo.marks).repr || fresh(b)
      invariant old(fbo.marks).frozen <= fbo.marks.frozen
      invariant Accounted(fbo.cache, fbo.deferredDirtyDeletes, dirty)
    {
      ApplyPrefix(f, ops, i, fbo.maxFileBytes);
      TrailPrefix(f, n, ops, i, fbo.maxSize, fbo.maxFileBytes);
      fbo.WrittenInRepr(file);
      var r;
      r, t := fbo.FollowInSync(file, ops[i], top, oldPtrs, size, t, base);
    }
    assert ops[..|ops|] == ops;
  }

  lemma TrailNone(f: Bytes, n: nat, maxSize: nat, maxFileBytes: nat)
    requires maxSize > 0
    ensures TrailOf(f, n, [], maxSize, maxFileBytes) == (Trail(n, {}, {}), n)
  {
  }

  lemma TrailPrefix(f: Bytes, n: nat, ops: seq<FileOp>, i: nat, maxSize: nat, maxFileBytes: nat)
    requires maxSize > 0 && i < |ops|
    ensures var (t, k) := TrailOf(f, n, ops[..i], maxSize, maxFileBytes);
      k >= 0 ==>
        var reach := ReachOf(ops[i], |ApplyOps(f, ops[..i], maxFileBytes)|, k, maxSize, maxFileBytes);
        TrailOf(f, n, ops[..i + 1], maxSize, maxFileBytes) == (Follow(t, reach), CountAfter(k, reach))
  {
    hide Follow, ReachOf;
    assert ops[..i + 1][..i] == ops[..i];
  }

  /** Across a sync: operations issued between StartSync and FinishSync show on the old path
      at once and on the new path after FinishSync, in order, on top of what was synced.
      This holds for every run when the file had a single block, and otherwise for every run that
      writes to each captured leaf it cuts. */
  method SyncSession(fbo: FolderBlockOps, file: Ptr, ops: seq<FileOp>) returns (newFile: Ptr, stillDirty: bool)
    requires ReadyToSync(fbo, file) && NothingLost(fbo, file, ops)
    modifies fbo, fbo.marks.repr - fbo.marks.frozen
    ensures fbo.Valid(newFile)
    ensures Flat(fbo.leaves) == ApplyOps(old(Flat(fbo.leaves)), ops, fbo.maxFileBytes)
    ensures Flat(fbo.syncLeaves) == old(Flat(fbo.leaves))
    ensures fbo.cache.states == map[] && !fbo.doDeferWrite && fbo.deferredWrites == [] && fbo.deferredDirtyDeletes == []
    ensures NoneLeft(fbo.cache, old(fbo.cache.dirty.Keys), newFile)
    ensures !stillDirty ==> forall p: Ptr :: p in fbo.cache.dirty ==> p < newFile
  {
    hide CacheOk, Linked, Contiguous, LeafValues, AllClean, Packed, Grows, ApplyOps, ApplyOp, TooBig, Accepted, Flat,
      Accounted, NoneLeft, Lengths, TrailOf, FolderBlockOps.Valid, FolderBlockOps.Snapshot;
    var top, oldPtrs, size; ghost var t, base;
    top, oldPtrs, size, t, base := RunInSync(fbo, file, ops);
    var r;
    newFile, stillDirty, r := fbo.FinishSync(file, top, oldPtrs, size);
  }

  /** The file a sync leaves for the operations issued meanwhile to be replayed on is the one that was
      synced if and only if each captured leaf the run cuts is one it writes to. */
  method SyncedFile(fbo: FolderBlockOps, file: Ptr, ops: seq<FileOp>) returns (newFile: Ptr, top: FileBlock)
    requires ReadyToSync(fbo, file)
    modifies fbo, fbo.marks.repr - fbo.marks.frozen
    ensures Flat(fbo.syncLeaves) == old(Flat(fbo.leaves))
    ensures CacheOk(fbo.cache, fbo.marks) && (fbo.ShowsSynced(newFile, top) <==> old(NothingLost(fbo, file, ops)))
    ensures forall p :: p in fbo.cache.dirty ==> p in old(fbo.cache.dirty) || p in fbo.cache.clean
  {
    hide CacheOk, ApplyOps, ApplyOp, Flat, TrailOf, FolderBlockOps.InSync, FolderBlockOps.Following,
      FolderBlockOps.ShowsSynced;
    var oldPtrs, size; ghost var t, base;
    top, oldPtrs, size, t, base := RunInSync(fbo, file, ops);
    newFile := fbo.SwitchAfter(file, top, oldPtrs, size, t, base);
  }

  /** A single truncate during a sync survives FinishSync exactly when the file had a single block
      or the truncate does not cut it. */
  method TruncateDuringSync(fbo: FolderBlockOps, file: Ptr, size: nat) returns (newFile: Ptr)
    requires ReadyToSync(fbo, file) && size <= fbo.maxFileBytes
    modifies fbo, fbo.marks.repr - fbo.marks.frozen
    ensures fbo.EntrySize(newFile) == size <==> old(!fbo.cache.dirty[file].isInd || size >= |Flat(fbo.leaves)|)
    ensures old(!fbo.cache.dirty[file].isInd || size >= |Flat(fbo.leaves)|) ==>
              fbo.Valid(newFile) && Flat(fbo.leaves) == TruncateTo(old(Flat(fbo.leaves)), size)
    ensures !old(!fbo.cache.dirty[file].isInd || size >= |Flat(fbo.leaves)|) ==>
              fbo.EntrySize(newFile) == |old(Flat(fbo.leaves))| && newFile !in fbo.cache.dirty
  {
    hide CacheOk, ApplyOps, ApplyOp, TooBig, Flat, TruncateTo, TrailOf;
    ghost var f, n := Flat(fbo.leaves), |fbo.leaves|;
    TruncateFits(f, size, fbo.maxFileBytes);
    if fbo.cache.dirty[file].isInd && size < fbo.EntrySize(file) {
      newFile := CutDuringSync(fbo, file, size);
    } else {
      NoCut(f, n, size, fbo.maxSize, fbo.maxFileBytes);
      var stillDirty;
      newFile, stillDirty := SyncSession(fbo, file, [TruncateOp(size)]);
    }
  }

  method CutDuringSync(fbo: FolderBlockOps, file: Ptr, size: nat) returns (newFile: Ptr)
    requires ReadyToSync(fbo, file) && fbo.cache.dirty[file].isInd && size < |Flat(fbo.leaves)|
    modifies fbo, fbo.marks.repr - fbo.marks.frozen
    ensures fbo.EntrySize(newFile) == |old(Flat(fbo.leaves))| && newFile !in fbo.cache.dirty
  {
    hide CacheOk, Linked, Contiguous, LeafValues, AllClean, Packed, ApplyOps, ApplyOp, TooBig, Accepted, Flat, Effect,
      CutFrom;
    var top, oldPtrs, syncSize := fbo.StartSync(file);
    fbo.WrittenInRepr(file);
    var r; ghost var dirtyPtrs;
    r, dirtyPtrs := fbo.ApplyInSync(file, TruncateOp(size), top, oldPtrs, syncSize);
    newFile := fbo.FinishCutSync(file, top, oldPtrs, syncSize, size);
  }

  lemma NoCut(f: Bytes, n: nat, size: nat, maxSize: nat, maxFileBytes: nat)
    requires maxSize > 0
    ensures size >= |f| ==> CutsRecorded(f, n, [TruncateOp(size)], maxSize, maxFileBytes)
    ensures ApplyOps(f, [TruncateOp(size)], maxFileBytes) == ApplyOp(f, TruncateOp(size), maxFileBytes)
  {
    hide ApplyOp;
    var ops := [TruncateOp(size)];
    assert ops[..0] == [] && ops[..1] == ops;
    ApplyNone(f, maxFileBytes);
    TrailNone(f, n, maxSize, maxFileBytes);
    TrailPrefix(f, n, ops, 0, maxSize, maxFileBytes);
  }

  lemma TruncateFits(f: Bytes, size: nat, maxFileBytes: nat)
    requires size <= maxFileBytes
    ensures ApplyOp(f, TruncateOp(size), maxFileBytes) == TruncateTo(f, size) && |TruncateTo(f, size)| == size
  {
  }

  /** A file of five bytes in blocks of four, truncated to one byte during a sync: it still has five
      bytes afterwards, and counts as clean. */
  method LostTruncate() returns (fbo: FolderBlockOps, newFile: Ptr)
    ensures fresh(fbo) && fbo.EntrySize(newFile) == 5 && newFile !in fbo.cache.dirty
  {
    hide CacheOk, Linked, Contiguous, LeafValues, Grows, ApplyOps, ApplyOp, TooBig, WriteAt, Effect, CutFrom,
      TruncateTo;
    fbo := new FolderBlockOps(4, 100, []);
    fbo.WrittenInRepr(0);
    var r; ghost var dirtyPtrs;
    r, dirtyPtrs := fbo.Apply(0, WriteOp(Zeros(5), 0));
    FiveBytes();
    newFile := TruncateDuringSync(fbo, 0, 1);
  }

  lemma FiveBytes()
    ensures Flat([[]]) == [] && |ApplyOp([], WriteOp(Zeros(5), 0), 100)| == 5
  {
    FlatOne([]);
  }
}
