/** Quota reclamation's scans over the merged history: which revision may be reclaimed up to, and
    which block pointers were dropped on the way. */
module Reclamation {

  // A block pointer: a block and one of its references.
  datatype BlockRef = BlockRef(id: string, nonce: string)

  datatype RefUpdate = RefUpdate(unref: BlockRef, ref: BlockRef)

  datatype Op = DataOp(refs: seq<BlockRef>, unrefs: seq<BlockRef>, updates: seq<RefUpdate>) | GCOp(latestRev: nat)

  // One metadata revision; oldEnough says whether its age allows reclaiming it.
  datatype MD = MD(ops: seq<Op>, oldEnough: bool)

  const MAX_MDS_AT_A_TIME := 10
  const POINTERS_PER_GC := 100
  const MAX_REVISIONS_PER_QR := 100

  // --- what is looked for ---------------------------------------------------------------------

  function Replaced(us: seq<RefUpdate>): seq<BlockRef> {
    if us == [] then []
    else Replaced(us[..|us| - 1]) + if us[|us| - 1].ref != us[|us| - 1].unref then [us[|us| - 1].unref] else []
  }

  function DroppedBy(op: Op): seq<BlockRef> {
    if op.GCOp? then [] else op.unrefs + Replaced(op.updates)
  }

  function DroppedByAll(ops: seq<Op>): seq<BlockRef> {
    if ops == [] then [] else DroppedByAll(ops[..|ops| - 1]) + DroppedBy(ops[|ops| - 1])
  }

  // The pointers dropped by the revisions after lo up to hi, the latest revision first.
  function Gathered(h: seq<MD>, lo: nat, hi: nat): seq<BlockRef>
    requires hi <= |h|
  {
    if hi <= lo then [] else DroppedByAll(h[hi - 1].ops) + Gathered(h, lo, hi - 1)
  }

  lemma {:induction false} GatheredSplit(h: seq<MD>, lo: nat, mid: nat, hi: nat)
    requires lo <= mid <= hi <= |h|
    ensures Gathered(h, lo, hi) == Gathered(h, mid, hi) + Gathered(h, lo, mid)
    decreases hi
  {
    if mid < hi { GatheredSplit(h, lo, mid, hi - 1); }
  }

  // The latest revision of the first n that is old enough, or 0.
  function OldEnough(h: seq<MD>, n: nat): nat
    requires n <= |h|
  {
    if n == 0 then 0 else if h[n - 1].oldEnough then n else OldEnough(h, n - 1)
  }

  function LastGCIn(ops: seq<Op>): nat {
    if ops == [] then 0 else if ops[|ops| - 1].GCOp? then ops[|ops| - 1].latestRev else LastGCIn(ops[..|ops| - 1])
  }

  // How far the last reclamation recorded in the first n revisions went, or 0.
  function LastGC(h: seq<MD>, n: nat): nat
    requires n <= |h|
  {
    if n == 0 then 0 else if LastGCIn(h[n - 1].ops) != 0 then LastGCIn(h[n - 1].ops) else LastGC(h, n - 1)
  }

  // --- what that means ---------------------------------------------------------------------------

  // r is the latest of the first n revisions that is old enough, or 0 if none of them is.
  ghost predicate LatestOldEnough(h: seq<MD>, n: nat, r: nat) {
    && r <= n <= |h| && (r == 0 || h[r - 1].oldEnough)
    && forall k :: r <= k < n ==> !h[k].oldEnough
  }

  lemma {:induction false} OldEnoughIs(h: seq<MD>, n: nat)
    requires n <= |h|
    ensures LatestOldEnough(h, n, OldEnough(h, n))
  {
    if n > 0 { OldEnoughIs(h, n - 1); }
  }

  // The last reclamation recorded in the revision went up to rev.
  ghost predicate Records(md: MD, rev: nat) {
    exists j :: 0 <= j < |md.ops| && md.ops[j] == GCOp(rev) && forall k :: j < k < |md.ops| ==> !md.ops[k].GCOp?
  }

  // No reclamation that went anywhere is the last one of any revision after lo up to hi.
  ghost predicate RecordsNone(h: seq<MD>, lo: nat, hi: nat) {
    forall k, rev :: lo <= k < hi <= |h| && Records(h[k], rev) ==> rev == 0
  }

  // The last reclamation recorded in the first n revisions went up to rev; there is none if that is 0.
  ghost predicate LastRecorded(h: seq<MD>, n: nat, rev: nat) {
    if rev == 0 then RecordsNone(h, 0, n)
    else exists k :: 0 <= k < n <= |h| && Records(h[k], rev) && RecordsNone(h, k + 1, n)
  }

  lemma RecordsSnoc(ops: seq<Op>, op: Op, oldEnough: bool, rev: nat)
    ensures Records(MD(ops + [op], oldEnough), rev) <==>
      if op.GCOp? then op.latestRev == rev else Records(MD(ops, oldEnough), rev)
  {
    var md, md' := MD(ops + [op], oldEnough), MD(ops, oldEnough);
    assert md.ops[|ops|] == op && forall k :: 0 <= k < |ops| ==> md.ops[k] == md'.ops[k];
    if !op.GCOp? && Records(md', rev) {
      var j :| 0 <= j < |ops| && md'.ops[j] == GCOp(rev) && forall k :: j < k < |ops| ==> !md'.ops[k].GCOp?;
      assert md.ops[j] == GCOp(rev);
    }
  }

  lemma {:induction false} LastGCInIs(ops: seq<Op>, oldEnough: bool, rev: nat)
    ensures Records(MD(ops, oldEnough), rev) ==> LastGCIn(ops) == rev
    ensures LastGCIn(ops) != 0 ==> Records(MD(ops, oldEnough), LastGCIn(ops))
  {
    if ops != [] {
      hide Records;
      var k := |ops| - 1;
      LastGCInIs(ops[..k], oldEnough, rev);
      assert ops == ops[..k] + [ops[k]];
      RecordsSnoc(ops[..k], ops[k], oldEnough, rev);
      RecordsSnoc(ops[..k], ops[k], oldEnough, LastGCIn(ops));
    } else {
      assert !Records(MD(ops, oldEnough), rev);
    }
  }

  lemma {:induction false} LastGCIs(h: seq<MD>, n: nat)
    requires n <= |h|
    ensures LastRecorded(h, n, LastGC(h, n))
  {
    hide Records;
    if n > 0 {
      var md, g := h[n - 1], LastGC(h, n);
      LastGCIs(h, n - 1);
      forall rev | Records(md, rev) ensures LastGCIn(md.ops) == rev {
        LastGCInIs(md.ops, md.oldEnough, rev);
      }
      LastGCInIs(md.ops, md.oldEnough, 0);
      if LastGCIn(md.ops) != 0 {
        assert Records(h[n - 1], g) && RecordsNone(h, n - 1 + 1, n);
      } else if g != 0 {
        var k :| 0 <= k < n - 1 && Records(h[k], g) && RecordsNone(h, k + 1, n - 1);
        assert RecordsNone(h, k + 1, n);
      }
    }
  }

  // The operation drops the pointer: it unreferences it, or replaces it by another one.
  ghost predicate DropsPtr(op: Op, p: BlockRef) {
    op.DataOp? && (p in op.unrefs || exists i :: 0 <= i < |op.updates| && op.updates[i].unref == p != op.updates[i].ref)
  }

  ghost predicate RevisionDrops(md: MD, p: BlockRef) {
    exists k :: 0 <= k < |md.ops| && DropsPtr(md.ops[k], p)
  }

  lemma ReplacedSnoc(us: seq<RefUpdate>, u: RefUpdate, p: BlockRef)
    ensures (exists i :: 0 <= i < |us + [u]| && (us + [u])[i].unref == p != (us + [u])[i].ref) <==>
      (u.unref == p != u.ref) || exists i :: 0 <= i < |us| && us[i].unref == p != us[i].ref
  {
    var vs := us + [u];
    assert vs[|us|] == u;
    if i :| 0 <= i < |us| && us[i].unref == p != us[i].ref {
      assert vs[i] == us[i];
    }
  }

  lemma {:induction false} ReplacedIs(us: seq<RefUpdate>, p: BlockRef)
    ensures p in Replaced(us) <==> exists i :: 0 <= i < |us| && us[i].unref == p != us[i].ref
  {
    if us != [] {
      var k := |us| - 1;
      ReplacedIs(us[..k], p);
      ReplacedSnoc(us[..k], us[k], p);
      assert us == us[..k] + [us[k]];
    }
  }

  lemma DropsSnoc(ops: seq<Op>, op: Op, oldEnough: bool, p: BlockRef)
    ensures RevisionDrops(MD(ops + [op], oldEnough), p) <==> RevisionDrops(MD(ops, oldEnough), p) || DropsPtr(op, p)
  {
    hide DropsPtr;
    var md, md' := MD(ops + [op], oldEnough), MD(ops, oldEnough);
    assert md.ops[|ops|] == op;
    if RevisionDrops(md', p) {
      var k :| 0 <= k < |ops| && DropsPtr(md'.ops[k], p);
      assert md.ops[k] == md'.ops[k];
    }
  }

  lemma {:induction false} DroppedIs(ops: seq<Op>, oldEnough: bool, p: BlockRef)
    ensures p in DroppedByAll(ops) <==> RevisionDrops(MD(ops, oldEnough), p)
  {
    if ops != [] {
      hide RevisionDrops, DropsPtr, DroppedBy;
      var k := |ops| - 1;
      DroppedIs(ops[..k], oldEnough, p);
      DroppedByIs(ops[k], p);
      DropsSnoc(ops[..k], ops[k], oldEnough, p);
      assert ops == ops[..k] + [ops[k]];
    } else {
      assert !RevisionDrops(MD(ops, oldEnough), p);
    }
  }

  lemma DroppedByIs(op: Op, p: BlockRef)
    ensures p in DroppedBy(op) <==> DropsPtr(op, p)
  {
    if op.DataOp? { ReplacedIs(op.updates, p); }
  }

  lemma GatheredLast(h: seq<MD>, lo: nat, hi: nat, p: BlockRef)
    requires lo < hi <= |h|
    ensures p in Gathered(h, lo, hi) <==> p in Gathered(h, lo, hi - 1) || RevisionDrops(h[hi - 1], p)
  {
    hide RevisionDrops, DroppedByAll;
    DroppedIs(h[hi - 1].ops, h[hi - 1].oldEnough, p);
    assert h[hi - 1] == MD(h[hi - 1].ops, h[hi - 1].oldEnough);
  }

  lemma GatheredNone(h: seq<MD>, lo: nat, hi: nat)
    requires hi <= |h| && hi <= lo
    ensures Gathered(h, lo, hi) == []
  {
  }

  /** What is gathered from a stretch of history is exactly what some operation in it drops. */
  lemma {:induction false} GatheredIs(h: seq<MD>, lo: nat, hi: nat, p: BlockRef)
    requires hi <= |h|
    ensures p in Gathered(h, lo, hi) <==> exists k :: lo <= k < hi && RevisionDrops(h[k], p)
    decreases hi
  {
    hide RevisionDrops, Gathered;
    if hi <= lo {
      GatheredNone(h, lo, hi);
    } else {
      GatheredIs(h, lo, hi - 1, p);
      GatheredLast(h, lo, hi, p);
    }
  }

  // --- the scans ---------------------------------------------------------------------------------

  method FindGCOp(ops: seq<Op>) returns (rev: nat)
    ensures rev == LastGCIn(ops)
  {
    rev := 0;
    var j := |ops|;
    assert ops[..|ops|] == ops;
    while j > 0
      invariant 0 <= j <= |ops| && rev == 0 && LastGCIn(ops) == LastGCIn(ops[..j])
    {
      j := j - 1;
      assert ops[..j + 1][..j] == ops[..j];
      if ops[j].GCOp? {
        rev := ops[j].latestRev;
        return;
      }
    }
  }

  // What was found, or else what a further search finds.
  function Found(x: nat, further: nat): nat {
    if x != 0 then x else further
  }

  // Walks back through one batch of revisions, until both are found.
  method ScanBatch(h: seq<MD>, lo: nat, hi: nat, oldEnough0: nat, lastGC0: nat) returns (oldEnough: nat, lastGC: nat)
    requires lo <= hi <= |h|
    ensures Found(oldEnough, OldEnough(h, lo)) == Found(oldEnough0, OldEnough(h, hi))
    ensures Found(lastGC, LastGC(h, lo)) == Found(lastGC0, LastGC(h, hi))
  {
    hide LastGCIn;
    oldEnough, lastGC := oldEnough0, lastGC0;
    var rmds := h[lo..hi];
    var i := |rmds|;
    while i > 0
      invariant 0 <= i <= |rmds|
      invariant Found(oldEnough, OldEnough(h, lo + i)) == Found(oldEnough0, OldEnough(h, hi))
      invariant Found(lastGC, LastGC(h, lo + i)) == Found(lastGC0, LastGC(h, hi))
    {
      i := i - 1;
      if oldEnough == 0 && rmds[i].oldEnough {
        oldEnough := lo + i + 1;
      }
      if lastGC == 0 {
        lastGC := FindGCOp(rmds[i].ops);
      }
      if oldEnough != 0 && lastGC != 0 { return; }
    }
  }

  /** The latest revision old enough to be reclaimed and how far the last reclamation went, found
      by walking back from the client's head a few revisions at a time. */
  method GetMostRecentOldEnoughAndGCRevisions(h: seq<MD>, head: nat) returns (oldEnough: nat, lastGC: nat)
    requires head <= |h|
    ensures oldEnough == OldEnough(h, head) && lastGC == LastGC(h, head)
    ensures LatestOldEnough(h, head, oldEnough) && LastRecorded(h, head, lastGC)
  {
    hide LatestOldEnough, LastRecorded;
    OldEnoughIs(h, head);
    LastGCIs(h, head);
    oldEnough, lastGC := 0, 0;
    var currHead := head;
    if currHead == 0 { return; }
    while true
      invariant 0 < currHead <= head
      invariant OldEnough(h, head) == Found(oldEnough, OldEnough(h, currHead))
      invariant LastGC(h, head) == Found(lastGC, LastGC(h, currHead))
      decreases currHead
    {
      var startRev := if currHead < MAX_MDS_AT_A_TIME then 1 else currHead - MAX_MDS_AT_A_TIME + 1;
      var numNew := currHead - startRev + 1;
      oldEnough, lastGC := ScanBatch(h, startRev - 1, currHead, oldEnough, lastGC);
      if oldEnough != 0 && lastGC != 0 { return; }
      currHead := startRev - 1;
      if numNew < MAX_MDS_AT_A_TIME || currHead < 1 {
        return;
      }
    }
  }

  // The pointers dropped by one operation, added to those already gathered.
  method GatherOp(op: Op, gathered: seq<BlockRef>) returns (ptrs: seq<BlockRef>)
    requires op.DataOp?
    ensures ptrs == gathered + DroppedBy(op)
  {
    ptrs := gathered + op.unrefs;
    ghost var before := ptrs;
    for u := 0 to |op.updates|
      invariant ptrs == before + Replaced(op.updates[..u])
    {
      assert op.updates[..u + 1][..u] == op.updates[..u];
      if op.updates[u].ref != op.updates[u].unref {
        ptrs := ptrs + [op.updates[u].unref];
      }
    }
    assert op.updates[..|op.updates|] == op.updates;
  }

  method GatherFrom(md: MD, gathered: seq<BlockRef>) returns (ptrs: seq<BlockRef>)
    ensures ptrs == gathered + DroppedByAll(md.ops)
  {
    hide DroppedBy;
    ptrs := gathered;
    for k := 0 to |md.ops|
      invariant ptrs == gathered + DroppedByAll(md.ops[..k])
    {
      assert md.ops[..k + 1][..k] == md.ops[..k];
      if md.ops[k].DataOp? {
        ptrs := GatherOp(md.ops[k], ptrs);
      } else {
        GCDropsNothing(md.ops[k]);
      }
    }
    assert md.ops[..|md.ops|] == md.ops;
  }

  lemma GCDropsNothing(op: Op)
    ensures op.GCOp? ==> DroppedBy(op) == []
  {
  }

  // Where the pointers of each revision after lo start among those gathered back from latest.
  ghost predicate StartsAt(h: seq<MD>, lo: nat, latest: nat, starts: map<nat, nat>)
    requires latest <= |h|
  {
    && (forall r :: r in starts <==> lo < r <= latest)
    && forall r :: r in starts ==> starts[r] == |Gathered(h, r, latest)|
  }

  lemma {:induction false} GatherNext(h: seq<MD>, rev: nat, latest: nat)
    requires 0 < rev <= latest <= |h|
    ensures Gathered(h, rev - 1, latest) == Gathered(h, rev, latest) + DroppedByAll(h[rev - 1].ops)
  {
    hide DroppedByAll;
    GatheredSplit(h, rev - 1, rev, latest);
    assert Gathered(h, rev - 1, rev) == DroppedByAll(h[rev - 1].ops) + [];
  }

  // Walks back through one batch of revisions, noting where each one's pointers start.
  method WalkBatch(h: seq<MD>, latest: nat, earliest: nat, lo: nat, hi: nat, ptrs0: seq<BlockRef>,
                   starts0: map<nat, nat>)
    returns (ptrs: seq<BlockRef>, starts: map<nat, nat>)
    requires earliest <= hi <= latest <= |h| && lo <= hi
    requires ptrs0 == Gathered(h, hi, latest) && StartsAt(h, hi, latest, starts0)
    ensures var end := if lo < earliest then earliest else lo;
      ptrs == Gathered(h, end, latest) && StartsAt(h, end, latest, starts)
  {
    hide DroppedByAll, Gathered;
    ptrs, starts := ptrs0, starts0;
    var rmds := h[lo..hi];
    var i := |rmds|;
    while i > 0
      invariant 0 <= i <= |rmds| && earliest <= lo + i
      invariant ptrs == Gathered(h, lo + i, latest) && StartsAt(h, lo + i, latest, starts)
    {
      i := i - 1;
      var rev := lo + i + 1;
      if rev <= earliest { return; }
      starts := starts[rev := |ptrs|];
      GatherNext(h, rev, latest);
      ptrs := GatherFrom(rmds[i], ptrs);
    }
  }

  // Walks back from latest to earliest.
  method WalkBack(h: seq<MD>, latest: nat, earliest: nat) returns (ptrs: seq<BlockRef>, starts: map<nat, nat>)
    requires earliest < latest <= |h|
    ensures ptrs == Gathered(h, earliest, latest) && StartsAt(h, earliest, latest, starts)
  {
    hide DroppedByAll, Gathered;
    ptrs, starts := [], map[];
    var currHead := latest;
    NothingGathered(h, latest);
    while true
      invariant earliest <= currHead <= latest && 0 < currHead
      invariant ptrs == Gathered(h, currHead, latest) && StartsAt(h, currHead, latest, starts)
      decreases currHead
    {
      var startRev := if currHead < MAX_MDS_AT_A_TIME then 1 else currHead - MAX_MDS_AT_A_TIME + 1;
      var numNew := currHead - startRev + 1;
      ptrs, starts := WalkBatch(h, latest, earliest, startRev - 1, currHead, ptrs, starts);
      if startRev <= earliest { return; }
      currHead := startRev - 1;
      if numNew < MAX_MDS_AT_A_TIME || currHead < 1 {
        return;
      }
    }
  }

  lemma NothingGathered(h: seq<MD>, r: nat)
    requires r <= |h|
    ensures Gathered(h, r, r) == []
  {
  }

  /** The pointers dropped after earliest up to `last`: all of them if there are no more than the
      threshold, and otherwise those up to the first revision that takes them over it. */
  method GetUnreferencedBlocks(h: seq<MD>, latest: nat, earliest: nat)
    returns (ptrs: seq<BlockRef>, last: nat, complete: bool)
    requires latest <= |h|
    ensures latest <= earliest ==> ptrs == [] && last == 0 && complete
    ensures latest > earliest ==>
      && earliest < last <= latest && ptrs == Gathered(h, earliest, last) && complete == (last == latest)
      && (last < latest ==> |ptrs| > 100)
      && forall r :: earliest < r < last ==> |Gathered(h, earliest, r)| <= 100
  {
    if latest <= earliest {
      return [], 0, true;
    }
    var starts;
    ptrs, starts := WalkBack(h, latest, earliest);
    last, complete := latest, true;
    if |ptrs| > POINTERS_PER_GC {
      var threshStart := |ptrs| - POINTERS_PER_GC;
      var revs := starts.Keys;
      while revs != {}
        invariant revs <= starts.Keys && earliest < last <= latest && starts[last] < threshStart
        invariant forall r :: r in starts.Keys - revs && r < last ==> starts[r] >= threshStart
      {
        var rev :| rev in revs;
        revs := revs - {rev};
        if starts[rev] < threshStart && rev < last {
          last := rev;
        }
      }
      forall r | earliest < r <= latest
        ensures |Gathered(h, earliest, latest)| == starts[r] + |Gathered(h, earliest, r)|
      {
        GatheredSplit(h, earliest, r, latest);
      }
      GatheredSplit(h, earliest, last, latest);
      if last < latest {
        ptrs := ptrs[starts[last]..];
        complete := false;
      }
    } else {
      forall r | earliest < r < latest ensures |Gathered(h, earliest, r)| <= POINTERS_PER_GC {
        GatheredSplit(h, earliest, r, latest);
      }
    }
  }

  datatype Plan = Nothing | Reclaim(ptrs: seq<BlockRef>, latestRev: nat)

  // How far a reclamation may go: to the latest revision that is old enough, but no more than a hundred
  // revisions.
  function Limit(oldEnough: nat, lastGC: nat): nat {
    if oldEnough > lastGC + 100 then lastGC + 100 else oldEnough
  }

  /** What one reclamation is to delete, by what the client's head shows. It takes up where the last one
      recorded up to there left off, and stops before the limit only for having enough pointers, the last
      revision of which it needs to. It does nothing exactly if there is no revision to go over, or if there
      is nothing to delete in any that is old enough. */
  method PlanReclamation(h: seq<MD>, head: nat) returns (plan: Plan)
    requires head <= |h|
    ensures LatestOldEnough(h, head, OldEnough(h, head)) && LastRecorded(h, head, LastGC(h, head))
    ensures plan.Reclaim? ==>
      var from, limit := LastGC(h, head), Limit(OldEnough(h, head), LastGC(h, head));
      && from < plan.latestRev <= limit <= head && (exists k :: plan.latestRev <= k + 1 <= head && h[k].oldEnough)
      && plan.ptrs == Gathered(h, from, plan.latestRev)
      && (plan.latestRev < limit ==> |plan.ptrs| > 100)
      && forall r :: from < r < plan.latestRev ==> |Gathered(h, from, r)| <= 100
    ensures plan.Nothing? <==>
      || OldEnough(h, head) <= LastGC(h, head)
      || (OldEnough(h, head) <= LastGC(h, head) + 100
        && Gathered(h, LastGC(h, head), OldEnough(h, head)) == [])
  {
    hide LastRecorded, Gathered;
    var oldEnough, lastGC := GetMostRecentOldEnoughAndGCRevisions(h, head);
    if oldEnough == 0 || oldEnough <= lastGC {
      return Nothing;
    }
    assert h[oldEnough - 1].oldEnough;
    var shortened := false;
    if oldEnough - lastGC > MAX_REVISIONS_PER_QR {
      oldEnough := lastGC + MAX_REVISIONS_PER_QR;
      shortened := true;
    }
    var ptrs, latestRev, complete := GetUnreferencedBlocks(h, oldEnough, lastGC);
    if |ptrs| == 0 && !shortened {
      return Nothing;
    }
    GatheredSplit(h, lastGC, latestRev, oldEnough);
    return Reclaim(ptrs, latestRev);
  }
}
