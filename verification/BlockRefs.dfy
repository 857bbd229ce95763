/** References to blocks on the block server: how they are added, archived and removed, and what
    stays readable over whole runs of writes, archiving and quota reclamation. */
module BlockRefs {
  import opened Reclamation
  import opened Pointers

  datatype Status = Live | Archived

  // The references of every stored block.
  type Store = map<string, map<string, Status>>

  // The nonce of the reference a block is written with.
  const FIRST_NONCE := ""

  predicate HasRef(st: Store, p: BlockRef) {
    p.id in st && p.nonce in st[p.id]
  }

  predicate IsLive(st: Store, p: BlockRef) {
    HasRef(st, p) && st[p.id][p.nonce] == Live
  }

  function PutBlock(st: Store, id: string): Store {
    st[id := map[FIRST_NONCE := Live]]
  }

  predicate AnyLive(refs: map<string, Status>) {
    exists n :: n in refs && refs[n] == Live
  }

  function AddRef(st: Store, p: BlockRef): Option<Store> {
    if p.id in st && AnyLive(st[p.id]) then Some(st[p.id := st[p.id][p.nonce := Live]]) else None
  }

  function RemoveRef(st: Store, p: BlockRef): Store {
    if p.id !in st then st
    else if st[p.id] - {p.nonce} == map[] then st - {p.id} else st[p.id := st[p.id] - {p.nonce}]
  }

  function ArchiveRef(st: Store, p: BlockRef): Option<Store> {
    if HasRef(st, p) then Some(st[p.id := st[p.id][p.nonce := Archived]]) else None
  }

  // What is known of the reference is the same.
  ghost predicate SameRef(st: Store, st': Store, q: BlockRef) {
    HasRef(st', q) == HasRef(st, q) && IsLive(st', q) == IsLive(st, q)
  }

  lemma LiveRefs(st: Store, id: string)
    requires id in st
    ensures AnyLive(st[id]) <==> exists q: BlockRef :: q.id == id && IsLive(st, q)
  {
    if n :| n in st[id] && st[id][n] == Live {
      assert IsLive(st, BlockRef(id, n)) && BlockRef(id, n).id == id;
    }
    if q: BlockRef :| q.id == id && IsLive(st, q) {
      assert q.nonce in st[id];
    }
  }

  lemma RemoveIs(st: Store, p: BlockRef)
    ensures !HasRef(RemoveRef(st, p), p) && forall q :: q != p ==> SameRef(st, RemoveRef(st, p), q)
  {
    forall q | q != p ensures SameRef(st, RemoveRef(st, p), q) {
      RefsApart(st, p, q);
    }
  }

  // Whether some reference is not archived.
  method FindLive(refs: map<string, Status>) returns (found: bool)
    ensures found == AnyLive(refs)
  {
    var nonces := refs.Keys;
    while nonces != {}
      invariant nonces <= refs.Keys
      invariant forall n :: n in refs.Keys - nonces ==> refs[n] != Live
    {
      var n :| n in nonces;
      nonces := nonces - {n};
      if refs[n] == Live {
        return true;
      }
    }
    return false;
  }

  class MemStorage {
    var m: Store

    constructor ()
      ensures m == map[]
    {
      m := map[];
    }

    method Put(id: string)
      modifies this
      ensures m == PutBlock(old(m), id)
      ensures forall q: BlockRef :: HasRef(m, q) <==> if q.id == id then q.nonce == FIRST_NONCE else HasRef(old(m), q)
      ensures forall q: BlockRef :: IsLive(m, q) <==> if q.id == id then q.nonce == FIRST_NONCE else IsLive(old(m), q)
    {
      m := m[id := map[FIRST_NONCE := Live]];
    }

    // Adds a reference only where there still is one that is not archived.
    method AddReference(p: BlockRef) returns (ok: bool)
      modifies this
      ensures ok == AddRef(old(m), p).Some? && m == if ok then AddRef(old(m), p).value else old(m)
      ensures ok <==> exists q: BlockRef :: q.id == p.id && IsLive(old(m), q)
      ensures ok ==> IsLive(m, p) && forall q :: q != p ==> SameRef(old(m), m, q)
    {
      if p.id !in m {
        return false;
      }
      ok := FindLive(m[p.id]);
      LiveRefs(m, p.id);
      if ok {
        m := m[p.id := m[p.id][p.nonce := Live]];
      }
    }

    // Removes a reference, and the block with its last one; returns how many are left.
    method RemoveReference(p: BlockRef) returns (count: nat)
      modifies this
      ensures m == RemoveRef(old(m), p) && count == if p.id in m then |m[p.id]| else 0
      ensures !HasRef(m, p) && forall q :: q != p ==> SameRef(old(m), m, q)
      ensures p.id in m ==> m[p.id] != map[]
    {
      if p.id !in m {
        return 0;
      }
      RemoveIs(m, p);
      var refs := m[p.id] - {p.nonce};
      if |refs| == 0 {
        m := m - {p.id};
      } else {
        m := m[p.id := refs];
      }
      count := |refs|;
    }

    method ArchiveReference(p: BlockRef) returns (ok: bool)
      modifies this
      ensures ok == ArchiveRef(old(m), p).Some? && m == if ok then ArchiveRef(old(m), p).value else old(m)
      ensures ok == HasRef(old(m), p)
      ensures ok ==> HasRef(m, p) && !IsLive(m, p) && forall q :: q != p ==> SameRef(old(m), m, q)
    {
      ok := p.id in m && p.nonce in m[p.id];
      if ok {
        m := m[p.id := m[p.id][p.nonce := Archived]];
      }
    }
  }

  // Each operation touches one reference, and a block is there as long as it has any.
  lemma RefsApart(st: Store, p: BlockRef, q: BlockRef)
    requires p != q
    ensures HasRef(RemoveRef(st, p), q) == HasRef(st, q) && IsLive(RemoveRef(st, p), q) == IsLive(st, q)
    ensures !HasRef(RemoveRef(st, p), p)
    ensures AddRef(st, p).Some? ==>
      HasRef(AddRef(st, p).value, q) == HasRef(st, q) && IsLive(AddRef(st, p).value, q) == IsLive(st, q)
    ensures ArchiveRef(st, p).Some? ==>
      HasRef(ArchiveRef(st, p).value, q) == HasRef(st, q) && IsLive(ArchiveRef(st, p).value, q) == IsLive(st, q)
    ensures p.id !in st ==> HasRef(PutBlock(st, p.id), q) == (HasRef(st, q) || (q.id == p.id && q.nonce == FIRST_NONCE))
  {
  }

  // --- runs ----------------------------------------------------------------------------------------

  function NewOf(us: seq<RefUpdate>): set<BlockRef> {
    set u | u in us && u.ref != u.unref :: u.ref
  }

  function AddedBy(op: Op): set<BlockRef> {
    if op.GCOp? then {} else (set p | p in op.refs) + NewOf(op.updates)
  }

  function AddsOf(ops: seq<Op>): set<BlockRef> {
    if ops == [] then {} else AddsOf(ops[..|ops| - 1]) + AddedBy(ops[|ops| - 1])
  }

  // The pointers a revision brings in, and those it drops.
  function Adds(md: MD): set<BlockRef> {
    AddsOf(md.ops)
  }

  function Drops(md: MD): set<BlockRef> {
    set p | p in DroppedByAll(md.ops)
  }

  // All pointers dropped after lo up to hi.
  function DropsIn(h: seq<MD>, lo: nat, hi: nat): set<BlockRef>
    requires hi <= |h|
  {
    if hi <= lo then {} else Drops(h[hi - 1]) + DropsIn(h, lo, hi - 1)
  }

  // The pointers the folder uses as of revision r.
  function InUse(h: seq<MD>, r: nat): set<BlockRef>
    requires r <= |h|
  {
    if r == 0 then {} else InUse(h, r - 1) + Adds(h[r - 1]) - Drops(h[r - 1])
  }

  // The operation brings the pointer in: it references it, or replaces another one by it.
  ghost predicate BringsPtr(op: Op, p: BlockRef) {
    op.DataOp? && (p in op.refs || exists i :: 0 <= i < |op.updates| && op.updates[i].ref == p != op.updates[i].unref)
  }

  ghost predicate RevisionBrings(md: MD, p: BlockRef) {
    exists k :: 0 <= k < |md.ops| && BringsPtr(md.ops[k], p)
  }

  lemma BringsSnoc(ops: seq<Op>, op: Op, oldEnough: bool, p: BlockRef)
    ensures RevisionBrings(MD(ops + [op], oldEnough), p) <==> RevisionBrings(MD(ops, oldEnough), p) || BringsPtr(op, p)
  {
    hide BringsPtr;
    var md, md' := MD(ops + [op], oldEnough), MD(ops, oldEnough);
    assert md.ops[|ops|] == op;
    if RevisionBrings(md', p) {
      var k :| 0 <= k < |ops| && BringsPtr(md'.ops[k], p);
      assert md.ops[k] == md'.ops[k];
    }
  }

  lemma AddedIs(op: Op, p: BlockRef)
    ensures p in AddedBy(op) <==> BringsPtr(op, p)
  {
    if op.DataOp? {
      if u :| u in op.updates && u.ref != u.unref && u.ref == p {
        var i :| 0 <= i < |op.updates| && op.updates[i] == u;
        assert op.updates[i].ref == p != op.updates[i].unref;
      }
    }
  }

  lemma {:induction false} AddsIs(ops: seq<Op>, oldEnough: bool, p: BlockRef)
    ensures p in AddsOf(ops) <==> RevisionBrings(MD(ops, oldEnough), p)
  {
    if ops != [] {
      hide RevisionBrings, BringsPtr, AddedBy;
      var k := |ops| - 1;
      AddsIs(ops[..k], oldEnough, p);
      AddedIs(ops[k], p);
      BringsSnoc(ops[..k], ops[k], oldEnough, p);
      assert ops == ops[..k] + [ops[k]];
    } else {
      assert !RevisionBrings(MD(ops, oldEnough), p);
    }
  }

  // Revision k + 1 brings the pointer in, and none from then on up to r drops it.
  ghost predicate StaysIn(h: seq<MD>, k: nat, r: nat, p: BlockRef) {
    k < r <= |h| && RevisionBrings(h[k], p) && forall j :: k <= j < r ==> !RevisionDrops(h[j], p)
  }

  lemma StaysNext(h: seq<MD>, k: nat, r: nat, p: BlockRef)
    requires 0 < r <= |h|
    ensures StaysIn(h, k, r, p) <==>
      !RevisionDrops(h[r - 1], p) && if k == r - 1 then RevisionBrings(h[k], p) else StaysIn(h, k, r - 1, p)
  {
    hide RevisionBrings, RevisionDrops;
  }

  lemma InUseNext(h: seq<MD>, r: nat, p: BlockRef)
    requires 0 < r <= |h|
    ensures p in InUse(h, r) <==>
      (p in InUse(h, r - 1) || RevisionBrings(h[r - 1], p)) && !RevisionDrops(h[r - 1], p)
  {
    hide RevisionBrings, RevisionDrops, AddsOf, DroppedByAll;
    AddsIs(h[r - 1].ops, h[r - 1].oldEnough, p);
    DroppedIs(h[r - 1].ops, h[r - 1].oldEnough, p);
  }

  lemma {:induction false} BroughtIn(h: seq<MD>, r: nat, p: BlockRef) returns (k: nat)
    requires r <= |h| && p in InUse(h, r)
    ensures StaysIn(h, k, r, p)
  {
    hide RevisionBrings, RevisionDrops, StaysIn, InUse;
    NotBefore(h, 0, p);
    InUseNext(h, r, p);
    k := r - 1;
    if !RevisionBrings(h[k], p) { k := BroughtIn(h, r - 1, p); NotYet(h, r - 1, p); }
    StaysNext(h, k, r, p);
  }

  lemma {:induction false} StillIn(h: seq<MD>, k: nat, r: nat, p: BlockRef)
    requires r <= |h| && StaysIn(h, k, r, p)
    ensures p in InUse(h, r)
  {
    hide RevisionBrings, RevisionDrops, StaysIn, InUse;
    if r == 0 {
      NotBefore(h, k, p);
    } else {
      StaysNext(h, k, r, p);
      if k != r - 1 { StillIn(h, k, r - 1, p); }
      InUseNext(h, r, p);
    }
  }

  lemma NotYet(h: seq<MD>, r: nat, p: BlockRef)
    ensures !StaysIn(h, r, r, p)
  {
  }

  lemma NotBefore(h: seq<MD>, k: nat, p: BlockRef)
    ensures !StaysIn(h, k, 0, p) && p !in InUse(h, 0)
  {
  }

  /** A pointer is in use if and only if some operation brought it in, and none of that revision or a later
      one dropped it. */
  lemma InUseIs(h: seq<MD>, r: nat, p: BlockRef)
    requires r <= |h|
    ensures p in InUse(h, r) <==> exists k :: StaysIn(h, k, r, p)
  {
    hide StaysIn, InUse;
    if p in InUse(h, r) {
      var k := BroughtIn(h, r, p);
    }
    if k :| StaysIn(h, k, r, p) {
      StillIn(h, k, r, p);
    }
  }

  // A reclamation under way: the head its client had before it took the lock, what it took on, and
  // what it still has to delete.
  datatype GC = GC(head: nat, from: nat, to: nat, left: set<BlockRef>)

  // A reclamation recorded in revision rev.
  datatype Record = Record(head: nat, rev: nat, from: nat, to: nat)

  // `used` are all pointers ever made, `pending` those written but not in any revision, `top` the last
  // revision any reclamation has taken on, and `log` the reclamations recorded, in their order.
  datatype State = State(store: Store, h: seq<MD>, used: set<BlockRef>, pending: set<BlockRef>, gc: Option<GC>,
                         top: nat, log: seq<Record>)

  const INITIAL := State(map[], [], {}, {}, None, 0, [])

  datatype Step =
    | WriteBlock(id: string)
    | Refer(p: BlockRef)
    | Commit(md: MD)
    | Abandon(p: BlockRef)
    | Archive(rev: nat, p: BlockRef)
    | StartGC(head: nat, to: nat)
    | Delete(p: BlockRef)
    | FinishGC
    | GiveUpGC

  // Pointers are never made twice; a revision adds what was written for it and drops what is in
  // use; what is archived was dropped; a reclamation takes up where the last one recorded up to its
  // client's head left off, and that head may be out of date.
  ghost predicate Enabled(s: State, step: Step) {
    match step
    case WriteBlock(id) => forall p :: p in s.used ==> p.id != id
    case Refer(p) => p !in s.used
    case Commit(md) =>
      Adds(md) <= s.pending && Drops(md) <= InUse(s.h, |s.h|) + Adds(md) && forall op :: op in md.ops ==> op.DataOp?
    case Abandon(p) => p in s.pending
    case Archive(rev, p) => 0 < rev <= |s.h| && p in Drops(s.h[rev - 1])
    case StartGC(head, to) => s.gc == None && head <= |s.h| && LastGC(s.h, head) < to <= head
    case Delete(p) => s.gc.Some? && p in s.gc.value.left
    case FinishGC => s.gc.Some? && s.gc.value.left == {}
    case GiveUpGC => s.gc.Some?
  }

  function Do(s: State, step: Step): State
    requires step.StartGC? ==> step.to <= step.head <= |s.h|
    requires step.Delete? || step.FinishGC? ==> s.gc.Some?
  {
    match step
    case WriteBlock(id) =>
      var p := BlockRef(id, FIRST_NONCE);
      s.(store := PutBlock(s.store, id), used := s.used + {p}, pending := s.pending + {p})
    case Refer(p) =>
      var added := AddRef(s.store, p);
      if added.Some? then s.(store := added.value, used := s.used + {p}, pending := s.pending + {p}) else s
    case Commit(md) => s.(h := s.h + [md], pending := s.pending - Adds(md))
    case Abandon(p) => s.(store := RemoveRef(s.store, p), pending := s.pending - {p})
    case Archive(_, p) => if ArchiveRef(s.store, p).Some? then s.(store := ArchiveRef(s.store, p).value) else s
    case StartGC(head, to) =>
      var from := LastGC(s.h, head);
      s.(gc := Some(GC(head, from, to, set p | p in Gathered(s.h, from, to))), top := if to > s.top then to else s.top)
    case Delete(p) => s.(store := RemoveRef(s.store, p), gc := Some(s.gc.value.(left := s.gc.value.left - {p})))
    case FinishGC =>
      var gc := s.gc.value;
      var record := Record(gc.head, |s.h| + 1, gc.from, gc.to);
      s.(h := s.h + [MD([GCOp(gc.to)], false)], gc := None, log := s.log + [record])
    case GiveUpGC => s.(gc := None)
  }

  // The states a run goes through.
  ghost predicate Run(ss: seq<State>, steps: seq<Step>) {
    && |ss| == |steps| + 1 && ss[0] == INITIAL
    && forall i :: 0 <= i < |steps| ==> Enabled(ss[i], steps[i]) && ss[i + 1] == Do(ss[i], steps[i])
  }

  // --- what every run keeps --------------------------------------------------------------------------

  function AllAdds(h: seq<MD>): set<BlockRef> {
    if h == [] then {} else AllAdds(h[..|h| - 1]) + Adds(h[|h| - 1])
  }

  // Every pointer is brought in once, and dropped at most once, while in use.
  ghost predicate Bookkeeping(s: State) {
    && s.pending + AllAdds(s.h) <= s.used && s.pending !! AllAdds(s.h)
    && InUse(s.h, |s.h|) + DropsIn(s.h, 0, |s.h|) <= AllAdds(s.h) && InUse(s.h, |s.h|) !! DropsIn(s.h, 0, |s.h|)
    && (forall r :: 0 <= r <= |s.h| ==> DropsIn(s.h, 0, r) !! DropsIn(s.h, r, |s.h|))
    && (forall p :: HasRef(s.store, p) ==> p in s.used) && (forall id :: id in s.store ==> s.store[id] != map[])
  }

  // What is in use, or written for the next revision, is live; what was dropped after the last
  // revision any reclamation took on is still there; what was dropped before the end of any
  // reclamation recorded is gone.
  ghost predicate Kept(s: State) {
    && (forall p :: p in s.pending + InUse(s.h, |s.h|) ==> IsLive(s.store, p))
    && s.top <= |s.h| && (forall p :: p in DropsIn(s.h, s.top, |s.h|) ==> HasRef(s.store, p))
    && forall n :: 0 <= n <= |s.h| ==> GoneUpTo(s, LastGC(s.h, n))
  }

  ghost predicate GoneUpTo(s: State, n: nat) {
    n <= s.top && n <= |s.h| && forall p :: p in DropsIn(s.h, 0, n) ==> !HasRef(s.store, p)
  }

  // The reclamation under way started where the last one its client knew of ended.
  ghost predicate Reclaiming(s: State) {
    s.gc.Some? ==>
      var gc := s.gc.value;
      && gc.head <= |s.h| && gc.from == LastGC(s.h, gc.head) && gc.from < gc.to <= gc.head && gc.to <= s.top
      && gc.left <= DropsIn(s.h, gc.from, gc.to)
      && forall p :: p in DropsIn(s.h, gc.from, gc.to) - gc.left ==> !HasRef(s.store, p)
  }

  // How far the last reclamation went that is recorded up to revision n, or 0.
  function EndBefore(log: seq<Record>, n: nat): nat {
    if log == [] then 0
    else if log[|log| - 1].rev <= n then log[|log| - 1].to
    else EndBefore(log[..|log| - 1], n)
  }

  // The log lists the reclamations of the history.
  ghost predicate Logged(h: seq<MD>, log: seq<Record>) {
    && (forall n :: 0 <= n <= |h| ==> LastGC(h, n) == EndBefore(log, n))
    && (forall k :: 0 <= k < |log| ==> RecordOk(log, k) && log[k].rev <= |h|)
    && Increasing(log)
  }

  ghost predicate Increasing(log: seq<Record>) {
    forall j, k :: 0 <= j < k < |log| ==> log[j].rev < log[k].rev
  }

  ghost predicate RecordOk(log: seq<Record>, k: nat)
    requires k < |log|
  {
    var r := log[k];
    r.from == EndBefore(log, r.head) && r.from < r.to <= r.head < r.rev
  }

  ghost predicate Inv(s: State) {
    Bookkeeping(s) && Kept(s) && Reclaiming(s) && Logged(s.h, s.log)
  }

  lemma {:induction false} DropsSplit(h: seq<MD>, lo: nat, mid: nat, hi: nat)
    requires lo <= mid <= hi <= |h|
    ensures DropsIn(h, lo, hi) == DropsIn(h, lo, mid) + DropsIn(h, mid, hi)
    decreases hi
  {
    if mid < hi { DropsSplit(h, lo, mid, hi - 1); }
  }

  lemma {:induction false} Before(h: seq<MD>, md: MD, lo: nat, n: nat)
    requires n <= |h|
    ensures DropsIn(h + [md], lo, n) == DropsIn(h, lo, n) && InUse(h + [md], n) == InUse(h, n)
    ensures LastGC(h + [md], n) == LastGC(h, n)
  {
    hide Drops, Adds, LastGCIn;
    if n > 0 { Before(h, md, lo, n - 1); }
  }

  lemma {:induction false} NoGC(ops: seq<Op>)
    requires forall op :: op in ops ==> op.DataOp?
    ensures LastGCIn(ops) == 0
  {
    if ops != [] {
      assert ops[|ops| - 1] in ops;
      NoGC(ops[..|ops| - 1]);
    }
  }

  lemma {:induction false} GatheredDrops(h: seq<MD>, lo: nat, hi: nat, p: BlockRef)
    requires hi <= |h|
    ensures p in Gathered(h, lo, hi) <==> p in DropsIn(h, lo, hi)
    decreases hi
  {
    hide DroppedByAll;
    if lo < hi { GatheredDrops(h, lo, hi - 1, p); }
  }

  // A step that only touches the reference p, which is not dropped from anything in use.
  lemma KeepsStore(s: State, s': State, p: BlockRef)
    requires Inv(s) && s'.h == s.h && s'.top == s.top && s'.gc == s.gc && s'.log == s.log && s'.used == s.used + {p}
    requires s'.pending == s.pending + {p} || s'.pending == s.pending - {p}
    requires p !in AllAdds(s.h) && (p in s'.pending ==> IsLive(s'.store, p))
    requires forall q :: q != p ==>
      HasRef(s'.store, q) == HasRef(s.store, q) && IsLive(s'.store, q) == IsLive(s.store, q)
    requires forall id :: id in s'.store ==> s'.store[id] != map[]
    ensures Inv(s')
  {
    hide InUse, DropsIn, LastGC, AllAdds, HasRef, IsLive, Logged;
    WithinAdds(s, s.top, s.top);
    if s.gc.Some? { WithinAdds(s, s.gc.value.from, s.gc.value.to); }
    forall n | 0 <= n <= |s.h| ensures GoneUpTo(s', LastGC(s.h, n)) {
      WithinAdds(s, LastGC(s.h, n), s.top);
    }
  }

  lemma WithinAdds(s: State, lo: nat, hi: nat)
    requires Inv(s) && lo <= hi <= |s.h|
    ensures DropsIn(s.h, lo, hi) <= AllAdds(s.h) && DropsIn(s.h, 0, lo) <= AllAdds(s.h)
    ensures DropsIn(s.h, hi, |s.h|) <= AllAdds(s.h)
  {
    hide InUse, DropsIn, LastGC, AllAdds, HasRef, IsLive, Logged;
    DropsSplit(s.h, 0, lo, |s.h|);
    DropsSplit(s.h, lo, hi, |s.h|);
  }

  lemma StoredUsed(s: State, id: string)
    requires Bookkeeping(s) && id in s.store
    ensures exists p :: p in s.used && p.id == id
  {
    var n :| n in s.store[id];
    assert HasRef(s.store, BlockRef(id, n)) && BlockRef(id, n).id == id;
  }

  lemma KeepsWrite(s: State, id: string)
    requires Inv(s) && Enabled(s, WriteBlock(id))
    ensures Inv(Do(s, WriteBlock(id)))
  {
    hide InUse, DropsIn, LastGC, AllAdds, Logged, Kept, Reclaiming;
    var p := BlockRef(id, FIRST_NONCE);
    if id in s.store {
      StoredUsed(s, id);
      assert false;
    }
    KeepsStore(s, Do(s, WriteBlock(id)), p);
  }

  lemma KeepsRefer(s: State, p: BlockRef)
    requires Inv(s) && Enabled(s, Refer(p))
    ensures Inv(Do(s, Refer(p)))
  {
    hide InUse, DropsIn, LastGC, AllAdds, Logged, Kept, Reclaiming;
    if AddRef(s.store, p).Some? {
      KeepsStore(s, Do(s, Refer(p)), p);
    }
  }

  lemma KeepsAbandon(s: State, p: BlockRef)
    requires Inv(s) && Enabled(s, Abandon(p))
    ensures Inv(Do(s, Abandon(p)))
  {
    hide InUse, DropsIn, LastGC, AllAdds, Logged, Kept, Reclaiming;
    forall q | q != p
      ensures HasRef(RemoveRef(s.store, p), q) == HasRef(s.store, q)
      ensures IsLive(RemoveRef(s.store, p), q) == IsLive(s.store, q)
    {
      RefsApart(s.store, p, q);
    }
    KeepsStore(s, Do(s, Abandon(p)), p);
  }

  lemma DroppedSomewhere(h: seq<MD>, rev: nat, p: BlockRef)
    requires 0 < rev <= |h| && p in Drops(h[rev - 1])
    ensures p in DropsIn(h, 0, |h|)
  {
    hide Drops;
    DropsSplit(h, 0, rev - 1, |h|);
    DropsSplit(h, rev - 1, rev, |h|);
  }

  lemma KeepsArchive(s: State, rev: nat, p: BlockRef)
    requires Inv(s) && Enabled(s, Archive(rev, p))
    ensures Inv(Do(s, Archive(rev, p)))
  {
    hide InUse, LastGC, AllAdds, Logged, DropsIn, Drops;
    var s' := Do(s, Archive(rev, p));
    DroppedSomewhere(s.h, rev, p);
    forall q
      ensures HasRef(s'.store, q) == HasRef(s.store, q) && (q != p ==> IsLive(s'.store, q) == IsLive(s.store, q))
    {
    }
  }

  lemma KeepsDelete(s: State, p: BlockRef)
    requires Inv(s) && Enabled(s, Delete(p))
    ensures Inv(Do(s, Delete(p)))
  {
    hide InUse, LastGC, AllAdds, Logged, DropsIn;
    var s', gc := Do(s, Delete(p)), s.gc.value;
    forall q | q != p
      ensures HasRef(s'.store, q) == HasRef(s.store, q) && IsLive(s'.store, q) == IsLive(s.store, q)
      ensures !HasRef(s'.store, p)
    {
      RefsApart(s.store, p, q);
    }
    DropsSplit(s.h, 0, gc.from, s.top);
    DropsSplit(s.h, gc.from, gc.to, s.top);
    DropsSplit(s.h, 0, s.top, |s.h|);
  }

  lemma KeepsStart(s: State, head: nat, to: nat)
    requires Inv(s) && Enabled(s, StartGC(head, to))
    ensures Inv(Do(s, StartGC(head, to)))
  {
    hide InUse, AllAdds, Logged, DropsIn, HasRef, IsLive, Gathered, LastGC;
    var s' := Do(s, StartGC(head, to));
    forall p ensures p in s'.gc.value.left <==> p in DropsIn(s.h, LastGC(s.h, head), to) {
      GatheredDrops(s.h, LastGC(s.h, head), to, p);
    }
    DropsSplit(s.h, s.top, s'.top, |s.h|);
    forall n | 0 <= n <= |s.h| ensures GoneUpTo(s', LastGC(s.h, n)) {
      assert GoneUpTo(s, LastGC(s.h, n));
    }
  }

  // A new revision: nothing about earlier ones changes.
  lemma NextRevision(h: seq<MD>, md: MD, lo: nat)
    requires lo <= |h|
    ensures DropsIn(h + [md], lo, |h| + 1) == DropsIn(h, lo, |h|) + Drops(md)
    ensures InUse(h + [md], |h| + 1) == InUse(h, |h|) + Adds(md) - Drops(md)
    ensures AllAdds(h + [md]) == AllAdds(h) + Adds(md)
    ensures LastGC(h + [md], |h| + 1) == if LastGCIn(md.ops) != 0 then LastGCIn(md.ops) else LastGC(h, |h|)
  {
    hide Drops, Adds, LastGCIn;
    Before(h, md, lo, |h|);
    assert (h + [md])[..|h|] == h;
  }

  lemma BookNext(s: State, md: MD)
    requires Bookkeeping(s) && Adds(md) <= s.pending && Drops(md) <= InUse(s.h, |s.h|) + Adds(md)
    ensures Bookkeeping(s.(h := s.h + [md], pending := s.pending - Adds(md)))
  {
    hide Drops, Adds, DropsIn, InUse, AllAdds, HasRef;
    var h := s.h + [md];
    NextRevision(s.h, md, 0);
    forall r | 0 <= r <= |h| ensures DropsIn(h, 0, r) !! DropsIn(h, r, |h|) {
      if r <= |s.h| {
        NextRevision(s.h, md, r);
        Before(s.h, md, 0, r);
        DropsSplit(s.h, 0, r, |s.h|);
      } else {
        NoDrops(h, |h|);
      }
    }
  }

  lemma NoDrops(h: seq<MD>, n: nat)
    requires n <= |h|
    ensures DropsIn(h, n, n) == {}
  {
  }

  // What was gone stays gone as revisions are added.
  lemma GoneNext(s: State, s': State, md: MD, n: nat)
    requires GoneUpTo(s, n) && s'.h == s.h + [md] && s'.top == s.top && s'.store == s.store
    ensures GoneUpTo(s', n)
  {
    hide DropsIn, HasRef;
    Before(s.h, md, 0, n);
  }

  lemma LoggedData(h: seq<MD>, log: seq<Record>, md: MD)
    requires Logged(h, log) && LastGCIn(md.ops) == 0
    ensures Logged(h + [md], log)
  {
    hide LastGC, LastGCIn, EndBefore, RecordOk, Increasing, Drops, Adds, DropsIn, InUse, AllAdds;
    NextRevision(h, md, 0);
    forall n | 0 <= n <= |h| ensures LastGC(h + [md], n) == LastGC(h, n) {
      Before(h, md, 0, n);
    }
    EndUnchanged(log, |h|, |h| + 1);
  }

  lemma {:induction false} EndUnchanged(log: seq<Record>, n: nat, m: nat)
    requires n <= m && forall k :: 0 <= k < |log| ==> log[k].rev <= n
    ensures EndBefore(log, m) == EndBefore(log, n)
  {
  }

  lemma {:induction false} EndExtended(log: seq<Record>, r: Record, n: nat)
    requires n < r.rev
    ensures EndBefore(log + [r], n) == EndBefore(log, n)
  {
    assert (log + [r])[..|log|] == log;
  }

  lemma LoggedRecord(h: seq<MD>, log: seq<Record>, md: MD, r: Record)
    requires Logged(h, log) && LastGCIn(md.ops) == r.to && r.rev == |h| + 1
    requires r.head <= |h| && r.from == LastGC(h, r.head) && r.from < r.to <= r.head
    ensures Logged(h + [md], log + [r])
  {
    hide LastGC, LastGCIn, EndBefore, RecordOk, Increasing, Drops, Adds, DropsIn, InUse, AllAdds;
    var log' := log + [r];
    NextRevision(h, md, 0);
    forall n | 0 <= n <= |h| ensures LastGC(h + [md], n) == LastGC(h, n) == EndBefore(log', n) {
      Before(h, md, 0, n);
      EndExtended(log, r, n);
    }
    LastEnd(log, r);
    forall k | 0 <= k < |log'| ensures RecordOk(log', k) && log'[k].rev <= |h| + 1 {
      if k < |log| { RecordKept(log, r, k); } else { NewRecord(log, r); }
    }
    IncreasingNext(log, r);
  }

  lemma NewRecord(log: seq<Record>, r: Record)
    requires r.from == EndBefore(log, r.head) && r.from < r.to <= r.head < r.rev
    ensures RecordOk(log + [r], |log|)
  {
    hide EndBefore;
    EndExtended(log, r, r.head);
  }

  lemma IncreasingNext(log: seq<Record>, r: Record)
    requires Increasing(log) && forall k :: 0 <= k < |log| ==> log[k].rev < r.rev
    ensures Increasing(log + [r])
  {
  }

  lemma RecordKept(log: seq<Record>, r: Record, k: nat)
    requires k < |log| && RecordOk(log, k) && log[k].rev < r.rev
    ensures RecordOk(log + [r], k)
  {
    hide EndBefore;
    EndExtended(log, r, log[k].head);
  }

  lemma LastEnd(log: seq<Record>, r: Record)
    ensures EndBefore(log + [r], r.rev) == r.to
  {
  }

  lemma KeepsCommit(s: State, md: MD)
    requires Inv(s) && Enabled(s, Commit(md))
    ensures Inv(Do(s, Commit(md)))
  {
    hide Drops, Adds, DropsIn, InUse, AllAdds, HasRef, LastGC, LastGCIn, Bookkeeping, Logged, GoneUpTo;
    var s' := Do(s, Commit(md));
    NoGC(md.ops);
    BookNext(s, md);
    LoggedData(s.h, s.log, md);
    NextRevision(s.h, md, s.top);
    forall n | 0 <= n <= |s'.h| ensures GoneUpTo(s', LastGC(s'.h, n)) {
      if n <= |s.h| { Before(s.h, md, 0, n); }
      GoneNext(s, s', md, LastGC(s'.h, n));
    }
    if s.gc.Some? {
      Before(s.h, md, s.gc.value.from, s.gc.value.to);
      Before(s.h, md, 0, s.gc.value.head);
    }
    forall p | IsLive(s.store, p) ensures HasRef(s.store, p) {
    }
  }

  lemma Recorded(to: nat)
    ensures Adds(MD([GCOp(to)], false)) == {} && Drops(MD([GCOp(to)], false)) == {} && LastGCIn([GCOp(to)]) == to
  {
    assert AddsOf([GCOp(to)]) == AddsOf([]) + {};
    assert DroppedByAll([GCOp(to)]) == DroppedByAll([]) + [];
  }

  lemma KeepsFinish(s: State)
    requires Inv(s) && Enabled(s, FinishGC)
    ensures Inv(Do(s, FinishGC))
  {
    hide Drops, Adds, DropsIn, InUse, AllAdds, HasRef, IsLive, LastGC, LastGCIn, Bookkeeping, Logged, GoneUpTo;
    var s', gc, md := Do(s, FinishGC), s.gc.value, MD([GCOp(s.gc.value.to)], false);
    Recorded(gc.to);
    BookNext(s, md);
    BookAlso(s.(h := s.h + [md], pending := s.pending - Adds(md)), None, s'.log);
    assert s'.pending == s.pending - Adds(md);
    LoggedRecord(s.h, s.log, md, Record(gc.head, |s.h| + 1, gc.from, gc.to));
    NextRevision(s.h, md, s.top);
    GoneAll(s);
    forall n | 0 <= n <= |s'.h| ensures GoneUpTo(s', LastGC(s'.h, n)) {
      if n <= |s.h| { Before(s.h, md, 0, n); }
      GoneNext(s, s', md, LastGC(s'.h, n));
    }
  }

  // A finished reclamation has deleted all up to its end.
  lemma GoneAll(s: State)
    requires Kept(s) && Reclaiming(s) && s.gc.Some? && s.gc.value.left == {}
    ensures GoneUpTo(s, s.gc.value.to)
  {
    hide DropsIn, InUse, HasRef, IsLive, LastGC;
    var gc := s.gc.value;
    assert GoneUpTo(s, LastGC(s.h, gc.head));
    DropsSplit(s.h, 0, gc.from, gc.to);
  }

  lemma BookAlso(s: State, gc: Option<GC>, log: seq<Record>)
    requires Bookkeeping(s)
    ensures Bookkeeping(s.(gc := gc, log := log))
  {
  }

  lemma Keeps(s: State, step: Step)
    requires Inv(s) && Enabled(s, step)
    ensures Inv(Do(s, step))
  {
    hide Inv, Enabled, Do;
    match step
    case WriteBlock(id) => KeepsWrite(s, id);
    case Refer(p) => KeepsRefer(s, p);
    case Commit(md) => KeepsCommit(s, md);
    case Abandon(p) => KeepsAbandon(s, p);
    case Archive(rev, p) => KeepsArchive(s, rev, p);
    case StartGC(head, to) => KeepsStart(s, head, to);
    case Delete(p) => KeepsDelete(s, p);
    case FinishGC => KeepsFinish(s);
    case GiveUpGC => KeepsGiveUp(s);
  }

  lemma KeepsGiveUp(s: State)
    requires Inv(s) && Enabled(s, GiveUpGC)
    ensures Inv(Do(s, GiveUpGC))
  {
    hide DropsIn, InUse, AllAdds, HasRef, IsLive, LastGC, Logged, Bookkeeping;
    BookAlso(s, None, s.log);
  }

  lemma {:induction false} Runs(ss: seq<State>, steps: seq<Step>, i: nat)
    requires Run(ss, steps) && i < |ss|
    ensures Inv(ss[i])
  {
    hide Inv, Enabled, Do;
    if i > 0 {
      Runs(ss, steps, i - 1);
      NextState(ss, steps, i - 1);
      Keeps(ss[i - 1], steps[i - 1]);
    } else {
      InitialOk();
    }
  }

  lemma InitialOk()
    ensures Inv(INITIAL)
  {
  }

  lemma NextState(ss: seq<State>, steps: seq<Step>, k: nat)
    requires Run(ss, steps) && k + 1 < |ss|
    ensures k < |steps| && Enabled(ss[k], steps[k]) && ss[k + 1] == Do(ss[k], steps[k])
  {
    hide Enabled, Do;
  }

  /** In every state of every run: all pointers in use now are live on the server, all pointers in use
      as of any revision no reclamation has taken on are still there, and all pointers dropped up to the
      end of any reclamation recorded are gone. */
  lemma ReferencesStayLive(ss: seq<State>, steps: seq<Step>, i: nat, r: nat)
    requires Run(ss, steps) && i < |ss| && r <= |ss[i].h|
    ensures var s := ss[i];
      && (forall p :: p in InUse(s.h, |s.h|) ==> IsLive(s.store, p) && p.id in s.store)
      && (s.top <= r ==> forall p :: p in InUse(s.h, r) ==> HasRef(s.store, p) && p.id in s.store)
      && (forall k :: 0 <= k < |s.log| ==> GoneUpTo(s, s.log[k].to))
  {
    hide Run, Enabled, Do, DropsIn, InUse, LastGC, Bookkeeping, Reclaiming, GoneUpTo;
    var s := ss[i];
    Runs(ss, steps, i);
    forall p | p in InUse(s.h, r) ensures p in InUse(s.h, |s.h|) || p in DropsIn(s.h, r, |s.h|) {
      StillOrDropped(s.h, r, |s.h|, p);
    }
    if s.top <= r { DropsSplit(s.h, s.top, r, |s.h|); }
    forall k | 0 <= k < |s.log| ensures GoneUpTo(s, s.log[k].to) {
      EndAt(s.log, k, s.log[k].rev);
      assert GoneUpTo(s, LastGC(s.h, s.log[k].rev));
    }
  }

  // No step makes a reference live that was made before.
  lemma StaysDead(s: State, step: Step, p: BlockRef)
    requires Enabled(s, step) && p in s.used && !IsLive(s.store, p)
    ensures p in Do(s, step).used && !IsLive(Do(s, step).store, p)
  {
    match step
    case WriteBlock(id) =>
    case Refer(q) => RefsApart(s.store, q, p);
    case Abandon(q) => if q != p { RefsApart(s.store, q, p); }
    case Archive(_, q) => if q != p { RefsApart(s.store, q, p); }
    case Delete(q) => if q != p { RefsApart(s.store, q, p); }
    case _ =>
  }

  /** A reference that was archived is never live again, in whatever way the run goes on. */
  lemma {:induction false} ArchivedForGood(ss: seq<State>, steps: seq<Step>, j: nat, k: nat)
    requires Run(ss, steps) && j < k < |ss| && steps[j].Archive?
    ensures steps[j].p in ss[k].used && !IsLive(ss[k].store, steps[j].p)
  {
    hide Run, Enabled, Do, Inv, Bookkeeping;
    if k == j + 1 {
      Runs(ss, steps, j);
      NextState(ss, steps, j);
      ArchivedNow(ss[j], steps[j]);
    } else {
      ArchivedForGood(ss, steps, j, k - 1);
      NextState(ss, steps, k - 1);
      StaysDead(ss[k - 1], steps[k - 1], steps[j].p);
    }
  }

  lemma ArchivedNow(s: State, step: Step)
    requires Inv(s) && Enabled(s, step) && step.Archive?
    ensures step.p in Do(s, step).used && !IsLive(Do(s, step).store, step.p)
  {
    DroppedSomewhere(s.h, step.rev, step.p);
  }

  lemma {:induction false} StillOrDropped(h: seq<MD>, r: nat, n: nat, p: BlockRef)
    requires r <= n <= |h| && p in InUse(h, r)
    ensures p in InUse(h, n) || p in DropsIn(h, r, n)
    decreases n
  {
    hide Drops, Adds;
    if r < n { StillOrDropped(h, r, n - 1, p); }
  }

  // --- how the reclamations recorded lie side by side ---------------------------------------------------

  // Record k is the last one up to revision n.
  lemma {:induction false} EndAt(log: seq<Record>, k: nat, n: nat)
    requires Increasing(log) && k < |log| && log[k].rev <= n && (k + 1 < |log| ==> n < log[k + 1].rev)
    ensures EndBefore(log, n) == log[k].to
  {
    if k < |log| - 1 {
      var front := log[..|log| - 1];
      assert forall j, l :: 0 <= j < l < |front| ==> front[j].rev < front[l].rev;
      EndAt(front, k, n);
    }
  }

  // What is found is the end of some record up to revision n, or nothing.
  lemma {:induction false} EndFound(log: seq<Record>, n: nat) returns (k: int)
    ensures -1 <= k < |log|
    ensures if k == -1 then EndBefore(log, n) == 0 else log[k].rev <= n && EndBefore(log, n) == log[k].to
    ensures forall j :: k < j < |log| ==> n < log[j].rev
  {
    if log == [] { return -1; }
    if log[|log| - 1].rev <= n { return |log| - 1; }
    k := EndFound(log[..|log| - 1], n);
  }

  function LastTo(log: seq<Record>, k: nat): nat
    requires k <= |log|
  {
    if k == 0 then 0 else log[k - 1].to
  }

  // Each reclamation starts where the one recorded before it ended: no gap and no overlap.
  ghost predicate Tiled(log: seq<Record>) {
    forall k :: 0 <= k < |log| ==> log[k].from == LastTo(log, k)
  }

  // Reclamation k starts at the beginning or where an earlier one ended.
  ghost predicate StartsAtEnd(log: seq<Record>, k: nat)
    requires k < |log|
  {
    exists j :: 0 <= j <= k && log[k].from == LastTo(log, j)
  }

  // No reclamation was recorded after the head this one went by.
  ghost predicate UpToDate(log: seq<Record>, k: nat)
    requires k < |log|
  {
    forall j :: 0 <= j < k ==> log[j].rev <= log[k].head
  }

  lemma {:induction false} EndsGrow(log: seq<Record>, j: nat, k: nat)
    requires Tiled(log) && j < k <= |log| && forall i :: 0 <= i < |log| ==> RecordOk(log, i)
    ensures LastTo(log, j) < LastTo(log, k)
    decreases k
  {
    hide RecordOk, LastTo;
    if j < k - 1 { EndsGrow(log, j, k - 1); }
    EndGrows(log, k - 1);
  }

  lemma EndGrows(log: seq<Record>, k: nat)
    requires k < |log| && log[k].from == LastTo(log, k) && RecordOk(log, k)
    ensures LastTo(log, k) < LastTo(log, k + 1)
  {
  }

  lemma TiledUpToDate(log: seq<Record>, k: nat)
    requires Increasing(log) && Tiled(log) && k < |log| && forall i :: 0 <= i < |log| ==> RecordOk(log, i)
    ensures UpToDate(log, k)
  {
    hide EndBefore, Tiled;
    assert RecordOk(log, k);
    var m := EndFound(log, log[k].head);
    TiledAt(log, k);
    if m + 1 < k { EndsGrow(log, m + 1, k); }
    UpTo(log, m, k);
  }

  lemma TiledAt(log: seq<Record>, k: nat)
    requires Tiled(log) && k < |log|
    ensures log[k].from == LastTo(log, k)
  {
  }

  lemma UpTo(log: seq<Record>, m: int, k: nat)
    requires Increasing(log) && -1 <= m < |log| && k < |log| && k <= m + 1 && (m >= 0 ==> log[m].rev <= log[k].head)
    ensures UpToDate(log, k)
  {
  }

  lemma UpToDateTiled(log: seq<Record>, k: nat)
    requires Increasing(log) && k < |log| && RecordOk(log, k) && UpToDate(log, k)
    ensures log[k].from == LastTo(log, k)
  {
    if k > 0 {
      EndAt(log, k - 1, log[k].head);
    } else {
      var m := EndFound(log, log[0].head);
      assert m == -1;
    }
  }

  /** Over every run: each reclamation recorded starts where the one recorded before it ended if and only
      if none of them went by a head that another one was recorded after. Even otherwise nothing is left
      out between them: each starts at the beginning or where one recorded earlier ended. */
  lemma ReclamationsTile(ss: seq<State>, steps: seq<Step>, i: nat)
    requires Run(ss, steps) && i < |ss|
    ensures var log := ss[i].log;
      && (Tiled(log) <==> forall k :: 0 <= k < |log| ==> UpToDate(log, k))
      && (forall k :: 0 <= k < |log| ==> log[k].from < log[k].to <= log[k].head < log[k].rev <= |ss[i].h|)
      && (forall k :: 0 <= k < |log| ==> StartsAtEnd(log, k))
      && (forall n :: 0 <= n <= |ss[i].h| ==> LastGC(ss[i].h, n) == EndBefore(log, n))
  {
    Runs(ss, steps, i);
    hide Run, Bookkeeping, Kept, Reclaiming, LastGC, EndBefore, UpToDate, Increasing, LastTo, StartsAtEnd;
    var log := ss[i].log;
    if Tiled(log) {
      forall k | 0 <= k < |log| ensures UpToDate(log, k) {
        TiledUpToDate(log, k);
      }
    }
    if forall k :: 0 <= k < |log| ==> UpToDate(log, k) {
      forall k | 0 <= k < |log| ensures log[k].from == LastTo(log, k) {
        UpToDateTiled(log, k);
      }
    }
    forall k | 0 <= k < |log| ensures StartsAtEnd(log, k) {
      assert RecordOk(log, k);
      StartsSomewhere(log, k);
    }
  }

  lemma StartsSomewhere(log: seq<Record>, k: nat)
    requires Increasing(log) && k < |log| && RecordOk(log, k)
    ensures StartsAtEnd(log, k)
  {
    hide EndBefore;
    var m := EndFound(log, log[k].head);
    assert m < k;
    assert log[k].from == LastTo(log, m + 1);
  }

  // A block is written, then dropped.
  lemma DroppedRun() returns (ss: seq<State>, steps: seq<Step>)
    ensures Run(ss, steps) && |steps| == 3 && ss[3].h == WrittenAndDropped() && ss[3].gc == None && ss[3].log == []
  {
    hide Drops;
    var p := BlockRef("a", FIRST_NONCE);
    Ledger();
    var s0 := INITIAL;
    var s1 := Do(s0, WriteBlock("a"));
    var s2 := Do(s1, Commit(WrittenAndDropped()[0]));
    var s3 := Do(s2, Commit(WrittenAndDropped()[1]));
    assert InUse(s2.h, 1) == InUse(s2.h, 0) + {p};
    ss, steps := [s0, s1, s2, s3], [WriteBlock("a"), Commit(WrittenAndDropped()[0]), Commit(WrittenAndDropped()[1])];
  }

  function WrittenAndDropped(): seq<MD> {
    var p := BlockRef("a", FIRST_NONCE);
    [MD([DataOp([p], [], [])], true), MD([DataOp([], [p], [])], true)]
  }

  lemma Ledger()
    ensures var p, h := BlockRef("a", FIRST_NONCE), WrittenAndDropped();
      && Adds(h[0]) == {p} && Drops(h[0]) == {} && Adds(h[1]) == {} && Drops(h[1]) == {p}
      && DroppedByAll(h[0].ops) == [] && DroppedByAll(h[1].ops) == [p]
      && LastGCIn(h[0].ops) == 0 && LastGCIn(h[1].ops) == 0
  {
    var p := BlockRef("a", FIRST_NONCE);
    assert AddsOf([DataOp([p], [], [])]) == AddsOf([]) + AddedBy(DataOp([p], [], []));
    assert AddsOf([DataOp([], [p], [])]) == AddsOf([]) + AddedBy(DataOp([], [p], []));
    assert DroppedByAll([DataOp([p], [], [])]) == DroppedByAll([]) + DroppedBy(DataOp([p], [], []));
    assert DroppedByAll([DataOp([], [p], [])]) == DroppedByAll([]) + DroppedBy(DataOp([], [p], []));
  }

  lemma OneMore(ss: seq<State>, steps: seq<Step>, step: Step)
    requires Run(ss, steps) && Enabled(ss[|ss| - 1], step)
    ensures Run(ss + [Do(ss[|ss| - 1], step)], steps + [step])
  {
    hide Do, InUse, LastGC, Adds, Drops;
    var ss', steps' := ss + [Do(ss[|ss| - 1], step)], steps + [step];
    forall k | 0 <= k < |steps'| ensures Enabled(ss'[k], steps'[k]) && ss'[k + 1] == Do(ss'[k], steps'[k]) {
      if k < |steps| { NextState(ss, steps, k); }
    }
  }

  // One reclamation of revisions 1 and 2 by a client whose head is revision 2, whatever came later.
  lemma Reclaimed(ss: seq<State>, steps: seq<Step>) returns (ss': seq<State>, steps': seq<Step>)
    requires Run(ss, steps) && ss[|ss| - 1].gc == None && WrittenAndDropped() <= ss[|ss| - 1].h
    ensures Run(ss', steps') && |ss'| == |ss| + 3 && ss'[|ss'| - 1].gc == None
    ensures ss'[|ss'| - 1].h == ss[|ss| - 1].h + [MD([GCOp(2)], false)]
    ensures ss'[|ss'| - 1].log == ss[|ss| - 1].log + [Record(2, |ss[|ss| - 1].h| + 1, 0, 2)]
  {
    hide LastGC, Gathered, RemoveRef, LastGCIn;
    var p, s := BlockRef("a", FIRST_NONCE), ss[|ss| - 1];
    TwoGathered(s.h);
    var s1 := Do(s, StartGC(2, 2));
    var s2 := Do(s1, Delete(p));
    var s3 := Do(s2, FinishGC);
    OneMore(ss, steps, StartGC(2, 2));
    OneMore(ss + [s1], steps + [StartGC(2, 2)], Delete(p));
    OneMore(ss + [s1] + [s2], steps + [StartGC(2, 2)] + [Delete(p)], FinishGC);
    ss', steps' := ss + [s1] + [s2] + [s3], steps + [StartGC(2, 2)] + [Delete(p)] + [FinishGC];
  }

  lemma TwoGathered(h: seq<MD>)
    requires WrittenAndDropped() <= h
    ensures LastGC(h, 2) == 0 && Gathered(h, 0, 2) == [BlockRef("a", FIRST_NONCE)]
  {
    Ledger();
    hide LastGCIn, DroppedByAll;
    assert h[0] == WrittenAndDropped()[0] && h[1] == WrittenAndDropped()[1];
    assert Gathered(h, 0, 1) == DroppedByAll(h[0].ops) + Gathered(h, 0, 0);
    assert Gathered(h, 0, 2) == DroppedByAll(h[1].ops) + Gathered(h, 0, 1);
    assert LastGC(h, 1) == LastGC(h, 0);
  }

  /** Two clients at revision 2 reclaim the same revisions, the second one by a head that does not show
      it the first one's record: the two do not lie side by side. */
  lemma OverlappingRun() returns (ss: seq<State>, steps: seq<Step>)
    ensures Run(ss, steps) && !Tiled(ss[|ss| - 1].log)
    ensures ss[|ss| - 1].log == [Record(2, 3, 0, 2), Record(2, 4, 0, 2)]
  {
    hide Run;
    ss, steps := DroppedRun();
    RunLength(ss, steps);
    ss, steps := Reclaimed(ss, steps);
    ss, steps := Reclaimed(ss, steps);
    var log := ss[|ss| - 1].log;
    assert log[1].from != LastTo(log, 1);
  }

  lemma RunLength(ss: seq<State>, steps: seq<Step>)
    requires Run(ss, steps)
    ensures |ss| == |steps| + 1
  {
  }
}
