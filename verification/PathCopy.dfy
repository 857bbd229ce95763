/** Writing a changed block back up to the root: every directory on the way is copied under a new
    pointer, stored blocks are never touched, and directories several calls share are kept in a
    local block cache until their last change. */
module PathCopy {
  import opened Merkle
  import opened Pointers

  class DirBlock {
    var kids: Kids

    constructor (kids: Kids)
      ensures this.kids == kids
    {
      this.kids := kids;
    }
  }

  datatype NewBlock = NewFile(data: seq<int>) | NewDir(block: DirBlock)

  datatype Outcome = Done | NoSuchName | NotFile

  ghost function Unrefs(us: seq<Update>): seq<Ptr> {
    seq(|us|, i requires 0 <= i < |us| => us[i].unref)
  }

  // Pointers of the directories hi - 1 down to lo.
  ghost function Up(dir: Path, hi: nat, lo: nat): seq<Ptr>
    requires hi <= |dir|
  {
    if hi <= lo then [] else [dir[hi - 1].ptr] + Up(dir, hi - 1, lo)
  }

  lemma {:induction false} UpSnoc(dir: Path, hi: nat, lo: nat)
    requires lo < hi <= |dir|
    ensures Up(dir, hi, lo) == Up(dir, hi, lo + 1) + [dir[lo].ptr]
    decreases hi - lo
  {
    if lo + 1 < hi { UpSnoc(dir, hi - 1, lo); }
  }

  // The next name on the path, if directory i has it, is the next directory of the path.
  ghost predicate Leads(store: Store, view: View, dir: Path, i: int)
    requires 0 <= i < |dir|
  {
    && HasDir(store, view, dir[i].ptr)
    && (i + 1 < |dir| && dir[i + 1].name in KidsAt(store, view, dir[i].ptr) ==>
      IsDir(KidsAt(store, view, dir[i].ptr)[dir[i + 1].name], dir[i + 1].ptr))
  }

  // What a write-back of s as dir/name needs to find: below the directory it stops at (index a,
  // or -1 when it goes to the root) everything off the path is stored.
  ghost predicate Ready(store: Store, view: View, root: Entry, dir: Path, trees: seq<Tree>, name: string,
                        typ: EntryType, s: Tree, a: int)
  {
    && -1 <= a < |dir| == |trees| && Distinct(dir)
    && root.typ.Dir? && (|dir| > 0 ==> root.ptr == dir[0].ptr)
    && (forall i :: 0 <= i < |dir| && a <= i ==> Leads(store, view, dir, i))
    && (forall i :: a < i < |dir| ==> Level(store, view, dir[i].ptr, trees[i], {Next(dir, name, i)}))
    && Fits(if dir == [] then root.typ else TypeOf(KidsAt(store, view, dir[|dir| - 1].ptr), name, typ), s)
  }

  function TypeOf(kids: Kids, name: string, typ: EntryType): EntryType {
    if name in kids then kids[name].typ else typ
  }

  ghost predicate Lists(store: Store, view: View, dir: Path, i: int)
    requires 0 <= i < |dir| - 1
  {
    HasDir(store, view, dir[i].ptr) && dir[i + 1].name in KidsAt(store, view, dir[i].ptr)
  }

  // Every directory of the path from index a on lists the next one.
  ghost predicate Linked(store: Store, view: View, dir: Path, a: int) {
    forall i :: 0 <= i < |dir| - 1 && a <= i ==> Lists(store, view, dir, i)
  }

  predicate StopsAt(stopAt: Option<Ptr>, dir: Path, a: int)
    requires -1 <= a < |dir|
  {
    if a == -1 then forall i :: 0 <= i < |dir| ==> stopAt != Some(dir[i].ptr) else stopAt == Some(dir[a].ptr)
  }

  // The old pointer that the entry dir/name gives up, if there was one.
  ghost function Given(store: Store, view: View, root: Entry, dir: Path, name: string): seq<Ptr>
  {
    if dir == [] then [root.ptr]
    else
      var kids := KidsAt(store, view, dir[|dir| - 1].ptr);
      Taken(kids, name)
  }

  function NameOf(dir: Path, name: string, i: nat): string {
    if i < |dir| then dir[i].name else name
  }

  // Only directories of the path from index j on have changed.
  ghost predicate Kept(view: View, view': View, dir: Path, j: int) {
    forall p :: (p in view || p in view') && Off(dir, j, p) ==> p in view && p in view' && view'[p] == view[p]
  }

  ghost predicate Off(dir: Path, j: int, p: Ptr) {
    forall i :: 0 <= i < |dir| && j <= i ==> dir[i].ptr != p
  }

  // path holds the blocks readied above index j, and bps their pointers, last first.
  ghost predicate Climbed(was: Store, store: Store, dir: Path, name: string, j: int, path: Path, bps: seq<Ptr>) {
    && -1 <= j <= |dir| && |path| == |bps| == |dir| - j
    && Resolves(store, path) && Grows(was, store) && Named(store, dir, name, j, path) && Put(was, store, path, bps)
  }

  ghost predicate Named(store: Store, dir: Path, name: string, j: int, path: Path)
    requires -1 <= j
  {
    forall i :: 0 <= i < |path| ==> path[i].ptr in store && path[i].name == NameOf(dir, name, j + 1 + i)
  }

  ghost predicate Put(was: Store, store: Store, path: Path, bps: seq<Ptr>)
    requires |path| == |bps|
  {
    && (forall i :: 0 <= i < |bps| ==> bps[i] == path[|path| - 1 - i].ptr && bps[i] !in was)
    && (forall p :: p in store ==> p in was || p in bps)
  }

  lemma NamedNext(store: Store, dir: Path, name: string, j: int, path: Path, ptr: Ptr, b: Block)
    requires 0 <= j && Named(store, dir, name, j, path)
    ensures Named(store[ptr := b], dir, name, j - 1, [PathNode(ptr, NameOf(dir, name, j))] + path)
  {
    var path' := [PathNode(ptr, NameOf(dir, name, j))] + path;
    forall i | 0 < i < |path'| ensures path'[i] == path[i - 1] {
    }
  }

  lemma NamedStored(store: Store, dir: Path, name: string, j: int, path: Path)
    requires -1 <= j && Named(store, dir, name, j, path)
    ensures forall i :: 0 <= i < |path| ==> path[i].ptr in store
  {
  }

  lemma PutNext(was: Store, store: Store, path: Path, bps: seq<Ptr>, node: PathNode, b: Block)
    requires |path| == |bps| && Put(was, store, path, bps) && node.ptr !in store && Grows(was, store)
    ensures Put(was, store[node.ptr := b], [node] + path, bps + [node.ptr])
  {
    var path' := [node] + path;
    forall i | 0 <= i < |bps| ensures (bps + [node.ptr])[i] == path'[|path'| - 1 - i].ptr {
      assert path'[|path'| - 1 - i] == path[|path| - 1 - i];
    }
  }

  lemma ResolvesNext(store: Store, path: Path, node: PathNode, b: Block)
    requires Resolves(store, path) && node.ptr !in store
    requires forall i :: 0 <= i < |path| ==> path[i].ptr in store
    requires path != [] ==> b.DirVal? && path[0].name in b.kids && b.kids[path[0].name].ptr == path[0].ptr
    ensures Resolves(store[node.ptr := b], [node] + path)
  {
    var path' := [node] + path;
    forall i | 0 < i < |path'| - 1 ensures path'[i] == path[i - 1] && path'[i + 1] == path[i] {
    }
  }

  lemma ClimbedNext(was: Store, store: Store, dir: Path, name: string, j: int, path: Path, bps: seq<Ptr>, ptr: Ptr,
                    b: Block)
    requires Climbed(was, store, dir, name, j, path, bps) && 0 <= j
    requires path != [] ==> b.DirVal? && path[0].name in b.kids && b.kids[path[0].name].ptr == path[0].ptr
    requires ptr !in store
    ensures Climbed(was, store[ptr := b], dir, name, j - 1, [PathNode(ptr, NameOf(dir, name, j))] + path, bps + [ptr])
  {
    hide Resolves, Named, Put, NameOf;
    assert forall i :: 0 <= i < |path| ==> path[i].ptr in store by { NamedStored(store, dir, name, j, path); }
    ResolvesNext(store, path, PathNode(ptr, NameOf(dir, name, j)), b);
    NamedNext(store, dir, name, j, path, ptr, b);
    PutNext(was, store, path, bps, PathNode(ptr, NameOf(dir, name, j)), b);
  }

  lemma KeptAt(store: Store, store': Store, view: View, view': View, dir: Path, i: int, j: int)
    requires Distinct(dir) && 0 <= i < j && i < |dir| && Kept(view, view', dir, j) && Grows(store, store')
    requires HasDir(store, view, dir[i].ptr)
    ensures HasDir(store', view', dir[i].ptr) && KidsAt(store', view', dir[i].ptr) == KidsAt(store, view, dir[i].ptr)
  {
    assert Off(dir, j, dir[i].ptr);
  }

  lemma KeptNext(view: View, now: View, view': View, dir: Path, j: int, kids: Kids)
    requires Kept(view, now, dir, j) && 0 < j <= |dir| && (view' == now || view' == now[dir[j - 1].ptr := kids])
    ensures Kept(view, view', dir, j - 1)
  {
    forall p | (p in view || p in view') && Off(dir, j - 1, p) ensures p in view && p in view' && view'[p] == view[p] {
      assert Off(dir, j, p) && dir[j - 1].ptr != p;
    }
  }

  lemma KeptRoot(view: View, view': View, dir: Path)
    requires Kept(view, view', dir, 0)
    ensures Kept(view, view', dir, -1)
  {
    forall p | (p in view || p in view') && Off(dir, -1, p) ensures p in view && p in view' && view'[p] == view[p] {
      assert Off(dir, 0, p);
    }
  }

  lemma KeptCache(view: View, view': View, dir: Path, i: int, kids: Kids)
    requires Kept(view, view', dir, i) && 0 <= i < |dir|
    ensures Kept(view, view'[dir[i].ptr := kids], dir, i)
  {
  }

  // The entry found, or made, in directory j - 1 can hold the new tree of what is below it.
  lemma {:induction false} EntryFits(was: Store, view: View, root: Entry, dir: Path, trees: seq<Tree>, name: string,
                                     typ: EntryType, s: Tree,
                  a: int, j: int)
    requires Ready(was, view, root, dir, trees, name, typ, s, a) && 0 <= j <= |dir| && a < j
    requires 0 < j < |dir| ==> NameOf(dir, name, j) in KidsAt(was, view, dir[j - 1].ptr)
    ensures Fits(if j == 0 then root.typ else TypeOf(KidsAt(was, view, dir[j - 1].ptr), NameOf(dir, name, j), typ),
                 Graft(dir, trees, name, s, j))
  {
    if 0 < j < |dir| {
      assert Leads(was, view, dir, j - 1);
      assert Graft(dir, trees, name, s, j).DirTree?;
    }
  }

  lemma {:induction false} ClimbTree(was: Store, view: View, root: Entry, dir: Path, trees: seq<Tree>, name: string,
                                     typ: EntryType, s: Tree,
                  a: int, j: int, store: Store, b: Block, ptr: Ptr, e: Entry)
    requires Ready(was, view, root, dir, trees, name, typ, s, a) && 0 < j <= |dir| && a < j - 1
    requires Grows(was, store) && BlockDenotes(store, b, Graft(dir, trees, name, s, j))
    requires ptr !in store && e.ptr == ptr && Fits(e.typ, Graft(dir, trees, name, s, j))
    ensures HasDir(was, view, dir[j - 1].ptr)
    ensures BlockDenotes(store[ptr := b], DirVal(KidsAt(was, view, dir[j - 1].ptr)[NameOf(dir, name, j) := e]),
                         Graft(dir, trees, name, s, j - 1))
  {
    Climb(was, view, dir[j - 1].ptr, trees[j - 1], NameOf(dir, name, j), store, b, Graft(dir, trees, name, s, j),
          store[ptr := b], e);
  }

  // Where a write-back began, and the times it is to set.
  datatype Start = Start(store: Store, view: View, root: Entry, updates: seq<Update>, refs: seq<Ptr>,
                         mtime: Option<int>, ctime: Option<int>)

  // --- times --------------------------------------------------------------------------------------

  // Block j is the one written back, or the directory in which that gets a new entry.
  ghost predicate Redated(st: Start, dir: Path, name: string, j: int) {
    j == |dir| || (j == |dir| - 1 && 0 <= j && name !in KidsAt(st.store, st.view, dir[j].ptr))
  }

  // e is the entry kids has for n, or a new one, with these times set.
  predicate Stamped(kids: Kids, n: string, mtime: Option<int>, ctime: Option<int>, e: Entry) {
    && e.mtime == (if mtime.Some? then mtime.value else if n in kids then kids[n].mtime else 0)
    && e.ctime == if ctime.Some? then ctime.value else if n in kids then kids[n].ctime else 0
  }

  // The entry for block j, in directory j - 1 or at the root, has the times asked for if it is such
  // a block, and otherwise those it had.
  ghost predicate Dated(st: Start, dir: Path, name: string, j: int, e: Entry)
    requires 0 <= j <= |dir|
  {
    var kids := if j == 0 then map[NameOf(dir, name, 0) := st.root] else KidsAt(st.store, st.view, dir[j - 1].ptr);
    if Redated(st, dir, name, j) then Stamped(kids, NameOf(dir, name, j), st.mtime, st.ctime, e)
    else Stamped(kids, NameOf(dir, name, j), None, None, e)
  }

  // --- what is copied -----------------------------------------------------------------------------

  // The pointers brought in by updates and new references.
  ghost function Added(us: seq<Update>, rs: seq<Ptr>): set<Ptr> {
    (set u | u in us :: u.ref) + set r | r in rs
  }

  // More updates, each to a pointer not stored before.
  ghost predicate MoreUpdates(was: Store, us: seq<Update>, us': seq<Update>) {
    us <= us' && forall i :: |us| <= i < |us'| ==> us'[i].ref !in was
  }

  ghost function PathPtrs(path: Path): set<Ptr> {
    set x | x in path :: x.ptr
  }

  // b is directory i as it was, but for the entry on the path, which points to next.
  ghost predicate CopyOf(st: Start, dir: Path, name: string, i: int, b: Block, next: Ptr)
    requires 0 <= i < |dir|
  {
    var n := NameOf(dir, name, i + 1);
    && b.DirVal? && n in b.kids && b.kids[n].ptr == next && Dated(st, dir, name, i + 1, b.kids[n])
    && b.kids == KidsAt(st.store, st.view, dir[i].ptr)[n := b.kids[n]]
  }

  // Every block of the new path is such a copy, and the last one is the block written back.
  ghost predicate Copied(st: Start, dir: Path, name: string, j: int, block: Block, store: Store, path: Path) {
    && -1 <= j && |path| == |dir| - j && Distinct(path) && (forall i :: 0 <= i < |path| ==> path[i].ptr in store)
    && (path != [] ==> store[path[|path| - 1].ptr] == block)
    && forall i :: 0 <= i < |path| - 1 ==> CopyOf(st, dir, name, j + 1 + i, store[path[i].ptr], path[i + 1].ptr)
  }

  // All that, and the pointers brought in are those of the new path.
  ghost predicate Tracked(st: Start, dir: Path, name: string, j: int, block: Block, store: Store, path: Path,
                          us: seq<Update>, rs: seq<Ptr>)
  {
    && Copied(st, dir, name, j, block, store, path) && MoreUpdates(st.store, st.updates, us)
    && Added(us, rs) == Added(st.updates, st.refs) + PathPtrs(path)
  }

  lemma TrackedStart(st: Start, dir: Path, name: string, block: Block)
    ensures Tracked(st, dir, name, |dir|, block, st.store, [], st.updates, st.refs)
  {
  }

  lemma TrackedNext(st: Start, dir: Path, name: string, j: int, block: Block, store: Store, path: Path, us: seq<Update>,
                    rs: seq<Ptr>, b: Block, node: PathNode, us': seq<Update>, rs': seq<Ptr>)
    requires Tracked(st, dir, name, j, block, store, path, us, rs) && Carries(st, dir, name, j, block, b, path)
    requires node.ptr !in store && Grows(st.store, store) && MoreUpdates(store, us, us')
    requires Added(us', rs') == Added(us, rs) + {node.ptr}
    ensures Tracked(st, dir, name, j - 1, block, store[node.ptr := b], [node] + path, us', rs')
  {
    hide Copied, Carries, Added, PathPtrs;
    CopiedNext(st, dir, name, j, block, store, path, b, node);
  }

  // b is what goes on top of the new path.
  ghost predicate Carries(st: Start, dir: Path, name: string, j: int, block: Block, b: Block, path: Path) {
    && 0 <= j <= |dir| && |path| == |dir| - j
    && if path == [] then b == block else CopyOf(st, dir, name, j, b, path[0].ptr)
  }

  lemma CarriesNext(st: Start, dir: Path, name: string, j: int, block: Block, path: Path, ptr: Ptr, e: Entry,
                    kids: Kids)
    requires 0 < j <= |dir| && |path| == |dir| - j
    requires e.ptr == ptr && kids == KidsAt(st.store, st.view, dir[j - 1].ptr)[NameOf(dir, name, j) := e]
    requires Dated(st, dir, name, j, e)
    ensures Carries(st, dir, name, j - 1, block, DirVal(kids), [PathNode(ptr, NameOf(dir, name, j))] + path)
  {
  }

  lemma CopiedNext(st: Start, dir: Path, name: string, j: int, block: Block, store: Store, path: Path, b: Block,
                   node: PathNode)
    requires Copied(st, dir, name, j, block, store, path) && Carries(st, dir, name, j, block, b, path)
    requires node.ptr !in store
    ensures Copied(st, dir, name, j - 1, block, store[node.ptr := b], [node] + path)
    ensures PathPtrs([node] + path) == PathPtrs(path) + {node.ptr}
  {
    hide CopyOf;
    var path' := [node] + path;
    forall i | 0 < i < |path'| - 1
      ensures path'[i].ptr in store && CopyOf(st, dir, name, j + i, store[path'[i].ptr], path'[i + 1].ptr)
    {
      assert path'[i] == path[i - 1] && path'[i + 1] == path[i];
    }
    assert forall x :: x in path' <==> x == node || x in path;
    forall i, k | 0 <= i < k < |path'| ensures path'[i].ptr != path'[k].ptr {
      assert path'[k] == path[k - 1];
      if i > 0 { assert path'[i] == path[i - 1]; }
    }
  }

  // The old pointers given up by readying everything from index j + 1 on.
  ghost function Logged(st: Start, dir: Path, name: string, j: int): seq<Ptr>
    requires -1 <= j
  {
    if j >= |dir| then Unrefs(st.updates)
    else Unrefs(st.updates) + Given(st.store, st.view, st.root, dir, name) + Up(dir, |dir|, j + 1)
  }

  lemma {:induction false} LoggedNext(st: Start, dir: Path, trees: seq<Tree>, name: string, typ: EntryType, s: Tree,
                                      a: int, j: int,
                   us: seq<Update>, more: seq<Update>)
    requires Ready(st.store, st.view, st.root, dir, trees, name, typ, s, a) && 0 <= j <= |dir| && a < j
    requires Unrefs(us) == Logged(st, dir, name, j)
    requires 0 < j < |dir| ==> NameOf(dir, name, j) in KidsAt(st.store, st.view, dir[j - 1].ptr)
    requires Unrefs(more) ==
      if j > 0 then Taken(KidsAt(st.store, st.view, dir[j - 1].ptr), NameOf(dir, name, j)) else [st.root.ptr]
    ensures Unrefs(us + more) == Logged(st, dir, name, j - 1)
  {
    hide Level, Fits, HasDir, Denotes;
    if j > 0 { assert Leads(st.store, st.view, dir, j - 1); }
    assert Unrefs(us + more) == Unrefs(us) + Unrefs(more);
    if j < |dir| {
      UpSnoc(dir, |dir|, j);
    }
  }

  function Taken(kids: Kids, n: string): seq<Ptr> {
    if n in kids then [kids[n].ptr] else []
  }

  lemma {:induction false} ReadyParts(st: Start, dir: Path, trees: seq<Tree>, name: string, typ: EntryType, s: Tree,
                                      a: int, j: int)
    requires Ready(st.store, st.view, st.root, dir, trees, name, typ, s, a) && 0 < j <= |dir| && a < j
    ensures |dir| == |trees| && Distinct(dir) && HasDir(st.store, st.view, dir[j - 1].ptr)
    ensures j < |dir| ==>
      Lists(st.store, st.view, dir, j - 1) == (NameOf(dir, name, j) in KidsAt(st.store, st.view, dir[j - 1].ptr))
  {
    assert Leads(st.store, st.view, dir, j - 1) && Leads(st.store, st.view, dir, |dir| - 1);
  }

  lemma ClimbedGrows(was: Store, store: Store, dir: Path, name: string, j: int, path: Path, bps: seq<Ptr>)
    requires Climbed(was, store, dir, name, j, path, bps)
    ensures Grows(was, store) && |path| == |bps| == |dir| - j
  {
  }

  lemma ClimbedPut(was: Store, store: Store, dir: Path, name: string, j: int, path: Path, bps: seq<Ptr>)
    requires Climbed(was, store, dir, name, j, path, bps)
    ensures Grows(was, store) && forall p :: p in store ==> p in was || p in bps
  {
  }

  lemma {:induction false} ClimbedTree(st: Start, dir: Path, trees: seq<Tree>, name: string, typ: EntryType, s: Tree,
                                       a: int, j: int,
                    store: Store, b: Block, ptr: Ptr, e: Entry)
    requires Ready(st.store, st.view, st.root, dir, trees, name, typ, s, a) && 0 < j <= |dir| && a < j
    requires 0 < j < |dir| ==> NameOf(dir, name, j) in KidsAt(st.store, st.view, dir[j - 1].ptr)
    requires Grows(st.store, store) && BlockDenotes(store, b, Graft(dir, trees, name, s, j)) && ptr !in store
    requires e.ptr == ptr && e.typ == TypeOf(KidsAt(st.store, st.view, dir[j - 1].ptr), NameOf(dir, name, j), typ)
    ensures Denotes(store[ptr := b], e, Graft(dir, trees, name, s, j))
    ensures a < j - 1 ==>
      BlockDenotes(store[ptr := b], DirVal(KidsAt(st.store, st.view, dir[j - 1].ptr)[NameOf(dir, name, j) := e]),
                   Graft(dir, trees, name, s, j - 1))
  {
    hide Denotes, BlockDenotes, Graft, Fits;
    EntryFits(st.store, st.view, st.root, dir, trees, name, typ, s, a, j);
    Stored(store, b, Graft(dir, trees, name, s, j), store[ptr := b], e);
    if a < j - 1 {
      ClimbTree(st.store, st.view, st.root, dir, trees, name, typ, s, a, j, store, b, ptr, e);
    }
  }

  // Everything a step up keeps, once block j is stored under ptr and entered in directory j - 1 as e.
  lemma {:induction false} Rise(st: Start, dir: Path, trees: seq<Tree>, name: string, typ: EntryType, s: Tree, a: int,
                                j: int,
                                stored: Store, now: View, us: seq<Update>, b: Block, ptr: Ptr, e: Entry, view: View)
    requires Ready(st.store, st.view, st.root, dir, trees, name, typ, s, a) && 0 < j <= |dir| && a < j
    requires Grows(st.store, stored) && Kept(st.view, now, dir, j) && ptr !in stored
    requires BlockDenotes(stored, b, Graft(dir, trees, name, s, j)) && Unrefs(us) == Logged(st, dir, name, j)
    requires j < |dir| ==> NameOf(dir, name, j) in KidsAt(st.store, st.view, dir[j - 1].ptr)
    requires e.ptr == ptr && e.typ == TypeOf(KidsAt(st.store, st.view, dir[j - 1].ptr), NameOf(dir, name, j), typ)
    requires view == now ||
      view == now[dir[j - 1].ptr := KidsAt(st.store, st.view, dir[j - 1].ptr)[NameOf(dir, name, j) := e]]
    ensures Denotes(stored[ptr := b], e, Graft(dir, trees, name, s, j)) && Kept(st.view, view, dir, j - 1)
    ensures var was, n := KidsAt(st.store, st.view, dir[j - 1].ptr), NameOf(dir, name, j);
      && Unrefs(us + if n in was then [Update(was[n].ptr, ptr)] else []) == Logged(st, dir, name, j - 1)
      && (a < j - 1 ==> BlockDenotes(stored[ptr := b], DirVal(was[n := e]), Graft(dir, trees, name, s, j - 1)))
  {
    hide Ready, Kept, BlockDenotes, Denotes, Graft, Unrefs, Logged, NameOf, Taken;
    var was, n := KidsAt(st.store, st.view, dir[j - 1].ptr), NameOf(dir, name, j);
    ClimbedTree(st, dir, trees, name, typ, s, a, j, stored, b, ptr, e);
    KeptNext(st.view, now, view, dir, j, was[n := e]);
    TakenUnrefs(was, n, ptr);
    LoggedNext(st, dir, trees, name, typ, s, a, j, us, if n in was then [Update(was[n].ptr, ptr)] else []);
  }

  lemma {:induction false} RootIsDir(st: Start, dir: Path, trees: seq<Tree>, name: string, typ: EntryType, s: Tree,
                                     a: int)
    requires Ready(st.store, st.view, st.root, dir, trees, name, typ, s, a)
    ensures st.root.typ.Dir? && |trees| == |dir|
  {
  }

  lemma GrowsBy(store: Store, p: Ptr, b: Block)
    ensures p !in store ==> Grows(store, store[p := b])
  {
  }

  lemma RootUnref(p: Ptr, q: Ptr)
    ensures Unrefs([Update(p, q)]) == [p]
  {
  }

  // The directory the write-back stopped at lists the first readied block under n.
  ghost predicate Stopped(was: Kids, kids: Kids, n: string, store: Store, t: Tree, path: Path) {
    && n in kids && kids == was[n := kids[n]] && Denotes(store, kids[n], t)
    && path != [] && kids[n].ptr == path[0].ptr
  }

  lemma TakenUnrefs(kids: Kids, n: string, ptr: Ptr)
    ensures Unrefs(if n in kids then [Update(kids[n].ptr, ptr)] else []) == Taken(kids, n)
  {
  }

  // The entry for a readied block: the one already there with its pointer changed, or a new one.
  function MakeEntry(kids: Kids, n: string, typ: EntryType, ptr: Ptr, mtime: Option<int>,
                     ctime: Option<int>): (e: Entry)
    ensures e.ptr == ptr && e.typ == TypeOf(kids, n, typ) && Stamped(kids, n, mtime, ctime, e)
  {
    var e := if n in kids then kids[n] else Entry(typ, ptr, "", 0, 0);
    e.(ptr := ptr, mtime := if mtime.Some? then mtime.value else e.mtime,
       ctime := if ctime.Some? then ctime.value else e.ctime)
  }

  lemma RedatedFirst(st: Start, dir: Path, name: string)
    ensures Redated(st, dir, name, |dir|)
  {
  }

  lemma RedatedNext(st: Start, dir: Path, name: string, j: int)
    requires 0 < j <= |dir|
    ensures Redated(st, dir, name, j - 1) ==
      (j == |dir| && NameOf(dir, name, j) !in KidsAt(st.store, st.view, dir[j - 1].ptr))
  {
  }

  lemma DatedEntry(st: Start, dir: Path, name: string, j: int, mtime: Option<int>, ctime: Option<int>, e: Entry)
    requires 0 < j <= |dir|
    requires (mtime, ctime) == if Redated(st, dir, name, j) then (st.mtime, st.ctime) else (None, None)
    requires Stamped(KidsAt(st.store, st.view, dir[j - 1].ptr), NameOf(dir, name, j), mtime, ctime, e)
    ensures Dated(st, dir, name, j, e)
  {
  }

  lemma DatedRoot(st: Start, dir: Path, name: string, mtime: Option<int>, ctime: Option<int>, e: Entry)
    requires (mtime, ctime) == if Redated(st, dir, name, 0) then (st.mtime, st.ctime) else (None, None)
    requires e.mtime == (if mtime.Some? then mtime.value else st.root.mtime)
    requires e.ctime == (if ctime.Some? then ctime.value else st.root.ctime)
    ensures Dated(st, dir, name, 0, e)
  {
  }

  lemma AddedNext(us: seq<Update>, rs: seq<Ptr>, us': seq<Update>, rs': seq<Ptr>, p: Ptr)
    ensures (exists q :: us' == us + [Update(q, p)]) && rs' == rs ==> Added(us', rs') == Added(us, rs) + {p}
    ensures us' == us && rs' == rs + [p] ==> Added(us', rs') == Added(us, rs) + {p}
  {
    if rs' == rs && exists q :: us' == us + [Update(q, p)] {
      var q :| us' == us + [Update(q, p)];
      assert forall u :: u in us' <==> u in us || u == Update(q, p);
    }
    if us' == us && rs' == rs + [p] {
      assert forall r :: r in rs' <==> r in rs || r == p;
    }
  }

  lemma LinkedNext(store: Store, view: View, dir: Path, j: int)
    requires 0 <= j <= |dir|
    ensures Linked(store, view, dir, j - 1) ==
      ((0 < j < |dir| ==> Lists(store, view, dir, j - 1)) && Linked(store, view, dir, j))
    ensures forall a :: a < j && Linked(store, view, dir, a) ==> Linked(store, view, dir, j - 1)
  {
  }

  lemma {:induction false} Begin(st: Start, dir: Path, trees: seq<Tree>, name: string, typ: EntryType, s: Tree, a: int)
    requires Ready(st.store, st.view, st.root, dir, trees, name, typ, s, a)
    ensures -1 <= a < |trees| == |dir|
    ensures Climbed(st.store, st.store, dir, name, |dir|, [], []) && Kept(st.view, st.view, dir, |dir|)
    ensures Graft(dir, trees, name, s, |dir|) == s && Unrefs(st.updates) == Logged(st, dir, name, |dir|)
    ensures Linked(st.store, st.view, dir, |dir|) && Distinct(dir)
  {
  }

  lemma Stops(stopAt: Option<Ptr>, dir: Path, a: int, i: int)
    requires -1 <= a < |dir| && StopsAt(stopAt, dir, a) && Distinct(dir) && 0 <= i < |dir|
    ensures (stopAt == Some(dir[i].ptr)) == (i == a)
  {
  }

  class TreeWriter {
    var store: Store           // every block readied so far
    var nextPtr: Ptr
    var lbc: map<Ptr, DirBlock>
    var root: Entry            // the new metadata's root entry
    var updates: seq<Update>   // the new metadata's block updates
    var refs: seq<Ptr>         // and its new references

    // The contents of the cached directories.
    ghost function View(): View
      reads this`lbc, lbc.Values
    {
      map p | p in lbc :: lbc[p].kids
    }

    ghost predicate Valid()
      reads this`store, this`nextPtr, this`lbc
    {
      && (forall p :: p in store || p in lbc ==> p < nextPtr)
      && forall p, q :: p in lbc && q in lbc && p != q ==> lbc[p] != lbc[q]
    }

    method ReadyBlock(val: Block) returns (ptr: Ptr)
      requires Valid()
      modifies this`store, this`nextPtr
      ensures Valid() && ptr == old(nextPtr) && ptr !in old(store) && ptr !in lbc
      ensures store == old(store)[ptr := val] && nextPtr > ptr
    {
      ptr := nextPtr;
      store := store[ptr := val];
      nextPtr := nextPtr + 1;
    }

    lemma Known(p: Ptr)
      requires Valid() && HasDir(store, View(), p)
      ensures p < nextPtr
    {
    }

    // The cached block, or a private copy of the stored one.
    method GetDir(p: Ptr) returns (b: DirBlock)
      requires HasDir(store, View(), p)
      ensures b.kids == KidsAt(store, View(), p)
      ensures if p in lbc then b == lbc[p] else fresh(b)
      ensures unchanged(this) && View() == old(View())
    {
      if p in lbc {
        b := lbc[p];
      } else {
        b := new DirBlock(store[p].kids);
      }
    }

    method SetEntry(p: Ptr, b: DirBlock, n: string, e: Entry)
      requires Valid() && if p in lbc then b == lbc[p] else b !in lbc.Values
      modifies b
      ensures unchanged(this) && Valid() && b.kids == old(b.kids)[n := e]
      ensures View() == if p in lbc then old(View())[p := b.kids] else old(View())
    {
      b.kids := b.kids[n := e];
    }

    // Makes the entry of directory p called n point to ptr, creating it if it may.
    method EnterInParent(p: Ptr, n: string, ptr: Ptr, create: bool, typ: EntryType, mtime: Option<int>,
                         ctime: Option<int>)
      returns (found: bool, prev: DirBlock, de: Entry, ghost was: Kids)
      requires Valid() && HasDir(store, View(), p)
      modifies this`updates, this`refs, lbc.Values
      ensures Valid() && was == old(KidsAt(store, View(), p)) && found == (n in was)
      ensures !found && !create ==> View() == old(View())
      ensures if p in lbc then prev == lbc[p] else fresh(prev)
      ensures found || create ==>
        && de.ptr == ptr && de.typ == TypeOf(was, n, typ) && Stamped(was, n, mtime, ctime, de)
        && prev.kids == was[n := de]
        && View() == if p in lbc then old(View())[p := was[n := de]] else old(View())
      ensures updates == old(updates) + if found then [Update(was[n].ptr, ptr)] else []
      ensures refs == old(refs) + if !found && create then [ptr] else []
    {
      hide Valid;
      was := KidsAt(store, View(), p);
      prev := GetDir(p);
      found := n in prev.kids;
      de := MakeEntry(prev.kids, n, typ, ptr, mtime, ctime);
      if found || create {
        if found {
          updates := updates + [Update(prev.kids[n].ptr, ptr)];
        } else {
          refs := refs + [ptr];
        }
        SetEntry(p, prev, n, de);
      }
    }

    function BlockOf(b: NewBlock): Block
      reads match b case NewFile(_) => {} case NewDir(d) => {d}
    {
      match b
      case NewFile(data) => FileVal(data)
      case NewDir(d) => DirVal(d.kids)
    }

    // The write-back from st has readied everything from index j + 1 on, and b is block j.
    ghost predicate InClimb(st: Start, dir: Path, trees: seq<Tree>, name: string, s: Tree, first: Block, j: int,
                            b: Block, path: Path, bps: seq<Ptr>)
      requires |trees| == |dir| && 0 <= j
      reads this, lbc.Values
    {
      && Valid() && Climbed(st.store, store, dir, name, j, path, bps) && Kept(st.view, View(), dir, j)
      && BlockDenotes(store, b, Graft(dir, trees, name, s, j))
      && (path != [] ==> b.DirVal? && path[0].name in b.kids && b.kids[path[0].name].ptr == path[0].ptr)
      && root == st.root && Unrefs(updates) == Logged(st, dir, name, j)
      && Tracked(st, dir, name, j, first, store, path, updates, refs) && Carries(st, dir, name, j, first, b, path)
    }

    ghost function Begun(mtime: Option<int> := None, ctime: Option<int> := None): Start
      reads this, lbc.Values
    {
      Start(store, View(), root, updates, refs, mtime, ctime)
    }

    lemma {:induction false} BeginClimb(st: Start, dir: Path, trees: seq<Tree>, name: string, typ: EntryType, s: Tree,
                                        a: int, b: Block)
      requires st == Begun(st.mtime, st.ctime) && Valid()
      requires Ready(st.store, st.view, st.root, dir, trees, name, typ, s, a) && BlockDenotes(store, b, s)
      ensures -1 <= a < |trees| == |dir| && Distinct(dir) && Linked(st.store, st.view, dir, |dir|)
      ensures InClimb(st, dir, trees, name, s, b, |dir|, b, [], []) && Grows(st.store, store)
    {
      hide BlockDenotes, Kept, Climbed, Graft, Unrefs, Logged, Ready, Tracked;
      Begin(st, dir, trees, name, typ, s, a);
      TrackedStart(st, dir, name, b);
    }

    // The write-back from st reached the root entry: it denotes the tree with s in place.
    ghost predicate AtRoot(st: Start, dir: Path, trees: seq<Tree>, name: string, s: Tree, first: Block, path: Path,
                           bps: seq<Ptr>)
      requires |trees| == |dir|
      reads this, lbc.Values
    {
      && Valid() && Climbed(st.store, store, dir, name, -1, path, bps) && Kept(st.view, View(), dir, -1)
      && root.typ.Dir? && path != [] && root.ptr == path[0].ptr && Denotes(store, root, Graft(dir, trees, name, s, 0))
      && Unrefs(updates) == Logged(st, dir, name, -1) && Tracked(st, dir, name, -1, first, store, path, updates, refs)
      && Dated(st, dir, name, 0, root)
    }

    // The write-back from st stopped at directory a, which now is cached and lists the new tree.
    ghost predicate AtStop(st: Start, dir: Path, trees: seq<Tree>, name: string, s: Tree, a: int, path: Path,
                           bps: seq<Ptr>)
      requires |trees| == |dir| && 0 <= a < |dir|
      reads this, lbc.Values
    {
      && Valid() && Climbed(st.store, store, dir, name, a, path, bps) && Kept(st.view, View(), dir, a)
      && root == st.root && Unrefs(updates) == Logged(st, dir, name, a)
      && dir[a].ptr in lbc
      && Stopped(KidsAt(st.store, st.view, dir[a].ptr), lbc[dir[a].ptr].kids, NameOf(dir, name, a + 1), store,
                 Graft(dir, trees, name, s, a + 1), path)
      && Dated(st, dir, name, a + 1, lbc[dir[a].ptr].kids[NameOf(dir, name, a + 1)])
    }

    // Readies a block and enters it in directory p as n.
    method ReadyAndEnter(p: Ptr, n: string, b: Block, create: bool, typ: EntryType, mtime: Option<int>,
                         ctime: Option<int>)
      returns (found: bool, created: bool, prev: DirBlock, ptr: Ptr, de: Entry)
      requires Valid() && HasDir(store, View(), p)
      modifies this`store, this`nextPtr, this`updates, this`refs, lbc.Values
      ensures Valid() && ptr !in old(store) && store == old(store)[ptr := b] && p < nextPtr
      ensures found == (n in old(KidsAt(store, View(), p)) || create)
      ensures created == (create && n !in old(KidsAt(store, View(), p)))
      ensures if p in lbc then prev == lbc[p] else fresh(prev)
      ensures var was := old(KidsAt(store, View(), p));
        && (found ==> de.ptr == ptr && de.typ == TypeOf(was, n, typ) && prev.kids == was[n := de])
        && (found ==> Stamped(was, n, mtime, ctime, de))
        && View() == (if found && p in lbc then old(View())[p := was[n := de]] else old(View()))
        && updates == old(updates) + if n in was then [Update(was[n].ptr, ptr)] else []
      ensures found ==> Added(updates, refs) == old(Added(updates, refs)) + {ptr}
    {
      hide TreeWriter.Valid;
      Known(p);
      ptr := ReadyBlock(b);
      ghost var was;
      found, prev, de, was := EnterInParent(p, n, ptr, create, typ, mtime, ctime);
      created := !found && create;
      found := found || created;
      AddedNext(old(updates), old(refs), updates, refs, ptr);
    }

    // Readies block j and enters it in directory j - 1.
    method ClimbOne(ghost st: Start, dir: Path, ghost trees: seq<Tree>, name: string, typ: EntryType, ghost s: Tree,
                    ghost a: int, ghost first: Block, j: int, b: Block, path: Path, bps: seq<Ptr>, mtime: Option<int>,
                    ctime: Option<int>)
      returns (found: bool, created: bool, prev: DirBlock, ptr: Ptr, de: Entry)
      requires Ready(st.store, st.view, st.root, dir, trees, name, typ, s, a) && 0 < j <= |dir| && a < j
      requires InClimb(st, dir, trees, name, s, first, j, b, path, bps)
      requires (mtime, ctime) == if Redated(st, dir, name, j) then (st.mtime, st.ctime) else (None, None)
      modifies this`store, this`nextPtr, this`updates, this`refs, lbc.Values
      ensures found == (j == |dir| || Lists(st.store, st.view, dir, j - 1))
      ensures created == Redated(st, dir, name, j - 1) && (found ==> Dated(st, dir, name, j, de))
      ensures Valid()
      ensures Climbed(st.store, store, dir, name, j - 1, [PathNode(ptr, NameOf(dir, name, j))] + path, bps + [ptr])
      ensures (if dir[j - 1].ptr in lbc then prev == lbc[dir[j - 1].ptr] else fresh(prev)) && dir[j - 1].ptr < nextPtr
      ensures found && a == j - 1 ==>
        && Denotes(store, de, Graft(dir, trees, name, s, j))
        && Kept(st.view, View(), dir, j - 1) && Unrefs(updates) == Logged(st, dir, name, j - 1)
      ensures Grows(st.store, store) && root == old(root)
      ensures found ==>
        de.ptr == ptr && prev.kids == KidsAt(st.store, st.view, dir[j - 1].ptr)[NameOf(dir, name, j) := de]
      ensures found && a < j - 1 ==>
        InClimb(st, dir, trees, name, s, first, j - 1, DirVal(prev.kids),
                [PathNode(ptr, NameOf(dir, name, j))] + path, bps + [ptr])
    {
      hide Ready, Climbed, Kept, BlockDenotes, Denotes, Graft, Unrefs, Logged, TreeWriter.Valid, NameOf, Distinct,
        Lists, TypeOf, Added, Tracked, Carries, Stamped, Dated, Redated;
      ghost var now, us, stored := View(), updates, store;
      ReadyParts(st, dir, trees, name, typ, s, a, j);
      ClimbedGrows(st.store, store, dir, name, j, path, bps);
      KeptAt(st.store, store, st.view, View(), dir, j - 1, j);
      found, created, prev, ptr, de := ReadyAndEnter(dir[j - 1].ptr, NameOf(dir, name, j), b, j == |dir|, typ, mtime,
                                                     ctime);
      ClimbedNext(st.store, stored, dir, name, j, path, bps, ptr, b);
      RedatedNext(st, dir, name, j);
      if found {
        DatedEntry(st, dir, name, j, mtime, ctime, de);
        Rise(st, dir, trees, name, typ, s, a, j, stored, now, us, b, ptr, de, View());
        TrackedNext(st, dir, name, j, first, stored, path, us, old(refs), b, PathNode(ptr, NameOf(dir, name, j)),
                    updates, refs);
        CarriesNext(st, dir, name, j, first, path, ptr, de, prev.kids);
      }
    }

    // Readies the root block and makes the root entry point to it.
    method EnterRoot(ghost st: Start, dir: Path, ghost trees: seq<Tree>, name: string, ghost typ: EntryType,
                     ghost s: Tree,
                     ghost a: int, ghost first: Block, b: Block, path: Path, bps: seq<Ptr>, mtime: Option<int>,
                     ctime: Option<int>)
      returns (ptr: Ptr)
      requires Ready(st.store, st.view, st.root, dir, trees, name, typ, s, a) && a < 0
      requires InClimb(st, dir, trees, name, s, first, 0, b, path, bps)
      requires (mtime, ctime) == if Redated(st, dir, name, 0) then (st.mtime, st.ctime) else (None, None)
      modifies this`store, this`nextPtr, this`updates, this`root
      ensures Grows(st.store, store)
      ensures AtRoot(st, dir, trees, name, s, first, [PathNode(ptr, NameOf(dir, name, 0))] + path, bps + [ptr])
    {
      hide Climbed, Kept, BlockDenotes, Denotes, Graft, Unrefs, Up, Level, Fits, Logged, Valid, Ready, NameOf, Grows,
        View, Added, Tracked, Carries, Dated, Redated;
      ghost var us, stored := updates, store;
      RootIsDir(st, dir, trees, name, typ, s, a);
      GrowsBy(store, nextPtr, b);
      ptr := ReadyBlock(b);
      AddedNext(updates, refs, updates + [Update(root.ptr, ptr)], refs, ptr);
      updates := updates + [Update(root.ptr, ptr)];
      root := root.(ptr := ptr, mtime := if mtime.Some? then mtime.value else root.mtime,
        ctime := if ctime.Some? then ctime.value else root.ctime);
      DatedRoot(st, dir, name, mtime, ctime, root);
      ClimbedGrows(st.store, stored, dir, name, 0, path, bps);
      TrackedNext(st, dir, name, 0, first, stored, path, us, refs, b, PathNode(ptr, NameOf(dir, name, 0)), updates,
                  refs);
      ClimbedNext(st.store, stored, dir, name, 0, path, bps, ptr, b);
      ClimbedGrows(st.store, store, dir, name, -1, [PathNode(ptr, NameOf(dir, name, 0))] + path, bps + [ptr]);
      KeptRoot(st.view, View(), dir);
      EntryFits(st.store, st.view, st.root, dir, trees, name, typ, s, a, 0);
      Stored(stored, b, Graft(dir, trees, name, s, 0), store, root);
      assert Unrefs([Update(st.root.ptr, ptr)]) == [st.root.ptr] by { RootUnref(st.root.ptr, ptr); }
      LoggedNext(st, dir, trees, name, typ, s, a, 0, us, [Update(st.root.ptr, ptr)]);
    }

    method Cache(p: Ptr, b: DirBlock)
      requires Valid() && p < nextPtr && if p in lbc then b == lbc[p] else b !in lbc.Values
      modifies this`lbc
      ensures Valid() && lbc == old(lbc)[p := b] && View() == old(View())[p := b.kids]
    {
      lbc := lbc[p := b];
    }

    // Leaves directory i, changed, in the cache.
    method StopHere(ghost st: Start, dir: Path, ghost trees: seq<Tree>, name: string, ghost s: Tree, i: nat,
                    prev: DirBlock, ghost de: Entry, path: Path, ghost bps: seq<Ptr>)
      requires |trees| == |dir| && i < |dir| && Valid() && Climbed(st.store, store, dir, name, i, path, bps)
      requires dir[i].ptr < nextPtr && if dir[i].ptr in lbc then prev == lbc[dir[i].ptr] else prev !in lbc.Values
      requires prev.kids == KidsAt(st.store, st.view, dir[i].ptr)[NameOf(dir, name, i + 1) := de]
      requires path != [] && de.ptr == path[0].ptr && Denotes(store, de, Graft(dir, trees, name, s, i + 1))
      requires Dated(st, dir, name, i + 1, de)
      requires Kept(st.view, View(), dir, i) && root == st.root && Unrefs(updates) == Logged(st, dir, name, i)
      modifies this`lbc
      ensures AtStop(st, dir, trees, name, s, i, path, bps)
      ensures lbc == old(lbc)[dir[i].ptr := prev] && (dir[i].ptr in old(lbc) ==> lbc == old(lbc))
    {
      hide Denotes, Kept, Climbed, Graft, Unrefs, Logged, Valid, NameOf, KidsAt, Dated;
      KeptCache(st.view, View(), dir, i, prev.kids);
      Cache(dir[i].ptr, prev);
    }

    /** Readies newBlock as dir/name and, in turn, every directory above it, up to the root entry
        or to the directory stopAt, which then stays in the cache.  The entry gets the times asked
        for; if it is new, so does its directory's, and all others keep theirs. */
    method SyncBlock(newBlock: NewBlock, dir: Path, name: string, typ: EntryType, mtime: Option<int>,
                     ctime: Option<int>, stopAt: Option<Ptr>, ghost trees: seq<Tree>, ghost s: Tree, ghost a: int)
      returns (r: Outcome, newPath: Path, bps: seq<Ptr>)
      requires Valid() && Ready(store, View(), root, dir, trees, name, typ, s, a) && StopsAt(stopAt, dir, a)
      requires BlockDenotes(store, BlockOf(newBlock), s)
      modifies this, lbc.Values
      ensures Grows(old(store), store)
      ensures (r == Done) == old(Linked(store, View(), dir, a))
      ensures r != Done ==> r == NoSuchName && root == old(root)
      ensures r == Done && a == -1 ==>
        AtRoot(old(Begun(mtime, ctime)), dir, trees, name, s, old(BlockOf(newBlock)), newPath, bps) && lbc == old(lbc)
      ensures r == Done && a >= 0 ==>
        && AtStop(old(Begun(mtime, ctime)), dir, trees, name, s, a, newPath, bps)
        && lbc == old(lbc)[dir[a].ptr := lbc[dir[a].ptr]]
        && if dir[a].ptr in old(lbc) then lbc == old(lbc) else fresh(lbc[dir[a].ptr])
    {
      hide BlockDenotes, Denotes, Climbed, Kept, Unrefs, Graft, Ready, Linked, Lists, Valid, StopsAt, NameOf, KidsAt,
        Grows, Distinct, View, InClimb, AtRoot, AtStop, Logged, Dated, Redated;
      ghost var st, first := Begun(mtime, ctime), BlockOf(newBlock);
      RedatedFirst(st, dir, name);
      BeginClimb(st, dir, trees, name, typ, s, a, BlockOf(newBlock));
      var block := newBlock;
      newPath, bps, r := [], [], Done;
      var setTime := true;
      while |newPath| < |dir| + 1
        invariant a < |dir| - |newPath| + 1 <= |dir| + 1 && lbc == old(lbc)
        invariant Linked(st.store, st.view, dir, |dir| - |newPath|) && Grows(st.store, store)
        invariant |newPath| <= |dir| ==> setTime == Redated(st, dir, name, |dir| - |newPath|)
        invariant if |newPath| <= |dir|
            then a < |dir| - |newPath| && InClimb(st, dir, trees, name, s, first, |dir| - |newPath|, BlockOf(block),
                                                  newPath, bps) && root == st.root
            else AtRoot(st, dir, trees, name, s, first, newPath, bps)
      {
        var j := |dir| - |newPath|;
        LinkedNext(st.store, st.view, dir, j);
        var m, c := if setTime then mtime else None, if setTime then ctime else None;
        if j == 0 {
          var ptr := EnterRoot(st, dir, trees, name, typ, s, a, first, BlockOf(block), newPath, bps, m, c);
          newPath, bps := [PathNode(ptr, NameOf(dir, name, 0))] + newPath, bps + [ptr];
        } else {
          var found, created, prev, ptr, de := ClimbOne(st, dir, trees, name, typ, s, a, first, j, BlockOf(block),
                                                        newPath, bps, m, c);
          newPath, bps := [PathNode(ptr, NameOf(dir, name, j))] + newPath, bps + [ptr];
          if !found {
            r := NoSuchName;
            return;
          }
          block := NewDir(prev);
          Stops(stopAt, dir, a, j - 1);
          if stopAt == Some(dir[j - 1].ptr) {
            StopHere(st, dir, trees, name, s, j - 1, prev, de, newPath, bps);
            return;
          }
          // A new entry also dates its directory.
          setTime := created;
        }
      }
    }
  }
}
