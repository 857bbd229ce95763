/** Conflict resolution writes many changed blocks back at once: it walks the tree of the paths
    involved, stops every branch at the directory where it joins the next one, and lets only the
    last branch of each directory climb on. */
module SyncTrees {
  import opened Merkle
  import opened PathCopy
  import opened Pointers

  // A place in the part of the tree to be written back; ptr 0 marks an entry that is new.
  datatype Node = Node(ptr: Ptr, children: map<string, Node>)

  // New contents for files, by parent directory and name.
  type Files = map<Ptr, map<string, seq<int>>>

  ghost predicate HasFile(files: Files, parent: Ptr, name: string) {
    parent in files && name in files[parent]
  }

  // What stands to be written back at this node is the tree t. The pointers in `busy` are those
  // of directories; everything outside the nodes is stored already.
  ghost predicate Pending(store: Store, view: View, files: Files, busy: set<Ptr>, parent: Ptr, name: string,
                          typ: EntryType, node: Node, t: Tree)
    decreases node, 1
  {
    if node.children != map[] then PendingKids(store, view, files, busy, node, t, node.children.Keys)
    else if node.ptr in view then node.ptr in busy && t.DirTree? && BlockDenotes(store, DirVal(view[node.ptr]), t)
    else
      && node.ptr !in busy && HasFile(files, parent, name) && t == FileTree(typ, files[parent][name])
      && IsFile(typ)
  }

  // The same for a directory of whose nodes only those in `rest` are still to be written back.
  ghost predicate PendingKids(store: Store, view: View, files: Files, busy: set<Ptr>, node: Node, t: Tree,
                              rest: set<string>)
    decreases node, 0
  {
    && node.ptr in busy && HasDir(store, view, node.ptr) && t.DirTree? && rest <= node.children.Keys
    && var kids := KidsAt(store, view, node.ptr);
    && t.kids.Keys == kids.Keys + rest
    && (forall n :: n in kids && n !in rest ==> Denotes(store, kids[n], t.kids[n]))
    && forall n :: n in rest ==>
      && Listed(kids, n, node.children[n].ptr, busy)
      && Pending(store, view, files, busy, node.ptr, n, TypeOf(kids, n, File), node.children[n], t.kids[n])
  }

  predicate Listed(kids: Kids, n: string, p: Ptr, busy: set<Ptr>) {
    && (n in kids <==> p != 0)
    && (n in kids ==> kids[n].ptr == p && (p in busy ==> kids[n].typ.Dir?))
  }

  // The directories among the nodes.
  ghost function Dirs(node: Node, busy: set<Ptr>): set<Ptr> {
    {node.ptr} * busy + set n, p | n in node.children && p in Dirs(node.children[n], busy) :: p
  }

  // No directory occurs twice.
  ghost predicate Apart(node: Node, busy: set<Ptr>) {
    && (forall n :: n in node.children ==> Apart(node.children[n], busy) && node.ptr !in Dirs(node.children[n], busy))
    && forall n, m :: n in node.children && m in node.children && n != m ==>
      Dirs(node.children[n], busy) !! Dirs(node.children[m], busy)
  }

  // L lists the old pointers of a node and everything below it, each once, children first.
  ghost predicate PostOrder(node: Node, L: seq<Ptr>)
    decreases node, 2
  {
    if node.children == map[] then L == if node.ptr == 0 then [] else [node.ptr]
    else exists K :: KidsInOrder(node, node.children.Keys, K) && L == K + [node.ptr]
  }

  // L is made of the post-orders of the children in `done`, in some order.
  ghost predicate KidsInOrder(node: Node, done: set<string>, L: seq<Ptr>)
    decreases node, 1, |done|
  {
    if done == {} then L == []
    else
      exists n, K, M ::
        && n in done && n in node.children && L == K + M
        && KidsInOrder(node, done - {n}, K) && PostOrder(node.children[n], M)
  }

  ghost predicate Same(view: View, view': View, p: Ptr) {
    (p in view <==> p in view') && (p in view ==> view'[p] == view[p])
  }

  // Writing other parts back leaves what is pending here as it was.
  lemma {:induction false} PendingKept(store: Store, store': Store, view: View, view': View, files: Files,
                                       busy: set<Ptr>, parent: Ptr, name: string, typ: EntryType, node: Node, t: Tree)
    requires Pending(store, view, files, busy, parent, name, typ, node, t) && Grows(store, store') && view'.Keys <= busy
    requires forall p :: p in Dirs(node, busy) ==> Same(view, view', p)
    ensures Pending(store', view', files, busy, parent, name, typ, node, t)
    decreases node, 1
  {
    if node.children != map[] {
      PendingKidsKept(store, store', view, view', files, busy, node, t, node.children.Keys);
    } else if node.ptr in view {
      assert Same(view, view', node.ptr);
      forall n | n in t.kids ensures Denotes(store', view[node.ptr][n], t.kids[n]) {
        DenotesGrows(store, store', view[node.ptr][n], t.kids[n]);
      }
    }
  }

  lemma {:induction false} PendingKidsKept(store: Store, store': Store, view: View, view': View, files: Files,
                                           busy: set<Ptr>, node: Node, t: Tree, rest: set<string>)
    requires PendingKids(store, view, files, busy, node, t, rest) && Grows(store, store') && view'.Keys <= busy
    requires forall p :: p in Dirs(node, busy) ==> Same(view, view', p)
    ensures PendingKids(store', view', files, busy, node, t, rest)
    decreases node, 0
  {
    var kids := KidsAt(store, view, node.ptr);
    assert Same(view, view', node.ptr);
    assert KidsAt(store', view', node.ptr) == kids;
    forall n | n in kids && n !in rest ensures Denotes(store', kids[n], t.kids[n]) {
      DenotesGrows(store, store', kids[n], t.kids[n]);
    }
    forall n | n in rest
      ensures Pending(store', view', files, busy, node.ptr, n, TypeOf(kids, n, File), node.children[n], t.kids[n])
    {
      PendingKept(store, store', view, view', files, busy, node.ptr, n, TypeOf(kids, n, File), node.children[n],
                  t.kids[n]);
    }
  }

  // Written back from st: s stands at dir/name in what the root, or the cached directory a, now
  // lists; L are the old pointers of what was below; only `changed` and the path differ.
  ghost predicate TreeDone(st: Start, st': Start, dir: Path, trees: seq<Tree>, name: string, s: Tree, a: int,
                           changed: set<Ptr>, L: seq<Ptr>, bps: seq<Ptr>)
    requires |trees| == |dir| && -1 <= a < |dir|
  {
    && Grows(st.store, st'.store) && (forall p :: p in st'.store ==> p in st.store || p in bps)
    && (forall p :: p !in changed && Off(dir, a, p) ==> Same(st.view, st'.view, p))
    && Unrefs(st'.updates) == Unrefs(st.updates) + L + Up(dir, |dir|, a + 1)
    && if a == -1 then st'.root.typ.Dir? && Denotes(st'.store, st'.root, Graft(dir, trees, name, s, 0))
      else
        && st'.root == st.root && dir[a].ptr in st'.view && NameOf(dir, name, a + 1) in st'.view[dir[a].ptr]
        && var e := st'.view[dir[a].ptr][NameOf(dir, name, a + 1)];
        && st'.view[dir[a].ptr] == KidsAt(st.store, st.view, dir[a].ptr)[NameOf(dir, name, a + 1) := e]
        && Denotes(st'.store, e, Graft(dir, trees, name, s, a + 1))
  }

  // Everything a node's write-back relies on.
  ghost predicate Prepared(st: Start, files: Files, busy: set<Ptr>, dir: Path, trees: seq<Tree>, name: string,
                           node: Node, t: Tree, a: int) {
    && Ready(st.store, st.view, st.root, dir, trees, name, TypeFor(node, busy), t, a)
    && Linked(st.store, st.view, dir, a)
    && Pending(st.store, st.view, files, busy, ParentPtr(dir), name, TypeIn(st, dir, name), node, t)
    && Apart(node, busy) && st.view.Keys <= busy && 0 !in busy
    && (forall i :: 0 <= i < |dir| ==> dir[i].ptr in busy && dir[i].ptr !in Dirs(node, busy))
    && (if dir == [] then node.ptr == st.root.ptr && node.ptr in busy
      else Listed(KidsAt(st.store, st.view, ParentPtr(dir)), name, node.ptr, busy))
  }

  function TypeFor(node: Node, busy: set<Ptr>): EntryType {
    if node.ptr in busy then Dir else File
  }

  function ParentPtr(dir: Path): Ptr {
    if dir == [] then 0 else dir[|dir| - 1].ptr
  }

  ghost function TypeIn(st: Start, dir: Path, name: string): EntryType {
    if dir == [] then Dir else TypeOf(KidsAt(st.store, st.view, ParentPtr(dir)), name, File)
  }

  lemma {:induction false} LeafGiven(st: Start, files: Files, busy: set<Ptr>, dir: Path, trees: seq<Tree>, name: string,
                                     node: Node, t: Tree, a: int)
    requires Prepared(st, files, busy, dir, trees, name, node, t, a)
    ensures Given(st.store, st.view, st.root, dir, name) == if node.ptr == 0 then [] else [node.ptr]
    ensures -1 <= a < |dir| == |trees|
  {
  }

  lemma {:induction false} LeafDone(st: Start, st': Start, dir: Path, trees: seq<Tree>, name: string, s: Tree, a: int,
                                    changed: set<Ptr>, L: seq<Ptr>, path: Path, bps: seq<Ptr>)
    requires |trees| == |dir| && -1 <= a < |dir| && Climbed(st.store, st'.store, dir, name, a, path, bps)
    requires Kept(st.view, st'.view, dir, a)
    requires L == Given(st.store, st.view, st.root, dir, name) && Unrefs(st'.updates) == Logged(st, dir, name, a)
    requires a == -1 ==> st'.root.typ.Dir? && Denotes(st'.store, st'.root, Graft(dir, trees, name, s, 0))
    requires a >= 0 ==>
      && st'.root == st.root && dir[a].ptr in st'.view
      && Stopped(KidsAt(st.store, st.view, dir[a].ptr), st'.view[dir[a].ptr], NameOf(dir, name, a + 1), st'.store,
                 Graft(dir, trees, name, s, a + 1), path)
    ensures TreeDone(st, st', dir, trees, name, s, a, changed, L, bps)
  {
    hide Denotes, Graft, Climbed, Unrefs, Up, Off;
    ClimbedPut(st.store, st'.store, dir, name, a, path, bps);
  }

  // A leaf: one write-back.
  method SyncLeaf(w: TreeWriter, node: Node, dir: Path, name: string, stopAt: Option<Ptr>, files: Files,
                  ghost busy: set<Ptr>, ghost trees: seq<Tree>, ghost t: Tree, ghost a: int)
    returns (ok: bool, bps: seq<Ptr>, ghost L: seq<Ptr>)
    requires node.children == map[] && w.Valid() && Prepared(w.Begun(), files, busy, dir, trees, name, node, t, a)
    requires StopsAt(stopAt, dir, a)
    modifies w, w.lbc.Values
    ensures ok && TreeDone(old(w.Begun()), w.Begun(), dir, trees, name, t, a, Dirs(node, busy), L, bps)
    ensures PostOrder(node, L)
    ensures w.Valid() && w.lbc.Keys <= busy && fresh(w.lbc.Values - old(w.lbc.Values))
  {
    hide Denotes, Graft, Climbed, Kept, Ready, Linked, TreeWriter.Valid, Apart, Dirs, TreeDone, Unrefs, Up, Grows;
    bps, L := [], if node.ptr == 0 then [] else [node.ptr];
    ghost var st := w.Begun();
    LeafGiven(st, files, busy, dir, trees, name, node, t, a);
    var block, typ;
    if node.ptr in w.lbc {
      block, typ := NewDir(w.lbc[node.ptr]), Dir;
    } else if dir != [] && dir[|dir| - 1].ptr in files && name in files[dir[|dir| - 1].ptr] {
      block, typ := NewFile(files[dir[|dir| - 1].ptr][name]), File;
    } else {
      ok := false;
      return;
    }
    var r, newPath;
    r, newPath, bps := w.SyncBlock(block, dir, name, typ, None, None, stopAt, trees, t, a);
    ok := r == Done;
    LeafDone(st, w.Begun(), dir, trees, name, t, a, Dirs(node, busy), L, newPath, bps);
  }

  // --- going down to a child -------------------------------------------------------------------

  // With the child's tree in place the directory's own tree, and all above, are as wanted.
  lemma {:induction false} GraftChild(dir: Path, trees: seq<Tree>, name: string, p: Ptr, t: Tree, n: string, i: nat)
    requires |trees| == |dir| && t.DirTree? && n in t.kids && i <= |dir|
    ensures Graft(dir + [PathNode(p, name)], trees + [t], n, t.kids[n], i) == Graft(dir, trees, name, t, i)
    decreases |dir| - i
  {
    if i == |dir| {
      assert t.kids[n := t.kids[n]] == t.kids;
      assert Graft(dir + [PathNode(p, name)], trees + [t], n, t.kids[n], |dir| + 1) == t.kids[n];
    } else {
      GraftChild(dir, trees, name, p, t, n, i + 1);
    }
  }

  lemma {:induction false} UpChild(dir: Path, node: PathNode, hi: nat, lo: nat)
    requires hi <= |dir|
    ensures Up(dir + [node], hi, lo) == Up(dir, hi, lo)
  {
    if hi > lo { UpChild(dir, node, hi - 1, lo); }
  }

  // While only the part below `node` changes, what is above stays ready.
  lemma {:induction false} ReadyKept(st: Start, st': Start, dir: Path, trees: seq<Tree>, name: string, typ: EntryType,
                                     t: Tree, a: int)
    requires Ready(st.store, st.view, st.root, dir, trees, name, typ, t, a) && Linked(st.store, st.view, dir, a)
    requires Grows(st.store, st'.store) && st'.root == st.root
    requires forall i :: 0 <= i < |dir| ==> Same(st.view, st'.view, dir[i].ptr)
    ensures Ready(st'.store, st'.view, st'.root, dir, trees, name, typ, t, a) && Linked(st'.store, st'.view, dir, a)
    ensures forall i :: 0 <= i < |dir| && a <= i ==>
      KidsAt(st'.store, st'.view, dir[i].ptr) == KidsAt(st.store, st.view, dir[i].ptr)
  {
    hide Denotes, Fits;
    forall i | 0 <= i < |dir| && a <= i
      ensures Leads(st'.store, st'.view, dir, i)
      ensures KidsAt(st'.store, st'.view, dir[i].ptr) == KidsAt(st.store, st.view, dir[i].ptr)
    {
      assert Leads(st.store, st.view, dir, i) && Same(st.view, st'.view, dir[i].ptr);
    }
    forall i | a < i < |dir| ensures Level(st'.store, st'.view, dir[i].ptr, trees[i], {Next(dir, name, i)}) {
      LevelKept(st.store, st'.store, st.view, st'.view, dir[i].ptr, trees[i], {Next(dir, name, i)});
    }
    forall i | 0 <= i < |dir| - 1 && a <= i ensures Lists(st'.store, st'.view, dir, i) {
      assert Lists(st.store, st.view, dir, i) && Leads(st.store, st.view, dir, i) && Leads(st'.store, st'.view, dir, i);
    }
  }

  lemma {:induction false} LevelKept(store: Store, store': Store, view: View, view': View, p: Ptr, t: Tree,
                                     on: set<string>)
    requires Level(store, view, p, t, on) && Grows(store, store') && Same(view, view', p)
    ensures Level(store', view', p, t, on)
  {
    forall n | n in t.kids && n !in on ensures Denotes(store', KidsAt(store, view, p)[n], t.kids[n]) {
      DenotesGrows(store, store', KidsAt(store, view, p)[n], t.kids[n]);
    }
  }

  // The nodes of `node` outside `rest` are written back, and nothing outside `node` has changed.
  ghost predicate Partly(st: Start, st': Start, files: Files, busy: set<Ptr>, node: Node, t: Tree, rest: set<string>,
                         K: seq<Ptr>, bps: seq<Ptr>)
  {
    && Grows(st.store, st'.store) && (forall p :: p in st'.store ==> p in st.store || p in bps)
    && (forall p :: p !in Dirs(node, busy) ==> Same(st.view, st'.view, p)) && st'.view.Keys <= busy
    && st'.root == st.root && Unrefs(st'.updates) == Unrefs(st.updates) + K
    && KidsInOrder(node, node.children.Keys - rest, K) && PendingKids(st'.store, st'.view, files, busy, node, t, rest)
  }

  // The entry of a child can hold the child's tree.
  lemma {:induction false} ChildFits(store: Store, view: View, files: Files, busy: set<Ptr>, node: Node, t: Tree,
                                     rest: set<string>, n: string)
    requires PendingKids(store, view, files, busy, node, t, rest) && n in rest && view.Keys <= busy
    ensures Fits(TypeOf(KidsAt(store, view, node.ptr), n, TypeFor(node.children[n], busy)), t.kids[n])
  {
    hide Denotes, BlockDenotes;
    var kids := KidsAt(store, view, node.ptr);
    assert Listed(kids, n, node.children[n].ptr, busy);
    var child := node.children[n];
    assert Pending(store, view, files, busy, node.ptr, n, TypeOf(kids, n, File), child, t.kids[n]);
    if child.children != map[] {
      assert PendingKids(store, view, files, busy, child, t.kids[n], child.children.Keys);
    }
  }

  lemma LeadsChild(store: Store, view: View, dir: Path, name: string, p: Ptr, busy: set<Ptr>, i: int)
    requires 0 <= i < |dir| && Leads(store, view, dir, i) && p in busy
    requires i == |dir| - 1 ==> Listed(KidsAt(store, view, dir[i].ptr), name, p, busy)
    ensures Leads(store, view, dir + [PathNode(p, name)], i)
  {
  }

  lemma {:induction false} LevelChild(store: Store, view: View, files: Files, busy: set<Ptr>, node: Node, t: Tree,
                                      n: string)
    requires PendingKids(store, view, files, busy, node, t, {n})
    ensures Level(store, view, node.ptr, t, {n})
  {
    hide Pending;
  }

  lemma DistinctChild(dir: Path, node: PathNode)
    requires Distinct(dir) && forall i :: 0 <= i < |dir| ==> dir[i].ptr != node.ptr
    ensures Distinct(dir + [node])
  {
  }

  lemma {:induction false} ChildReady(st: Start, files: Files, busy: set<Ptr>, dir: Path, trees: seq<Tree>,
                                      name: string, node: Node, t: Tree, a: int, rest: set<string>, n: string, a': int)
    requires Ready(st.store, st.view, st.root, dir, trees, name, TypeFor(node, busy), t, a)
    requires Linked(st.store, st.view, dir, a)
    requires PendingKids(st.store, st.view, files, busy, node, t, rest) && n in rest
    requires a' == if rest == {n} then a else |dir|
    requires st.view.Keys <= busy && node.ptr in busy && 0 !in busy
    requires forall i :: 0 <= i < |dir| ==> dir[i].ptr != node.ptr
    requires if dir == [] then node.ptr == st.root.ptr
      else Listed(KidsAt(st.store, st.view, ParentPtr(dir)), name, node.ptr, busy)
    ensures Ready(st.store, st.view, st.root, dir + [PathNode(node.ptr, name)], trees + [t], n,
                  TypeFor(node.children[n], busy), t.kids[n], a')
    ensures Linked(st.store, st.view, dir + [PathNode(node.ptr, name)], a')
  {
    hide Denotes, Pending, Apart, Dirs, Level, Fits;
    var dir', trees' := dir + [PathNode(node.ptr, name)], trees + [t];
    DistinctChild(dir, PathNode(node.ptr, name));
    ChildFits(st.store, st.view, files, busy, node, t, rest, n);
    forall i | 0 <= i < |dir| && a' <= i ensures Leads(st.store, st.view, dir', i) {
      assert Leads(st.store, st.view, dir, i);
      LeadsChild(st.store, st.view, dir, name, node.ptr, busy, i);
    }
    assert Leads(st.store, st.view, dir', |dir|);
    if rest == {n} {
      LevelChild(st.store, st.view, files, busy, node, t, n);
    }
    forall i | a' < i < |dir'| ensures Level(st.store, st.view, dir'[i].ptr, trees'[i], {Next(dir', n, i)}) {
      if i < |dir| { assert Level(st.store, st.view, dir[i].ptr, trees[i], {Next(dir, name, i)}); }
    }
    forall i | 0 <= i < |dir'| - 1 && a' <= i ensures Lists(st.store, st.view, dir', i) {
      assert Leads(st.store, st.view, dir, i);
      if i < |dir| - 1 { assert Lists(st.store, st.view, dir, i); }
    }
  }

  lemma {:induction false} ChildSet(st: Start, st': Start, files: Files, busy: set<Ptr>, dir: Path, trees: seq<Tree>,
                                    name: string, node: Node,
                                    t: Tree, a: int, rest: set<string>, K: seq<Ptr>, bps: seq<Ptr>, n: string, a': int)
    requires Prepared(st, files, busy, dir, trees, name, node, t, a) && node.children != map[]
    requires Partly(st, st', files, busy, node, t, rest, K, bps) && n in rest && a' == if rest == {n} then a else |dir|
    ensures t.DirTree? && n in t.kids && n in node.children && Apart(node, busy) && 0 !in busy && st.root == st'.root
    ensures Prepared(st', files, busy, dir + [PathNode(node.ptr, name)], trees + [t], n, node.children[n], t.kids[n],
                     a')
  {
    hide Denotes, Ready, Linked, Pending, Dirs, Apart, Grows, Unrefs, KidsInOrder;
    var dir', kids, child := dir + [PathNode(node.ptr, name)], KidsAt(st'.store, st'.view, node.ptr), node.children[n];
    ChildDirs(node, busy, n);
    assert PendingKids(st.store, st.view, files, busy, node, t, node.children.Keys)
      by { HasKids(st, files, busy, dir, name, node, t); }
    ReadyAbove(st, st', files, busy, dir, trees, name, node, t, a);
    ChildReady(st', files, busy, dir, trees, name, node, t, a, rest, n, a');
    assert Listed(kids, n, child.ptr, busy);
    assert Pending(st'.store, st'.view, files, busy, node.ptr, n, TypeOf(kids, n, File), child, t.kids[n]);
    assert ParentPtr(dir') == node.ptr;
  }

  lemma {:induction false} ChildDirs(node: Node, busy: set<Ptr>, n: string)
    requires n in node.children
    ensures Dirs(node.children[n], busy) <= Dirs(node, busy) && (node.ptr in busy ==> node.ptr in Dirs(node, busy))
    ensures Apart(node, busy) ==> Apart(node.children[n], busy) && node.ptr !in Dirs(node.children[n], busy)
  {
  }

  lemma {:induction false} HasKids(st: Start, files: Files, busy: set<Ptr>, dir: Path, name: string, node: Node,
                                   t: Tree)
    requires Pending(st.store, st.view, files, busy, ParentPtr(dir), name, TypeIn(st, dir, name), node, t)
    requires node.children != map[]
    ensures PendingKids(st.store, st.view, files, busy, node, t, node.children.Keys)
  {
  }

  lemma {:induction false} ReadyAbove(st: Start, st': Start, files: Files, busy: set<Ptr>, dir: Path, trees: seq<Tree>,
                                      name: string, node: Node, t: Tree, a: int)
    requires Prepared(st, files, busy, dir, trees, name, node, t, a) && Grows(st.store, st'.store)
    requires st'.root == st.root
    requires forall p :: p !in Dirs(node, busy) ==> Same(st.view, st'.view, p)
    ensures Ready(st'.store, st'.view, st'.root, dir, trees, name, TypeFor(node, busy), t, a)
    ensures Linked(st'.store, st'.view, dir, a)
    ensures dir != [] ==> Listed(KidsAt(st'.store, st'.view, ParentPtr(dir)), name, node.ptr, busy)
  {
    hide Denotes, Ready, Linked, Pending, Dirs, Apart;
    ReadyKept(st, st', dir, trees, name, TypeFor(node, busy), t, a);
    assert -1 <= a < |dir| by { ReadyStop(st, dir, trees, name, TypeFor(node, busy), t, a); }
  }

  lemma {:induction false} ReadyStop(st: Start, dir: Path, trees: seq<Tree>, name: string, typ: EntryType, t: Tree,
                                     a: int)
    requires Ready(st.store, st.view, st.root, dir, trees, name, typ, t, a)
    ensures -1 <= a < |dir| == |trees|
  {
  }

  // A child that is not the last one has been written back up to this directory.
  lemma {:induction false} NextPartly(st: Start, st1: Start, st2: Start, files: Files, busy: set<Ptr>, dir: Path,
                                      trees: seq<Tree>, name: string,
                                      node: Node, t: Tree, rest: set<string>, K: seq<Ptr>, bps: seq<Ptr>, n: string,
                                      M: seq<Ptr>, more: seq<Ptr>)
    requires Apart(node, busy) && |trees| == |dir| && n in rest && 0 !in busy && st2.view.Keys <= busy
    requires Partly(st, st1, files, busy, node, t, rest, K, bps) && PostOrder(node.children[n], M)
    requires TreeDone(st1, st2, dir + [PathNode(node.ptr, name)], trees + [t], n, t.kids[n], |dir|,
                      Dirs(node.children[n], busy), M, more)
    ensures Partly(st, st2, files, busy, node, t, rest - {n}, K + M, bps + more)
  {
    hide Denotes, Pending, PostOrder, PendingKids, KidsInOrder, Dirs, Apart;
    PendingParts(st1.store, st1.view, files, busy, node, t, rest);
    DirsBelow(node, busy, n);
    var dir', child := dir + [PathNode(node.ptr, name)], node.children[n];
    assert Up(dir', |dir'|, |dir| + 1) == [];
    forall p | p !in Dirs(child, busy) && p != node.ptr ensures Same(st1.view, st2.view, p) {
      assert Off(dir', |dir|, p);
    }
    KidsNext(node, rest, n, K, M);
    RestKept(st1, st2, files, busy, node, t, rest, n);
  }

  lemma {:induction false} PendingParts(store: Store, view: View, files: Files, busy: set<Ptr>, node: Node, t: Tree,
                                        rest: set<string>)
    requires PendingKids(store, view, files, busy, node, t, rest)
    ensures node.ptr in busy && rest <= node.children.Keys && t.DirTree? && rest <= t.kids.Keys
  {
  }

  lemma {:induction false} DirsBelow(node: Node, busy: set<Ptr>, n: string)
    requires n in node.children && node.ptr in busy
    ensures Dirs(node.children[n], busy) <= Dirs(node, busy) && node.ptr in Dirs(node, busy)
  {
  }

  lemma {:induction false} DirsApart(node: Node, busy: set<Ptr>, n: string, m: string)
    requires Apart(node, busy) && n in node.children && m in node.children && n != m
    ensures Dirs(node.children[n], busy) !! Dirs(node.children[m], busy) && node.ptr !in Dirs(node.children[m], busy)
  {
  }

  lemma KidsNext(node: Node, rest: set<string>, n: string, K: seq<Ptr>, M: seq<Ptr>)
    requires KidsInOrder(node, node.children.Keys - rest, K) && n in rest && rest <= node.children.Keys
    requires PostOrder(node.children[n], M)
    ensures KidsInOrder(node, node.children.Keys - (rest - {n}), K + M)
  {
    var done := node.children.Keys - (rest - {n});
    assert n in done && done - {n} == node.children.Keys - rest;
  }

  lemma {:induction false} RestKept(st1: Start, st2: Start, files: Files, busy: set<Ptr>, node: Node, t: Tree,
                                    rest: set<string>, n: string)
    requires Apart(node, busy) && PendingKids(st1.store, st1.view, files, busy, node, t, rest) && n in rest
    requires st2.view.Keys <= busy
    requires forall p :: p !in Dirs(node.children[n], busy) && p != node.ptr ==> Same(st1.view, st2.view, p)
    requires Grows(st1.store, st2.store) && node.ptr in st2.view && n in st2.view[node.ptr]
    requires st2.view[node.ptr] == KidsAt(st1.store, st1.view, node.ptr)[n := st2.view[node.ptr][n]]
    requires Denotes(st2.store, st2.view[node.ptr][n], t.kids[n])
    ensures PendingKids(st2.store, st2.view, files, busy, node, t, rest - {n})
  {
    hide Pending, Denotes, Dirs, Apart, Grows, Same, TypeOf, Listed;
    var kids, kids' := KidsAt(st1.store, st1.view, node.ptr), st2.view[node.ptr];
    forall m | m in kids && m !in rest ensures Denotes(st2.store, kids[m], t.kids[m]) {
      DenotesGrows(st1.store, st2.store, kids[m], t.kids[m]);
    }
    forall m | m in rest - {n}
      ensures Listed(kids', m, node.children[m].ptr, busy)
      ensures Pending(st2.store, st2.view, files, busy, node.ptr, m, TypeOf(kids', m, File), node.children[m],
                      t.kids[m])
    {
      DirsApart(node, busy, n, m);
      ListedElsewhere(kids, n, kids'[n], m, node.children[m].ptr, busy);
      PendingKept(st1.store, st2.store, st1.view, st2.view, files, busy, node.ptr, m, TypeOf(kids, m, File),
                  node.children[m], t.kids[m]);
    }
  }

  lemma ListedElsewhere(kids: Kids, n: string, e: Entry, m: string, p: Ptr, busy: set<Ptr>)
    requires m != n
    ensures Listed(kids[n := e], m, p, busy) == Listed(kids, m, p, busy)
    ensures TypeOf(kids[n := e], m, File) == TypeOf(kids, m, File)
  {
  }

  // The last child has been written back, and with it this directory and those above it.
  lemma {:induction false} LastDone(st: Start, st1: Start, st2: Start, files: Files, busy: set<Ptr>, dir: Path,
                                    trees: seq<Tree>, name: string,
                                    node: Node, t: Tree, a: int, K: seq<Ptr>, bps: seq<Ptr>, n: string, M: seq<Ptr>,
                                    more: seq<Ptr>)
    requires Prepared(st, files, busy, dir, trees, name, node, t, a) && node.children != map[]
    requires -1 <= a < |dir| == |trees|
    requires Partly(st, st1, files, busy, node, t, {n}, K, bps) && PostOrder(node.children[n], M)
    requires TreeDone(st1, st2, dir + [PathNode(node.ptr, name)], trees + [t], n, t.kids[n], a,
                      Dirs(node.children[n], busy), M, more)
    ensures TreeDone(st, st2, dir, trees, name, t, a, Dirs(node, busy), K + M + [node.ptr], bps + more)
    ensures PostOrder(node, K + M + [node.ptr])
  {
    hide Denotes, Pending, PendingKids, Dirs, Apart, Ready, Linked, Graft, Up, Listed, KidsInOrder, PostOrder, Off,
      Same, Unrefs, Grows;
    PendingParts(st1.store, st1.view, files, busy, node, t, {n});
    GraftChild(dir, trees, name, node.ptr, t, n, a + 1);
    UpLast(dir, PathNode(node.ptr, name), a + 1);
    LastOrder(node, n, K, M);
    GrowsOn(st.store, st1.store, st2.store);
    forall p | p !in Dirs(node, busy) && Off(dir, a, p) ensures Same(st.view, st2.view, p) {
      LastSame(st, st1, st2, busy, dir, name, node, a, n, p);
    }
    if a >= 0 {
      assert Same(st.view, st1.view, dir[a].ptr);
      StopSame(st, st1, dir, trees, name, TypeFor(node, busy), t, a);
    }
  }

  lemma GrowsOn(store: Store, store1: Store, store2: Store)
    requires Grows(store, store1) && Grows(store1, store2)
    ensures Grows(store, store2)
  {
  }

  lemma LastSame(st: Start, st1: Start, st2: Start, busy: set<Ptr>, dir: Path, name: string, node: Node, a: int,
                 n: string, p: Ptr)
    requires node.ptr in busy && n in node.children && p !in Dirs(node, busy) && Off(dir, a, p) && -1 <= a < |dir|
    requires Same(st.view, st1.view, p)
    requires p !in Dirs(node.children[n], busy) && Off(dir + [PathNode(node.ptr, name)], a, p) ==>
      Same(st1.view, st2.view, p)
    ensures Same(st.view, st2.view, p)
  {
    DirsBelow(node, busy, n);
  }

  lemma {:induction false} StopSame(st: Start, st1: Start, dir: Path, trees: seq<Tree>, name: string, typ: EntryType,
                                    t: Tree, a: int)
    requires Ready(st.store, st.view, st.root, dir, trees, name, typ, t, a) && 0 <= a
    requires a < |dir| ==> Same(st.view, st1.view, dir[a].ptr)
    requires Grows(st.store, st1.store)
    ensures a < |dir| && KidsAt(st1.store, st1.view, dir[a].ptr) == KidsAt(st.store, st.view, dir[a].ptr)
  {
    hide Denotes, Level;
    assert Leads(st.store, st.view, dir, a);
  }

  lemma UpLast(dir: Path, node: PathNode, lo: nat)
    requires lo <= |dir|
    ensures Up(dir + [node], |dir| + 1, lo) == [node.ptr] + Up(dir, |dir|, lo)
  {
    UpChild(dir, node, |dir|, lo);
  }

  lemma LastOrder(node: Node, n: string, K: seq<Ptr>, M: seq<Ptr>)
    requires KidsInOrder(node, node.children.Keys - {n}, K) && n in node.children && PostOrder(node.children[n], M)
    ensures PostOrder(node, K + M + [node.ptr])
  {
    KidsNext(node, {n}, n, K, M);
    assert node.children.Keys - ({n} - {n}) == node.children.Keys;
  }

  lemma {:induction false} FirstPartly(st: Start, files: Files, busy: set<Ptr>, dir: Path, trees: seq<Tree>,
                                       name: string, node: Node, t: Tree, a: int)
    requires Prepared(st, files, busy, dir, trees, name, node, t, a) && node.children != map[]
    ensures Partly(st, st, files, busy, node, t, node.children.Keys, [], []) && -1 <= a < |dir| == |trees|
    ensures st.view.Keys <= busy
  {
    hide Denotes, Ready, Linked, Apart, Dirs;
    ReadyStop(st, dir, trees, name, TypeFor(node, busy), t, a);
    assert node.children.Keys - node.children.Keys == {};
    assert Pending(st.store, st.view, files, busy, ParentPtr(dir), name, TypeIn(st, dir, name), node, t);
  }

  /** Writes back everything pending at and below node, and the directories above it up to stopAt.
      Whatever the order of the children, the result denotes the pending tree, and the old pointers
      of the nodes are given up in post-order: each once, and none before what lies below it. */
  method SyncTree(w: TreeWriter, node: Node, dir: Path, name: string, stopAt: Option<Ptr>, files: Files,
                  ghost busy: set<Ptr>, ghost trees: seq<Tree>, ghost t: Tree, ghost a: int)
    returns (ok: bool, bps: seq<Ptr>, ghost L: seq<Ptr>)
    requires w.Valid() && Prepared(w.Begun(), files, busy, dir, trees, name, node, t, a)
    requires -1 <= a < |dir| && stopAt == if a == -1 then None else Some(dir[a].ptr)
    modifies w, w.lbc.Values
    ensures ok && TreeDone(old(w.Begun()), w.Begun(), dir, trees, name, t, a, Dirs(node, busy), L, bps)
    ensures PostOrder(node, L)
    ensures w.Valid() && w.lbc.Keys <= busy && fresh(w.lbc.Values - old(w.lbc.Values))
    decreases node
  {
    hide Denotes, Pending, PendingKids, Dirs, Apart, Ready, Linked, Graft, Up, Prepared, Partly, TreeDone, PostOrder,
      TreeWriter.Valid;
    if node.children == map[] {
      ok, bps, L := SyncLeaf(w, node, dir, name, stopAt, files, busy, trees, t, a);
      return;
    }
    ghost var st := w.Begun();
    ok, bps, L := true, [], [];
    FirstPartly(st, files, busy, dir, trees, name, node, t, a);
    assert w.lbc.Keys == st.view.Keys;
    var names := node.children.Keys;
    while names != {}
      invariant names <= node.children.Keys && ok && w.Valid()
      invariant names != {} ==> Partly(st, w.Begun(), files, busy, node, t, names, L, bps)
      invariant names == {} ==>
        TreeDone(st, w.Begun(), dir, trees, name, t, a, Dirs(node, busy), L, bps) && PostOrder(node, L)
      invariant w.lbc.Keys <= busy && fresh(w.lbc.Values - old(w.lbc.Values))
    {
      var n :| n in names;
      ghost var rest, st1 := names, w.Begun();
      names := names - {n};
      var childStop := if names == {} then stopAt else Some(node.ptr);
      ghost var childA := if rest == {n} then a else |dir|;
      ChildSet(st, st1, files, busy, dir, trees, name, node, t, a, rest, L, bps, n, childA);
      var childBps;
      ghost var M;
      ok, childBps, M := SyncTree(w, node.children[n], dir + [PathNode(node.ptr, name)], n, childStop, files, busy,
                                  trees + [t], t.kids[n], childA);
      if names == {} {
        LastDone(st, st1, w.Begun(), files, busy, dir, trees, name, node, t, a, L, bps, n, M, childBps);
        L := L + M + [node.ptr];
      } else {
        NextPartly(st, st1, w.Begun(), files, busy, dir, trees, name, node, t, rest, L, bps, n, M, childBps);
        L := L + M;
      }
      bps := bps + childBps;
    }
  }

  // A post-order gives every directory up exactly once.
  lemma {:induction false} PostOrderOnce(node: Node, busy: set<Ptr>, L: seq<Ptr>, p: Ptr)
    requires PostOrder(node, L) && Apart(node, busy) && p in busy && 0 !in busy
    ensures multiset(L)[p] == if p in Dirs(node, busy) then 1 else 0
    decreases node, 1, 0
  {
    if node.children != map[] {
      var K :| KidsInOrder(node, node.children.Keys, K) && L == K + [node.ptr];
      KidsOnce(node, node.children.Keys, busy, K, p);
    }
  }

  lemma {:induction false} KidsOnce(node: Node, done: set<string>, busy: set<Ptr>, L: seq<Ptr>, p: Ptr)
    requires KidsInOrder(node, done, L) && done <= node.children.Keys && Apart(node, busy) && p in busy && 0 !in busy
    ensures multiset(L)[p] == if exists n :: n in done && p in Dirs(node.children[n], busy) then 1 else 0
    decreases node, 0, |done|
  {
    if done != {} {
      var n, K, M :| n in done && n in node.children && L == K + M && KidsInOrder(node, done - {n}, K)
        && PostOrder(node.children[n], M);
      KidsOnce(node, done - {n}, busy, K, p);
      PostOrderOnce(node.children[n], busy, M, p);
      if p in Dirs(node.children[n], busy) {
        forall m | m in done - {n} ensures p !in Dirs(node.children[m], busy) { DirsApart(node, busy, n, m); }
      }
    }
  }

  // From the root: the new root denotes exactly the pending tree, every new block is in bps, and every
  // directory involved is given up once.
  method SyncRoot(w: TreeWriter, node: Node, name: string, files: Files, ghost busy: set<Ptr>, ghost t: Tree)
    returns (ok: bool, bps: seq<Ptr>, ghost L: seq<Ptr>)
    requires w.Valid() && w.root.typ.Dir? && node.ptr == w.root.ptr && node.ptr in busy && 0 !in busy
    requires w.lbc.Keys <= busy
    requires Apart(node, busy) && Pending(w.store, w.View(), files, busy, 0, name, Dir, node, t)
    modifies w, w.lbc.Values
    ensures ok && Denotes(w.store, w.root, t)
    ensures Grows(old(w.store), w.store) && forall p :: p in w.store ==> p in old(w.store) || p in bps
    ensures Unrefs(w.updates) == Unrefs(old(w.updates)) + L && PostOrder(node, L)
    ensures forall p :: p in Dirs(node, busy) ==> multiset(L)[p] == 1
  {
    hide Pending, Denotes, Apart, PostOrder;
    assert t.DirTree? by { RootTree(w.store, w.View(), files, busy, name, node, t); }
    ok, bps, L := SyncTree(w, node, [], name, None, files, busy, [], t, -1);
    forall p | p in Dirs(node, busy) ensures multiset(L)[p] == 1 {
      DirsBusy(node, busy, p);
      PostOrderOnce(node, busy, L, p);
    }
  }

  lemma {:induction false} RootTree(store: Store, view: View, files: Files, busy: set<Ptr>, name: string, node: Node,
                                    t: Tree)
    requires Pending(store, view, files, busy, 0, name, Dir, node, t) && node.ptr in busy
    ensures t.DirTree?
  {
  }

  lemma {:induction false} DirsBusy(node: Node, busy: set<Ptr>, p: Ptr)
    requires p in Dirs(node, busy)
    ensures p in busy
    decreases node
  {
    if p !in {node.ptr} * busy {
      var n :| n in node.children && p in Dirs(node.children[n], busy);
      DirsBusy(node.children[n], busy, p);
    }
  }
}
