/** Content-addressed directory trees: what a root pointer denotes, and what replacing one
    entry deep inside it means. */
module Merkle {
  import opened Pointers

  datatype EntryType = File | Exec | Dir | Sym

  predicate IsFile(typ: EntryType) {
    typ.File? || typ.Exec?
  }

  // A directory entry; times are kept but say nothing about the tree.
  datatype Entry = Entry(typ: EntryType, ptr: Ptr, symPath: string, mtime: int, ctime: int)

  type Kids = map<string, Entry>

  // A block as it is encoded and stored.
  datatype Block = FileVal(data: seq<int>) | DirVal(kids: Kids)

  type Store = map<Ptr, Block>

  datatype Tree = FileTree(typ: EntryType, data: seq<int>) | SymTree(path: string) | DirTree(kids: map<string, Tree>)

  // The tree below an entry, read from stored blocks alone.
  ghost predicate Denotes(store: Store, e: Entry, t: Tree)
    decreases t
  {
    match t
    case FileTree(typ, data) => e.typ == typ && IsFile(typ) && e.ptr in store && store[e.ptr] == FileVal(data)
    case SymTree(path) => e.typ.Sym? && e.symPath == path
    case DirTree(kids) => e.typ.Dir? && e.ptr in store && BlockDenotes(store, store[e.ptr], t)
  }

  // The tree of a block that is not stored yet; its children are.
  ghost predicate BlockDenotes(store: Store, b: Block, t: Tree)
    decreases t, 0
  {
    match t
    case FileTree(typ, data) => b == FileVal(data)
    case SymTree(_) => false
    case DirTree(kids) =>
      b.DirVal? && b.kids.Keys == kids.Keys && forall n :: n in kids ==> Denotes(store, b.kids[n], kids[n])
  }

  lemma {:induction false} DenotesGrows(store: Store, store': Store, e: Entry, t: Tree)
    requires Denotes(store, e, t) && Grows(store, store')
    ensures Denotes(store', e, t)
    decreases t
  {
    match t
    case FileTree(_, _) =>
    case SymTree(_) =>
    case DirTree(kids) =>
      forall n | n in kids ensures Denotes(store', store[e.ptr].kids[n], kids[n]) {
        DenotesGrows(store, store', store[e.ptr].kids[n], kids[n]);
      }
  }

  // Nothing stored is ever overwritten.
  ghost predicate Grows(store: Store, store': Store) {
    forall p: Ptr :: p in store ==> p in store' && store'[p] == store[p]
  }

  // Directory blocks already changed by this operation but not stored yet, by their old pointer.
  type View = map<Ptr, Kids>

  ghost predicate HasDir(store: Store, view: View, p: Ptr) {
    p in view || (p in store && store[p].DirVal?)
  }

  ghost function KidsAt(store: Store, view: View, p: Ptr): Kids {
    if p in view then view[p] else if p in store && store[p].DirVal? then store[p].kids else map[]
  }

  // The block at p holds the entries of t, and everything outside `on` is already stored.
  ghost predicate Level(store: Store, view: View, p: Ptr, t: Tree, on: set<string>) {
    && HasDir(store, view, p) && t.DirTree? && KidsAt(store, view, p).Keys + on == t.kids.Keys + on
    && forall n :: n in t.kids && n !in on ==> Denotes(store, KidsAt(store, view, p)[n], t.kids[n])
  }

  // An entry of this type can point to a block holding this tree.
  predicate Fits(typ: EntryType, t: Tree) {
    match t
    case FileTree(want, _) => typ == want && (typ.File? || typ.Exec?)
    case SymTree(_) => false
    case DirTree(_) => typ.Dir?
  }

  // Readying a block and entering it in its parent makes the parent's block denote the parent's
  // tree with that one entry replaced.
  lemma {:induction false} Climb(was: Store, view: View, p: Ptr, t: Tree, n: string, store: Store, b: Block, sub: Tree,
              store': Store, e: Entry)
    requires Level(was, view, p, t, {n}) && Grows(was, store) && BlockDenotes(store, b, sub)
    requires Grows(store, store') && e.ptr in store' && store'[e.ptr] == b && Fits(e.typ, sub)
    ensures BlockDenotes(store', DirVal(KidsAt(was, view, p)[n := e]), DirTree(t.kids[n := sub]))
  {
    Stored(store, b, sub, store', e);
    forall m | m in t.kids && m != n ensures Denotes(store', KidsAt(was, view, p)[m], t.kids[m]) {
      DenotesGrows(was, store', KidsAt(was, view, p)[m], t.kids[m]);
    }
  }

  lemma {:induction false} Stored(store: Store, b: Block, t: Tree, store': Store, e: Entry)
    requires BlockDenotes(store, b, t) && Grows(store, store') && e.ptr in store' && store'[e.ptr] == b
    requires Fits(e.typ, t)
    ensures Denotes(store', e, t)
  {
    if t.DirTree? {
      forall n | n in t.kids ensures Denotes(store', b.kids[n], t.kids[n]) {
        DenotesGrows(store, store', b.kids[n], t.kids[n]);
      }
    }
  }

  // --- paths -------------------------------------------------------------------------------

  datatype PathNode = PathNode(ptr: Ptr, name: string)

  type Path = seq<PathNode>

  // The name under which directory i of the path holds the next thing on it.
  function Next(dir: Path, name: string, i: nat): string {
    if i + 1 < |dir| then dir[i + 1].name else name
  }

  function SubTrees(t: Tree): map<string, Tree> {
    if t.DirTree? then t.kids else map[]
  }

  // The new tree of directory i when the thing called name at the end of the path becomes s.
  ghost function Graft(dir: Path, trees: seq<Tree>, name: string, s: Tree, i: nat): Tree
    requires |trees| == |dir|
    decreases |dir| - i
  {
    if i >= |dir| then s
    else DirTree(SubTrees(trees[i])[Next(dir, name, i) := Graft(dir, trees, name, s, i + 1)])
  }

  ghost predicate Distinct(dir: Path) {
    forall i, j :: 0 <= i < j < |dir| ==> dir[i].ptr != dir[j].ptr
  }

  // Following the names of the path in stored blocks leads to its pointers.
  ghost predicate Resolves(store: Store, path: Path) {
    forall i :: 0 <= i < |path| - 1 ==>
      && path[i].ptr in store && store[path[i].ptr].DirVal?
      && path[i + 1].name in store[path[i].ptr].kids && store[path[i].ptr].kids[path[i + 1].name].ptr == path[i + 1].ptr
  }

  // --- trees by name -------------------------------------------------------------------------

  function Child(t: Tree, n: string): Tree {
    if n in SubTrees(t) then SubTrees(t)[n] else DirTree(map[])
  }

  function At(t: Tree, names: seq<string>): Tree
    decreases |names|
  {
    if names == [] then t else At(Child(t, names[0]), names[1..])
  }

  function SetAt(t: Tree, names: seq<string>, s: Tree): Tree
    decreases |names|
  {
    if names == [] then s else DirTree(SubTrees(t)[names[0] := SetAt(Child(t, names[0]), names[1..], s)])
  }

  function Without(t: Tree, n: string): Tree {
    DirTree(SubTrees(t) - {n})
  }

  function With(t: Tree, n: string, x: Tree): Tree {
    DirTree(SubTrees(t)[n := x])
  }

  // The names below the root of a path.
  function Names(dir: Path): seq<string>
    requires dir != []
  {
    seq(|dir| - 1, i requires 0 <= i < |dir| - 1 => dir[i + 1].name)
  }

  ghost predicate Chain(trees: seq<Tree>, dir: Path) {
    |trees| == |dir| && forall i :: 0 <= i < |dir| - 1 ==> trees[i + 1] == Child(trees[i], dir[i + 1].name)
  }

  lemma {:induction false} ChainAt(trees: seq<Tree>, dir: Path)
    requires Chain(trees, dir) && dir != []
    ensures At(trees[0], Names(dir)) == trees[|dir| - 1]
    decreases |dir|
  {
    if |dir| > 1 {
      assert Names(dir)[1..] == Names(dir[1..]);
      ChainAt(trees[1..], dir[1..]);
    }
  }

  // Grafting along a path is replacing the subtree of that name.
  lemma {:induction false} GraftIsSet(trees: seq<Tree>, dir: Path, s: Tree, i: nat)
    requires Chain(trees, dir) && i < |dir|
    ensures Graft(dir[..|dir| - 1], trees[..|dir| - 1], dir[|dir| - 1].name, s, i) ==
      SetAt(trees[i], Names(dir)[i..], s)
    decreases |dir| - i
  {
    if i < |dir| - 1 {
      GraftIsSet(trees, dir, s, i + 1);
      assert Names(dir)[i..][1..] == Names(dir)[i + 1..];
    }
  }

  lemma {:induction false} SetTwice(t: Tree, names: seq<string>, s: Tree, s': Tree)
    ensures SetAt(SetAt(t, names, s), names, s') == SetAt(t, names, s') && At(SetAt(t, names, s), names) == s
    decreases |names|
  {
    if names != [] {
      SetTwice(Child(t, names[0]), names[1..], s, s');
      assert SubTrees(SetAt(t, names, s))[names[0] := SetAt(Child(t, names[0]), names[1..], s')]
          == SubTrees(t)[names[0] := SetAt(Child(t, names[0]), names[1..], s')];
    }
  }

  // The trees of the directories along a path.
  function Walk(t: Tree, dir: Path): (r: seq<Tree>)
    ensures |r| == |dir|
    decreases |dir|
  {
    if |dir| == 0 then [] else if |dir| == 1 then [t] else [t] + Walk(Child(t, dir[1].name), dir[1..])
  }

  lemma {:induction false} WalkChain(t: Tree, dir: Path)
    ensures Chain(Walk(t, dir), dir) && (dir != [] ==> Walk(t, dir)[0] == t)
    decreases |dir|
  {
    if |dir| > 1 {
      WalkChain(Child(t, dir[1].name), dir[1..]);
      var trees := Walk(t, dir);
      forall i | 0 <= i < |dir| - 1 ensures trees[i + 1] == Child(trees[i], dir[i + 1].name) {
        if i > 0 { assert trees[i] == Walk(Child(t, dir[1].name), dir[1..])[i - 1]; }
      }
    }
  }

  predicate IsDir(e: Entry, p: Ptr) {
    e.typ.Dir? && e.ptr == p
  }

  // dir is a path of directories below the entry e, as stored.
  ghost predicate IsPath(store: Store, e: Entry, dir: Path) {
    && dir != [] && IsDir(e, dir[0].ptr)
    && (forall i :: 0 <= i < |dir| ==> dir[i].ptr in store && store[dir[i].ptr].DirVal?)
    && forall i :: 0 <= i < |dir| - 1 ==>
      dir[i + 1].name in store[dir[i].ptr].kids && IsDir(store[dir[i].ptr].kids[dir[i + 1].name], dir[i + 1].ptr)
  }

  // No directory is reached under two names.
  ghost predicate UniqueDirs(store: Store, e: Entry) {
    forall p: Path, q: Path :: IsPath(store, e, p) && IsPath(store, e, q) && p[|p| - 1].ptr == q[|q| - 1].ptr ==>
      p[1..] == q[1..]
  }

  lemma {:induction false} WalkLevel(store: Store, e: Entry, t: Tree, dir: Path, i: nat)
    requires IsPath(store, e, dir) && Denotes(store, e, t) && i < |dir|
    ensures Level(store, map[], dir[i].ptr, Walk(t, dir)[i], {})
    decreases |dir|
  {
    WalkChain(t, dir);
    if i > 0 {
      WalkLevel(store, store[dir[0].ptr].kids[dir[1].name], Child(t, dir[1].name), dir[1..], i - 1);
    }
  }

  lemma PathPrefix(store: Store, e: Entry, p: Path, n: nat)
    requires IsPath(store, e, p) && 0 < n <= |p|
    ensures IsPath(store, e, p[..n])
  {
  }

  lemma SameEnd(store: Store, e: Entry, p: Path, q: Path)
    requires UniqueDirs(store, e) && IsPath(store, e, p) && IsPath(store, e, q) && p[|p| - 1].ptr == q[|q| - 1].ptr
    ensures p[1..] == q[1..]
  {
  }

  lemma OnePath(store: Store, e: Entry, p: Path, q: Path, i: nat, j: nat)
    requires UniqueDirs(store, e) && IsPath(store, e, p) && IsPath(store, e, q) && i < |p| && j < |q|
    requires p[i].ptr == q[j].ptr
    ensures i == j && forall k :: 0 < k <= i ==> p[k] == q[k]
  {
    hide UniqueDirs;
    var p', q' := p[..i + 1], q[..j + 1];
    PathPrefix(store, e, p, i + 1);
    PathPrefix(store, e, q, j + 1);
    SameEnd(store, e, p', q');
    forall k | 0 < k <= i ensures p[k] == q[k] {
      assert p'[1..][k - 1] == p[k] && q'[1..][k - 1] == q[k];
    }
  }
}
