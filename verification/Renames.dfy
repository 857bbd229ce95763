/** Rename: the entry leaves one directory and enters another, and two path copies that share
    their common ancestor through the local block cache make one new root. */
module Renames {
  import opened Merkle
  import opened PathCopy
  import opened Pointers

  // Moving the tree at names/n to names'/n'.
  function Move(t: Tree, names: seq<string>, n: string, names': seq<string>, n': string): Tree {
    var left := SetAt(t, names, Without(At(t, names), n));
    SetAt(left, names', With(At(left, names'), n', Child(At(t, names), n)))
  }

  // The tree names/n is below the new parent's: a directory is moved into itself.
  predicate Inside(names: seq<string>, n: string, names': seq<string>) {
    names + [n] <= names'
  }

  // What a rename that succeeds leaves. It moves the tree, unless the entry is renamed to itself,
  // which removes it, or a directory is moved right into itself, which nests a copy of it.
  function Renamed(t: Tree, names: seq<string>, n: string, names': seq<string>, n': string): Tree {
    if names == names' && n == n' then SetAt(t, names, Without(At(t, names), n))
    else if Inside(names, n, names') then SetAt(t, names', With(At(t, names'), n', Child(At(t, names), n)))
    else Move(t, names, n, names', n')
  }

  function Last(dir: Path): PathNode
    requires dir != []
  {
    dir[|dir| - 1]
  }

  function Parent(dir: Path): Path
    requires dir != []
  {
    dir[..|dir| - 1]
  }

  // Index of the last directory two paths from the same root share.
  method CommonAncestor(p: Path, q: Path) returns (i: nat)
    requires p != [] && q != []
    ensures i < |p| && i < |q|
    ensures forall k :: 0 < k <= i ==> p[k].ptr == q[k].ptr
    ensures i + 1 < |p| && i + 1 < |q| ==> p[i + 1].ptr != q[i + 1].ptr
  {
    i := 1;
    while i < |p| && i < |q|
      invariant 1 <= i <= |p| && i <= |q|
      invariant forall k :: 0 < k < i ==> p[k].ptr == q[k].ptr
    {
      if p[i].ptr != q[i].ptr {
        i := i - 1;
        return;
      }
      i := i + 1;
    }
    i := if |p| < |q| then |p| - 1 else |q| - 1;
  }

  // Two directories of one tree, and where their paths part.
  ghost predicate Fork(store: Store, root: Entry, p: Path, q: Path, a: nat) {
    && IsPath(store, root, p) && IsPath(store, root, q) && a < |p| && a < |q|
    && Distinct(p) && Distinct(q)
    && (forall k :: 0 <= k <= a ==> p[k].ptr == q[k].ptr)
    && (forall k :: 0 < k <= a ==> p[k] == q[k])
    && (forall i, j :: 0 <= i < |p| && 0 <= j < |q| && p[i].ptr == q[j].ptr ==> i == j <= a)
    && (a + 1 < |p| && a + 1 < |q| ==> p[a + 1].name != q[a + 1].name)
  }

  lemma Forks(store: Store, root: Entry, p: Path, q: Path, a: nat)
    requires UniqueDirs(store, root) && IsPath(store, root, p) && IsPath(store, root, q) && a < |p| && a < |q|
    requires forall k :: 0 < k <= a ==> p[k].ptr == q[k].ptr
    requires a + 1 < |p| && a + 1 < |q| ==> p[a + 1].ptr != q[a + 1].ptr
    ensures Fork(store, root, p, q, a)
  {
    hide UniqueDirs;
    forall i, j | 0 <= i < j < |p| ensures p[i].ptr != p[j].ptr {
      if p[i].ptr == p[j].ptr { OnePath(store, root, p, p, i, j); }
    }
    forall i, j | 0 <= i < j < |q| ensures q[i].ptr != q[j].ptr {
      if q[i].ptr == q[j].ptr { OnePath(store, root, q, q, i, j); }
    }
    OnePath(store, root, p, q, a, a);
    forall i, j | 0 <= i < |p| && 0 <= j < |q| && p[i].ptr == q[j].ptr ensures i == j <= a {
      OnePath(store, root, p, q, i, j);
    }
  }

  // --- the trees along both paths ------------------------------------------------------------

  // What directory i of p becomes when its last directory becomes s.
  ghost function Left(t: Tree, p: Path, s: Tree, i: nat): Tree
    requires p != []
  {
    Graft(Parent(p), Walk(t, p)[..|p| - 1], Last(p).name, s, i)
  }

  // The trees along q once the last directory of p has become s.
  ghost function Trees(t: Tree, p: Path, q: Path, a: nat, s: Tree): (r: seq<Tree>)
    requires p != []
    ensures |r| == |q|
  {
    seq(|q|, i requires 0 <= i < |q| => if i <= a then Left(t, p, s, i) else Walk(t, q)[i])
  }

  lemma {:induction false} WalkSame(t: Tree, p: Path, q: Path, k: nat)
    requires k < |p| && k < |q| && forall i :: 0 < i <= k ==> p[i] == q[i]
    ensures Walk(t, p)[k] == Walk(t, q)[k]
  {
    WalkChain(t, p);
    WalkChain(t, q);
    if k > 0 { WalkSame(t, p, q, k - 1); }
  }

  lemma {:induction false} LeftStep(t: Tree, p: Path, s: Tree, i: nat)
    requires i < |p|
    ensures Left(t, p, s, i) == if i == |p| - 1 then s else With(Walk(t, p)[i], p[i + 1].name, Left(t, p, s, i + 1))
  {
  }

  lemma {:induction false} LeftWhole(t: Tree, p: Path, s: Tree)
    requires p != []
    ensures Left(t, p, s, 0) == SetAt(t, Names(p), s)
  {
    WalkChain(t, p);
    GraftIsSet(Walk(t, p), p, s, 0);
    assert Names(p)[0..] == Names(p);
  }

  // Unless q goes on through a child of p's last directory that s no longer has as it was, the
  // trees along q are those of the tree with s in place.
  lemma {:induction false} TreesChain(store: Store, root: Entry, t: Tree, p: Path, q: Path, a: nat, s: Tree)
    requires Fork(store, root, p, q, a)
    requires a == |p| - 1 && a + 1 < |q| ==> Child(s, q[a + 1].name) == Child(Walk(t, p)[a], q[a + 1].name)
    ensures Chain(Trees(t, p, q, a, s), q) && Trees(t, p, q, a, s)[0] == SetAt(t, Names(p), s)
  {
    hide SetAt, Names;
    var trees := Trees(t, p, q, a, s);
    WalkChain(t, p);
    WalkChain(t, q);
    LeftWhole(t, p, s);
    forall i | 0 <= i < |q| - 1 ensures trees[i + 1] == Child(trees[i], q[i + 1].name) {
      if i <= a {
        LeftStep(t, p, s, i);
        WalkSame(t, p, q, i);
      }
    }
  }

  // --- what each write-back finds ------------------------------------------------------------

  // A directory is as stored except for entry n, which still is the same directory.
  ghost predicate SameBut(kids': Kids, kids: Kids, n: string) {
    && kids'.Keys == kids.Keys && (forall m :: m in kids && m != n ==> kids'[m] == kids[m])
    && (n in kids ==> kids'[n].typ == kids[n].typ && kids'[n].ptr == kids[n].ptr)
  }

  // A changed block still shows a tree that differs from the stored one where the block does.
  lemma {:induction false} LevelChanged(store: Store, store': Store, view: View, p: Ptr, t: Tree, t': Tree, n: string)
    requires Level(store, map[], p, t, {}) && Grows(store, store') && HasDir(store', view, p) && t'.DirTree?
    requires KidsAt(store', view, p).Keys == t'.kids.Keys
    requires forall m :: m in t'.kids && m != n ==>
      || (m in t.kids && t'.kids[m] == t.kids[m] && KidsAt(store', view, p)[m] == store[p].kids[m])
      || Denotes(store', KidsAt(store', view, p)[m], t'.kids[m])
    ensures Level(store', view, p, t', {n})
  {
    forall m | m in t'.kids && m != n ensures Denotes(store', KidsAt(store', view, p)[m], t'.kids[m]) {
      if m in t.kids && t'.kids[m] == t.kids[m] && KidsAt(store', view, p)[m] == store[p].kids[m] {
        DenotesGrows(store, store', store[p].kids[m], t.kids[m]);
      }
    }
  }

  // Directory i of path q shows tree t, and still leads on to the next one if it leads anywhere.
  ghost predicate Shows(store: Store, view: View, q: Path, i: nat, t: Tree)
    requires i + 1 < |q|
  {
    Level(store, view, q[i].ptr, t, {q[i + 1].name}) && Leads(store, view, q, i)
  }

  lemma LeadsParent(store: Store, view: View, q: Path, i: nat)
    requires i < |q| - 1 && Leads(store, view, q, i)
    ensures Leads(store, view, Parent(q), i)
  {
  }

  lemma LeadsToDir(store: Store, view: View, q: Path)
    requires |q| > 1 && Leads(store, view, q, |q| - 2)
    ensures HasDir(store, view, q[|q| - 2].ptr) && TypeOf(KidsAt(store, view, q[|q| - 2].ptr), Last(q).name, Dir) == Dir
  {
  }

  lemma {:induction false} ShowsReady(store: Store, view: View, root: Entry, q: Path, trees: seq<Tree>, s: Tree, a: int)
    requires q != [] && |trees| == |q| && -1 <= a < |q| - 1 && Distinct(q) && IsDir(root, q[0].ptr) && s.DirTree?
    requires forall i :: 0 <= i < |q| - 1 && a <= i ==> Leads(store, view, q, i)
    requires forall i :: a < i < |q| - 1 ==> Level(store, view, q[i].ptr, trees[i], {q[i + 1].name})
    ensures Ready(store, view, root, Parent(q), trees[..|q| - 1], Last(q).name, Dir, s, a)
  {
    hide Level, Leads, HasDir, TypeOf, KidsAt;
    var dir := Parent(q);
    forall i | a < i < |dir| ensures Level(store, view, dir[i].ptr, trees[i], {Next(dir, Last(q).name, i)}) {
      assert Next(dir, Last(q).name, i) == q[i + 1].name;
    }
    forall i | 0 <= i < |dir| && a <= i ensures Leads(store, view, dir, i) {
      LeadsParent(store, view, q, i);
    }
    if dir != [] { LeadsToDir(store, view, q); }
  }

  // Directory i of path q, as stored up to the entry on the path.
  lemma {:induction false} ShowsStored(store: Store, root: Entry, t: Tree, q: Path, i: nat, store': Store, view: View,
                                       t': Tree, x: Tree)
    requires IsPath(store, root, q) && Denotes(store, root, t) && i + 1 < |q| && Grows(store, store')
    requires HasDir(store', view, q[i].ptr)
    requires SameBut(KidsAt(store', view, q[i].ptr), store[q[i].ptr].kids, q[i + 1].name)
    requires t' == Walk(t, q)[i] || t' == With(Walk(t, q)[i], q[i + 1].name, x)
    ensures Shows(store', view, q, i, t')
  {
    hide Denotes;
    WalkLevel(store, root, t, q, i);
    LevelChanged(store, store', view, q[i].ptr, Walk(t, q)[i], t', q[i + 1].name);
  }

  // The blocks in the cache before anything is written back: at most the directory above p, with
  // p's entry dated.
  ghost predicate Prepped(store: Store, view: View, p: Path)
    requires p != []
  {
    forall r :: r in view ==>
      && |p| > 1 && r == p[|p| - 2].ptr && r in store && store[r].DirVal?
      && SameBut(view[r], store[r].kids, Last(p).name)
  }

  // With more cached at r as well.
  ghost predicate CachedAlso(view: View, view': View, r: Ptr) {
    forall k :: k != r ==> (k in view <==> k in view') && (k in view ==> view'[k] == view[k])
  }

  // Every directory of a path is found as stored, up to the entry on the path.
  lemma PreppedAt(store: Store, root: Entry, view: View, view': View, r: Ptr, p: Path, i: nat)
    requires IsPath(store, root, p) && Distinct(p) && Prepped(store, view, p) && CachedAlso(view, view', r)
    requires i + 1 < |p| && p[i].ptr != r
    ensures HasDir(store, view', p[i].ptr)
    ensures SameBut(KidsAt(store, view', p[i].ptr), store[p[i].ptr].kids, p[i + 1].name)
    ensures i + 2 < |p| ==> p[i].ptr !in view'
  {
  }

  // The write-back of the old parent finds what it needs.
  lemma {:induction false} OldReady(store: Store, root: Entry, root': Entry, t: Tree, p: Path, q: Path, a: nat,
                                    view: View, view': View, s: Tree)
    requires Fork(store, root, p, q, a) && Denotes(store, root, t) && a < |p| - 1 && s.DirTree?
    requires IsDir(root', p[0].ptr)
    requires Prepped(store, view, p) && CachedAlso(view, view', p[a].ptr)
    requires Leads(store, view', p, a) && p[a + 1].name in KidsAt(store, view', p[a].ptr)
    ensures Ready(store, view', root', Parent(p), Walk(t, p)[..|p| - 1], Last(p).name, Dir, s, a)
    ensures Linked(store, view', Parent(p), a)
  {
    hide Denotes, Level;
    forall i | a < i < |p| - 1
      ensures Level(store, view', p[i].ptr, Walk(t, p)[i], {p[i + 1].name}) && Leads(store, view', p, i)
        && p[i + 1].name in KidsAt(store, view', p[i].ptr)
    {
      PreppedAt(store, root, view, view', p[a].ptr, p, i);
      ShowsStored(store, root, t, p, i, store, view', Walk(t, p)[i], t);
    }
    ShowsReady(store, view', root', p, Walk(t, p), s, a);
  }

  // The write-back of the new parent finds what it needs: above the fork directories as stored,
  // the fork itself already changed, and below it nothing touched.
  lemma {:induction false} NewReady(store: Store, root: Entry, root': Entry, t: Tree, p: Path, q: Path, a: nat,
                                    s1: Tree, store': Store, view: View, s: Tree)
    requires Fork(store, root, p, q, a) && Denotes(store, root, t) && Grows(store, store') && s.DirTree?
    requires IsDir(root', q[0].ptr)
    requires forall i :: 0 <= i < a ==>
      HasDir(store', view, q[i].ptr) && SameBut(KidsAt(store', view, q[i].ptr), store[q[i].ptr].kids, q[i + 1].name)
    requires a < |q| - 1 ==> Shows(store', view, q, a, Left(t, p, s1, a))
    requires forall i :: a < i < |q| ==> q[i].ptr !in view
    ensures Ready(store', view, root', Parent(q), Trees(t, p, q, a, s1)[..|q| - 1], Last(q).name, Dir, s, -1)
    ensures Linked(store', view, Parent(q), -1) == (a + 2 < |q| ==> q[a + 1].name in KidsAt(store', view, q[a].ptr))
  {
    hide Denotes, Level;
    var trees := Trees(t, p, q, a, s1);
    forall i | 0 <= i < |q| - 1
      ensures Level(store', view, q[i].ptr, trees[i], {q[i + 1].name}) && Leads(store', view, q, i)
      ensures i != a ==> q[i + 1].name in KidsAt(store', view, q[i].ptr)
    {
      if i < a {
        LeftStep(t, p, s1, i);
        WalkSame(t, p, q, i);
        ShowsStored(store, root, t, q, i, store', view, trees[i], Left(t, p, s1, i + 1));
      } else if i > a {
        ShowsStored(store, root, t, q, i, store', view, trees[i], t);
      }
    }
    ShowsReady(store', view, root', q, trees, s, -1);
    LinkedIff(store', view, q, a);
  }

  lemma LinkedIff(store: Store, view: View, q: Path, a: nat)
    requires a < |q|
    requires forall i :: 0 <= i < |q| - 1 ==> HasDir(store, view, q[i].ptr)
    requires forall i :: 0 <= i < |q| - 1 && i != a ==> q[i + 1].name in KidsAt(store, view, q[i].ptr)
    ensures Linked(store, view, Parent(q), -1) == (a + 2 < |q| ==> q[a + 1].name in KidsAt(store, view, q[a].ptr))
  {
    if a + 2 < |q| {
      assert Lists(store, view, Parent(q), a) == (q[a + 1].name in KidsAt(store, view, q[a].ptr));
    }
  }

  // The fork after the old parent's write-back stopped there.
  lemma {:induction false} ForkAfterOld(store: Store, root: Entry, t: Tree, p: Path, q: Path, a: nat, s1: Tree,
                                        store': Store, view: View, was: Kids, path: Path)
    requires Fork(store, root, p, q, a) && Denotes(store, root, t) && Grows(store, store') && a < |p| - 1 && a < |q| - 1
    requires p[a].ptr in view && SameBut(was, store[p[a].ptr].kids, p[a + 1].name)
    requires Stopped(was, view[p[a].ptr], p[a + 1].name, store', Left(t, p, s1, a + 1), path)
    ensures Shows(store', view, q, a, Left(t, p, s1, a)) && q[a + 1].name in KidsAt(store', view, q[a].ptr)
  {
    LeftStep(t, p, s1, a);
    WalkSame(t, p, q, a);
    WalkLevel(store, root, t, q, a);
    LevelChanged(store, store', view, q[a].ptr, Walk(t, q)[a], Left(t, p, s1, a), q[a + 1].name);
  }

  // The fork is the old parent itself, without the entry that moves.
  lemma {:induction false} ForkIsOld(store: Store, root: Entry, t: Tree, p: Path, q: Path, a: nat, n: string,
                                     view: View)
    requires Fork(store, root, p, q, a) && Denotes(store, root, t) && a == |p| - 1 && a < |q| - 1
    requires p[a].ptr in view && view[p[a].ptr] == store[p[a].ptr].kids - {n}
    ensures Shows(store, view, q, a, Left(t, p, Without(Walk(t, p)[a], n), a))
    ensures q[a + 1].name in KidsAt(store, view, q[a].ptr) <==> q[a + 1].name != n
  {
    LeftStep(t, p, Without(Walk(t, p)[a], n), a);
    WalkSame(t, p, q, a);
    WalkLevel(store, root, t, q, a);
    LevelChanged(store, store, view, q[a].ptr, Walk(t, q)[a], Left(t, p, Without(Walk(t, p)[a], n), a), q[a + 1].name);
  }

  // --- the blocks that are written back, and the outcome -------------------------------------

  lemma {:induction false} BlockWith(store: Store, kids: Kids, t: Tree, n: string, e: Entry, x: Tree)
    requires BlockDenotes(store, DirVal(kids), t) && t.DirTree? && Denotes(store, e, x)
    ensures BlockDenotes(store, DirVal(kids[n := e]), With(t, n, x))
  {
  }

  lemma {:induction false} BlockWithout(store: Store, kids: Kids, t: Tree, n: string)
    requires BlockDenotes(store, DirVal(kids), t) && t.DirTree?
    ensures BlockDenotes(store, DirVal(kids - {n}), Without(t, n))
  {
  }

  lemma {:induction false} BlockGrows(store: Store, store': Store, kids: Kids, t: Tree)
    requires BlockDenotes(store, DirVal(kids), t) && t.DirTree? && Grows(store, store')
    ensures BlockDenotes(store', DirVal(kids), t)
  {
    forall n | n in t.kids ensures Denotes(store', kids[n], t.kids[n]) {
      DenotesGrows(store, store', kids[n], t.kids[n]);
    }
  }

  lemma {:induction false} BlockAt(store: Store, root: Entry, t: Tree, p: Path)
    requires IsPath(store, root, p) && Denotes(store, root, t)
    ensures Walk(t, p)[|p| - 1].DirTree? && BlockDenotes(store, DirVal(store[Last(p).ptr].kids), Walk(t, p)[|p| - 1])
    ensures Walk(t, p)[|p| - 1] == At(t, Names(p))
  {
    WalkLevel(store, root, t, p, |p| - 1);
    WalkChain(t, p);
    ChainAt(Walk(t, p), p);
  }

  // What the last write-back leaves is the moved tree.
  lemma {:induction false} Moved(store: Store, root: Entry, t: Tree, p: Path, q: Path, a: nat, n: string, m: string)
    requires Fork(store, root, p, q, a) && Denotes(store, root, t)
    requires a == |p| - 1 && a + 1 < |q| ==> q[a + 1].name != n
    ensures var trees := Trees(t, p, q, a, Without(At(t, Names(p)), n));
      var s := With(trees[|q| - 1], m, Child(At(t, Names(p)), n));
      Graft(Parent(q), trees[..|q| - 1], Last(q).name, s, 0) == Move(t, Names(p), n, Names(q), m)
  {
    hide Denotes, Graft;
    BlockAt(store, root, t, p);
    var s1 := Without(At(t, Names(p)), n);
    var trees := Trees(t, p, q, a, s1);
    TreesChain(store, root, t, p, q, a, s1);
    ChainAt(trees, q);
    GraftIsSet(trees, q, With(trees[|q| - 1], m, Child(At(t, Names(p)), n)), 0);
    assert Names(q)[0..] == Names(q);
  }

  // --- the operation --------------------------------------------------------------------------

  // What every branch of a rename starts from: the old and the new parent's blocks, already
  // changed, and nothing else but the cached directory above the old parent.
  ghost predicate Started(w: TreeWriter, store: Store, root: Entry, t: Tree, p: Path, n: string, q: Path, m: string,
                          a: nat, de: Entry)
    reads w, w.lbc.Values
  {
    && Fork(store, root, p, q, a) && Denotes(store, root, t) && w.Valid() && w.store == store && IsDir(w.root, p[0].ptr)
    && n in store[Last(p).ptr].kids && Denotes(store, de, Child(At(t, Names(p)), n))
    && (m in store[Last(q).ptr].kids ==> !store[Last(q).ptr].kids[m].typ.Dir?)
    && Prepped(store, w.View(), p) && Last(p).ptr !in w.lbc && Last(q).ptr !in w.lbc
  }

  // Old and new parent are the same directory.
  method RenameWithin(w: TreeWriter, block: DirBlock, p: Path, n: string, q: Path, m: string, now: int,
                      ghost store: Store, ghost root: Entry, ghost t: Tree, ghost a: nat, ghost de: Entry)
    returns (r: Outcome, bps: seq<Ptr>)
    requires Started(w, store, root, t, p, n, q, m, a, de) && a == |p| - 1 == |q| - 1 && w.lbc == map[]
    requires block.kids == store[Last(p).ptr].kids[m := de] - {n}
    modifies w
    ensures r == Done && Grows(store, w.store) && forall b :: b in w.store ==> b in store || b in bps
    ensures Denotes(w.store, w.root, SetAt(t, Names(q),
                                           Without(With(At(t, Names(q)), m, Child(At(t, Names(p)), n)), n)))
  {
    ghost var s := Without(With(At(t, Names(q)), m, Child(At(t, Names(p)), n)), n);
    BlockAt(store, root, t, q);
    BlockWith(store, store[Last(q).ptr].kids, At(t, Names(q)), m, de, Child(At(t, Names(p)), n));
    BlockWithout(store, store[Last(q).ptr].kids[m := de], With(At(t, Names(q)), m, Child(At(t, Names(p)), n)), n);
    forall i | 0 <= i < |q| - 1
      ensures Leads(store, map[], q, i) && Level(store, map[], q[i].ptr, Walk(t, q)[i], {q[i + 1].name})
    {
      ShowsStored(store, root, t, q, i, store, map[], Walk(t, q)[i], t);
    }
    ShowsReady(store, map[], w.root, q, Walk(t, q), s, -1);
    assert w.View() == map[];
    LinkedIff(store, map[], q, a);
    var newPath;
    r, newPath, bps := w.SyncBlock(NewDir(block), Parent(q), Last(q).name, Dir, Some(now), Some(now), None,
      Walk(t, q)[..|q| - 1], s, -1);
    WalkChain(t, q);
    GraftIsSet(Walk(t, q), q, s, 0);
    assert Names(q)[0..] == Names(q);
  }

  lemma {:induction false} SetDeeper(t: Tree, names: seq<string>, n: string, x: Tree)
    ensures SetAt(t, names + [n], x) == SetAt(t, names, With(At(t, names), n, x))
    ensures At(t, names + [n]) == Child(At(t, names), n)
    decreases |names|
  {
    if names == [] {
      assert [n][1..] == [];
      assert names + [n] == [n];
    } else {
      assert (names + [n])[1..] == names[1..] + [n] && (names + [n])[0] == names[0];
      SetDeeper(Child(t, names[0]), names[1..], n, x);
    }
  }

  lemma {:induction false} SetInside(t: Tree, names: seq<string>, n: string, s: Tree)
    ensures SetAt(SetAt(t, names, Without(At(t, names), n)), names + [n], s) == SetAt(t, names + [n], s)
  {
    var s1 := Without(At(t, names), n);
    SetDeeper(SetAt(t, names, s1), names, n, s);
    SetTwice(t, names, s1, With(s1, n, s));
    SetDeeper(t, names, n, s);
    assert With(s1, n, s) == With(At(t, names), n, s);
  }

  // The directory the new parent's write-back leaves when it lies right inside the one that moves.
  lemma {:induction false} MovedInside(t: Tree, p: Path, q: Path, a: nat, n: string, s: Tree)
    requires |q| == |p| + 1 == a + 2 && q[a + 1].name == n && forall k :: 0 < k <= a ==> p[k] == q[k]
    ensures Graft(Parent(q), Trees(t, p, q, a, Without(At(t, Names(p)), n))[..|q| - 1], Last(q).name, s, 0) ==
      SetAt(t, Names(q), s)
  {
    hide Graft, SetAt, At;
    var s1 := Without(At(t, Names(p)), n);
    WalkChain(t, p);
    LeftWhole(t, p, s1);
    var trees := Trees(t, p, q, a, s1)[..|q| - 1];
    var all := trees + [Child(trees[a], n)];
    forall i | 0 <= i < |q| - 1 ensures all[i + 1] == Child(all[i], q[i + 1].name) {
      LeftStep(t, p, s1, i);
    }
    GraftIsSet(all, q, s, 0);
    assert all[..|q| - 1] == trees && Names(q)[0..] == Names(q) == Names(p) + [n];
    SetInside(t, Names(p), n, s);
  }

  // The new parent lies below the old one.
  method RenameDown(w: TreeWriter, oldBlock: DirBlock, newBlock: DirBlock, p: Path, n: string, q: Path, m: string,
                    now: int, ghost store: Store, ghost root: Entry, ghost t: Tree, ghost a: nat, ghost de: Entry)
    returns (r: Outcome, bps: seq<Ptr>)
    requires Started(w, store, root, t, p, n, q, m, a, de) && a == |p| - 1 < |q| - 1
    requires oldBlock != newBlock && oldBlock !in w.lbc.Values && newBlock !in w.lbc.Values
    requires oldBlock.kids == store[Last(p).ptr].kids - {n} && newBlock.kids == store[Last(q).ptr].kids[m := de]
    modifies w, w.lbc.Values, oldBlock
    ensures Grows(store, w.store) && (r != Done ==> r == NoSuchName && w.root == old(w.root))
    ensures (r == Done) == (q[a + 1].name == n ==> a + 2 == |q|)
    ensures r == Done ==>
      (forall b :: b in w.store ==> b in store || b in bps)
        && Denotes(w.store, w.root, Renamed(t, Names(p), n, Names(q), m))
  {
    hide Denotes, BlockDenotes, Level, Graft, SetAt, At, Ready, Linked, Climbed, Shows, Fork, Prepped, TreeWriter.Valid,
      Trees, Renamed, Names, IsPath, Without;
    ghost var s := With(At(t, Names(q)), m, Child(At(t, Names(p)), n));
    ForkParts(store, root, p, q, a);
    ghost var view := w.View();
    w.Known(Last(p).ptr);
    w.Cache(Last(p).ptr, oldBlock);
    DownReady(store, root, w.root, t, p, n, q, a, view, w.View(), s);
    DownBlock(store, root, t, p, n, q, m, de);
    var newPath;
    ghost var trees := Trees(t, p, q, a, Without(At(t, Names(p)), n));
    r, newPath, bps := w.SyncBlock(NewDir(newBlock), Parent(q), Last(q).name, Dir, Some(now), Some(now), None,
      trees[..|q| - 1], s, -1);
    if r == Done {
      ClimbedPut(store, w.store, Parent(q), Last(q).name, -1, newPath, bps);
      DownTree(store, root, t, p, n, q, a, m);
    }
  }

  lemma {:induction false} DownBlock(store: Store, root: Entry, t: Tree, p: Path, n: string, q: Path, m: string,
                                     de: Entry)
    requires IsPath(store, root, p) && IsPath(store, root, q) && Denotes(store, root, t)
    requires Denotes(store, de, Child(At(t, Names(p)), n))
    ensures BlockDenotes(store, DirVal(store[Last(q).ptr].kids[m := de]),
                         With(At(t, Names(q)), m, Child(At(t, Names(p)), n)))
  {
    BlockAt(store, root, t, q);
    BlockWith(store, store[Last(q).ptr].kids, At(t, Names(q)), m, de, Child(At(t, Names(p)), n));
  }

  lemma {:induction false} DownTree(store: Store, root: Entry, t: Tree, p: Path, n: string, q: Path, a: nat, m: string)
    requires Fork(store, root, p, q, a) && Denotes(store, root, t) && a == |p| - 1 < |q| - 1
    requires q[a + 1].name == n ==> a + 2 == |q|
    ensures Graft(Parent(q), Trees(t, p, q, a, Without(At(t, Names(p)), n))[..|q| - 1], Last(q).name,
                  With(At(t, Names(q)), m, Child(At(t, Names(p)), n)), 0)
      == Renamed(t, Names(p), n, Names(q), m)
  {
    hide Denotes, Graft, SetAt, At;
    assert Names(p) != Names(q) && Names(q)[..a] == Names(p) && Names(q)[a] == q[a + 1].name;
    assert Inside(Names(p), n, Names(q)) <==> q[a + 1].name == n by { InsideIff(Names(p), n, Names(q)); }
    if q[a + 1].name != n {
      BlockAt(store, root, t, q);
      Moved(store, root, t, p, q, a, n, m);
    } else {
      MovedInside(t, p, q, a, n, With(At(t, Names(q)), m, Child(At(t, Names(p)), n)));
    }
  }

  lemma InsideIff(names: seq<string>, n: string, names': seq<string>)
    requires |names| < |names'| && names'[..|names|] == names
    ensures Inside(names, n, names') <==> names'[|names|] == n
  {
    assert names'[..|names| + 1] == names + [names'[|names|]];
  }

  lemma ForkParts(store: Store, root: Entry, p: Path, q: Path, a: nat)
    requires Fork(store, root, p, q, a)
    ensures IsPath(store, root, p) && IsPath(store, root, q) && a < |p| && a < |q| && p[0].ptr == q[0].ptr
    ensures p[a].ptr == q[a].ptr
    ensures Distinct(p) && Distinct(q)
    ensures forall k :: 0 < k <= a ==> p[k] == q[k]
  {
  }

  lemma {:induction false} DownReady(store: Store, root: Entry, root': Entry, t: Tree, p: Path, n: string, q: Path,
                                     a: nat, view: View, view': View, s: Tree)
    requires Fork(store, root, p, q, a) && Denotes(store, root, t) && a == |p| - 1 < |q| - 1 && s.DirTree?
    requires IsDir(root', q[0].ptr)
    requires Prepped(store, view, p) && view' == view[p[a].ptr := store[p[a].ptr].kids - {n}]
    ensures var trees := Trees(t, p, q, a, Without(At(t, Names(p)), n));
      && Ready(store, view', root', Parent(q), trees[..|q| - 1], Last(q).name, Dir, s, -1)
      && Linked(store, view', Parent(q), -1) == (a + 2 < |q| ==> q[a + 1].name != n)
  {
    hide Denotes, Level, At, Shows, Ready, Linked;
    BlockAt(store, root, t, p);
    ForkIsOld(store, root, t, p, q, a, n, view');
    forall i | 0 <= i < a
      ensures HasDir(store, view', q[i].ptr)
      ensures SameBut(KidsAt(store, view', q[i].ptr), store[q[i].ptr].kids, q[i + 1].name)
    {
      PreppedAt(store, root, view, view', p[a].ptr, p, i);
    }
    NewReady(store, root, root', t, p, q, a, Without(At(t, Names(p)), n), store, view', s);
  }

  method CacheIf(w: TreeWriter, shared: bool, p: Ptr, b: DirBlock)
    requires w.Valid() && p < w.nextPtr && p !in w.lbc && b !in w.lbc.Values
    modifies w`lbc
    ensures w.Valid() && w.View() == if shared then old(w.View())[p := b.kids] else old(w.View())
    ensures w.lbc == if shared then old(w.lbc)[p := b] else old(w.lbc)
    ensures forall x :: x in w.lbc.Values ==> x in old(w.lbc.Values) || (shared && x == b)
  {
    if shared {
      w.Cache(p, b);
    }
  }

  // Writes the old parent back up to where the paths part.
  method SyncOldParent(w: TreeWriter, oldBlock: DirBlock, newBlock: DirBlock, p: Path, n: string, q: Path, m: string,
                       a: nat, now: int, ghost store: Store, ghost root: Entry, ghost t: Tree, ghost de: Entry)
    returns (r: Outcome, bps: seq<Ptr>, ghost view: View, ghost view1: View, ghost path: Path)
    requires Started(w, store, root, t, p, n, q, m, a, de) && a < |p| - 1
    requires oldBlock != newBlock && oldBlock !in w.lbc.Values && newBlock !in w.lbc.Values
    requires oldBlock.kids == store[Last(p).ptr].kids - {n} && newBlock.kids == store[Last(q).ptr].kids[m := de]
    modifies w, w.lbc.Values, newBlock
    ensures r == Done && Between(store, root, t, p, n, q, m, a, de, view, view1, w.store, w.View(), path)
    ensures w.Valid() && w.root == old(w.root) && forall b :: b in w.store ==> b in store || b in bps
    ensures newBlock.kids == if a == |q| - 1 then w.View()[Last(q).ptr] else store[Last(q).ptr].kids[m := de]
    ensures forall b :: b in w.lbc.Values ==> b in old(w.lbc.Values) || b == newBlock || fresh(b)
  {
    hide Denotes, BlockDenotes, Level, Graft, SetAt, At, Ready, Linked, Climbed, Fork, Prepped, TreeWriter.Valid, Names,
      IsPath, Without, Kept, Stopped, Grows, Distinct, StopsAt, KidsAt, TypeOf, SameBut, Walk, Put, Named, Dated,
      Logged, Unrefs, TreeWriter.AtRoot, Redated, Up;
    ForkParts(store, root, p, q, a);
    view := w.View();
    w.Known(Last(q).ptr);
    CacheIf(w, a == |q| - 1, Last(q).ptr, newBlock);
    view1 := w.View();
    AcrossOld(store, root, w.root, t, p, n, q, m, a, de, view, view1);
    var newPath;
    r, newPath, bps := w.SyncBlock(NewDir(oldBlock), Parent(p), Last(p).name, Dir, Some(now), Some(now), Some(p[a].ptr),
      Walk(t, p)[..|p| - 1], Without(At(t, Names(p)), n), a);
    path := newPath;
    ClimbedPut(store, w.store, Parent(p), Last(p).name, a, path, bps);
  }

  // The old parent is not above the new one: both are written back, the old one first.
  method RenameAcross(w: TreeWriter, oldBlock: DirBlock, newBlock: DirBlock, p: Path, n: string, q: Path, m: string,
                      a: nat, now: int, ghost store: Store, ghost root: Entry, ghost t: Tree, ghost de: Entry)
    returns (r: Outcome, bps: seq<Ptr>)
    requires Started(w, store, root, t, p, n, q, m, a, de) && a < |p| - 1
    requires oldBlock != newBlock && oldBlock !in w.lbc.Values && newBlock !in w.lbc.Values
    requires oldBlock.kids == store[Last(p).ptr].kids - {n} && newBlock.kids == store[Last(q).ptr].kids[m := de]
    modifies w, w.lbc.Values, newBlock
    ensures r == Done && Grows(store, w.store) && forall b :: b in w.store ==> b in store || b in bps
    ensures Denotes(w.store, w.root, Renamed(t, Names(p), n, Names(q), m))
  {
    hide Denotes, BlockDenotes, Level, Graft, SetAt, At, Ready, Linked, Climbed, Fork, Prepped, TreeWriter.Valid, Trees,
      Renamed, Names, IsPath, Without, Kept, Stopped, Left;
    ForkParts(store, root, p, q, a);
    ghost var view, view1, path1;
    var bps1;
    r, bps1, view, view1, path1 := SyncOldParent(w, oldBlock, newBlock, p, n, q, m, a, now, store, root, t, de);
    ghost var store1, trees := w.store, Trees(t, p, q, a, Without(At(t, Names(p)), n));
    ghost var s := With(trees[|q| - 1], m, Child(At(t, Names(p)), n));
    AcrossNew(store, root, w.root, t, p, n, q, m, a, de, view, view1, store1, w.View(), path1, newBlock.kids);
    var path2, bps2;
    r, path2, bps2 := w.SyncBlock(NewDir(newBlock), Parent(q), Last(q).name, Dir, Some(now), Some(now), None,
      trees[..|q| - 1], s, -1);
    ClimbedPut(store1, w.store, Parent(q), Last(q).name, -1, path2, bps2);
    bps := bps2 + bps1;
    AcrossTree(store, root, t, p, n, q, a, m);
  }

  lemma {:induction false} AcrossOld(store: Store, root: Entry, root': Entry, t: Tree, p: Path, n: string, q: Path,
                                     m: string, a: nat, de: Entry, view: View, view': View)
    requires Fork(store, root, p, q, a) && Denotes(store, root, t) && a < |p| - 1 && IsDir(root', p[0].ptr)
    requires m in store[Last(q).ptr].kids ==> !store[Last(q).ptr].kids[m].typ.Dir?
    requires Prepped(store, view, p) && Last(q).ptr !in view
    requires view' == if a == |q| - 1 then view[Last(q).ptr := store[Last(q).ptr].kids[m := de]] else view
    ensures var s := Without(At(t, Names(p)), n);
      && Ready(store, view', root', Parent(p), Walk(t, p)[..|p| - 1], Last(p).name, Dir, s, a)
      && Linked(store, view', Parent(p), a) && StopsAt(Some(p[a].ptr), Parent(p), a)
      && BlockDenotes(store, DirVal(store[Last(p).ptr].kids - {n}), s)
  {
    hide Denotes, BlockDenotes, At, Ready, Linked;
    BlockAt(store, root, t, p);
    BlockWithout(store, store[Last(p).ptr].kids, At(t, Names(p)), n);
    if a < |q| - 1 {
      PreppedAt(store, root, view, view', Last(p).ptr, p, a);
    }
    OldReady(store, root, root', t, p, q, a, view, view', Without(At(t, Names(p)), n));
  }

  lemma {:induction false} AcrossTree(store: Store, root: Entry, t: Tree, p: Path, n: string, q: Path, a: nat,
                                      m: string)
    requires Fork(store, root, p, q, a) && Denotes(store, root, t) && a < |p| - 1
    ensures var trees := Trees(t, p, q, a, Without(At(t, Names(p)), n));
      Graft(Parent(q), trees[..|q| - 1], Last(q).name, With(trees[|q| - 1], m, Child(At(t, Names(p)), n)), 0)
      == Renamed(t, Names(p), n, Names(q), m)
  {
    hide Denotes, Graft, SetAt, At, Trees;
    Moved(store, root, t, p, q, a, n, m);
    if a < |q| - 1 {
      assert Names(p)[a] != Names(q)[a];
      assert (Names(p) + [n])[a] == Names(p)[a];
    }
  }

  // State between the two write-backs.
  ghost predicate Between(store: Store, root: Entry, t: Tree, p: Path, n: string, q: Path, m: string, a: nat, de: Entry,
                          view: View, view1: View, store1: Store, view2: View, path: Path)
  {
    && Fork(store, root, p, q, a) && Denotes(store, root, t) && a < |p| - 1
    && Denotes(store, de, Child(At(t, Names(p)), n))
    && (m in store[Last(q).ptr].kids ==> !store[Last(q).ptr].kids[m].typ.Dir?)
    && Prepped(store, view, p) && Last(q).ptr !in view
    && view1 == (if a == |q| - 1 then view[Last(q).ptr := store[Last(q).ptr].kids[m := de]] else view)
    && Grows(store, store1) && Kept(view1, view2, Parent(p), a) && p[a].ptr in view2
    && Stopped(KidsAt(store, view1, p[a].ptr), view2[p[a].ptr], p[a + 1].name, store1,
               Left(t, p, Without(At(t, Names(p)), n), a + 1), path)
  }

  lemma {:induction false} AcrossNew(store: Store, root: Entry, root': Entry, t: Tree, p: Path, n: string, q: Path,
                                     m: string, a: nat,
                                     de: Entry, view: View, view1: View, store1: Store, view2: View, path: Path,
                                     kids: Kids)
    requires Between(store, root, t, p, n, q, m, a, de, view, view1, store1, view2, path) && IsDir(root', q[0].ptr)
    requires kids == if a == |q| - 1 then view2[Last(q).ptr] else store[Last(q).ptr].kids[m := de]
    ensures var trees := Trees(t, p, q, a, Without(At(t, Names(p)), n));
      var s := With(trees[|q| - 1], m, Child(At(t, Names(p)), n));
      && Ready(store1, view2, root', Parent(q), trees[..|q| - 1], Last(q).name, Dir, s, -1)
      && Linked(store1, view2, Parent(q), -1) && BlockDenotes(store1, DirVal(kids), s)
  {
    hide Denotes, BlockDenotes, At, Ready, Linked, Graft, Left, Fork, Names, Kept, Prepped, Trees, Without;
    ForkParts(store, root, p, q, a);
    var s1 := Without(At(t, Names(p)), n);
    var s := With(Trees(t, p, q, a, s1)[|q| - 1], m, Child(At(t, Names(p)), n));
    forall i | 0 <= i < a
      ensures HasDir(store1, view2, q[i].ptr)
      ensures SameBut(KidsAt(store1, view2, q[i].ptr), store[q[i].ptr].kids, q[i + 1].name)
    {
      AboveFork(store, root, p, q, a, view, view1, view2, i);
    }
    forall i | a < i < |q| ensures q[i].ptr !in view2 {
      BelowFork(store, root, p, q, a, view, view2, i);
    }
    if a < |q| - 1 {
      PreppedAt(store, root, view, view1, Last(p).ptr, p, a);
      ForkAfterOld(store, root, t, p, q, a, s1, store1, view2, KidsAt(store, view1, p[a].ptr), path);
    }
    NewReady(store, root, root', t, p, q, a, s1, store1, view2, s);
    AcrossBlock(store, root, t, p, n, q, m, a, de, view, view1, store1, view2, path, kids);
  }

  lemma AboveFork(store: Store, root: Entry, p: Path, q: Path, a: nat, view: View, view1: View, view2: View, i: nat)
    requires Fork(store, root, p, q, a) && a < |p| - 1 && i < a
    requires Prepped(store, view, p) && CachedAlso(view, view1, p[a].ptr) && Kept(view1, view2, Parent(p), a)
    ensures q[i].ptr !in view2 && q[i].ptr == p[i].ptr && p[i + 1] == q[i + 1]
  {
    PreppedAt(store, root, view, view1, p[a].ptr, p, i);
    assert Off(Parent(p), a, p[i].ptr);
  }

  lemma BelowFork(store: Store, root: Entry, p: Path, q: Path, a: nat, view: View, view2: View, i: nat)
    requires Fork(store, root, p, q, a) && a < |p| - 1 && a < i < |q|
    requires Prepped(store, view, p) && Kept(view, view2, Parent(p), a)
    ensures q[i].ptr !in view2
  {
    assert Off(Parent(p), a, q[i].ptr);
  }

  lemma PathStep(store: Store, root: Entry, p: Path, i: nat)
    requires IsPath(store, root, p) && i < |p| - 1
    ensures p[i].ptr in store && store[p[i].ptr].DirVal? && p[i + 1].name in store[p[i].ptr].kids
    ensures IsDir(store[p[i].ptr].kids[p[i + 1].name], p[i + 1].ptr)
  {
  }

  lemma {:induction false} BlockBoth(store: Store, all: Kids, t: Tree, m: string, x: Tree, k: string, kids: Kids,
                                     y: Tree)
    requires BlockDenotes(store, DirVal(all), With(t, m, x)) && k != m && k in kids && kids == all[k := kids[k]]
    requires Denotes(store, kids[k], y)
    ensures BlockDenotes(store, DirVal(kids), With(With(t, k, y), m, x))
  {
    hide Denotes, BlockDenotes;
    BlockWith(store, all, With(t, m, x), k, kids[k], y);
    assert With(With(t, m, x), k, y) == With(With(t, k, y), m, x);
  }

  lemma {:induction false} AcrossBlock(store: Store, root: Entry, t: Tree, p: Path, n: string, q: Path, m: string,
                                       a: nat, de: Entry,
                                       view: View, view1: View, store1: Store, view2: View, path: Path, kids: Kids)
    requires Between(store, root, t, p, n, q, m, a, de, view, view1, store1, view2, path)
    requires kids == if a == |q| - 1 then view2[Last(q).ptr] else store[Last(q).ptr].kids[m := de]
    ensures BlockDenotes(store1, DirVal(kids),
      With(Trees(t, p, q, a, Without(At(t, Names(p)), n))[|q| - 1], m, Child(At(t, Names(p)), n)))
  {
    hide Denotes, BlockDenotes, At, Graft, Left, Kept, Prepped, Fork, Names, IsPath, Without;
    ForkParts(store, root, p, q, a);
    var s1, x := Without(At(t, Names(p)), n), Child(At(t, Names(p)), n);
    var all := store[Last(q).ptr].kids[m := de];
    BlockAt(store, root, t, q);
    BlockWith(store, store[Last(q).ptr].kids, At(t, Names(q)), m, de, x);
    BlockGrows(store, store1, all, With(At(t, Names(q)), m, x));
    if a == |q| - 1 {
      LeftStep(t, p, s1, a);
      WalkSame(t, p, q, a);
      assert p[a + 1].name in store[Last(q).ptr].kids && IsDir(store[Last(q).ptr].kids[p[a + 1].name], p[a + 1].ptr)
        by {
        PathStep(store, root, p, a);
      }
      BlockBoth(store1, all, At(t, Names(q)), m, x, p[a + 1].name, kids, Left(t, p, s1, a + 1));
    }
  }

  // The directory above the old parent with the old parent dated, unless the new parent is that directory.
  ghost function OldParentDated(store: Store, p: Path, q: Path, now: int): View
    requires |p| > 1 && q != []
  {
    var up, n := p[|p| - 2].ptr, Last(p).name;
    var kids := KidsAt(store, map[], up);
    if up == Last(q).ptr || n !in kids then map[] else map[up := kids[n := kids[n].(mtime := now, ctime := now)]]
  }

  // Copies of both parents, the entry that moves, and a fresh local cache.
  method PrepRename(w: TreeWriter, p: Path, n: string, q: Path, now: int)
    returns (r: Outcome, oldBlock: DirBlock, newBlock: DirBlock, de: Entry)
    requires w.Valid() && IsPath(w.store, w.root, p) && IsPath(w.store, w.root, q) && Distinct(p)
    modifies w`lbc, w`root
    ensures IsDir(w.root, p[0].ptr) && w.root == old(w.root).(mtime := w.root.mtime, ctime := w.root.ctime)
    ensures var away := r == Done && Last(p).ptr != Last(q).ptr;
      && w.root == (if away && |p| == 1 then old(w.root).(mtime := now, ctime := now) else old(w.root))
      && w.View() == if away && |p| > 1 then OldParentDated(w.store, p, q, now) else map[]
    ensures w.Valid() && (r == Done) == (n in w.store[Last(p).ptr].kids) && (r != Done ==> r == NoSuchName)
    ensures fresh(oldBlock) && fresh(newBlock) && fresh(w.lbc.Values) && oldBlock !in w.lbc.Values
    ensures newBlock !in w.lbc.Values
    ensures r == Done ==> de == w.store[Last(p).ptr].kids[n]
    ensures oldBlock.kids == w.store[Last(p).ptr].kids
    ensures (newBlock == oldBlock) == (r != Done || Last(p).ptr == Last(q).ptr)
    ensures r == Done ==> newBlock.kids == w.store[Last(q).ptr].kids
    ensures Prepped(w.store, w.View(), p) && Last(p).ptr !in w.lbc && Last(q).ptr !in w.lbc
    ensures Last(p).ptr == Last(q).ptr ==> w.lbc == map[]
  {
    w.lbc := map[];
    oldBlock := w.GetDir(Last(p).ptr);
    newBlock := oldBlock;
    if n !in oldBlock.kids {
      de := w.root;
      r := NoSuchName;
      return;
    }
    r, de := Done, oldBlock.kids[n];
    if Last(p).ptr != Last(q).ptr {
      newBlock := w.GetDir(Last(q).ptr);
      if |p| == 1 {
        w.root := w.root.(mtime := now, ctime := now);
      } else {
        DateOldParent(w, p, q, now);
      }
    }
  }

  // Unless that directory is the new parent, the one above the old parent is cached with the old
  // parent's entry dated.
  method DateOldParent(w: TreeWriter, p: Path, q: Path, now: int)
    requires w.Valid() && w.lbc == map[] && IsPath(w.store, w.root, p) && q != [] && |p| > 1 && Distinct(p)
    modifies w`lbc
    ensures w.Valid() && fresh(w.lbc.Values) && Prepped(w.store, w.View(), p) && Last(p).ptr !in w.lbc
    ensures Last(q).ptr !in w.lbc && w.View() == OldParentDated(w.store, p, q, now)
  {
    var up := p[|p| - 2].ptr;
    if up != Last(q).ptr {
      var b := w.GetDir(up);
      w.Known(up);
      if Last(p).name in b.kids {
        b.kids := b.kids[Last(p).name := b.kids[Last(p).name].(mtime := now, ctime := now)];
        w.Cache(up, b);
        assert w.View() == map[up := b.kids];
      }
    }
  }

  lemma {:induction false} EntryTree(store: Store, root: Entry, t: Tree, p: Path, n: string)
    requires IsPath(store, root, p) && Denotes(store, root, t)
    ensures Last(p).ptr in store && store[Last(p).ptr].DirVal?
    ensures n in SubTrees(At(t, Names(p))) <==> n in store[Last(p).ptr].kids
    ensures n in store[Last(p).ptr].kids ==>
      && Denotes(store, store[Last(p).ptr].kids[n], Child(At(t, Names(p)), n))
      && store[Last(p).ptr].kids[n].typ.Dir? == Child(At(t, Names(p)), n).DirTree?
  {
    BlockAt(store, root, t, p);
  }

  // Times say nothing about the tree.
  lemma {:induction false} SameEntry(store: Store, e: Entry, e': Entry, t: Tree)
    ensures e.typ == e'.typ && e.ptr == e'.ptr && e.symPath == e'.symPath ==>
      Denotes(store, e', t) == Denotes(store, e, t)
  {
  }

  method PathsPart(store: Store, root: Entry, p: Path, q: Path) returns (i: nat)
    requires IsPath(store, root, p) && IsPath(store, root, q) && UniqueDirs(store, root)
    ensures Fork(store, root, p, q, i)
  {
    i := CommonAncestor(p, q);
    Forks(store, root, p, q, i);
  }

  // Writes back what has to be written back, depending on where the paths part.
  method SyncParents(w: TreeWriter, oldBlock: DirBlock, newBlock: DirBlock, p: Path, n: string, q: Path, m: string,
                     i: nat, now: int, ghost store: Store, ghost root: Entry, ghost t: Tree, ghost de: Entry)
    returns (r: Outcome, bps: seq<Ptr>)
    requires Started(w, store, root, t, p, n, q, m, i, de)
    requires oldBlock !in w.lbc.Values && newBlock !in w.lbc.Values
    requires (oldBlock == newBlock) == (Last(p).ptr == Last(q).ptr)
    requires oldBlock == newBlock ==> w.lbc == map[] && oldBlock.kids == store[Last(p).ptr].kids[m := de] - {n}
    requires oldBlock != newBlock ==>
      oldBlock.kids == store[Last(p).ptr].kids - {n} && newBlock.kids == store[Last(q).ptr].kids[m := de]
    modifies w, w.lbc.Values, oldBlock, newBlock
    ensures Grows(store, w.store) && (r != Done ==> r == NoSuchName && w.root == old(w.root))
    ensures (r == Done) == !(Inside(Names(p), n, Names(q)) && |Names(q)| > |Names(p)| + 1)
    ensures r == Done ==>
      (forall b :: b in w.store ==> b in store || b in bps)
        && Denotes(w.store, w.root, Renamed(t, Names(p), n, Names(q), m))
  {
    hide Denotes, At, Fork, Prepped, Grows, Distinct, SetAt;
    ForkParts(store, root, p, q, i);
    PartsAt(store, root, p, q, i, n);
    if Last(p).ptr == p[i].ptr {
      if Last(q).ptr == p[i].ptr {
        r, bps := RenameWithin(w, newBlock, p, n, q, m, now, store, root, t, i, de);
        WithinTree(t, Names(p), n, m);
      } else {
        r, bps := RenameDown(w, oldBlock, newBlock, p, n, q, m, now, store, root, t, i, de);
      }
    } else {
      r, bps := RenameAcross(w, oldBlock, newBlock, p, n, q, m, i, now, store, root, t, de);
    }
  }

  lemma PartsAt(store: Store, root: Entry, p: Path, q: Path, a: nat, n: string)
    requires Fork(store, root, p, q, a)
    ensures (Last(p).ptr == p[a].ptr) == (a == |p| - 1) && (Last(q).ptr == p[a].ptr) == (a == |q| - 1)
    ensures Last(p).ptr == Last(q).ptr <==> a == |p| - 1 == |q| - 1
    ensures a == |p| - 1 == |q| - 1 ==> Names(p) == Names(q)
    ensures Inside(Names(p), n, Names(q)) <==> a == |p| - 1 < |q| - 1 && q[a + 1].name == n
  {
    if a == |p| - 1 < |q| - 1 {
      assert Names(q)[..a] == Names(p) && Names(q)[a] == q[a + 1].name;
      InsideIff(Names(p), n, Names(q));
    } else if a < |p| - 1 && a < |q| - 1 {
      assert Names(p)[a] != Names(q)[a] && (Names(p) + [n])[a] == Names(p)[a];
    }
  }

  lemma {:induction false} WithinTree(t: Tree, names: seq<string>, n: string, m: string)
    ensures SetAt(t, names, Without(With(At(t, names), m, Child(At(t, names), n)), n)) == Renamed(t, names, n, names, m)
  {
    var here := At(t, names);
    if n == m {
      assert Without(With(here, m, Child(here, n)), n) == Without(here, n);
    } else {
      var left := Without(here, n);
      assert Without(With(here, m, Child(here, n)), n) == With(left, m, Child(here, n));
      SetTwice(t, names, left, With(left, m, Child(here, n)));
      assert !Inside(names, n, names);
    }
  }

  /** Renames p/n to q/m. It fails exactly when there is no p/n, when q/m is a directory, or when
      q lies deeper inside p/n; then the root entry still denotes the old tree. Otherwise the new
      root denotes the renamed tree, and every block not stored before is in bps. */
  method RenameLocked(w: TreeWriter, p: Path, n: string, q: Path, m: string, now: int, ghost t: Tree)
    returns (r: Outcome, bps: seq<Ptr>)
    requires w.Valid() && w.root.typ.Dir? && Denotes(w.store, w.root, t) && UniqueDirs(w.store, w.root)
    requires IsPath(w.store, w.root, p) && IsPath(w.store, w.root, q)
    modifies w
    ensures Grows(old(w.store), w.store)
    ensures n !in SubTrees(At(t, Names(p))) ==> r == NoSuchName
    ensures n in SubTrees(At(t, Names(p))) && m in SubTrees(At(t, Names(q))) && Child(At(t, Names(q)), m).DirTree? ==>
      r == NotFile
    ensures
      && n in SubTrees(At(t, Names(p)))
      && !(m in SubTrees(At(t, Names(q))) && Child(At(t, Names(q)), m).DirTree?) ==>
      r == if Inside(Names(p), n, Names(q)) && |Names(q)| > |Names(p)| + 1 then NoSuchName else Done
    ensures r == Done ==>
      (forall b :: b in w.store ==> b in old(w.store) || b in bps)
        && Denotes(w.store, w.root, Renamed(t, Names(p), n, Names(q), m))
    ensures r != Done ==> Denotes(w.store, w.root, t)
  {
    hide Denotes, UniqueDirs, IsPath, Renamed, At, Names, SubTrees, Child, Fork, Prepped, TreeWriter.Valid, Distinct,
      BlockDenotes, Inside;
    ghost var store, root := w.store, w.root;
    bps := [];
    var i := PathsPart(w.store, w.root, p, q);
    ForkParts(store, root, p, q, i);
    EntryTree(store, root, t, p, n);
    EntryTree(store, root, t, q, m);
    var oldBlock, newBlock, de;
    r, oldBlock, newBlock, de := PrepRename(w, p, n, q, now);
    SameEntry(store, root, w.root, t);
    if r == Done && m in newBlock.kids && newBlock.kids[m].typ.Dir? {
      r := NotFile;
    }
    if r == Done {
      SameEntry(store, de, de.(ctime := now), Child(At(t, Names(p)), n));
      de := de.(ctime := now);
      newBlock.kids := newBlock.kids[m := de];
      oldBlock.kids := oldBlock.kids - {n};
      r, bps := SyncParents(w, oldBlock, newBlock, p, n, q, m, i, now, store, root, t, de);
      if r != Done {
        DenotesGrows(store, w.store, w.root, t);
      }
    }
  }

  /** A rename that succeeds moves the tree exactly when the entry is not renamed to itself and a
      directory is not moved right into itself, other than one with nothing else in it. */
  lemma {:induction false} RenameMoves(t: Tree, names: seq<string>, n: string, names': seq<string>, m: string)
    requires n in SubTrees(At(t, names)) && (Inside(names, n, names') ==> names' == names + [n])
    ensures Renamed(t, names, n, names', m) == Move(t, names, n, names', m) <==>
      !(names == names' && n == m) && (Inside(names, n, names') ==> SubTrees(At(t, names')).Keys <= {m})
  {
    var left := Without(At(t, names), n);
    if names == names' && n == m {
      SetTwice(t, names, left, left);
      SetTwice(SetAt(t, names, left), names, With(left, n, Child(At(t, names), n)), left);
      assert n in SubTrees(At(Move(t, names, n, names, n), names));
      assert n !in SubTrees(At(Renamed(t, names, n, names, n), names));
    } else if Inside(names, n, names') {
      SetDeeper(t, names, n, t);
      SetDeeper(SetAt(t, names, left), names, n, t);
      SetTwice(t, names, left, left);
      SetInside(t, names, n, With(DirTree(map[]), m, At(t, names')));
      NestedOnly(t, SetAt(t, names, left), names', m, At(t, names'));
    }
  }

  lemma {:induction false} NestedOnly(t: Tree, left: Tree, names: seq<string>, m: string, d: Tree)
    requires SetAt(left, names, With(DirTree(map[]), m, d)) == SetAt(t, names, With(DirTree(map[]), m, d))
    ensures SetAt(t, names, With(d, m, d)) == SetAt(left, names, With(DirTree(map[]), m, d)) <==>
      SubTrees(d).Keys <= {m}
  {
    SetTwice(t, names, With(d, m, d), d);
    SetTwice(t, names, With(DirTree(map[]), m, d), d);
    if SubTrees(d).Keys <= {m} {
      assert With(d, m, d) == With(DirTree(map[]), m, d);
    } else {
      var k :| k in SubTrees(d).Keys && k != m;
      assert k in SubTrees(With(d, m, d)) && k !in SubTrees(With(DirTree(map[]), m, d));
    }
  }

  /** A file renamed to itself is gone. */
  lemma SelfRename(n: string, data: seq<int>)
    ensures var t := DirTree(map[n := FileTree(File, data)]);
      Renamed(t, [], n, [], n) == DirTree(map[]) && Move(t, [], n, [], n) == t
  {
    var t := DirTree(map[n := FileTree(File, data)]);
    assert Without(t, n) == DirTree(map[]);
    assert With(DirTree(map[]), n, FileTree(File, data)) == t;
  }

  /** A directory d moved right into itself as d/e: it stays where it is, and holds a copy of itself. */
  lemma NestedRename(data: seq<int>)
    ensures var d := DirTree(map["x" := FileTree(File, data)]);
      var t := DirTree(map["d" := d]);
      && Renamed(t, [], "d", ["d"], "e") == DirTree(map["d" := DirTree(map["x" := FileTree(File, data), "e" := d])])
      && Renamed(t, [], "d", ["d"], "e") != Move(t, [], "d", ["d"], "e")
  {
    var d := DirTree(map["x" := FileTree(File, data)]);
    var t := DirTree(map["d" := d]);
    assert [] + ["d"] == ["d"] && ["d"][1..] == [] && Inside([], "d", ["d"]);
    assert At(t, ["d"]) == d && Child(t, "d") == d;
    assert With(d, "e", d) == DirTree(map["x" := FileTree(File, data), "e" := d]);
    assert "x" in SubTrees(d).Keys;
    RenameMoves(t, [], "d", ["d"], "e");
  }

  // --- one write-back from a clean state -------------------------------------------------------

  /** Writing one block back as dir/name makes a root that denotes the old tree with only that
      entry replaced or added; the returned path leads to it, and every new block is in bps. */
  method SyncEntry(w: TreeWriter, block: NewBlock, dir: Path, name: string, typ: EntryType, now: int, ghost t: Tree,
                   ghost s: Tree)
    returns (newPath: Path, bps: seq<Ptr>)
    requires w.Valid() && w.lbc == map[] && Denotes(w.store, w.root, t) && IsPath(w.store, w.root, dir)
    requires UniqueDirs(w.store, w.root)
    requires BlockDenotes(w.store, w.BlockOf(block), s) && Fits(TypeOf(w.store[Last(dir).ptr].kids, name, typ), s)
    modifies w
    ensures Grows(old(w.store), w.store) && forall b :: b in w.store ==> b in old(w.store) || b in bps
    ensures Denotes(w.store, w.root, SetAt(t, Names(dir) + [name], s))
    ensures |newPath| == |dir| + 1 && Resolves(w.store, newPath) && newPath[0].ptr == w.root.ptr
    ensures forall i :: 0 <= i < |newPath| ==> newPath[i].name == NameOf(dir, name, i)
  {
    hide Denotes, BlockDenotes, UniqueDirs, IsPath, Ready, Linked, Graft, SetAt, Climbed, Names, TreeWriter.Valid,
      Resolves;
    ghost var store, root := w.store, w.root;
    SyncEntryReady(store, root, t, dir, name, typ, s);
    assert w.View() == map[];
    var r;
    r, newPath, bps := w.SyncBlock(block, dir, name, typ, Some(now), Some(now), None, Walk(t, dir), s, -1);
    ClimbedPut(store, w.store, dir, name, -1, newPath, bps);
    ClimbedPath(store, w.store, dir, name, newPath, bps);
    SyncEntryTree(t, dir, name, s);
  }

  lemma ClimbedPath(was: Store, store: Store, dir: Path, name: string, path: Path, bps: seq<Ptr>)
    requires Climbed(was, store, dir, name, -1, path, bps)
    ensures |path| == |dir| + 1 && Resolves(store, path)
    ensures forall i :: 0 <= i < |path| ==> path[i].name == NameOf(dir, name, i)
  {
  }

  lemma {:induction false} SyncEntryTree(t: Tree, dir: Path, name: string, s: Tree)
    requires dir != []
    ensures Graft(dir, Walk(t, dir), name, s, 0) == SetAt(t, Names(dir) + [name], s)
  {
    hide Graft, SetAt;
    var full, trees := dir + [PathNode(0, name)], Walk(t, dir) + [Child(Walk(t, dir)[|dir| - 1], name)];
    WalkChain(t, dir);
    GraftIsSet(trees, full, s, 0);
    assert Parent(full) == dir && trees[..|dir|] == Walk(t, dir);
    assert Names(full)[0..] == Names(full) == Names(dir) + [name];
  }

  lemma {:induction false} SyncEntryReady(store: Store, root: Entry, t: Tree, dir: Path, name: string, typ: EntryType,
                                          s: Tree)
    requires Denotes(store, root, t) && IsPath(store, root, dir) && UniqueDirs(store, root)
    requires Fits(TypeOf(store[Last(dir).ptr].kids, name, typ), s)
    ensures dir != [] && Ready(store, map[], root, dir, Walk(t, dir), name, typ, s, -1) && Linked(store, map[], dir, -1)
  {
    hide Denotes;
    Forks(store, root, dir, dir, |dir| - 1);
    forall i | 0 <= i < |dir| ensures Level(store, map[], dir[i].ptr, Walk(t, dir)[i], {Next(dir, name, i)}) {
      WalkLevel(store, root, t, dir, i);
    }
  }

  // What is written back changes nothing elsewhere.
  lemma {:induction false} SetElsewhere(t: Tree, names: seq<string>, s: Tree, others: seq<string>)
    requires !(names <= others) && !(others <= names)
    ensures At(SetAt(t, names, s), others) == At(t, others)
    decreases |names|
  {
    assert others != [] && names != [];
    if names[0] == others[0] {
      assert names == [names[0]] + names[1..] && others == [names[0]] + others[1..];
      SetElsewhere(Child(t, names[0]), names[1..], s, others[1..]);
    }
  }
}
