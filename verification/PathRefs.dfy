/** Which blocks a folder uses: the pointers reachable from its root, and that what a write-back logs is
    exactly how they change. */
module PathRefs {
  import opened Merkle
  import opened PathCopy
  import opened Pointers
  import opened Renames
  import BlockRefs
  import Reclamation

  function KidsOf(store: Store, p: Ptr): Kids {
    if p in store && store[p].DirVal? then store[p].kids else map[]
  }

  // The pointers of the tree t below the entry e.
  ghost function Ptrs(store: Store, e: Entry, t: Tree): set<Ptr>
    decreases t, 1
  {
    match t
    case FileTree(_, _) => {e.ptr}
    case SymTree(_) => {}
    case DirTree(_) => {e.ptr} + KidPtrs(store, KidsOf(store, e.ptr), t)
  }

  // The pointers below a directory block.
  ghost function KidPtrs(store: Store, kids: Kids, t: Tree): set<Ptr>
    decreases t, 0
  {
    set n, p | n in SubTrees(t) && n in kids && p in Ptrs(store, kids[n], SubTrees(t)[n]) :: p
  }

  // The same but for the entry n, and that entry alone.
  ghost function RestPtrs(store: Store, kids: Kids, t: Tree, n: string): set<Ptr> {
    set m, p | m in SubTrees(t) && m in kids && m != n && p in Ptrs(store, kids[m], SubTrees(t)[m]) :: p
  }

  ghost function HerePtrs(store: Store, kids: Kids, t: Tree, n: string): set<Ptr> {
    if n in SubTrees(t) && n in kids then Ptrs(store, kids[n], SubTrees(t)[n]) else {}
  }

  // No pointer is used twice.
  ghost predicate Once(store: Store, e: Entry, t: Tree)
    decreases t, 1
  {
    t.DirTree? ==> OnceKids(store, KidsOf(store, e.ptr), t) && e.ptr !in KidPtrs(store, KidsOf(store, e.ptr), t)
  }

  ghost predicate OnceKids(store: Store, kids: Kids, t: Tree)
    decreases t, 0
  {
    && (forall n :: n in SubTrees(t) && n in kids ==> Once(store, kids[n], SubTrees(t)[n]))
    && forall n, m :: n in SubTrees(t) && n in kids && m in SubTrees(t) && m in kids && n != m ==>
      Ptrs(store, kids[n], SubTrees(t)[n]) !! Ptrs(store, kids[m], SubTrees(t)[m])
  }

  lemma {:induction false} PtrsGrow(store: Store, store': Store, e: Entry, t: Tree)
    requires Denotes(store, e, t) && Grows(store, store')
    ensures Ptrs(store', e, t) == Ptrs(store, e, t) && Ptrs(store, e, t) <= store.Keys
    ensures Once(store, e, t) ==> Once(store', e, t)
    decreases t, 1
  {
    if t.DirTree? { KidPtrsGrow(store, store', KidsOf(store, e.ptr), t); }
  }

  lemma {:induction false} KidPtrsGrow(store: Store, store': Store, kids: Kids, t: Tree)
    requires BlockDenotes(store, DirVal(kids), t) && t.DirTree? && Grows(store, store')
    ensures KidPtrs(store', kids, t) == KidPtrs(store, kids, t) && KidPtrs(store, kids, t) <= store.Keys
    ensures OnceKids(store, kids, t) ==> OnceKids(store', kids, t)
    decreases t, 0
  {
    forall n | n in t.kids && n in kids
      ensures Ptrs(store', kids[n], t.kids[n]) == Ptrs(store, kids[n], t.kids[n]) <= store.Keys
      ensures Once(store, kids[n], t.kids[n]) ==> Once(store', kids[n], t.kids[n])
    {
      PtrsGrow(store, store', kids[n], t.kids[n]);
    }
  }

  // --- one directory on the way --------------------------------------------------------------------

  lemma Split(store: Store, kids: Kids, t: Tree, n: string)
    ensures KidPtrs(store, kids, t) == RestPtrs(store, kids, t, n) + HerePtrs(store, kids, t, n)
    ensures OnceKids(store, kids, t) ==> RestPtrs(store, kids, t, n) !! HerePtrs(store, kids, t, n)
  {
  }

  lemma {:induction false} RestKept(store: Store, store': Store, kids: Kids, t: Tree, n: string, x: Entry, y: Tree)
    requires BlockDenotes(store, DirVal(kids), t) && t.DirTree? && Grows(store, store')
    ensures RestPtrs(store', kids[n := x], DirTree(t.kids[n := y]), n) == RestPtrs(store, kids, t, n) <= store.Keys
  {
    hide Ptrs, Once;
    forall m | m in t.kids && m in kids
      ensures Ptrs(store', kids[m], t.kids[m]) == Ptrs(store, kids[m], t.kids[m]) <= store.Keys
    {
      PtrsGrow(store, store', kids[m], t.kids[m]);
    }
    var rest, kids', t' := RestPtrs(store, kids, t, n), kids[n := x], DirTree(t.kids[n := y]);
    forall m, p | m in t'.kids && m in kids' && m != n && p in Ptrs(store', kids'[m], t'.kids[m]) ensures p in rest {
      assert m in SubTrees(t) && p in Ptrs(store, kids[m], SubTrees(t)[m]);
    }
    forall m, p | m in t.kids && m in kids && m != n && p in Ptrs(store, kids[m], t.kids[m])
      ensures p in RestPtrs(store', kids', t', n)
    {
      assert m in SubTrees(t') && p in Ptrs(store', kids'[m], SubTrees(t')[m]);
    }
  }

  lemma DirStored(store: Store, e: Entry, t: Tree)
    requires Denotes(store, e, t) && t.DirTree?
    ensures e.ptr in store && BlockDenotes(store, DirVal(KidsOf(store, e.ptr)), t)
    ensures Ptrs(store, e, t) == {e.ptr} + KidPtrs(store, KidsOf(store, e.ptr), t)
    ensures Once(store, e, t) <==>
      OnceKids(store, KidsOf(store, e.ptr), t) && e.ptr !in KidPtrs(store, KidsOf(store, e.ptr), t)
  {
  }

  lemma KidStored(store: Store, kids: Kids, t: Tree, n: string)
    requires BlockDenotes(store, DirVal(kids), t) && n in SubTrees(t)
    ensures n in kids && Denotes(store, kids[n], SubTrees(t)[n])
    ensures HerePtrs(store, kids, t, n) == Ptrs(store, kids[n], SubTrees(t)[n])
  {
  }

  // The entry e', of a copy of e's directory in which n became x, uses the same but for n.
  ghost predicate Changed(store: Store, e: Entry, t: Tree, n: string, store': Store, e': Entry, x: Entry, y: Tree) {
    && Denotes(store, e, t) && t.DirTree? && Grows(store, store') && Denotes(store', e', DirTree(t.kids[n := y]))
    && KidsOf(store', e'.ptr) == KidsOf(store, e.ptr)[n := x]
  }

  lemma {:induction false} LevelPtrs(store: Store, e: Entry, t: Tree, n: string, store': Store, e': Entry, x: Entry,
                                     y: Tree)
    requires Changed(store, e, t, n, store', e', x, y)
    ensures var kids := KidsOf(store, e.ptr);
      var rest, here := RestPtrs(store, kids, t, n), HerePtrs(store, kids, t, n);
      && Ptrs(store, e, t) == {e.ptr} + rest + here <= store.Keys
      && Ptrs(store', e', DirTree(t.kids[n := y])) == {e'.ptr} + rest + Ptrs(store', x, y)
      && (Once(store, e, t) ==> rest !! here && e.ptr !in rest + here) && Denotes(store', x, y)
  {
    hide Denotes, BlockDenotes, Ptrs, Once, OnceKids, KidPtrs, RestPtrs, HerePtrs;
    var kids, t' := KidsOf(store, e.ptr), DirTree(t.kids[n := y]);
    PtrsGrow(store, store', e, t);
    DirStored(store, e, t);
    DirStored(store', e', t');
    KidStored(store', kids[n := x], t', n);
    Split(store, kids, t, n);
    Split(store', kids[n := x], t', n);
    RestKept(store, store', kids, t, n, x, y);
  }

  lemma {:induction false} LevelOnce(store: Store, e: Entry, t: Tree, n: string, store': Store, e': Entry, x: Entry,
                                     y: Tree)
    requires Changed(store, e, t, n, store', e', x, y) && Once(store, e, t) && Once(store', x, y)
    requires e'.ptr !in store && e'.ptr !in Ptrs(store', x, y)
    requires RestPtrs(store, KidsOf(store, e.ptr), t, n) !! Ptrs(store', x, y)
    ensures Once(store', e', DirTree(t.kids[n := y]))
  {
    hide Denotes, BlockDenotes, Ptrs, Once, OnceKids, KidPtrs, RestPtrs, HerePtrs;
    var kids, t' := KidsOf(store, e.ptr), DirTree(t.kids[n := y]);
    DirStored(store, e, t);
    DirStored(store', e', t');
    KidStored(store', kids[n := x], t', n);
    Split(store', kids[n := x], t', n);
    RestKept(store, store', kids, t, n, x, y);
    KidsOnce(store, kids, t, n, store', x, y);
  }

  lemma {:induction false} KidsOnce(store: Store, kids: Kids, t: Tree, n: string, store': Store, x: Entry, y: Tree)
    requires BlockDenotes(store, DirVal(kids), t) && t.DirTree? && Grows(store, store') && OnceKids(store, kids, t)
    requires Once(store', x, y) && RestPtrs(store, kids, t, n) !! Ptrs(store', x, y)
    ensures OnceKids(store', kids[n := x], DirTree(t.kids[n := y]))
  {
    hide Denotes, BlockDenotes, Ptrs, Once, RestPtrs;
    var kids', t' := kids[n := x], DirTree(t.kids[n := y]);
    forall m | m in t'.kids && m in kids' && m != n
      ensures Once(store', kids[m], t.kids[m]) && Ptrs(store', kids[m], t.kids[m]) <= RestPtrs(store, kids, t, n)
      ensures Ptrs(store', kids[m], t.kids[m]) == Ptrs(store, kids[m], t.kids[m])
    {
      KidStored(store, kids, t, m);
      PtrsGrow(store, store', kids[m], t.kids[m]);
      InRest(store, kids, t, n, m);
    }
  }

  lemma InRest(store: Store, kids: Kids, t: Tree, n: string, m: string)
    requires m in SubTrees(t) && m in kids && m != n
    ensures Ptrs(store, kids[m], SubTrees(t)[m]) <= RestPtrs(store, kids, t, n)
  {
  }

  // --- along a path ------------------------------------------------------------------------------------

  ghost predicate StepAt(store: Store, dir: Path, name: string, store': Store, path: Path, i: nat)
    requires i < |dir| && i + 1 < |path|
  {
    var n, kids := NameOf(dir, name, i + 1), KidsOf(store', path[i].ptr);
    n in kids && kids[n].ptr == path[i + 1].ptr && kids == KidsOf(store, dir[i].ptr)[n := kids[n]]
  }

  // The directories of path are those of dir but for the next entry on it; at its end is block.
  ghost predicate Copy(store: Store, dir: Path, name: string, block: Block, store': Store, e': Entry, path: Path) {
    && dir != [] && |path| == |dir| + 1 && e'.ptr == path[0].ptr && Grows(store, store')
    && path[|dir|].ptr in store' && store'[path[|dir|].ptr] == block
    && forall i :: 0 <= i < |dir| ==> StepAt(store, dir, name, store', path, i)
  }

  lemma CopyBelow(store: Store, dir: Path, name: string, block: Block, store': Store, e': Entry, path: Path)
    requires Copy(store, dir, name, block, store', e', path) && |dir| > 1
    ensures dir[1].name in KidsOf(store', e'.ptr)
    ensures Copy(store, dir[1..], name, block, store', KidsOf(store', e'.ptr)[dir[1].name], path[1..])
  {
    assert StepAt(store, dir, name, store', path, 0);
    var dir', path' := dir[1..], path[1..];
    forall i | 0 <= i < |dir'| ensures StepAt(store, dir', name, store', path', i) {
      assert StepAt(store, dir, name, store', path, i + 1);
      assert NameOf(dir', name, i + 1) == NameOf(dir, name, i + 2) && path'[i] == path[i + 1] && dir'[i] == dir[i + 1];
    }
  }

  // The pointers of what was called name in the last directory of the path.
  ghost function OldPtrs(store: Store, t: Tree, dir: Path, name: string): set<Ptr>
    requires dir != []
    decreases |dir|
  {
    if |dir| == 1 then HerePtrs(store, KidsOf(store, dir[0].ptr), t, name)
    else OldPtrs(store, Child(t, dir[1].name), dir[1..], name)
  }

  // The pointers below a block not stored yet.
  ghost function Below(store: Store, b: Block, s: Tree): set<Ptr> {
    KidPtrs(store, if b.DirVal? then b.kids else map[], s)
  }

  lemma {:induction false} NewPtrs(store: Store, b: Block, s: Tree, store': Store, x: Entry)
    requires BlockDenotes(store, b, s) && Grows(store, store') && Denotes(store', x, s) && x.ptr in store'
    requires store'[x.ptr] == b
    ensures Ptrs(store', x, s) == {x.ptr} + Below(store, b, s) && Below(store, b, s) <= store.Keys
    ensures x.ptr !in store && OnceKids(store, if b.DirVal? then b.kids else map[], s) ==> Once(store', x, s)
  {
    hide Denotes, BlockDenotes;
    if s.DirTree? {
      assert b.DirVal? by { DirBlockOf(store, b, s); }
      KidPtrsGrow(store, store', b.kids, s);
    } else {
      assert !s.SymTree? by { NoLink(store, b, s); }
    }
  }

  lemma DirBlockOf(store: Store, b: Block, s: Tree)
    requires BlockDenotes(store, b, s) && s.DirTree?
    ensures b.DirVal?
  {
  }

  lemma NoLink(store: Store, b: Block, s: Tree)
    requires BlockDenotes(store, b, s)
    ensures !s.SymTree?
  {
  }

  lemma PathFirst(path: Path)
    requires path != []
    ensures PathPtrs(path) == {path[0].ptr} + PathPtrs(path[1..])
  {
    assert path == [path[0]] + path[1..];
  }

  lemma NamesFirst(dir: Path, name: string)
    requires dir != []
    ensures (Names(dir) + [name])[0] == NameOf(dir, name, 1)
    ensures (Names(dir) + [name])[1..] == if |dir| == 1 then [] else Names(dir[1..]) + [name]
  {
  }

  // What the first directory of a path and its copy have in common.
  lemma {:induction false} TopChanged(store: Store, e: Entry, t: Tree, dir: Path, name: string, s: Tree, block: Block,
                                      store': Store, e': Entry, path: Path)
    requires Denotes(store, e, t) && IsPath(store, e, dir) && Copy(store, dir, name, block, store', e', path)
    requires Denotes(store', e', SetAt(t, Names(dir) + [name], s))
    ensures t.DirTree? && KidsOf(store, e.ptr) == KidsOf(store, dir[0].ptr)
    ensures NameOf(dir, name, 1) in KidsOf(store', e'.ptr)
    ensures var n := NameOf(dir, name, 1);
      var x, rest := KidsOf(store', e'.ptr)[n], if |dir| == 1 then [] else Names(dir[1..]) + [name];
      && Changed(store, e, t, n, store', e', x, SetAt(Child(t, n), rest, s)) && x.ptr == path[1].ptr
      && SetAt(t, Names(dir) + [name], s) == DirTree(t.kids[n := SetAt(Child(t, n), rest, s)])
  {
    assert t.DirTree?;
    assert StepAt(store, dir, name, store', path, 0);
    NamesFirst(dir, name);
  }

  lemma {:induction false} KidOnPath(store: Store, e: Entry, t: Tree, dir: Path)
    requires Denotes(store, e, t) && IsPath(store, e, dir) && |dir| > 1 && t.DirTree?
    ensures var n, kids := dir[1].name, KidsOf(store, e.ptr);
      && n in kids && IsPath(store, kids[n], dir[1..]) && Denotes(store, kids[n], Child(t, n))
      && HerePtrs(store, kids, t, n) == Ptrs(store, kids[n], Child(t, n))
      && (Once(store, e, t) ==> Once(store, kids[n], Child(t, n)))
  {
    if Once(store, e, t) { OnceKid(store, e, t, dir[1].name); }
  }

  lemma {:induction false} OnceKid(store: Store, e: Entry, t: Tree, n: string)
    requires Once(store, e, t) && n in SubTrees(t) && n in KidsOf(store, e.ptr)
    ensures Once(store, KidsOf(store, e.ptr)[n], SubTrees(t)[n])
  {
    assert OnceKids(store, KidsOf(store, e.ptr), t);
  }

  lemma SwapSets(e: Ptr, rest: set<Ptr>, here: set<Ptr>, dirs: set<Ptr>, was: set<Ptr>, e': Ptr, path: set<Ptr>,
                 below: set<Ptr>, now: set<Ptr>)
    requires rest !! here && e !in rest + here && dirs + was <= here && now == here - dirs - was + path + below
    ensures {e'} + rest + now == {e} + rest + here - ({e} + dirs) - was + ({e'} + path) + below
  {
  }

  /** A write-back changes which pointers are used by exactly the old and the new path, and what is below
      the old and the new block. */
  lemma {:induction false} Swapped(store: Store, e: Entry, t: Tree, dir: Path, name: string, s: Tree, block: Block,
                                   store': Store, e': Entry, path: Path)
    requires Denotes(store, e, t) && Once(store, e, t) && IsPath(store, e, dir)
    requires Copy(store, dir, name, block, store', e', path) && BlockDenotes(store, block, s)
    requires Denotes(store', e', SetAt(t, Names(dir) + [name], s))
    ensures PathPtrs(dir) + OldPtrs(store, t, dir, name) <= Ptrs(store, e, t) <= store.Keys
    ensures Ptrs(store', e', SetAt(t, Names(dir) + [name], s)) ==
      Ptrs(store, e, t) - PathPtrs(dir) - OldPtrs(store, t, dir, name) + PathPtrs(path) + Below(store, block, s)
    decreases |dir|
  {
    hide Denotes, BlockDenotes, Once, Ptrs, HerePtrs, RestPtrs, Below, SetAt, IsPath, StepAt, Names, Child, PathPtrs;
    TopChanged(store, e, t, dir, name, s, block, store', e', path);
    var n, kids := NameOf(dir, name, 1), KidsOf(store, e.ptr);
    var x, names := KidsOf(store', e'.ptr)[n], if |dir| == 1 then [] else Names(dir[1..]) + [name];
    var y := SetAt(Child(t, n), names, s);
    LevelPtrs(store, e, t, n, store', e', x, y);
    PathFirst(dir);
    PathFirst(path);
    FirstIsDir(store, e, dir);
    var rest, here := RestPtrs(store, kids, t, n), HerePtrs(store, kids, t, n);
    if |dir| == 1 {
      assert y == s by { SetHere(Child(t, n), s); }
      NewPtrs(store, block, s, store', x);
      OnePtr(dir[1..], path[1..]);
      SwapSets(e.ptr, rest, here, {}, here, e'.ptr, {x.ptr}, Below(store, block, s), Ptrs(store', x, y));
    } else {
      KidOnPath(store, e, t, dir);
      CopyBelow(store, dir, name, block, store', e', path);
      Swapped(store, kids[n], Child(t, n), dir[1..], name, s, block, store', x, path[1..]);
      SwapSets(e.ptr, rest, here, PathPtrs(dir[1..]), OldPtrs(store, t, dir, name), e'.ptr, PathPtrs(path[1..]),
               Below(store, block, s), Ptrs(store', x, y));
    }
  }

  lemma FirstIsDir(store: Store, e: Entry, dir: Path)
    requires IsPath(store, e, dir)
    ensures dir[0].ptr == e.ptr
  {
  }

  lemma SetHere(t: Tree, s: Tree)
    ensures SetAt(t, [], s) == s
  {
  }

  lemma OnePtr(dir: Path, path: Path)
    requires dir == [] && |path| == 1
    ensures PathPtrs(dir) == {} && PathPtrs(path) == {path[0].ptr}
  {
  }

  // --- no pointer comes to be used twice ------------------------------------------------------------------

  // The pointers of the new path are new, and none is on it twice.
  ghost predicate FreshPath(store: Store, path: Path) {
    Distinct(path) && forall i :: 0 <= i < |path| ==> path[i].ptr !in store
  }

  lemma FreshBelow(store: Store, path: Path)
    requires FreshPath(store, path) && path != []
    ensures FreshPath(store, path[1..]) && path[0].ptr !in store && path[0].ptr !in PathPtrs(path[1..])
    ensures PathPtrs(path[1..]) !! store.Keys
  {
    var rest := path[1..];
    forall x | x in rest ensures x.ptr != path[0].ptr && x.ptr !in store {
      var i :| 0 <= i < |rest| && rest[i] == x;
      assert path[i + 1] == x;
    }
  }

  /** If what is below the new block is used nowhere else, still no pointer is used twice. */
  lemma {:induction false} OnceSwapped(store: Store, e: Entry, t: Tree, dir: Path, name: string, s: Tree, block: Block,
                                       store': Store, e': Entry, path: Path)
    requires Denotes(store, e, t) && Once(store, e, t) && IsPath(store, e, dir)
    requires Copy(store, dir, name, block, store', e', path) && BlockDenotes(store, block, s) && FreshPath(store, path)
    requires Denotes(store', e', SetAt(t, Names(dir) + [name], s))
    requires OnceKids(store, if block.DirVal? then block.kids else map[], s)
    requires Below(store, block, s) !! Ptrs(store, e, t) - PathPtrs(dir) - OldPtrs(store, t, dir, name)
    ensures Once(store', e', SetAt(t, Names(dir) + [name], s))
    decreases |dir|
  {
    hide Denotes, BlockDenotes, Once, OnceKids, Ptrs, HerePtrs, RestPtrs, Below, SetAt, IsPath, StepAt, Names, Child,
      PathPtrs, FreshPath;
    TopChanged(store, e, t, dir, name, s, block, store', e', path);
    var n, kids := NameOf(dir, name, 1), KidsOf(store, e.ptr);
    var x, names := KidsOf(store', e'.ptr)[n], if |dir| == 1 then [] else Names(dir[1..]) + [name];
    var y := SetAt(Child(t, n), names, s);
    LevelPtrs(store, e, t, n, store', e', x, y);
    PathFirst(dir);
    FirstIsDir(store, e, dir);
    FreshBelow(store, path);
    FreshBelow(store, path[1..]);
    var rest, here := RestPtrs(store, kids, t, n), HerePtrs(store, kids, t, n);
    if |dir| == 1 {
      assert y == s by { SetHere(Child(t, n), s); }
      NewPtrs(store, block, s, store', x);
      OnePtr(dir[1..], path[1..]);
    } else {
      KidOnPath(store, e, t, dir);
      CopyBelow(store, dir, name, block, store', e', path);
      Swapped(store, kids[n], Child(t, n), dir[1..], name, s, block, store', x, path[1..]);
      OnceSwapped(store, kids[n], Child(t, n), dir[1..], name, s, block, store', x, path[1..]);
      assert Below(store, block, s) <= store.Keys by { BelowStored(store, block, s); }
    }
    LevelOnce(store, e, t, n, store', e', x, y);
  }

  lemma {:induction false} BelowStored(store: Store, b: Block, s: Tree)
    requires BlockDenotes(store, b, s)
    ensures Below(store, b, s) <= store.Keys
  {
    if s.DirTree? { KidPtrsGrow(store, store, b.kids, s); }
  }

  lemma {:induction false} EndUsed(store: Store, e: Entry, t: Tree, p: Path)
    requires Denotes(store, e, t) && IsPath(store, e, p)
    ensures Last(p).ptr in Ptrs(store, e, t) && t.DirTree?
    decreases |p|
  {
    if |p| > 1 {
      KidOnPath(store, e, t, p);
      EndUsed(store, KidsOf(store, e.ptr)[p[1].name], Child(t, p[1].name), p[1..]);
    }
  }

  lemma {:induction false} EndBelow(store: Store, e: Entry, t: Tree, p: Path)
    requires Denotes(store, e, t) && IsPath(store, e, p) && |p| > 1
    ensures t.DirTree? && Last(p).ptr in HerePtrs(store, KidsOf(store, e.ptr), t, p[1].name)
  {
    EndUsed(store, e, t, p[..1]);
    KidOnPath(store, e, t, p);
    EndUsed(store, KidsOf(store, e.ptr)[p[1].name], Child(t, p[1].name), p[1..]);
  }

  // Where no pointer is used twice, no directory is reached under two names.
  lemma {:induction false} OnceUnique(store: Store, e: Entry, t: Tree)
    requires Denotes(store, e, t) && Once(store, e, t)
    ensures UniqueDirs(store, e)
  {
    forall p: Path, q: Path | IsPath(store, e, p) && IsPath(store, e, q) && p[|p| - 1].ptr == q[|q| - 1].ptr
      ensures p[1..] == q[1..]
    {
      SamePath(store, e, t, p, q);
    }
  }

  lemma {:induction false} SamePath(store: Store, e: Entry, t: Tree, p: Path, q: Path)
    requires Denotes(store, e, t) && Once(store, e, t) && IsPath(store, e, p) && IsPath(store, e, q)
    requires Last(p).ptr == Last(q).ptr
    ensures p[1..] == q[1..]
    decreases |p|
  {
    hide Denotes, Once, Ptrs, OnceKids, KidPtrs, RestPtrs;
    EndUsed(store, e, t, p);
    DirStored(store, e, t);
    if |p| > 1 { EndBelow(store, e, t, p); Split(store, KidsOf(store, e.ptr), t, p[1].name); }
    if |q| > 1 { EndBelow(store, e, t, q); Split(store, KidsOf(store, e.ptr), t, q[1].name); }
    if |p| > 1 && |q| > 1 {
      var n := p[1].name;
      if q[1].name != n { InRest(store, KidsOf(store, e.ptr), t, n, q[1].name); }
      KidOnPath(store, e, t, p);
      KidOnPath(store, e, t, q);
      SamePath(store, KidsOf(store, e.ptr)[n], Child(t, n), p[1..], q[1..]);
      assert p[1] == q[1];
      assert p[1..] == [p[1]] + p[1..][1..] && q[1..] == [q[1]] + q[1..][1..];
    }
  }

  // --- what is logged ------------------------------------------------------------------------------------------

  lemma {:induction false} CopiedAll(st: Start, dir: Path, name: string, block: Block, store: Store, e: Entry,
                                     path: Path, bps: seq<Ptr>)
    requires st.view == map[] && dir != [] && Copied(st, dir, name, -1, block, store, path) && path != []
    requires e.ptr == path[0].ptr
    requires Climbed(st.store, store, dir, name, -1, path, bps)
    ensures Copy(st.store, dir, name, block, store, e, path) && FreshPath(st.store, path)
  {
    hide Resolves, Named;
    forall i | 0 <= i < |dir| ensures StepAt(st.store, dir, name, store, path, i) {
      assert CopyOf(st, dir, name, i, store[path[i].ptr], path[i + 1].ptr);
    }
    forall i | 0 <= i < |path| ensures path[i].ptr !in st.store {
      assert bps[|path| - 1 - i] == path[i].ptr;
    }
  }

  /** Writing a block back as dir/name, where no pointer is used twice: the pointers in use change by exactly
      the old and the new path and what is below the old and the new block, and the log has both paths. */
  method WriteBack(w: TreeWriter, block: NewBlock, dir: Path, name: string, typ: EntryType, now: int, ghost t: Tree,
                   ghost s: Tree)
    returns (newPath: Path, bps: seq<Ptr>)
    requires w.Valid() && w.lbc == map[] && Denotes(w.store, w.root, t) && Once(w.store, w.root, t)
    requires IsPath(w.store, w.root, dir)
    requires BlockDenotes(w.store, w.BlockOf(block), s) && Fits(TypeOf(w.store[Last(dir).ptr].kids, name, typ), s)
    modifies w
    ensures w.Valid() && w.lbc == map[] && Grows(old(w.store), w.store)
    ensures Denotes(w.store, w.root, SetAt(t, Names(dir) + [name], s))
    ensures PathPtrs(dir) + OldPtrs(old(w.store), t, dir, name) <= old(Ptrs(w.store, w.root, t))
    ensures Ptrs(w.store, w.root, SetAt(t, Names(dir) + [name], s)) ==
      old(Ptrs(w.store, w.root, t)) - PathPtrs(dir) - OldPtrs(old(w.store), t, dir, name) + PathPtrs(newPath)
      + Below(old(w.store), old(w.BlockOf(block)), s)
    ensures Added(w.updates, w.refs) == old(Added(w.updates, w.refs)) + PathPtrs(newPath)
    ensures FreshPath(old(w.store), newPath)
    ensures MoreUpdates(old(w.store), old(w.updates), w.updates)
    ensures Unrefs(w.updates) ==
      old(Unrefs(w.updates)) + Taken(old(w.store)[Last(dir).ptr].kids, name) + Up(dir, |dir|, 0)
    ensures
      && OnceKids(old(w.store), old(if w.BlockOf(block).DirVal? then w.BlockOf(block).kids else map[]), s)
      && Below(old(w.store), old(w.BlockOf(block)), s) !!
        old(Ptrs(w.store, w.root, t)) - PathPtrs(dir) - OldPtrs(old(w.store), t, dir, name)
      ==> Once(w.store, w.root, SetAt(t, Names(dir) + [name], s))
  {
    hide Denotes, BlockDenotes, UniqueDirs, Ready, Linked, Graft, SetAt, Climbed, Names, TreeWriter.Valid, Unrefs, Up,
      Once, OnceKids, Ptrs, Below, OldPtrs, Copied, FreshPath, PathPtrs, Added, MoreUpdates, Copy;
    ghost var st, first := w.Begun(Some(now), Some(now)), w.BlockOf(block);
    OnceUnique(w.store, w.root, t);
    SyncEntryReady(w.store, w.root, t, dir, name, typ, s);
    assert w.View() == map[];
    var r;
    r, newPath, bps := w.SyncBlock(block, dir, name, typ, Some(now), Some(now), None, Walk(t, dir), s, -1);
    SyncEntryTree(t, dir, name, s);
    CopiedAll(st, dir, name, first, w.store, w.root, newPath, bps);
    Swapped(st.store, st.root, t, dir, name, s, first, w.store, w.root, newPath);
    if OnceKids(st.store, if first.DirVal? then first.kids else map[], s)
      && Below(st.store, first, s) !! Ptrs(st.store, st.root, t) - PathPtrs(dir) - OldPtrs(st.store, t, dir, name)
    {
      OnceSwapped(st.store, st.root, t, dir, name, s, first, w.store, w.root, newPath);
    }
  }

  // --- the ledger ----------------------------------------------------------------------------------------------

  ghost function Dropped(us: seq<Update>): set<Ptr> {
    set p | p in Unrefs(us)
  }

  // The folder uses the pointers in base, with those the log brings in and without those it drops, and
  // the log drops only what was in use.
  ghost predicate Balanced(store: Store, root: Entry, t: Tree, base: set<Ptr>, us: seq<Update>, rs: seq<Ptr>) {
    && Denotes(store, root, t) && Once(store, root, t) && Ptrs(store, root, t) == base + Added(us, rs) - Dropped(us)
    && Dropped(us) <= base + Added(us, rs) && base + Added(us, rs) <= store.Keys
    && forall u :: u in us ==> u.ref != u.unref
  }

  lemma {:induction false} OldFile(store: Store, e: Entry, t: Tree, dir: Path, name: string)
    requires Denotes(store, e, t) && IsPath(store, e, dir)
    requires name in KidsOf(store, Last(dir).ptr) ==> IsFile(KidsOf(store, Last(dir).ptr)[name].typ)
    ensures OldPtrs(store, t, dir, name) == set p | p in Taken(KidsOf(store, Last(dir).ptr), name)
    decreases |dir|
  {
    EndUsed(store, e, t, dir);
    if |dir| == 1 {
      var kids := KidsOf(store, e.ptr);
      DirStored(store, e, t);
      if name in kids {
        KidStored(store, kids, t, name);
        assert t.kids[name].FileTree? && Taken(kids, name) == [kids[name].ptr];
      }
    } else {
      KidOnPath(store, e, t, dir);
      OldFile(store, KidsOf(store, e.ptr)[dir[1].name], Child(t, dir[1].name), dir[1..], name);
    }
  }

  lemma {:induction false} UpPtrs(dir: Path, hi: nat)
    requires hi <= |dir|
    ensures (set p | p in Up(dir, hi, 0)) == PathPtrs(dir[..hi])
  {
    if hi > 0 {
      UpPtrs(dir, hi - 1);
      PathLast(dir[..hi - 1], dir[hi - 1]);
      assert dir[..hi] == dir[..hi - 1] + [dir[hi - 1]] && Up(dir, hi, 0) == [dir[hi - 1].ptr] + Up(dir, hi - 1, 0);
      assert forall p :: p in Up(dir, hi, 0) <==> p == dir[hi - 1].ptr || p in Up(dir, hi - 1, 0);
    }
  }

  lemma PathLast(path: Path, node: PathNode)
    ensures PathPtrs(path + [node]) == PathPtrs(path) + {node.ptr}
  {
    assert forall x :: x in path + [node] <==> x in path || x == node;
  }

  lemma LogNext(was: Store, us: seq<Update>, us': seq<Update>, more: seq<Ptr>)
    requires MoreUpdates(was, us, us') && Unrefs(us') == Unrefs(us) + more && (set p | p in more) <= was.Keys
    requires forall u :: u in us ==> u.ref != u.unref
    ensures forall u :: u in us' ==> u.ref != u.unref
    ensures Dropped(us') == Dropped(us) + set p | p in more
  {
    assert |us'| == |Unrefs(us')| && |us| == |Unrefs(us)|;
    forall u | u in us' ensures u.ref != u.unref {
      var i :| 0 <= i < |us'| && us'[i] == u;
      if i < |us| {
        assert us'[i] == us[i];
      } else {
        assert Unrefs(us')[i] == u.unref && (Unrefs(us) + more)[i] == more[i - |us|];
      }
    }
  }

  lemma NoKids(store: Store, data: seq<int>, typ: EntryType)
    ensures Below(store, FileVal(data), FileTree(typ, data)) == {} && OnceKids(store, map[], FileTree(typ, data))
  {
  }

  /** Writing a file back keeps the balance: what the log says, over any number of such writes, is
      what the root reaches. */
  method WriteFile(w: TreeWriter, data: seq<int>, dir: Path, name: string, typ: EntryType, now: int, ghost t: Tree,
                   ghost base: set<Ptr>)
    returns (newPath: Path, bps: seq<Ptr>)
    requires w.Valid() && w.lbc == map[] && Balanced(w.store, w.root, t, base, w.updates, w.refs)
    requires IsPath(w.store, w.root, dir)
    requires IsFile(TypeOf(w.store[Last(dir).ptr].kids, name, typ))
    modifies w
    ensures w.Valid() && w.lbc == map[]
    ensures var s := FileTree(TypeOf(old(w.store)[Last(dir).ptr].kids, name, typ), data);
      Balanced(w.store, w.root, SetAt(t, Names(dir) + [name], s), base, w.updates, w.refs)
  {
    hide Denotes, Once, OnceKids, Ptrs, Below, OldPtrs, PathPtrs, Added, MoreUpdates, Dropped, SetAt, Unrefs, Up,
      FreshPath, TreeWriter.Valid, Names;
    ghost var store, us, rs, kids := w.store, w.updates, w.refs, w.store[Last(dir).ptr].kids;
    ghost var s := FileTree(TypeOf(kids, name, typ), data);
    ghost var used := Ptrs(w.store, w.root, t);
    OldFile(store, w.root, t, dir, name);
    NoKids(store, data, TypeOf(kids, name, typ));
    PtrsGrow(store, store, w.root, t);
    UpPtrs(dir, |dir|);
    assert dir[..|dir|] == dir;
    newPath, bps := WriteBack(w, NewFile(data), dir, name, typ, now, t, s);
    ghost var more := Taken(kids, name) + Up(dir, |dir|, 0);
    assert Unrefs(w.updates) == Unrefs(us) + more;
    LogNext(store, us, w.updates, more);
    FreshPtrs(store, newPath);
    BalanceNext(store.Keys, base, Added(us, rs), Dropped(us), used, (set p | p in more), PathPtrs(newPath));
    StoredNext(w.store, w.root, SetAt(t, Names(dir) + [name], s), PathPtrs(newPath));
  }

  lemma FreshPtrs(store: Store, path: Path)
    requires FreshPath(store, path)
    ensures PathPtrs(path) !! store.Keys
  {
  }

  lemma {:induction false} StoredNext(store: Store, e: Entry, t: Tree, path: set<Ptr>)
    requires Denotes(store, e, t) && path <= Ptrs(store, e, t)
    ensures path <= store.Keys
  {
    PtrsGrow(store, store, e, t);
  }

  lemma BalanceNext(stored: set<Ptr>, base: set<Ptr>, added: set<Ptr>, dropped: set<Ptr>, used: set<Ptr>,
                    more: set<Ptr>, path: set<Ptr>)
    requires used == base + added - dropped && dropped <= base + added <= stored && more <= used && path !! stored
    ensures used - more + path == base + (added + path) - (dropped + more) && dropped + more <= base + (added + path)
  {
  }

  // The revision with this log, once every pointer has a block and a reference.
  function RevisionOf(f: Ptr -> Reclamation.BlockRef, us: seq<Update>, rs: seq<Ptr>): Reclamation.MD {
    Reclamation.MD([Reclamation.DataOp(seq(|rs|, i requires 0 <= i < |rs| => f(rs[i])), [], RefUpdates(f, us))], false)
  }

  function RefUpdates(f: Ptr -> Reclamation.BlockRef, us: seq<Update>): seq<Reclamation.RefUpdate> {
    seq(|us|, i requires 0 <= i < |us| => Reclamation.RefUpdate(f(us[i].unref), f(us[i].ref)))
  }

  ghost function Refs(f: Ptr -> Reclamation.BlockRef, s: set<Ptr>): set<Reclamation.BlockRef> {
    set p | p in s :: f(p)
  }

  ghost predicate Injective(f: Ptr -> Reclamation.BlockRef) {
    forall p, q :: f(p) == f(q) ==> p == q
  }

  /** The references a history counts as in use are those of the pointers reachable from the root: if so before a
      balanced log, then so after the revision with that log, which drops only what is in use. */
  lemma LedgerIsReach(f: Ptr -> Reclamation.BlockRef, h: seq<Reclamation.MD>, store: Store, root: Entry, t: Tree,
                      base: set<Ptr>, us: seq<Update>, rs: seq<Ptr>)
    requires Injective(f) && BlockRefs.InUse(h, |h|) == Refs(f, base) && Balanced(store, root, t, base, us, rs)
    ensures var md := RevisionOf(f, us, rs);
      && BlockRefs.InUse(h + [md], |h| + 1) == Refs(f, Ptrs(store, root, t))
      && BlockRefs.Drops(md) <= BlockRefs.InUse(h, |h|) + BlockRefs.Adds(md)
  {
    hide Denotes, Once, Ptrs;
    var md := RevisionOf(f, us, rs);
    BlockRefs.NextRevision(h, md, 0);
    RevisionAdds(f, us, rs);
    RevisionDrops(f, us, rs);
    assert Refs(f, base + Added(us, rs) - Dropped(us)) == Refs(f, base) + Refs(f, Added(us, rs)) - Refs(f, Dropped(us));
  }

  lemma RevisionAdds(f: Ptr -> Reclamation.BlockRef, us: seq<Update>, rs: seq<Ptr>)
    requires Injective(f) && forall u :: u in us ==> u.ref != u.unref
    ensures BlockRefs.Adds(RevisionOf(f, us, rs)) == Refs(f, Added(us, rs))
  {
    var op := RevisionOf(f, us, rs).ops[0];
    assert BlockRefs.Adds(RevisionOf(f, us, rs)) == BlockRefs.AddedBy(op) by { OneOp(op); }
    forall p | p in Added(us, rs) ensures f(p) in BlockRefs.AddedBy(op) {
      if p in rs {
        var i :| 0 <= i < |rs| && rs[i] == p;
        assert op.refs[i] == f(p);
      } else {
        var u :| u in us && u.ref == p;
        var i :| 0 <= i < |us| && us[i] == u;
        assert op.updates[i] == Reclamation.RefUpdate(f(u.unref), f(p));
      }
    }
    forall r | r in BlockRefs.AddedBy(op) ensures r in Refs(f, Added(us, rs)) {
      if r in op.refs {
        var i :| 0 <= i < |op.refs| && op.refs[i] == r;
        assert rs[i] in Added(us, rs);
      } else {
        var v :| v in op.updates && v.ref == r;
        var i :| 0 <= i < |us| && op.updates[i] == v;
        assert us[i] in us && us[i].ref in Added(us, rs);
      }
    }
  }

  lemma RevisionDrops(f: Ptr -> Reclamation.BlockRef, us: seq<Update>, rs: seq<Ptr>)
    requires Injective(f) && forall u :: u in us ==> u.ref != u.unref
    ensures BlockRefs.Drops(RevisionOf(f, us, rs)) == Refs(f, Dropped(us))
  {
    OneOp(RevisionOf(f, us, rs).ops[0]);
    ReplacedAll(f, us);
  }

  lemma OneOp(op: Reclamation.Op)
    requires op.DataOp?
    ensures BlockRefs.AddsOf([op]) == BlockRefs.AddedBy(op)
    ensures Reclamation.DroppedByAll([op]) == op.unrefs + Reclamation.Replaced(op.updates)
  {
    assert [op][..0] == [];
    assert BlockRefs.AddsOf([]) == {} && Reclamation.DroppedByAll([]) == [];
  }

  lemma {:induction false} ReplacedAll(f: Ptr -> Reclamation.BlockRef, us: seq<Update>)
    requires Injective(f) && forall u :: u in us ==> u.ref != u.unref
    ensures (set r | r in Reclamation.Replaced(RefUpdates(f, us))) == Refs(f, Dropped(us))
  {
    if us != [] {
      var k := |us| - 1;
      ReplacedAll(f, us[..k]);
      assert us[k] in us && f(us[k].ref) != f(us[k].unref);
      assert RefUpdates(f, us)[..k] == RefUpdates(f, us[..k]);
      assert Unrefs(us) == Unrefs(us[..k]) + [us[k].unref];
      assert forall p :: p in Unrefs(us) <==> p in Unrefs(us[..k]) || p == us[k].unref;
      assert Dropped(us) == Dropped(us[..k]) + {us[k].unref};
      assert Refs(f, Dropped(us)) == Refs(f, Dropped(us[..k])) + {f(us[k].unref)};
    }
  }
}
