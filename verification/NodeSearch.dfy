/** Finding the nodes of given pointers in a folder by looking only into directories that changed,
    and stopping as soon as as many were found as were asked for. */
module NodeSearch {
  import opened Merkle
  import opened Pointers

  function LastPtr(q: Path): Ptr
    requires q != []
  {
    q[|q| - 1].ptr
  }

  // The block at the end of the path is a directory with the tree t.
  ghost predicate DirAt(store: Store, dir: Path, t: Tree) {
    dir != [] && LastPtr(dir) in store && t.DirTree? && BlockDenotes(store, store[LastPtr(dir)], t)
  }

  ghost function ChildAt(store: Store, dir: Path, n: string): Path
    requires dir != [] && LastPtr(dir) in store && store[LastPtr(dir)].DirVal? && n in store[LastPtr(dir)].kids
  {
    dir + [PathNode(store[LastPtr(dir)].kids[n].ptr, n)]
  }

  // The search goes into this entry.
  predicate Enters(e: Entry, newPtrs: set<Ptr>) {
    e.typ.Dir? && e.ptr in newPtrs
  }

  // Everything listed in the directory, and in the changed directories below it.
  ghost function Listed(store: Store, newPtrs: set<Ptr>, dir: Path, t: Tree): set<Path>
    requires DirAt(store, dir, t)
    decreases t
  {
    set n, q | n in t.kids && q in ListedUnder(store, newPtrs, dir, t, n) :: q
  }

  ghost function ListedUnder(store: Store, newPtrs: set<Ptr>, dir: Path, t: Tree, n: string): set<Path>
    requires DirAt(store, dir, t) && n in t.kids
    decreases t, 0
  {
    var e := store[LastPtr(dir)].kids[n];
    {ChildAt(store, dir, n)} +
    (if Enters(e, newPtrs) then
      assert Denotes(store, e, t.kids[n]);
      Listed(store, newPtrs, ChildAt(store, dir, n), t.kids[n])
     else {})
  }

  lemma {:induction false} ChildDir(store: Store, dir: Path, t: Tree, n: string)
    requires DirAt(store, dir, t) && n in t.kids && store[LastPtr(dir)].kids[n].typ.Dir?
    ensures DirAt(store, ChildAt(store, dir, n), t.kids[n])
  {
    assert Denotes(store, store[LastPtr(dir)].kids[n], t.kids[n]);
  }

  // Everything listed lies below the directory.
  lemma {:induction false} ListedBelow(store: Store, newPtrs: set<Ptr>, dir: Path, t: Tree, q: Path)
    requires DirAt(store, dir, t) && q in Listed(store, newPtrs, dir, t)
    ensures |q| > |dir| && q[..|dir|] == dir && q[|dir|].name in t.kids
    ensures q in ListedUnder(store, newPtrs, dir, t, q[|dir|].name)
    decreases t, 1
  {
    var n :| n in t.kids && q in ListedUnder(store, newPtrs, dir, t, n);
    ListedUnderBelow(store, newPtrs, dir, t, n, q);
  }

  lemma {:induction false} ListedUnderBelow(store: Store, newPtrs: set<Ptr>, dir: Path, t: Tree, n: string, q: Path)
    requires DirAt(store, dir, t) && n in t.kids && q in ListedUnder(store, newPtrs, dir, t, n)
    ensures |q| > |dir| && q[..|dir|] == dir && q[|dir|].name == n
    decreases t, 0
  {
    var child := ChildAt(store, dir, n);
    if q != child {
      ChildDir(store, dir, t, n);
      ListedBelow(store, newPtrs, child, t.kids[n], q);
      assert q[..|dir|] == q[..|child|][..|dir|];
    }
  }

  type NodeMap = map<Ptr, Option<Path>>

  ghost function FoundIn(m: NodeMap): set<Ptr> {
    set p | p in m && m[p].Some?
  }

  // No requested pointer is at the end of two paths.
  ghost predicate Unique(ptrs: set<Ptr>, all: set<Path>) {
    forall q, r :: q in all && r in all && q != [] && r != [] && LastPtr(q) == LastPtr(r) && LastPtr(q) in ptrs ==>
      q == r
  }

  // Whatever was found was seen, and leads to the pointer it was found for.
  ghost predicate Sound(m: NodeMap, seen: set<Path>) {
    forall p :: p in m && m[p].Some? ==> m[p].value in seen && m[p].value != [] && LastPtr(m[p].value) == p
  }

  // Whatever was seen and asked for was found.
  ghost predicate Complete(m: NodeMap, seen: set<Path>) {
    forall q :: q in seen && q != [] && LastPtr(q) in m ==> m[LastPtr(q)] == Some(q)
  }

  // One more path seen.
  lemma SeeOne(m: NodeMap, seen: set<Path>, all: set<Path>, q: Path)
    requires Sound(m, seen) && Complete(m, seen) && q !in seen && seen + {q} <= all && Unique(m.Keys, all) && q != []
    ensures var m' := if LastPtr(q) in m then m[LastPtr(q) := Some(q)] else m;
      && Sound(m', seen + {q}) && Complete(m', seen + {q})
      && |FoundIn(m')| == |FoundIn(m)| + if LastPtr(q) in m then 1 else 0
  {
    var p := LastPtr(q);
    if p in m {
      assert m[p] == None;
      assert FoundIn(m[p := Some(q)]) == FoundIn(m) + {p};
    }
  }

  lemma AllFound(m: NodeMap)
    requires |FoundIn(m)| >= |m|
    ensures FoundIn(m) == m.Keys
  {
    SubsetSize(FoundIn(m), m.Keys);
    assert |m.Keys| == |m|;
  }

  lemma {:induction false} SubsetSize(a: set<Ptr>, b: set<Ptr>)
    requires a <= b
    ensures |a| <= |b| && (|a| == |b| ==> a == b)
    decreases b
  {
    if b != {} {
      var x :| x in b;
      SubsetSize(a - {x}, b - {x});
      if x in a {
        assert a == a - {x} + {x} && b == b - {x} + {x};
      } else {
        assert a - {x} == a;
      }
    }
  }

  // The directories to be looked into, and the map of nodes that the search fills in.
  class Search {
    const store: Store
    const newPtrs: set<Ptr>
    var nodeMap: NodeMap

    constructor (store: Store, newPtrs: set<Ptr>, ptrs: set<Ptr>)
      ensures this.store == store && this.newPtrs == newPtrs && nodeMap == map p | p in ptrs :: None
    {
      this.store, this.newPtrs := store, newPtrs;
      nodeMap := map p | p in ptrs :: None;
    }

    // What the search has done so far: its count is right and, unless it is done, everything seen
    // and asked for is in the map.
    ghost predicate Searching(seen: set<Path>, all: set<Path>, soFar: nat)
      reads this
    {
      Sound(nodeMap, seen) && Complete(nodeMap, seen) && seen <= all && Unique(nodeMap.Keys, all)
        && |FoundIn(nodeMap)| == soFar
    }

    // The search may stop: all that was asked for is found.
    ghost predicate Finished(all: set<Path>, soFar: nat)
      reads this
    {
      FoundIn(nodeMap) == nodeMap.Keys && Sound(nodeMap, all) && |FoundIn(nodeMap)| == soFar && soFar >= |nodeMap|
    }

    // Records one entry if it is asked for, and searches below it if it is a changed directory.
    method VisitEntry(dir: Path, name: string, soFar: nat, ghost t: Tree, ghost seen: set<Path>, ghost all: set<Path>)
      returns (found: nat)
      requires DirAt(store, dir, t) && name in t.kids && Searching(seen, all, soFar)
      requires ListedUnder(store, newPtrs, dir, t, name) <= all && ListedUnder(store, newPtrs, dir, t, name) !! seen
      modifies this`nodeMap
      ensures nodeMap.Keys == old(nodeMap).Keys
      ensures Searching(seen + ListedUnder(store, newPtrs, dir, t, name), all, soFar + found)
        || Finished(all, soFar + found)
      decreases t, 0
    {
      hide Sound, Complete, Unique, BlockDenotes, Listed;
      assert DirAt(store, dir, t) && store[LastPtr(dir)].DirVal? && name in store[LastPtr(dir)].kids
        by { DirKids(store, dir, t); }
      var de := store[LastPtr(dir)].kids[name];
      var childPath := dir + [PathNode(de.ptr, name)];
      found := 0;
      SeeOne(nodeMap, seen, all, childPath);
      if de.ptr in nodeMap {
        nodeMap := nodeMap[de.ptr := Some(childPath)];
        assert nodeMap.Keys == old(nodeMap).Keys;
        found := 1;
        if soFar + found >= |nodeMap| {
          AllFound(nodeMap);
          SoundMore(nodeMap, seen + {childPath}, all);
          return;
        }
      }
      if Enters(de, newPtrs) {
        ChildDir(store, dir, t, name);
        NotBelowItself(store, newPtrs, childPath, t.kids[name]);
        var n := SearchInDir(childPath, soFar + found, t.kids[name], seen + {childPath}, all);
        found := found + n;
        assert seen + {childPath} + Listed(store, newPtrs, childPath, t.kids[name]) ==
          seen + ListedUnder(store, newPtrs, dir, t, name);
      } else {
        assert seen + {childPath} == seen + ListedUnder(store, newPtrs, dir, t, name);
      }
    }

    method SearchInDir(dir: Path, soFar: nat, ghost t: Tree, ghost seen: set<Path>, ghost all: set<Path>)
      returns (found: nat)
      requires DirAt(store, dir, t) && Searching(seen, all, soFar)
      requires Listed(store, newPtrs, dir, t) <= all && Listed(store, newPtrs, dir, t) !! seen
      modifies this`nodeMap
      ensures nodeMap.Keys == old(nodeMap).Keys
      ensures Searching(seen + Listed(store, newPtrs, dir, t), all, soFar + found) || Finished(all, soFar + found)
      decreases t, 1
    {
      hide Sound, Complete, Unique, BlockDenotes, ListedUnder, Listed;
      assert store[LastPtr(dir)].DirVal? && store[LastPtr(dir)].kids.Keys == t.kids.Keys by { DirKids(store, dir, t); }
      var kids := store[LastPtr(dir)].kids;
      found := 0;
      if soFar >= |nodeMap| {
        AllFound(nodeMap);
        SoundMore(nodeMap, seen, all);
        return;
      }
      var names := kids.Keys;
      ghost var done := {};
      assert Under(store, newPtrs, dir, t, {}) == {};
      assert seen + Under(store, newPtrs, dir, t, {}) == seen;
      while names != {}
        invariant names <= kids.Keys && done == kids.Keys - names && nodeMap.Keys == old(nodeMap).Keys
        invariant Searching(seen + Under(store, newPtrs, dir, t, done), all, soFar + found)
      {
        var name :| name in names;
        names := names - {name};
        NextUnder(store, newPtrs, dir, t, done, name);
        assert seen + Under(store, newPtrs, dir, t, done) + ListedUnder(store, newPtrs, dir, t, name)
            == seen + Under(store, newPtrs, dir, t, done + {name});
        var n := VisitEntry(dir, name, soFar + found, t, seen + Under(store, newPtrs, dir, t, done), all);
        found := found + n;
        done := done + {name};
        if soFar + found >= |nodeMap| {
          if Searching(seen + Under(store, newPtrs, dir, t, done), all, soFar + found) {
            AllFound(nodeMap);
            SoundMore(nodeMap, seen + Under(store, newPtrs, dir, t, done), all);
          }
          return;
        }
      }
      assert done == t.kids.Keys;
      AllUnder(store, newPtrs, dir, t);
    }
  }

  /** All paths of the folder the search may find: the root's, and what is listed in the root and in
      changed directories. */
  ghost function Region(store: Store, newPtrs: set<Ptr>, root: PathNode, t: Tree): set<Path>
    requires DirAt(store, [root], t)
  {
    {[root]} + Listed(store, newPtrs, [root], t)
  }

  // --- the same, by the paths themselves -----------------------------------------------------------------

  // Directory i of the path lists the next thing on it.
  ghost predicate Leads(store: Store, q: Path, i: nat)
    requires i + 1 < |q|
  {
    && q[i].ptr in store && store[q[i].ptr].DirVal?
    && q[i + 1].name in store[q[i].ptr].kids && store[q[i].ptr].kids[q[i + 1].name].ptr == q[i + 1].ptr
  }

  // Thing i of the path is listed as a directory, and its pointer is among those that changed.
  ghost predicate Changed(store: Store, newPtrs: set<Ptr>, q: Path, i: nat)
    requires 0 < i < |q|
  {
    Leads(store, q, i - 1) && store[q[i - 1].ptr].kids[q[i].name].typ.Dir? && q[i].ptr in newPtrs
  }

  // From its directory k on the path can be followed by name, through changed directories only.
  ghost predicate Visible(store: Store, newPtrs: set<Ptr>, q: Path, k: nat) {
    && (forall i :: k <= i < |q| - 1 ==> Leads(store, q, i))
    && forall i :: k < i < |q| - 1 ==> Changed(store, newPtrs, q, i)
  }

  /** What is listed in a directory, and in the changed ones below it, is what can be followed from there. */
  lemma {:induction false} ListedIs(store: Store, newPtrs: set<Ptr>, dir: Path, t: Tree, q: Path)
    requires DirAt(store, dir, t)
    ensures q in Listed(store, newPtrs, dir, t) <==>
      |q| > |dir| && q[..|dir|] == dir && Visible(store, newPtrs, q, |dir| - 1)
    decreases t
  {
    hide BlockDenotes, Visible;
    var k := |dir| - 1;
    if |q| > |dir| && q[..|dir|] == dir {
      assert q[k] == dir[k];
      DirKids(store, dir, t);
      var n := q[|dir|].name;
      if n in t.kids {
        UnderIs(store, newPtrs, dir, t, n, q);
        if q in Listed(store, newPtrs, dir, t) { ListedBelow(store, newPtrs, dir, t, q); }
      } else {
        if q in Listed(store, newPtrs, dir, t) { ListedBelow(store, newPtrs, dir, t, q); }
        if Visible(store, newPtrs, q, k) { FirstStep(store, newPtrs, q, k); }
      }
    } else if q in Listed(store, newPtrs, dir, t) {
      ListedBelow(store, newPtrs, dir, t, q);
    }
  }

  lemma FirstStep(store: Store, newPtrs: set<Ptr>, q: Path, k: nat)
    requires k + 1 < |q|
    ensures Visible(store, newPtrs, q, k) <==>
      Leads(store, q, k) && (k + 2 < |q| ==> Changed(store, newPtrs, q, k + 1) && Visible(store, newPtrs, q, k + 1))
  {
    hide Leads, Changed;
  }

  lemma {:induction false} UnderIs(store: Store, newPtrs: set<Ptr>, dir: Path, t: Tree, n: string, q: Path)
    requires DirAt(store, dir, t) && n in t.kids && |q| > |dir| && q[..|dir|] == dir && q[|dir|].name == n
    ensures q in ListedUnder(store, newPtrs, dir, t, n) <==> Visible(store, newPtrs, q, |dir| - 1)
    decreases t, 0
  {
    hide BlockDenotes, Visible, Listed;
    DirKids(store, dir, t);
    var k, e, child := |dir| - 1, store[LastPtr(dir)].kids[n], ChildAt(store, dir, n);
    assert q[k] == dir[k];
    FirstStep(store, newPtrs, q, k);
    if q[|dir|].ptr == e.ptr {
      assert q[..|child|] == child;
      if |q| == |child| {
        assert q == child;
      } else if e.typ.Dir? {
        ChildDir(store, dir, t, n);
        ListedIs(store, newPtrs, child, t.kids[n], q);
      }
    } else if q in ListedUnder(store, newPtrs, dir, t, n) && q != child {
      ChildDir(store, dir, t, n);
      ListedIs(store, newPtrs, child, t.kids[n], q);
    }
  }

  // The path starts at the root and can be followed from there, through changed directories only.
  ghost predicate Reachable(store: Store, newPtrs: set<Ptr>, root: PathNode, q: Path) {
    q != [] && q[0] == root && Visible(store, newPtrs, q, 0)
  }

  lemma {:induction false} RegionIs(store: Store, newPtrs: set<Ptr>, root: PathNode, t: Tree, q: Path)
    requires DirAt(store, [root], t)
    ensures q in Region(store, newPtrs, root, t) <==> Reachable(store, newPtrs, root, q)
  {
    hide DirAt, Listed;
    ListedIs(store, newPtrs, [root], t, q);
    if q != [] { assert q[..1] == [q[0]]; }
    if |q| == 1 { assert q == [q[0]]; }
  }

  // No pointer asked for is at the end of two such paths.
  ghost predicate UniqueFrom(store: Store, newPtrs: set<Ptr>, root: PathNode, ptrs: set<Ptr>) {
    forall q, r ::
      && Reachable(store, newPtrs, root, q) && Reachable(store, newPtrs, root, r)
      && LastPtr(q) == LastPtr(r) && LastPtr(q) in ptrs
      ==> q == r
  }

  lemma RegionUnique(store: Store, newPtrs: set<Ptr>, root: PathNode, t: Tree, ptrs: set<Ptr>)
    requires DirAt(store, [root], t) && UniqueFrom(store, newPtrs, root, ptrs)
    ensures Unique(ptrs, Region(store, newPtrs, root, t))
  {
    hide DirAt, Region, Reachable;
    var all := Region(store, newPtrs, root, t);
    forall q, r | q in all && r in all && q != [] && r != [] && LastPtr(q) == LastPtr(r) && LastPtr(q) in ptrs
      ensures q == r
    {
      RegionIs(store, newPtrs, root, t, q);
      RegionIs(store, newPtrs, root, t, r);
    }
  }

  lemma RegionFound(store: Store, newPtrs: set<Ptr>, root: PathNode, t: Tree, nodes: NodeMap)
    requires DirAt(store, [root], t)
    requires Sound(nodes, Region(store, newPtrs, root, t)) && Complete(nodes, Region(store, newPtrs, root, t))
    ensures forall p, q :: p in nodes ==>
      (nodes[p] == Some(q) <==> Reachable(store, newPtrs, root, q) && LastPtr(q) == p)
  {
    hide DirAt, Region, Visible;
    forall p, q | p in nodes
      ensures nodes[p] == Some(q) <==> Reachable(store, newPtrs, root, q) && LastPtr(q) == p
    {
      RegionIs(store, newPtrs, root, t, q);
    }
  }

  /** A pointer asked for is resolved to a path exactly if the path leads to it from the root, by name, and
      every directory on the way below the root changed, as long as no pointer asked for is at the end of two
      such paths: stopping early loses nothing. */
  method SearchForNodes(store: Store, newPtrs: set<Ptr>, ptrs: set<Ptr>, root: PathNode, ghost t: Tree)
    returns (nodes: NodeMap)
    requires DirAt(store, [root], t) && UniqueFrom(store, newPtrs, root, ptrs)
    ensures nodes.Keys == ptrs
    ensures forall p, q :: p in nodes ==>
      (nodes[p] == Some(q) <==> Reachable(store, newPtrs, root, q) && LastPtr(q) == p)
  {
    hide DirAt, Region, Reachable, UniqueFrom;
    RegionUnique(store, newPtrs, root, t, ptrs);
    nodes := SearchRegion(store, newPtrs, ptrs, root, t);
    RegionFound(store, newPtrs, root, t, nodes);
  }

  method SearchRegion(store: Store, newPtrs: set<Ptr>, ptrs: set<Ptr>, root: PathNode, ghost t: Tree)
    returns (nodes: NodeMap)
    requires DirAt(store, [root], t) && Unique(ptrs, Region(store, newPtrs, root, t))
    ensures nodes.Keys == ptrs
    ensures Sound(nodes, Region(store, newPtrs, root, t)) && Complete(nodes, Region(store, newPtrs, root, t))
  {
    hide Sound, Complete, Unique, Listed, DirAt;
    ghost var all := Region(store, newPtrs, root, t);
    var search := new Search(store, newPtrs, ptrs);
    Unsearched(ptrs, all);
    if |ptrs| == 0 {
      return search.nodeMap;
    }
    var numNodesFound := 0;
    assert search.nodeMap.Keys == ptrs;
    SeeOne(search.nodeMap, {}, all, [root]);
    assert {} + {[root]} == {[root]};
    if root.ptr in search.nodeMap {
      search.nodeMap := search.nodeMap[root.ptr := Some([root])];
      assert search.nodeMap.Keys == ptrs;
      numNodesFound := 1;
      if numNodesFound >= |search.nodeMap| {
        AllFound(search.nodeMap);
        FoundAll(search.nodeMap, {[root]}, all);
        return search.nodeMap;
      }
    }
    NotBelowItself(store, newPtrs, [root], t);
    var n := search.SearchInDir([root], numNodesFound, t, {[root]}, all);
    if search.Finished(all, numNodesFound + n) {
      FoundAll(search.nodeMap, all, all);
    }
    return search.nodeMap;
  }

  lemma Unsearched(ptrs: set<Ptr>, all: set<Path>)
    ensures var m: NodeMap := map p | p in ptrs :: None;
      && FoundIn(m) == {} && Sound(m, {}) && Complete(m, {})
      && (ptrs == {} ==> Sound(m, all) && Complete(m, all))
  {
  }

  // Once everything asked for is found, nothing asked for is left to be seen.
  lemma FoundAll(m: NodeMap, seen: set<Path>, all: set<Path>)
    requires FoundIn(m) == m.Keys && Sound(m, seen) && seen <= all && Unique(m.Keys, all)
    ensures Complete(m, all) && Sound(m, all)
  {
    forall q | q in all && q != [] && LastPtr(q) in m ensures m[LastPtr(q)] == Some(q) {
      assert LastPtr(q) in FoundIn(m);
    }
  }

  lemma DirKids(store: Store, dir: Path, t: Tree)
    requires DirAt(store, dir, t)
    ensures store[LastPtr(dir)].DirVal? && store[LastPtr(dir)].kids.Keys == t.kids.Keys
  {
  }

  lemma SoundMore(m: NodeMap, seen: set<Path>, all: set<Path>)
    requires Sound(m, seen) && seen <= all
    ensures Sound(m, all)
  {
  }

  lemma {:induction false} NotBelowItself(store: Store, newPtrs: set<Ptr>, dir: Path, t: Tree)
    requires DirAt(store, dir, t)
    ensures dir !in Listed(store, newPtrs, dir, t)
  {
    if dir in Listed(store, newPtrs, dir, t) { ListedBelow(store, newPtrs, dir, t, dir); }
  }

  // What is listed under the names in `done`.
  ghost function Under(store: Store, newPtrs: set<Ptr>, dir: Path, t: Tree, done: set<string>): set<Path>
    requires DirAt(store, dir, t) && done <= t.kids.Keys
  {
    set n, q | n in done && q in ListedUnder(store, newPtrs, dir, t, n) :: q
  }

  lemma {:induction false} NextUnder(store: Store, newPtrs: set<Ptr>, dir: Path, t: Tree, done: set<string>,
                                     name: string)
    requires DirAt(store, dir, t) && done <= t.kids.Keys && name in t.kids && name !in done
    ensures Under(store, newPtrs, dir, t, done + {name}) ==
      Under(store, newPtrs, dir, t, done) + ListedUnder(store, newPtrs, dir, t, name)
    ensures Under(store, newPtrs, dir, t, done) !! ListedUnder(store, newPtrs, dir, t, name)
    ensures ListedUnder(store, newPtrs, dir, t, name) <= Listed(store, newPtrs, dir, t)
  {
    forall q | q in Under(store, newPtrs, dir, t, done) ensures q !in ListedUnder(store, newPtrs, dir, t, name) {
      var n :| n in done && q in ListedUnder(store, newPtrs, dir, t, n);
      ListedUnderBelow(store, newPtrs, dir, t, n, q);
      if q in ListedUnder(store, newPtrs, dir, t, name) { ListedUnderBelow(store, newPtrs, dir, t, name, q); }
    }
  }

  lemma {:induction false} AllUnder(store: Store, newPtrs: set<Ptr>, dir: Path, t: Tree)
    requires DirAt(store, dir, t)
    ensures Under(store, newPtrs, dir, t, t.kids.Keys) == Listed(store, newPtrs, dir, t)
  {
  }
}
