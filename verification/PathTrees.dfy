/** The places conflict resolution has to write back: one tree made of the resolved paths and of the new
    files in the directories on them. */
module PathTrees {
  import opened Merkle
  import opened PathCopy
  import opened Pointers
  import opened SyncTrees

  // --- the folder as the changed directories and new files have it ------------------------------------

  predicate HasNew(view: View, files: Files, p: Ptr, n: string) {
    p in view && p in files && n in files[p]
  }

  function NewIn(view: View, files: Files, p: Ptr): set<string> {
    if p in view && p in files then files[p].Keys else {}
  }

  // The tree below an entry, where changed directories count instead of stored ones, and new contents
  // instead of a changed directory's files.
  ghost predicate Shows(store: Store, view: View, files: Files, e: Entry, t: Tree)
    decreases t, 0
  {
    match t
    case DirTree(kids) =>
      && e.typ.Dir? && HasDir(store, view, e.ptr)
      && kids.Keys == KidsAt(store, view, e.ptr).Keys + NewIn(view, files, e.ptr)
      && forall n :: n in kids ==> ShowsAs(store, view, files, e.ptr, n, kids[n])
    case _ => Denotes(store, e, t)
  }

  ghost predicate ShowsAs(store: Store, view: View, files: Files, p: Ptr, n: string, t: Tree)
    decreases t, 1
  {
    var kids := KidsAt(store, view, p);
    if HasNew(view, files, p, n) then
      IsFile(TypeOf(kids, n, File)) && t == FileTree(TypeOf(kids, n, File), files[p][n])
    else n in kids && Shows(store, view, files, kids[n], t)
  }

  // The path p leads through directories, as they are now, down from the entry e.
  ghost predicate Reaches(store: Store, view: View, e: Entry, p: Path)
    decreases |p|
  {
    && p != [] && IsDir(e, p[0].ptr) && HasDir(store, view, e.ptr)
    && (|p| > 1 ==>
      && p[1].name in KidsAt(store, view, e.ptr)
      && Reaches(store, view, KidsAt(store, view, e.ptr)[p[1].name], p[1..]))
  }

  function End(p: Path): Ptr
    requires p != []
  {
    p[|p| - 1].ptr
  }

  // No directory is reached under two names.
  ghost predicate UniqueNow(store: Store, view: View, e: Entry) {
    forall p: Path, q: Path :: Reaches(store, view, e, p) && Reaches(store, view, e, q) && End(p) == End(q) ==>
      p[1..] == q[1..]
  }

  // The pointers in `busy` are those of directories, and not those of files.
  ghost predicate Typed(store: Store, view: View, e: Entry, busy: set<Ptr>) {
    forall p: Path :: Reaches(store, view, e, p) ==> End(p) in busy && FilesApart(KidsAt(store, view, End(p)), busy)
  }

  ghost predicate FilesApart(kids: Kids, busy: set<Ptr>) {
    forall n :: n in kids && IsFile(kids[n].typ) ==> kids[n].ptr != 0 && kids[n].ptr !in busy
  }

  // q goes along the same names as p.
  ghost predicate OnWay(q: Path, p: Path) {
    0 < |q| <= |p| && forall i :: 0 < i < |q| ==> q[i].name == p[i].name
  }

  // Every directory that changed is on one of the paths, and each of them ends in one.
  ghost predicate Covered(store: Store, view: View, e: Entry, paths: seq<Path>) {
    && (forall p :: p in paths ==> Reaches(store, view, e, p) && End(p) in view)
    && forall q: Path :: Reaches(store, view, e, q) && End(q) in view ==> exists p :: p in paths && OnWay(q, p)
  }

  // --- making the tree ----------------------------------------------------------------------------------

  function WithFiles(children: map<string, Node>, kids: Kids, blocks: map<string, seq<int>>): map<string, Node> {
    map n | n in children.Keys + blocks.Keys ::
      if n in children then children[n] else Node(if n in kids then kids[n].ptr else 0, map[])
  }

  // The node with a path added below it, and nodes for the new files of each directory on the way.
  ghost function Inserted(node: Option<Node>, p: Path, view: View, files: Files): Node
    requires p != []
    decreases |p|
  {
    var here := if node.Some? then node.value else Node(p[0].ptr, map[]);
    var q := p[0].ptr;
    var children := if q in files && q in view then WithFiles(here.children, view[q], files[q]) else here.children;
    if |p| == 1 then Node(here.ptr, children)
    else
      var n := p[1].name;
      Node(here.ptr, children[n := Inserted(if n in children then Some(children[n]) else None, p[1..], view, files)])
  }

  method AddFiles(children: map<string, Node>, kids: Kids, blocks: map<string, seq<int>>) returns (r: map<string, Node>)
    ensures r == WithFiles(children, kids, blocks)
  {
    r := children;
    var names := blocks.Keys;
    while names != {}
      invariant names <= blocks.Keys && r == WithFiles(children, kids, blocks - names)
    {
      var n :| n in names;
      names := names - {n};
      if n !in r {
        r := r[n := Node(if n in kids then kids[n].ptr else 0, map[])];
      }
    }
    assert blocks - {} == blocks;
  }

  method AddPath(w: TreeWriter, node: Option<Node>, p: Path, files: Files) returns (r: Node)
    requires p != []
    ensures r == Inserted(node, p, w.View(), files)
    decreases |p|
  {
    var ptr, children := p[0].ptr, map[];
    if node.Some? {
      ptr, children := node.value.ptr, node.value.children;
    }
    if p[0].ptr in files && p[0].ptr in w.lbc {
      children := AddFiles(children, w.lbc[p[0].ptr].kids, files[p[0].ptr]);
    }
    if |p| > 1 {
      var n := p[1].name;
      var child := AddPath(w, if n in children then Some(children[n]) else None, p[1..], files);
      children := children[n := child];
    }
    r := Node(ptr, children);
  }

  // --- what the tree holds --------------------------------------------------------------------------------

  // The nodes are directories and new files of the folder as it is now.
  ghost predicate Sound(store: Store, view: View, files: Files, e: Entry, node: Node)
    decreases node, 1
  {
    && IsDir(e, node.ptr) && HasDir(store, view, node.ptr) && NewIn(view, files, node.ptr) <= node.children.Keys
    && (node.children == map[] ==> node.ptr in view)
    && forall n :: n in node.children ==> SoundKid(store, view, files, node, n)
  }

  ghost predicate SoundKid(store: Store, view: View, files: Files, node: Node, n: string)
    requires n in node.children
    decreases node, 0
  {
    var kids := KidsAt(store, view, node.ptr);
    if HasNew(view, files, node.ptr, n) then node.children[n] == Node(if n in kids then kids[n].ptr else 0, map[])
    else n in kids && Sound(store, view, files, kids[n], node.children[n])
  }

  // The node has nodes all the way along p.
  ghost predicate Has(node: Node, p: Path)
    decreases |p|
  {
    |p| > 1 ==> p[1].name in node.children && Has(node.children[p[1].name], p[1..])
  }

  lemma {:induction false} InsertedSound(store: Store, view: View, files: Files, e: Entry, t: Tree, node: Option<Node>,
                                         p: Path)
    requires Reaches(store, view, e, p) && End(p) in view && Shows(store, view, files, e, t)
    requires node.Some? ==> Sound(store, view, files, e, node.value)
    ensures Sound(store, view, files, e, Inserted(node, p, view, files))
    decreases |p|
  {
    var node' := Inserted(node, p, view, files);
    var kids := KidsAt(store, view, e.ptr);
    if |p| > 1 {
      var n := p[1].name;
      assert t.DirTree? && n in t.kids && ShowsAs(store, view, files, e.ptr, n, t.kids[n]);
      assert !HasNew(view, files, e.ptr, n);
      if node.Some? && n in node.value.children {
        assert SoundKid(store, view, files, node.value, n);
        InsertedSound(store, view, files, kids[n], t.kids[n], Some(node.value.children[n]), p[1..]);
      } else {
        InsertedSound(store, view, files, kids[n], t.kids[n], None, p[1..]);
      }
    }
    forall n | n in node'.children ensures SoundKid(store, view, files, node', n) {
      if node.Some? && n in node.value.children { assert SoundKid(store, view, files, node.value, n); }
    }
  }

  lemma {:induction false} InsertedHas(node: Option<Node>, p: Path, view: View, files: Files, q: Path)
    requires p != [] && ((node.Some? && Has(node.value, q)) || OnWay(q, p))
    ensures Has(Inserted(node, p, view, files), q)
    decreases |p|
  {
    if |p| > 1 && |q| > 1 && p[1].name == q[1].name {
      var n := p[1].name;
      var children := if node.Some? then node.value.children else map[];
      if n in children {
        InsertedHas(Some(children[n]), p[1..], view, files, q[1..]);
      } else if HasNew(view, files, p[0].ptr, n) {
        var kids := view[p[0].ptr];
        InsertedHas(Some(Node(if n in kids then kids[n].ptr else 0, map[])), p[1..], view, files, q[1..]);
      } else {
        InsertedHas(None, p[1..], view, files, q[1..]);
      }
    }
  }

  // --- what is to be written back --------------------------------------------------------------------------

  // The path q from below the entry n of p, with p in front.
  function Under(p: Ptr, n: string, q: Path): Path
    requires q != []
  {
    [PathNode(p, ""), PathNode(q[0].ptr, n)] + q[1..]
  }

  lemma ReachesUnder(store: Store, view: View, e: Entry, n: string, q: Path)
    requires e.typ.Dir? && HasDir(store, view, e.ptr) && n in KidsAt(store, view, e.ptr)
    requires Reaches(store, view, KidsAt(store, view, e.ptr)[n], q)
    ensures Reaches(store, view, e, Under(e.ptr, n, q)) && End(Under(e.ptr, n, q)) == End(q)
  {
    var p := Under(e.ptr, n, q);
    assert p[1..] == [PathNode(q[0].ptr, n)] + q[1..] && p[1..][1..] == q[1..];
  }

  lemma HasUnder(node: Node, p: Ptr, n: string, q: Path)
    requires q != [] && Has(node, Under(p, n, q))
    ensures n in node.children && Has(node.children[n], q)
  {
    var r := Under(p, n, q);
    assert r[1..] == [PathNode(q[0].ptr, n)] + q[1..] && r[1..][1..] == q[1..];
  }

  // Nothing below the entry has changed.
  ghost predicate Untouched(store: Store, view: View, e: Entry) {
    forall q: Path :: Reaches(store, view, e, q) ==> End(q) !in view
  }

  // Everything that changed below the entry is at the node.
  ghost predicate HasAll(store: Store, view: View, e: Entry, node: Node) {
    forall q: Path :: Reaches(store, view, e, q) && End(q) in view ==> Has(node, q)
  }

  lemma {:induction false} UntouchedDenotes(store: Store, view: View, files: Files, e: Entry, t: Tree)
    requires Shows(store, view, files, e, t) && Untouched(store, view, e)
    ensures Denotes(store, e, t)
    decreases t
  {
    if t.DirTree? {
      assert Reaches(store, view, e, [PathNode(e.ptr, "")]);
      var kids := KidsAt(store, view, e.ptr);
      forall n | n in t.kids ensures Denotes(store, kids[n], t.kids[n]) {
        assert ShowsAs(store, view, files, e.ptr, n, t.kids[n]);
        forall q: Path | Reaches(store, view, kids[n], q) ensures End(q) !in view {
          ReachesUnder(store, view, e, n, q);
        }
        UntouchedDenotes(store, view, files, kids[n], t.kids[n]);
      }
    }
  }

  // An entry without a node is stored already.
  lemma {:induction false} ElsewhereDenotes(store: Store, view: View, files: Files, e: Entry, t: Tree, node: Node,
                                            n: string)
    requires Shows(store, view, files, e, t) && Sound(store, view, files, e, node) && HasAll(store, view, e, node)
    requires t.DirTree? && n in KidsAt(store, view, e.ptr) && n !in node.children
    ensures n in t.kids && Denotes(store, KidsAt(store, view, e.ptr)[n], t.kids[n])
  {
    var kids := KidsAt(store, view, e.ptr);
    assert n in t.kids && ShowsAs(store, view, files, e.ptr, n, t.kids[n]);
    forall q: Path | Reaches(store, view, kids[n], q) ensures End(q) !in view {
      ReachesUnder(store, view, e, n, q);
      if End(q) in view { HasUnder(node, e.ptr, n, q); }
    }
    UntouchedDenotes(store, view, files, kids[n], t.kids[n]);
  }

  lemma {:induction false} Below(store: Store, view: View, busy: set<Ptr>, e: Entry, node: Node, n: string)
    requires e.typ.Dir? && HasDir(store, view, e.ptr) && n in KidsAt(store, view, e.ptr) && n in node.children
    requires HasAll(store, view, e, node) && Typed(store, view, e, busy)
    ensures HasAll(store, view, KidsAt(store, view, e.ptr)[n], node.children[n])
    ensures Typed(store, view, KidsAt(store, view, e.ptr)[n], busy)
  {
    hide FilesApart;
    var kid := KidsAt(store, view, e.ptr)[n];
    forall q: Path | Reaches(store, view, kid, q)
      ensures End(q) in busy && FilesApart(KidsAt(store, view, End(q)), busy)
      ensures End(q) in view ==> Has(node.children[n], q)
    {
      ReachesUnder(store, view, e, n, q);
      if End(q) in view { HasUnder(node, e.ptr, n, q); }
    }
  }

  lemma SoundHere(store: Store, view: View, files: Files, e: Entry, node: Node)
    requires Sound(store, view, files, e, node)
    ensures IsDir(e, node.ptr) && HasDir(store, view, e.ptr)
  {
  }

  /** What stands to be written back at the nodes is the folder as it is now. */
  lemma {:induction false} BuiltPending(store: Store, view: View, files: Files, busy: set<Ptr>, e: Entry, t: Tree,
                                        node: Node, parent: Ptr, name: string, typ: EntryType)
    requires Shows(store, view, files, e, t) && Sound(store, view, files, e, node) && HasAll(store, view, e, node)
    requires Typed(store, view, e, busy) && 0 !in busy && view.Keys <= busy
    ensures Pending(store, view, files, busy, parent, name, typ, node, t)
    decreases node
  {
    assert Reaches(store, view, e, [PathNode(e.ptr, "")]) && End([PathNode(e.ptr, "")]) == e.ptr;
    assert t.DirTree?;
    var kids := KidsAt(store, view, e.ptr);
    forall n | n in kids && n !in node.children ensures n in t.kids && Denotes(store, kids[n], t.kids[n]) {
      ElsewhereDenotes(store, view, files, e, t, node, n);
    }
    forall n | n in node.children
      ensures n in t.kids && Listed(kids, n, node.children[n].ptr, busy)
      ensures Pending(store, view, files, busy, e.ptr, n, TypeOf(kids, n, File), node.children[n], t.kids[n])
    {
      BuiltKid(store, view, files, busy, e, t, node, n);
      if !HasNew(view, files, e.ptr, n) {
        BuiltPending(store, view, files, busy, kids[n], t.kids[n], node.children[n], e.ptr, n, TypeOf(kids, n, File));
      }
    }
  }

  lemma {:induction false} BuiltKid(store: Store, view: View, files: Files, busy: set<Ptr>, e: Entry, t: Tree,
                                    node: Node, n: string)
    requires Shows(store, view, files, e, t) && Sound(store, view, files, e, node) && HasAll(store, view, e, node)
    requires Typed(store, view, e, busy) && 0 !in busy && view.Keys <= busy && n in node.children && t.DirTree?
    ensures n in t.kids && Listed(KidsAt(store, view, e.ptr), n, node.children[n].ptr, busy)
    ensures var kids := KidsAt(store, view, e.ptr);
      if HasNew(view, files, e.ptr, n) then
        Pending(store, view, files, busy, e.ptr, n, TypeOf(kids, n, File), node.children[n], t.kids[n])
      else
        && n in kids && Shows(store, view, files, kids[n], t.kids[n])
        && Sound(store, view, files, kids[n], node.children[n])
        && HasAll(store, view, kids[n], node.children[n]) && Typed(store, view, kids[n], busy)
  {
    var kids := KidsAt(store, view, e.ptr);
    assert SoundKid(store, view, files, node, n);
    assert n in t.kids && ShowsAs(store, view, files, e.ptr, n, t.kids[n]);
    assert Reaches(store, view, e, [PathNode(e.ptr, "")]) && End([PathNode(e.ptr, "")]) == e.ptr;
    if !HasNew(view, files, e.ptr, n) {
      Below(store, view, busy, e, node, n);
      SoundHere(store, view, files, kids[n], node.children[n]);
      assert Reaches(store, view, kids[n], [PathNode(kids[n].ptr, "")]);
    }
  }

  // --- no directory has two nodes -----------------------------------------------------------------------------

  lemma {:induction false} DirsReached(store: Store, view: View, files: Files, busy: set<Ptr>, e: Entry, t: Tree,
                                       node: Node, d: Ptr)
    returns (q: Path)
    requires Shows(store, view, files, e, t) && Sound(store, view, files, e, node) && HasAll(store, view, e, node)
    requires Typed(store, view, e, busy) && 0 !in busy && view.Keys <= busy && d in Dirs(node, busy)
    ensures Reaches(store, view, e, q) && End(q) == d
    decreases node
  {
    if d == node.ptr {
      q := [PathNode(e.ptr, "")];
    } else {
      var n :| n in node.children && d in Dirs(node.children[n], busy);
      var below := KidReached(store, view, files, busy, e, t, node, n, d);
      q := Under(e.ptr, n, below);
      ReachesUnder(store, view, e, n, below);
    }
  }

  lemma {:induction false} KidReached(store: Store, view: View, files: Files, busy: set<Ptr>, e: Entry, t: Tree,
                                      node: Node, n: string, d: Ptr) returns (q: Path)
    requires Shows(store, view, files, e, t) && Sound(store, view, files, e, node) && HasAll(store, view, e, node)
    requires Typed(store, view, e, busy) && 0 !in busy && view.Keys <= busy
    requires n in node.children && d in Dirs(node.children[n], busy)
    ensures n in KidsAt(store, view, e.ptr) && Reaches(store, view, KidsAt(store, view, e.ptr)[n], q) && End(q) == d
    decreases node, 0
  {
    BuiltKid(store, view, files, busy, e, t, node, n);
    assert SoundKid(store, view, files, node, n);
    var kids := KidsAt(store, view, e.ptr);
    q := DirsReached(store, view, files, busy, kids[n], t.kids[n], node.children[n], d);
  }

  lemma {:induction false} UniqueBelow(store: Store, view: View, e: Entry, n: string)
    requires UniqueNow(store, view, e) && e.typ.Dir? && HasDir(store, view, e.ptr) && n in KidsAt(store, view, e.ptr)
    ensures UniqueNow(store, view, KidsAt(store, view, e.ptr)[n])
  {
    var kid := KidsAt(store, view, e.ptr)[n];
    forall p: Path, q: Path | Reaches(store, view, kid, p) && Reaches(store, view, kid, q) && End(p) == End(q)
      ensures p[1..] == q[1..]
    {
      ReachesUnder(store, view, e, n, p);
      ReachesUnder(store, view, e, n, q);
      assert Under(e.ptr, n, p)[1..][1..] == p[1..] && Under(e.ptr, n, q)[1..][1..] == q[1..];
    }
  }

  /** No directory has two nodes. */
  lemma {:induction false} BuiltApart(store: Store, view: View, files: Files, busy: set<Ptr>, e: Entry, t: Tree,
                                      node: Node)
    requires Shows(store, view, files, e, t) && Sound(store, view, files, e, node) && HasAll(store, view, e, node)
    requires Typed(store, view, e, busy) && 0 !in busy && view.Keys <= busy && UniqueNow(store, view, e)
    ensures Apart(node, busy)
    decreases node
  {
    hide Shows, Typed, HasAll, Reaches, Dirs, UniqueNow;
    assert t.DirTree? by { DirHere(store, view, files, e, t, node); }
    forall n | n in node.children ensures Apart(node.children[n], busy) && node.ptr !in Dirs(node.children[n], busy) {
      BuiltKid(store, view, files, busy, e, t, node, n);
      if HasNew(view, files, e.ptr, n) {
        NoDirs(store, view, files, busy, e, t, node, n);
      } else {
        UniqueBelow(store, view, e, n);
        BuiltApart(store, view, files, busy, KidsAt(store, view, e.ptr)[n], t.kids[n], node.children[n]);
        if node.ptr in Dirs(node.children[n], busy) {
          var q := KidReached(store, view, files, busy, e, t, node, n, node.ptr);
          NotAbove(store, view, e, n, q);
        }
      }
    }
    forall n, m | n in node.children && m in node.children && n != m
      ensures Dirs(node.children[n], busy) !! Dirs(node.children[m], busy)
    {
      forall d | d in Dirs(node.children[n], busy) ensures d !in Dirs(node.children[m], busy) {
        if d in Dirs(node.children[m], busy) {
          var p := KidReached(store, view, files, busy, e, t, node, n, d);
          var q := KidReached(store, view, files, busy, e, t, node, m, d);
          NotBeside(store, view, e, n, p, m, q);
        }
      }
    }
  }

  lemma DirHere(store: Store, view: View, files: Files, e: Entry, t: Tree, node: Node)
    requires Shows(store, view, files, e, t) && Sound(store, view, files, e, node)
    ensures t.DirTree?
  {
  }

  lemma {:induction false} NoDirs(store: Store, view: View, files: Files, busy: set<Ptr>, e: Entry, t: Tree, node: Node,
                                  n: string)
    requires Shows(store, view, files, e, t) && Sound(store, view, files, e, node) && HasNew(view, files, e.ptr, n)
    requires Typed(store, view, e, busy) && 0 !in busy && n in node.children && t.DirTree?
    ensures Dirs(node.children[n], busy) == {} && node.children[n].children == map[]
  {
    assert SoundKid(store, view, files, node, n) && ShowsAs(store, view, files, e.ptr, n, t.kids[n]);
    assert Reaches(store, view, e, [PathNode(e.ptr, "")]) && End([PathNode(e.ptr, "")]) == e.ptr;
  }

  lemma {:induction false} NotAbove(store: Store, view: View, e: Entry, n: string, q: Path)
    requires UniqueNow(store, view, e) && e.typ.Dir? && HasDir(store, view, e.ptr) && n in KidsAt(store, view, e.ptr)
    requires Reaches(store, view, KidsAt(store, view, e.ptr)[n], q)
    ensures End(q) != e.ptr
  {
    var here := [PathNode(e.ptr, "")];
    assert Reaches(store, view, e, here) && End(here) == e.ptr && here[1..] == [];
    ReachesUnder(store, view, e, n, q);
    assert Under(e.ptr, n, q)[1..] != [];
  }

  lemma {:induction false} NotBeside(store: Store, view: View, e: Entry, n: string, p: Path, m: string, q: Path)
    requires UniqueNow(store, view, e) && e.typ.Dir? && HasDir(store, view, e.ptr) && n in KidsAt(store, view, e.ptr)
    requires m in KidsAt(store, view, e.ptr) && n != m
    requires Reaches(store, view, KidsAt(store, view, e.ptr)[n], p)
    requires Reaches(store, view, KidsAt(store, view, e.ptr)[m], q)
    ensures End(p) != End(q)
  {
    ReachesUnder(store, view, e, n, p);
    ReachesUnder(store, view, e, m, q);
    assert Under(e.ptr, n, p)[1..][0].name == n && Under(e.ptr, m, q)[1..][0].name == m;
  }

  // --- the whole write-back ---------------------------------------------------------------------------------------

  // The tree of all the paths, taken in any order.
  method BuildTree(w: TreeWriter, paths: seq<Path>, files: Files, ghost t: Tree) returns (root: Option<Node>)
    requires Shows(w.store, w.View(), files, w.root, t) && Covered(w.store, w.View(), w.root, paths)
    ensures root.Some? <==> paths != []
    ensures root.Some? ==>
      Sound(w.store, w.View(), files, w.root, root.value) && HasAll(w.store, w.View(), w.root, root.value)
  {
    hide Shows, Sound, Has, Reaches, OnWay, TreeWriter.View;
    root := None;
    var i := 0;
    while i < |paths|
      invariant 0 <= i <= |paths| && (root.Some? <==> i > 0)
      invariant root.Some? ==> Sound(w.store, w.View(), files, w.root, root.value)
      invariant forall q, k :: 0 <= k < i && OnWay(q, paths[k]) ==> Has(root.value, q)
    {
      var p, before := paths[i], root;
      assert p in paths;
      ReachesSome(w.store, w.View(), w.root, p);
      InsertedSound(w.store, w.View(), files, w.root, t, root, p);
      var node := AddPath(w, root, p, files);
      forall q, k | 0 <= k < i + 1 && OnWay(q, paths[k]) ensures Has(node, q) {
        InsertedHas(before, p, w.View(), files, q);
      }
      root, i := Some(node), i + 1;
    }
  }

  lemma ReachesSome(store: Store, view: View, e: Entry, p: Path)
    requires Reaches(store, view, e, p)
    ensures p != []
  {
  }

  /** Conflict resolution's write-back. If every directory that changed is on one of the resolved paths, the
      new root denotes the folder with all changed directories and new files in it, every new block is to
      be put, and every directory on the paths is given up exactly once. */
  method SyncBlocks(w: TreeWriter, paths: seq<Path>, files: Files, ghost busy: set<Ptr>, ghost t: Tree)
    returns (ok: bool, bps: seq<Ptr>, ghost L: seq<Ptr>)
    requires w.Valid() && w.root.typ.Dir? && w.lbc.Keys <= busy && 0 !in busy
    requires Shows(w.store, w.View(), files, w.root, t) && Covered(w.store, w.View(), w.root, paths)
    requires Typed(w.store, w.View(), w.root, busy) && UniqueNow(w.store, w.View(), w.root)
    modifies w, w.lbc.Values
    ensures ok && Denotes(w.store, w.root, t)
    ensures Grows(old(w.store), w.store) && forall p :: p in w.store ==> p in old(w.store) || p in bps
    ensures Unrefs(w.updates) == Unrefs(old(w.updates)) + L
    ensures forall p: Path, k :: p in paths && 0 <= k < |p| ==> multiset(L)[p[k].ptr] == 1
  {
    hide Shows, Sound, Denotes, Apart, Pending, Typed, UniqueNow, Covered, HasAll, TreeWriter.Valid, Dirs;
    var root := BuildTree(w, paths, files, t);
    if root == None {
      ok, bps, L := true, [], [];
      NothingChanged(w.store, w.View(), files, w.root, t);
      return;
    }
    ghost var store, view, e, node := w.store, w.View(), w.root, root.value;
    BuiltPending(store, view, files, busy, e, t, node, 0, "", Dir);
    BuiltApart(store, view, files, busy, e, t, node);
    SoundHere(store, view, files, e, node);
    forall p: Path, k | p in paths && 0 <= k < |p| ensures p[k].ptr in Dirs(node, busy) {
      PathDirs(store, view, files, busy, e, t, node, paths, p, k);
    }
    RootBusy(store, view, files, busy, e, node);
    ok, bps, L := SyncRoot(w, root.value, "", files, busy, t);
  }

  lemma NothingChanged(store: Store, view: View, files: Files, e: Entry, t: Tree)
    requires Shows(store, view, files, e, t) && Covered(store, view, e, [])
    ensures Denotes(store, e, t)
  {
    UntouchedDenotes(store, view, files, e, t);
  }

  lemma RootBusy(store: Store, view: View, files: Files, busy: set<Ptr>, e: Entry, node: Node)
    requires Sound(store, view, files, e, node) && Typed(store, view, e, busy)
    ensures node.ptr in busy && node.ptr == e.ptr
  {
    assert Reaches(store, view, e, [PathNode(e.ptr, "")]);
  }

  lemma PathDirs(store: Store, view: View, files: Files, busy: set<Ptr>, e: Entry, t: Tree, node: Node,
                 paths: seq<Path>, p: Path, k: nat)
    requires Shows(store, view, files, e, t) && Sound(store, view, files, e, node) && HasAll(store, view, e, node)
    requires Typed(store, view, e, busy) && Covered(store, view, e, paths) && p in paths && k < |p|
    ensures p[k].ptr in Dirs(node, busy)
  {
    HasDirs(store, view, files, busy, e, t, node, p, k);
  }

  lemma {:induction false} HasDirs(store: Store, view: View, files: Files, busy: set<Ptr>, e: Entry, t: Tree,
                                   node: Node, p: Path, k: nat)
    requires Shows(store, view, files, e, t) && Sound(store, view, files, e, node) && Has(node, p)
    requires Typed(store, view, e, busy) && Reaches(store, view, e, p) && k < |p|
    ensures p[k].ptr in Dirs(node, busy)
    decreases k
  {
    if k == 0 {
      RootBusy(store, view, files, busy, e, node);
    } else {
      var n, kids := p[1].name, KidsAt(store, view, e.ptr);
      assert t.DirTree? && n in t.kids && ShowsAs(store, view, files, e.ptr, n, t.kids[n]);
      assert SoundKid(store, view, files, node, n);
      TypedBelow(store, view, busy, e, n);
      HasDirs(store, view, files, busy, kids[n], t.kids[n], node.children[n], p[1..], k - 1);
    }
  }

  lemma {:induction false} TypedBelow(store: Store, view: View, busy: set<Ptr>, e: Entry, n: string)
    requires e.typ.Dir? && HasDir(store, view, e.ptr) && n in KidsAt(store, view, e.ptr) && Typed(store, view, e, busy)
    ensures Typed(store, view, KidsAt(store, view, e.ptr)[n], busy)
  {
    hide FilesApart;
    var kid := KidsAt(store, view, e.ptr)[n];
    forall q: Path | Reaches(store, view, kid, q)
      ensures End(q) in busy && FilesApart(KidsAt(store, view, End(q)), busy)
    {
      ReachesUnder(store, view, e, n, q);
    }
  }
}
