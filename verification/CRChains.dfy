/** The chains of conflict resolution: for every node touched by a stretch of history, what was
    done to it, under both its original and its current pointer. */
module CRChains {
  import opened ChainCollapse
  import opened ChainHistory
  import opened Pointers

  datatype Kind =
    | CreateOp(newName: string, dir: Update, what: int)
    | RmOp(oldName: string, dir: Update)
    | RenameOp(oldName: string, oldDir: Update, newName: string, newDir: Option<Update>, node: Ptr, what: int)
    | SyncOp(file: Update, tag: int)
    | SetAttrOp(dir: Update, target: Ptr, tag: int)
    | Neutral  // resolution, rekey and garbage collection

  // An operation with the pointer changes it caused. Pointer 0 is the uninitialized one.
  datatype MDOp = MDOp(kind: Kind, updates: seq<Update>, refs: set<Ptr>, unrefs: set<Ptr>)

  datatype RenameInfo = RenameInfo(oldParent: Ptr, oldName: string, newParent: Ptr, newName: string)

  function AllUpdates(op: MDOp): seq<Update> {
    op.updates +
    match op.kind
    case CreateOp(_, dir, _) => [dir]
    case RmOp(_, dir) => [dir]
    case RenameOp(_, oldDir, _, newDir, _, _) => if newDir.Some? then [newDir.value, oldDir] else [oldDir]
    case SyncOp(file, _) => [file]
    case SetAttrOp(dir, target, _) => [dir, Update(target, target)]
    case Neutral => []
  }

  // The chains as a value.
  datatype Chains = Chains(x: Index, ops: map<Ptr, seq<Op>>, created: set<Ptr>, deleted: set<Ptr>,
                           renamed: map<Ptr, RenameInfo>)

  const NONE := Chains(EMPTY, map[], {}, {}, map[])

  function Extend(c: Chains, u: Update): Chains {
    c.(x := AddUpdate(c.x, u), ops := if u.unref in c.x.recent then c.ops else c.ops[u.unref := []])
  }

  function ExtendAll(c: Chains, us: seq<Update>): Chains {
    if us == [] then c else Extend(ExtendAll(c, us[..|us| - 1]), us[|us| - 1])
  }

  // Puts an operation on the chain that ends at p, if there is one.
  function Put(c: Chains, p: Ptr, op: Op): Option<Chains> {
    if p in c.x.recent && c.x.recent[p] in c.ops
    then Some(c.(ops := c.ops[c.x.recent[p] := c.ops[c.x.recent[p]] + [op]])) else None
  }

  function PutAll(c: Chains, puts: seq<(Ptr, Op)>): Option<Chains> {
    if puts == [] then Some(c)
    else
      var d := PutAll(c, puts[..|puts| - 1]);
      if d == None then None else Put(d.value, puts[|puts| - 1].0, puts[|puts| - 1].1)
  }

  // The operations that go on chains, and on which: a rename is split into the removal of the old
  // name, of what it overwrites, and the creation of the new name.
  function Puts(op: MDOp): seq<(Ptr, Op)> {
    match op.kind
    case CreateOp(n, dir, what) => [(dir.ref, Create(n, false, what))]
    case RmOp(n, dir) => [(dir.ref, Rm(n))]
    case RenameOp(n, oldDir, m, newDir, _, what) =>
      var p := NewDirRef(op.kind);
      [(oldDir.ref, Rm(n))] + (if op.unrefs != {} then [(p, Rm(m))] else []) + [(p, Create(m, true, what))]
    case SyncOp(file, tag) => [(file.ref, Other(tag))]
    case SetAttrOp(_, target, tag) => [(target, Other(tag))]
    case Neutral => []
  }

  function NewDirRef(k: Kind): Ptr
    requires k.RenameOp?
  {
    if k.newDir.Some? then k.newDir.value.ref else k.oldDir.ref
  }

  // The first place the node was renamed from and the last it was renamed to.
  function Moved(c: Chains, op: MDOp): map<Ptr, RenameInfo> {
    if op.kind.RenameOp? && op.kind.node != 0 then
      var o, p, q := OriginOf(c.x, op.kind.node), OriginOf(c.x, op.kind.oldDir.ref), OriginOf(c.x, NewDirRef(op.kind));
      var first := if o in c.renamed then c.renamed[o] else RenameInfo(p, op.kind.oldName, q, op.kind.newName);
      c.renamed[o := first.(newParent := q, newName := op.kind.newName)]
    else c.renamed
  }

  // What the operation brought in, and the originals of what it dropped.
  function Blocks(c: Chains, op: MDOp): Chains {
    c.(created := c.created + op.refs, deleted := c.deleted + set p | p in op.unrefs :: OriginOf(c.x, p))
  }

  function MakeChain(c: Chains, op: MDOp): Option<Chains> {
    var c2 := Blocks(ExtendAll(c, AllUpdates(op)), op);
    var d := PutAll(c2, Puts(op));
    if d == None then None else Some(d.value.(renamed := Moved(c2, op)))
  }

  // --- the same, on objects -----------------------------------------------------------------------

  // The two indexes over chain objects, and the fields of those.
  datatype State = State(byOriginal: map<Ptr, CrChain>, byMostRecent: map<Ptr, CrChain>, originals: map<Ptr, Ptr>,
                         original: map<CrChain, Ptr>, mostRecent: map<CrChain, Ptr>, ops: map<CrChain, seq<Op>>)

  // Both indexes hold the same chains, each under its own pointer, and every current pointer that
  // is not an original one can be traced back.
  ghost predicate Ok(s: State) {
    && s.mostRecent.Keys == s.original.Keys && s.ops.Keys == s.original.Keys
    && (forall o :: o in s.byOriginal ==> OkOriginal(s, o)) && (forall p :: p in s.byMostRecent ==> OkMostRecent(s, p))
  }

  ghost predicate OkOriginal(s: State, o: Ptr)
    requires o in s.byOriginal
  {
    var c := s.byOriginal[o];
    && c in s.original && c in s.mostRecent && s.original[c] == o
    && s.mostRecent[c] in s.byMostRecent && s.byMostRecent[s.mostRecent[c]] == c
  }

  ghost predicate OkMostRecent(s: State, p: Ptr)
    requires p in s.byMostRecent
  {
    var c := s.byMostRecent[p];
    && c in s.original && c in s.mostRecent && s.mostRecent[c] == p && p != 0
    && s.original[c] in s.byOriginal && s.byOriginal[s.original[c]] == c
    && (s.original[c] != p ==> p in s.originals && s.originals[p] == s.original[c])
  }

  ghost function At(m: map<CrChain, Ptr>, c: CrChain): Ptr {
    if c in m then m[c] else 0
  }

  ghost function IndexOf(s: State): Index {
    Index(map o | o in s.byOriginal :: At(s.mostRecent, s.byOriginal[o]),
          map p | p in s.byMostRecent :: At(s.original, s.byMostRecent[p]),
          s.originals)
  }

  ghost function OpsOf(s: State): map<Ptr, seq<Op>> {
    map o | o in s.byOriginal :: if s.byOriginal[o] in s.ops then s.ops[s.byOriginal[o]] else []
  }

  // s with the chain that ends at u.unref moved on to u.ref.
  ghost function Advanced(s: State, u: Update): State
    requires u.unref in s.byMostRecent
  {
    var c := s.byMostRecent[u.unref];
    State(s.byOriginal, (s.byMostRecent - {u.unref})[u.ref := c],
          if At(s.original, c) == u.ref then s.originals else s.originals[u.ref := At(s.original, c)],
          s.original, s.mostRecent[c := u.ref], s.ops)
  }

  lemma Advance(s: State, u: Update)
    requires Ok(s) && u.ref != 0 && u.unref in s.byMostRecent && (u.ref == u.unref || u.ref !in s.byMostRecent)
    ensures Ok(Advanced(s, u)) && OpsOf(Advanced(s, u)) == OpsOf(s)
    ensures IndexOf(Advanced(s, u)) == AddUpdate(IndexOf(s), u)
  {
    hide IndexOf, OpsOf, AddUpdate;
    AdvanceOk(s, u);
    var c := s.byMostRecent[u.unref];
    assert OkMostRecent(s, u.unref);
    forall o | o in s.byOriginal ensures s.byOriginal[o] == c ==> o == s.original[c] {
      assert OkOriginal(s, o);
    }
    AdvanceIndex(s, c, u);
  }

  lemma AdvanceOk(s: State, u: Update)
    requires Ok(s) && u.ref != 0 && u.unref in s.byMostRecent && (u.ref == u.unref || u.ref !in s.byMostRecent)
    ensures Ok(Advanced(s, u))
  {
    var s' := Advanced(s, u);
    assert OkMostRecent(s, u.unref);
    forall o | o in s'.byOriginal ensures OkOriginal(s', o) {
      assert OkOriginal(s, o);
    }
    forall p | p in s'.byMostRecent ensures OkMostRecent(s', p) {
      if p != u.ref { assert OkMostRecent(s, p); }
    }
  }

  lemma AdvanceIndex(s: State, c: CrChain, u: Update)
    requires u.unref in s.byMostRecent && c == s.byMostRecent[u.unref] && c in s.original
    requires s.original[c] in s.byOriginal
    requires s.byOriginal[s.original[c]] == c
    requires forall o :: o in s.byOriginal ==> (s.byOriginal[o] == c ==> o == s.original[c])
    ensures OpsOf(Advanced(s, u)) == OpsOf(s) && IndexOf(Advanced(s, u)) == AddUpdate(IndexOf(s), u)
  {
    assert IndexOf(Advanced(s, u)).cur == AddUpdate(IndexOf(s), u).cur;
    assert IndexOf(Advanced(s, u)).recent == AddUpdate(IndexOf(s), u).recent;
  }

  // s with one more operation on the chain c.
  ghost function Appended(s: State, c: CrChain, op: Op): State
    requires c in s.ops
  {
    s.(ops := s.ops[c := s.ops[c] + [op]])
  }

  lemma Append(s: State, p: Ptr, op: Op)
    requires Ok(s) && p in s.byMostRecent
    ensures s.byMostRecent[p] in s.ops && Ok(Appended(s, s.byMostRecent[p], op))
    ensures IndexOf(Appended(s, s.byMostRecent[p], op)) == IndexOf(s)
    ensures IndexOf(s).recent[p] in OpsOf(s)
    ensures OpsOf(Appended(s, s.byMostRecent[p], op)) ==
      OpsOf(s)[IndexOf(s).recent[p] := OpsOf(s)[IndexOf(s).recent[p]] + [op]]
  {
    assert OkMostRecent(s, p);
    var c := s.byMostRecent[p];
    SetOps(s, s.original[c], s.ops[c] + [op]);
  }

  // s with the chain c started for the update u.
  ghost function Started(s: State, c: CrChain, u: Update): State {
    State(s.byOriginal[u.unref := c], s.byMostRecent[u.ref := c],
          if u.unref == u.ref then s.originals else s.originals[u.ref := u.unref],
          s.original[c := u.unref], s.mostRecent[c := u.ref], s.ops[c := []])
  }

  lemma Start(s: State, c: CrChain, u: Update)
    requires Ok(s) && u.ref != 0 && u.unref !in s.byMostRecent && u.unref !in s.byOriginal && u.ref !in s.byMostRecent
    requires c !in s.original
    ensures Ok(Started(s, c, u)) && OpsOf(Started(s, c, u)) == OpsOf(s)[u.unref := []]
    ensures IndexOf(Started(s, c, u)) == AddUpdate(IndexOf(s), u)
  {
    hide IndexOf, OpsOf, AddUpdate;
    StartOk(s, c, u);
    assert forall o :: o in s.byOriginal ==> s.byOriginal[o] != c by { AllKnown(s); }
    assert forall p :: p in s.byMostRecent ==> s.byMostRecent[p] != c by { AllKnown(s); }
    StartCur(s, c, u);
    StartOps(s, c, u);
    StartRecent(s, c, u);
    StartIndex(s, c, u);
  }

  lemma AllKnown(s: State)
    requires Ok(s)
    ensures forall o :: o in s.byOriginal ==> s.byOriginal[o] in s.original
    ensures forall p :: p in s.byMostRecent ==> s.byMostRecent[p] in s.original
  {
    forall o | o in s.byOriginal ensures s.byOriginal[o] in s.original { assert OkOriginal(s, o); }
    forall p | p in s.byMostRecent ensures s.byMostRecent[p] in s.original { assert OkMostRecent(s, p); }
  }

  lemma StartOk(s: State, c: CrChain, u: Update)
    requires Ok(s) && u.ref != 0 && u.unref !in s.byMostRecent && u.unref !in s.byOriginal && u.ref !in s.byMostRecent
    requires c !in s.original
    ensures Ok(Started(s, c, u))
  {
    var s' := Started(s, c, u);
    forall o | o in s'.byOriginal ensures OkOriginal(s', o) {
      if o != u.unref { assert OkOriginal(s, o); }
    }
    forall p | p in s'.byMostRecent ensures OkMostRecent(s', p) {
      if p != u.ref { assert OkMostRecent(s, p); }
    }
  }

  lemma StartCur(s: State, c: CrChain, u: Update)
    requires forall o :: o in s.byOriginal ==> s.byOriginal[o] != c
    ensures IndexOf(Started(s, c, u)).cur == IndexOf(s).cur[u.unref := u.ref]
  {
  }

  lemma StartOps(s: State, c: CrChain, u: Update)
    requires forall o :: o in s.byOriginal ==> s.byOriginal[o] != c
    ensures OpsOf(Started(s, c, u)) == OpsOf(s)[u.unref := []]
  {
    var m, m' := OpsOf(Started(s, c, u)), OpsOf(s)[u.unref := []];
    forall o | o in m ensures m[o] == m'[o] {
    }
  }

  lemma StartRecent(s: State, c: CrChain, u: Update)
    requires forall p :: p in s.byMostRecent ==> s.byMostRecent[p] != c
    ensures IndexOf(Started(s, c, u)).recent == IndexOf(s).recent[u.ref := u.unref]
  {
  }

  lemma StartIndex(s: State, c: CrChain, u: Update)
    requires u.unref !in s.byMostRecent
    requires IndexOf(Started(s, c, u)).cur == IndexOf(s).cur[u.unref := u.ref]
    requires IndexOf(Started(s, c, u)).recent == IndexOf(s).recent[u.ref := u.unref]
    ensures IndexOf(Started(s, c, u)) == AddUpdate(IndexOf(s), u)
  {
    assert IndexOf(s).recent - {u.unref} == IndexOf(s).recent;
  }

  ghost function Originals(objs: set<CrChain>): map<CrChain, Ptr>
    reads objs`original
  {
    map c | c in objs :: c.original
  }

  ghost function MostRecents(objs: set<CrChain>): map<CrChain, Ptr>
    reads objs`mostRecent
  {
    map c | c in objs :: c.mostRecent
  }

  ghost function Operations(objs: set<CrChain>): map<CrChain, seq<Op>>
    reads objs`ops
  {
    map c | c in objs :: c.ops
  }

  method SetMostRecent(chain: CrChain, p: Ptr, ghost objs: set<CrChain>)
    requires chain in objs
    modifies chain`mostRecent
    ensures chain.mostRecent == p && MostRecents(objs) == old(MostRecents(objs))[chain := p]
  {
    chain.mostRecent := p;
  }

  method AddToChain(chain: CrChain, op: Op, ghost objs: set<CrChain>)
    requires chain in objs
    modifies chain`ops
    ensures Operations(objs) == old(Operations(objs))[chain := old(chain.ops) + [op]]
  {
    chain.ops := chain.ops + [op];
  }

  method CollapseOne(chain: CrChain, ghost objs: set<CrChain>)
    requires chain in objs
    modifies chain`ops
    ensures Operations(objs) == old(Operations(objs))[chain := Collapsed(old(chain.ops))]
  {
    chain.Collapse();
  }

  lemma Fields(objs: set<CrChain>, c: CrChain)
    ensures Originals(objs).Keys == MostRecents(objs).Keys == Operations(objs).Keys == objs
    ensures c in objs ==>
      Originals(objs)[c] == c.original && MostRecents(objs)[c] == c.mostRecent && Operations(objs)[c] == c.ops
  {
  }

  lemma OneMore(objs: set<CrChain>, chain: CrChain)
    ensures Originals(objs + {chain}) == Originals(objs)[chain := chain.original]
    ensures MostRecents(objs + {chain}) == MostRecents(objs)[chain := chain.mostRecent]
    ensures Operations(objs + {chain}) == Operations(objs)[chain := chain.ops]
  {
  }

  class CrChains {
    var byOriginal: map<Ptr, CrChain>
    var byMostRecent: map<Ptr, CrChain>
    var originals: map<Ptr, Ptr>
    var created: set<Ptr>
    var deleted: set<Ptr>
    var renamed: map<Ptr, RenameInfo>
    var originalRoot: Ptr
    ghost var objs: set<CrChain>

    ghost function St(): State
      reads this, objs
    {
      State(byOriginal, byMostRecent, originals, Originals(objs), MostRecents(objs), Operations(objs))
    }

    ghost function Abs(): Chains
      reads this, objs
    {
      Chains(IndexOf(St()), OpsOf(St()), created, deleted, renamed)
    }

    constructor ()
      ensures Ok(St()) && Abs() == NONE && objs == {} && originalRoot == 0
    {
      byOriginal, byMostRecent, originals, created, deleted, renamed := map[], map[], map[], {}, {}, map[];
      originalRoot := 0;
      objs := {};
    }

    method Shift(u: Update)
      requires Ok(St()) && u.unref in byMostRecent
      modifies this`byMostRecent, this`originals, objs`mostRecent
      ensures St() == Advanced(old(St()), u)
    {
      hide Ok, At, Originals, MostRecents, Operations;
      ChainAt(St(), u.unref);
      Fields(objs, byMostRecent[u.unref]);
      var chain := byMostRecent[u.unref];
      Lookup(Originals(objs), chain);
      byMostRecent := (byMostRecent - {chain.mostRecent})[u.ref := chain];
      SetMostRecent(chain, u.ref, objs);
      originals := if chain.original != u.ref then originals[u.ref := chain.original] else originals;
    }

    method AdvanceChain(u: Update)
      requires Ok(St()) && u.ref != 0 && u.unref in byMostRecent && (u.ref == u.unref || u.ref !in byMostRecent)
      modifies this`byMostRecent, this`originals, objs`mostRecent
      ensures Ok(St()) && Abs() == Extend(old(Abs()), u)
    {
      hide Ok, IndexOf, OpsOf, AddUpdate, CrChains.St, Advanced;
      assert u.unref in St().byMostRecent && u.unref in Abs().x.recent by { Unfold(); Keys(St()); }
      Advance(St(), u) by { Unfold(); }
      Shift(u);
    }

    lemma Unfold()
      ensures St().byOriginal == byOriginal && St().byMostRecent == byMostRecent && St().original == Originals(objs)
    {
      hide Originals, MostRecents, Operations;
    }

    method Open(u: Update) returns (ghost chain: CrChain)
      modifies this`byOriginal, this`byMostRecent, this`originals, this`objs
      ensures fresh(chain) && fresh(objs - old(objs)) && St() == Started(old(St()), chain, u)
    {
      hide Originals, MostRecents, Operations;
      var c := new CrChain(u.unref, u.ref);
      chain := c;
      OneMore(objs, c);
      byOriginal, byMostRecent := byOriginal[u.unref := c], byMostRecent[u.ref := c];
      originals := if c.original != u.ref then originals[u.ref := c.original] else originals;
      objs := objs + {c};
    }

    method StartChain(u: Update)
      requires Ok(St()) && u.ref != 0 && u.unref !in byMostRecent && u.unref !in byOriginal && u.ref !in byMostRecent
      modifies this`byOriginal, this`byMostRecent, this`originals, this`objs
      ensures Ok(St()) && Abs() == Extend(old(Abs()), u) && fresh(objs - old(objs))
    {
      hide Ok, IndexOf, OpsOf, AddUpdate, CrChains.St, Started;
      ghost var s := St();
      assert u.unref !in Abs().x.recent by { Unfold(); Keys(s); }
      Unfold();
      ghost var chain := Open(u);
      Start(s, chain, u);
    }

    // Moves the chain that ends at u.unref on to u.ref, starting one if there is none.
    method ApplyUpdate(u: Update)
      requires Ok(St()) && Fresh(Abs().x, u)
      modifies this`byOriginal, this`byMostRecent, this`originals, this`objs, objs`mostRecent
      ensures Ok(St()) && Abs() == Extend(old(Abs()), u) && fresh(objs - old(objs))
    {
      hide Ok, OpsOf, AddUpdate;
      if u.unref in byMostRecent {
        AdvanceChain(u);
      } else {
        StartChain(u);
      }
    }

    method AddOp(p: Ptr, op: Op) returns (ok: bool)
      requires Ok(St())
      modifies objs`ops
      ensures Ok(St()) && ok == Put(old(Abs()), p, op).Some? && (ok ==> Abs() == Put(old(Abs()), p, op).value)
      ensures !ok ==> Abs() == old(Abs())
    {
      hide Ok, IndexOf, OpsOf, At, Originals, MostRecents, Operations;
      Keys(St());
      ok := p in byMostRecent;
      if ok {
        Append(St(), p, op);
        Fields(objs, byMostRecent[p]);
        AddToChain(byMostRecent[p], op, objs);
      }
    }

    method AddOps(puts: seq<(Ptr, Op)>) returns (ok: bool)
      requires Ok(St())
      modifies objs`ops
      ensures Ok(St()) && ok == PutAll(old(Abs()), puts).Some? && (ok ==> Abs() == PutAll(old(Abs()), puts).value)
    {
      hide Ok, IndexOf, OpsOf, Put;
      var i := 0;
      while i < |puts|
        invariant i <= |puts| && Ok(St()) && PutAll(old(Abs()), puts[..i]) == Some(Abs())
      {
        assert puts[..i + 1][..i] == puts[..i];
        ok := AddOp(puts[i].0, puts[i].1);
        if !ok {
          PutFails(old(Abs()), puts, i);
          return;
        }
        i := i + 1;
      }
      ok := true;
      assert puts[..i] == puts;
    }

    method ApplyUpdates(us: seq<Update>)
      requires Ok(St()) && AllFresh(Abs().x, us)
      modifies this`byOriginal, this`byMostRecent, this`originals, this`objs, objs`mostRecent
      ensures Ok(St()) && Abs() == ExtendAll(old(Abs()), us) && fresh(objs - old(objs))
    {
      hide Ok, IndexOf, OpsOf, Extend, Fresh;
      for i := 0 to |us|
        invariant Ok(St()) && Abs() == ExtendAll(old(Abs()), us[..i]) && fresh(objs - old(objs))
      {
        assert us[..i + 1][..i] == us[..i];
        assert Abs().x == AddUpdates(old(Abs()).x, us[..i]) by { ExtendIndex(old(Abs()), us[..i]); }
        ApplyUpdate(us[i]);
      }
      assert us[..|us|] == us;
    }

    /** Takes one operation into the chains. It fails exactly when the operation names a directory
        or file that no chain ends at once its updates are made. */
    method MakeChainForOp(op: MDOp) returns (ok: bool)
      requires Ok(St()) && AllFresh(Abs().x, AllUpdates(op))
      modifies this, objs`mostRecent, objs`ops
      ensures Ok(St()) && fresh(objs - old(objs)) && originalRoot == old(originalRoot)
      ensures ok == MakeChain(old(Abs()), op).Some?
      ensures ok ==> Abs() == MakeChain(old(Abs()), op).value
    {
      hide Ok, OpsOf, IndexOf, AllUpdates, Puts, ExtendAll, PutAll, AllFresh, Moved, OriginOf, Originals, MostRecents,
        Operations;
      ApplyUpdates(AllUpdates(op));
      TrackBlocks(op);
      ghost var c := Abs();
      ok := AddOps(Puts(op));
      if ok {
        PutsKeep(c, Puts(op));
        MovedKeep(c, Abs(), op);
        TrackRename(op);
      }
    }

    method TrackBlocks(op: MDOp)
      requires Ok(St())
      modifies this`created, this`deleted
      ensures Ok(St()) && Abs() == Blocks(old(Abs()), op)
    {
      hide Ok, OpsOf;
      Tracing(St());
      created := created + op.refs;
      deleted := deleted + set p | p in op.unrefs :: if p in byMostRecent then byMostRecent[p].original else p;
      assert deleted == Blocks(old(Abs()), op).deleted;
    }

    method TrackRename(op: MDOp)
      requires Ok(St())
      modifies this`renamed
      ensures Ok(St()) && Abs() == old(Abs()).(renamed := Moved(old(Abs()), op))
    {
      hide Ok, OpsOf;
      Tracing(St());
      if op.kind.RenameOp? && op.kind.node != 0 {
        var o := if op.kind.node in byMostRecent then byMostRecent[op.kind.node].original else op.kind.node;
        var p := if op.kind.oldDir.ref in byMostRecent then byMostRecent[op.kind.oldDir.ref].original
          else op.kind.oldDir.ref;
        var q := if NewDirRef(op.kind) in byMostRecent then byMostRecent[NewDirRef(op.kind)].original
          else NewDirRef(op.kind);
        var ri := if o in renamed then renamed[o] else RenameInfo(p, op.kind.oldName, q, op.kind.newName);
        renamed := renamed[o := ri.(newParent := q, newName := op.kind.newName)];
      }
    }

    // The original of the root, if a chain ends at it.
    method FindRoot(root: Ptr)
      requires Ok(St())
      modifies this`originalRoot
      ensures Ok(St()) && Abs() == old(Abs())
      ensures originalRoot == if root in Abs().x.recent then Abs().x.recent[root] else old(originalRoot)
    {
      hide Ok, OpsOf;
      Tracing(St());
      if root in byMostRecent {
        originalRoot := byMostRecent[root].original;
      }
    }

    method CollapseChain(o: Ptr)
      requires Ok(St()) && o in byOriginal
      modifies objs`ops
      ensures o in old(Abs()).ops && Ok(St())
      ensures Abs() == old(Abs()).(ops := old(Abs()).ops[o := Collapsed(old(Abs()).ops[o])])
    {
      hide Ok, IndexOf, OpsOf, Originals, MostRecents, Operations, Collapsed;
      OpsKeys(St());
      ghost var next := Collapsed(byOriginal[o].ops);
      SetOps(St(), o, next);
      Fields(objs, byOriginal[o]);
      CollapseOne(byOriginal[o], objs);
    }

    // Collapses every chain, in any order.
    method CollapseAll()
      requires Ok(St())
      modifies objs`ops
      ensures Ok(St()) && Abs() == old(Abs()).(ops := map o | o in old(Abs()).ops :: Collapsed(old(Abs()).ops[o]))
    {
      hide Ok, St, IndexOf, OpsOf, Collapsed;
      var rest := byOriginal.Keys;
      ghost var start := Abs();
      assert start.ops.Keys == byOriginal.Keys by { KeysOfOps(); }
      while rest != {}
        invariant Ok(St()) && rest <= byOriginal.Keys && Abs() == start.(ops := Abs().ops)
        invariant Abs().ops.Keys == start.ops.Keys
        invariant forall o :: o in start.ops ==>
          Abs().ops[o] == if o in rest then start.ops[o] else Collapsed(start.ops[o])
      {
        var o :| o in rest;
        rest := rest - {o};
        CollapseChain(o);
      }
      assert Abs().ops == map o | o in start.ops :: Collapsed(start.ops[o]);
    }

    lemma KeysOfOps()
      ensures Abs().ops.Keys == byOriginal.Keys
    {
    }

    method SetOriginal(chain: CrChain, was: Ptr, now: Ptr)
      requires chain in objs
      modifies chain`original, chain`mostRecent
      ensures chain.original == now
      ensures chain.mostRecent == (if old(chain.mostRecent) == was then now else old(chain.mostRecent))
      ensures Originals(objs) == old(Originals(objs))[chain := now]
      ensures MostRecents(objs) ==
        if old(chain.mostRecent) == was then old(MostRecents(objs))[chain := now] else old(MostRecents(objs))
    {
      chain.original := now;
      if chain.mostRecent == was {
        chain.mostRecent := now;
      }
    }

    method Rebase(was: Ptr, now: Ptr)
      requires Ok(St()) && was in byOriginal
      modifies this`byOriginal, this`byMostRecent, this`originals, objs`original, objs`mostRecent
      ensures St() == Rebased(old(St()), was, now)
    {
      hide Ok, Originals, MostRecents, Operations, At;
      Found(St(), was);
      Fields(objs, byOriginal[was]);
      var chain := byOriginal[was];
      Lookup(MostRecents(objs), chain);
      byOriginal, originals := (byOriginal - {was})[now := chain], originals[was := now];
      if chain.mostRecent == was {
        byMostRecent := (byMostRecent - {was})[now := chain];
      }
      SetOriginal(chain, was, now);
    }

    /** Gives a chain another original. Afterwards the indexes still agree, and every traced pointer still
        leads to a chain, exactly under conditions that can be told before. */
    method ChangeOriginal(was: Ptr, now: Ptr) returns (ok: bool)
      requires Ok(St()) && now != 0
      modifies this, objs`original, objs`mostRecent
      ensures ok == (was in old(byOriginal) && now !in old(byOriginal))
      ensures !ok ==> unchanged(this) && unchanged(old(objs))
      ensures ok ==> St() == Rebased(old(St()), was, now) && (Ok(St()) <==> CanRebase(old(St()), was, now))
      ensures ok ==>
        && deleted == Swap(old(deleted), was, now) && created == Swap(old(created), was, now)
        && renamed == if was in old(renamed) then (old(renamed) - {was})[now := old(renamed)[was]] else old(renamed)
      ensures ok && old(Traced(byOriginal, originals)) ==>
        (Traced(byOriginal, originals) <==> forall q :: q in old(originals) && q != was ==> old(originals)[q] != was)
    {
      hide Traced, Ok, Originals, MostRecents, Operations, At, CanRebase;
      ok := was in byOriginal && now !in byOriginal;
      if ok {
        Retraced(byOriginal, originals, was, now);
        RebaseOk(St(), was, now);
        Rebase(was, now);
        deleted, created := Swap(deleted, was, now), Swap(created, was, now);
        if was in renamed {
          renamed := (renamed - {was})[now := renamed[was]];
        }
      }
    }
  }

  // s with the chain of original `was` given the original `now`.
  ghost function Rebased(s: State, was: Ptr, now: Ptr): State
    requires was in s.byOriginal
  {
    var c := s.byOriginal[was];
    var moved := At(s.mostRecent, c) == was;
    State((s.byOriginal - {was})[now := c], if moved then (s.byMostRecent - {was})[now := c] else s.byMostRecent,
          s.originals[was := now], s.original[c := now], if moved then s.mostRecent[c := now] else s.mostRecent, s.ops)
  }

  // The chain has only its old original and no chain ends at the new one; or it ends at the new one, and
  // no other chain at the old one.
  ghost predicate CanRebase(s: State, was: Ptr, now: Ptr)
    requires was in s.byOriginal
  {
    if At(s.mostRecent, s.byOriginal[was]) == was then now !in s.byMostRecent
    else At(s.mostRecent, s.byOriginal[was]) == now && was !in s.byMostRecent
  }

  lemma RebaseOk(s: State, was: Ptr, now: Ptr)
    requires Ok(s) && was in s.byOriginal && now !in s.byOriginal && now != 0
    ensures Ok(Rebased(s, was, now)) <==> CanRebase(s, was, now)
  {
    hide Ok;
    Found(s, was);
    if CanRebase(s, was, now) { RebaseKeeps(s, was, now); } else { RebaseBreaks(s, was, now); }
  }

  lemma RebaseKeeps(s: State, was: Ptr, now: Ptr)
    requires Ok(s) && was in s.byOriginal && now !in s.byOriginal && now != 0 && CanRebase(s, was, now)
    ensures Ok(Rebased(s, was, now))
  {
    var s', c := Rebased(s, was, now), s.byOriginal[was];
    assert OkOriginal(s, was);
    forall o | o in s'.byOriginal ensures OkOriginal(s', o) {
      if o != now { assert OkOriginal(s, o); }
    }
    forall p | p in s'.byMostRecent ensures OkMostRecent(s', p) {
      if s'.byMostRecent[p] != c { assert OkMostRecent(s, p); }
      else if p in s.byMostRecent { assert OkMostRecent(s, p); }
    }
  }

  lemma RebaseBreaks(s: State, was: Ptr, now: Ptr)
    requires Ok(s) && was in s.byOriginal && now !in s.byOriginal && now != 0 && !CanRebase(s, was, now)
    ensures !Ok(Rebased(s, was, now))
  {
    var s', c := Rebased(s, was, now), s.byOriginal[was];
    assert OkOriginal(s, was);
    var end := s.mostRecent[c];
    if end == was {
      assert OkMostRecent(s, now);
      assert !OkOriginal(s', s.original[s.byMostRecent[now]]);
    } else if end != now {
      assert OkMostRecent(s, end);
      assert !OkMostRecent(s', end);
    } else {
      assert OkMostRecent(s, was);
      assert !OkMostRecent(s', was);
    }
  }

  lemma Found(s: State, o: Ptr)
    requires Ok(s) && o in s.byOriginal
    ensures s.byOriginal[o] in s.original
  {
    assert OkOriginal(s, o);
  }

  function Swap(s: set<Ptr>, was: Ptr, now: Ptr): set<Ptr> {
    if was in s then s - {was} + {now} else s
  }

  lemma Retraced(byOriginal: map<Ptr, CrChain>, originals: map<Ptr, Ptr>, was: Ptr, now: Ptr)
    requires was in byOriginal && now !in byOriginal
    ensures Traced(byOriginal, originals) ==>
      (Traced((byOriginal - {was})[now := byOriginal[was]], originals[was := now]) <==>
        forall q :: q in originals && q != was ==> originals[q] != was)
  {
    var b, m := (byOriginal - {was})[now := byOriginal[was]], originals[was := now];
    if Traced(byOriginal, originals) {
      if Traced(b, m) {
        forall q | q in originals && q != was ensures originals[q] != was {
          assert q in m;
        }
      }
    }
  }

  /** A node's pointer was replaced twice when its chain is given another original: the pointers in between
      are traced back to nothing, and the indexes do not agree any more. */
  method ChangeOriginalBreaks() returns (ccs: CrChains)
    ensures fresh(ccs) && !Ok(ccs.St()) && !Traced(ccs.byOriginal, ccs.originals)
  {
    hide Ok, Originals, MostRecents, Operations, Traced, IndexOf, OpsOf, At, ExtendAll, AllFresh, Rebased;
    ccs := new CrChains();
    var us := [Update(1, 2), Update(2, 3)];
    ReplacedTwice(us);
    ccs.ApplyUpdates(us);
    ghost var s := ccs.St();
    Keys(s);
    IndexAt(s, 1);
    TracedAll(ccs.byOriginal, ccs.originals);
    var ok := ccs.ChangeOriginal(1, 9);
    assert 2 in s.originals && s.originals[2] == 1;
  }

  lemma ReplacedTwice(us: seq<Update>)
    requires us == [Update(1, 2), Update(2, 3)]
    ensures ExtendAll(NONE, us).x == Index(map[1 := 3], map[3 := 1], map[2 := 1, 3 := 1]) && AllFresh(EMPTY, us)
  {
    assert us[..0] == [] && us[..1] == [Update(1, 2)] && us[..1][..0] == [];
    ExtendIndex(NONE, us);
    assert AddUpdates(EMPTY, us[..1]) == Index(map[1 := 2], map[2 := 1], map[2 := 1]);
  }

  lemma IndexAt(s: State, o: Ptr)
    requires o in s.byOriginal
    ensures IndexOf(s).cur[o] == At(s.mostRecent, s.byOriginal[o]) && IndexOf(s).originals == s.originals
  {
  }

  lemma TracedAll(byOriginal: map<Ptr, CrChain>, originals: map<Ptr, Ptr>)
    ensures (forall q :: q in originals ==> originals[q] in byOriginal) ==> Traced(byOriginal, originals)
  {
  }

  // Every pointer that is traced back leads to a chain.
  ghost predicate Traced(byOriginal: map<Ptr, CrChain>, originals: map<Ptr, Ptr>) {
    forall q :: q in originals ==> originals[q] in byOriginal
  }

  // An update whose old pointer is current or unknown and whose new one is not in use.
  ghost predicate Fresh(x: Index, u: Update) {
    u.ref != 0 && (u.unref in x.recent || u.unref !in x.cur) && (u.ref == u.unref || u.ref !in x.recent)
  }

  lemma Keys(s: State)
    ensures IndexOf(s).recent.Keys == s.byMostRecent.Keys && IndexOf(s).cur.Keys == s.byOriginal.Keys
  {
  }

  lemma Lookup(m: map<CrChain, Ptr>, c: CrChain)
    ensures c in m ==> At(m, c) == m[c]
  {
  }

  lemma ChainAt(s: State, p: Ptr)
    requires Ok(s) && p in s.byMostRecent
    ensures s.byMostRecent[p] in s.mostRecent && s.mostRecent[s.byMostRecent[p]] == p
  {
    assert OkMostRecent(s, p);
  }

  ghost predicate AllFresh(x: Index, us: seq<Update>) {
    forall k :: 0 <= k < |us| ==> Fresh(AddUpdates(x, us[..k]), us[k])
  }

  lemma {:induction false} ExtendIndex(c: Chains, us: seq<Update>)
    ensures ExtendAll(c, us).x == AddUpdates(c.x, us)
    ensures ExtendAll(c, us).created == c.created && ExtendAll(c, us).deleted == c.deleted
    ensures ExtendAll(c, us).renamed == c.renamed
  {
    if us != [] { ExtendIndex(c, us[..|us| - 1]); }
  }

  lemma {:induction false} PutFails(c: Chains, puts: seq<(Ptr, Op)>, i: nat)
    requires i < |puts| && PutAll(c, puts[..i + 1]) == None
    ensures PutAll(c, puts) == None
    decreases |puts|
  {
    if i + 1 == |puts| {
      assert puts[..i + 1] == puts;
    } else {
      assert puts[..|puts| - 1][..i + 1] == puts[..i + 1];
      PutFails(c, puts[..|puts| - 1], i);
    }
  }

  lemma Tracing(s: State)
    requires Ok(s)
    ensures IndexOf(s).recent.Keys == s.byMostRecent.Keys
    ensures forall p :: p in s.byMostRecent ==>
      s.byMostRecent[p] in s.original && IndexOf(s).recent[p] == s.original[s.byMostRecent[p]]
  {
    forall p | p in s.byMostRecent ensures s.byMostRecent[p] in s.original { assert OkMostRecent(s, p); }
  }

  lemma {:induction false} PutsKeep(c: Chains, puts: seq<(Ptr, Op)>)
    requires PutAll(c, puts).Some?
    ensures var d := PutAll(c, puts).value; d == c.(ops := d.ops)
  {
    if puts != [] { PutsKeep(c, puts[..|puts| - 1]); }
  }

  lemma MovedKeep(c: Chains, d: Chains, op: MDOp)
    requires d.x == c.x && d.renamed == c.renamed
    ensures Moved(d, op) == Moved(c, op)
  {
  }

  // --- a whole history ------------------------------------------------------------------------------

  function MakeAll(c: Chains, h: seq<MDOp>): Option<Chains> {
    if h == [] then Some(c)
    else
      var d := MakeAll(c, h[..|h| - 1]);
      if d == None then None else MakeChain(d.value, h[|h| - 1])
  }

  function HistoryUpdates(h: seq<MDOp>): seq<Update> {
    if h == [] then [] else HistoryUpdates(h[..|h| - 1]) + AllUpdates(h[|h| - 1])
  }

  ghost predicate Initialized(us: seq<Update>) {
    forall u :: u in us ==> u.ref != 0
  }

  lemma {:induction false} AddMore(x: Index, us: seq<Update>, vs: seq<Update>)
    ensures AddUpdates(AddUpdates(x, us), vs) == AddUpdates(x, us + vs)
    decreases |vs|
  {
    if vs == [] {
      assert us + vs == us;
    } else {
      AddMore(x, us, vs[..|vs| - 1]);
      assert (us + vs)[..|us + vs| - 1] == us + vs[..|vs| - 1];
    }
  }

  lemma {:induction false} LinearPrefix(us: seq<Update>, k: nat)
    requires Linear(us) && k <= |us|
    ensures Linear(us[..k])
    decreases |us|
  {
    if k < |us| {
      LinearPrefix(us[..|us| - 1], k);
      assert us[..|us| - 1][..k] == us[..k];
    } else {
      assert us[..k] == us;
    }
  }

  lemma {:induction false} MadeIndex(h: seq<MDOp>)
    requires MakeAll(NONE, h).Some?
    ensures MakeAll(NONE, h).value.x == AddUpdates(EMPTY, HistoryUpdates(h))
  {
    if h != [] {
      var c := MakeAll(NONE, h[..|h| - 1]).value;
      MadeIndex(h[..|h| - 1]);
      ExtendIndex(c, AllUpdates(h[|h| - 1]));
      AddMore(EMPTY, HistoryUpdates(h[..|h| - 1]), AllUpdates(h[|h| - 1]));
      PutsKeep(Blocks(ExtendAll(c, AllUpdates(h[|h| - 1])), h[|h| - 1]), Puts(h[|h| - 1]));
    }
  }

  lemma {:induction false} HistoryPrefix(h: seq<MDOp>, k: nat)
    requires k <= |h|
    ensures |HistoryUpdates(h[..k])| <= |HistoryUpdates(h)|
    ensures HistoryUpdates(h)[..|HistoryUpdates(h[..k])|] == HistoryUpdates(h[..k])
    decreases |h|
  {
    if k < |h| {
      HistoryPrefix(h[..|h| - 1], k);
      assert h[..|h| - 1][..k] == h[..k];
      var us, n := HistoryUpdates(h[..|h| - 1]), |HistoryUpdates(h[..k])|;
      assert HistoryUpdates(h)[..n] == us[..n];
    } else {
      assert h[..k] == h;
    }
  }

  // In a linear history every update finds its chain, or starts one.
  lemma {:induction false} AlwaysFresh(h: seq<MDOp>, k: nat)
    requires k < |h| && Linear(HistoryUpdates(h)) && Initialized(HistoryUpdates(h)) && MakeAll(NONE, h[..k]).Some?
    ensures AllFresh(MakeAll(NONE, h[..k]).value.x, AllUpdates(h[k]))
  {
    hide Linear, Initialized, MakeAll, AddUpdates, Fresh, AllUpdates;
    MadeIndex(h[..k]);
    HistoryPrefix(h, k + 1);
    assert h[..k + 1][..k] == h[..k];
    forall i | 0 <= i < |AllUpdates(h[k])|
      ensures Fresh(AddUpdates(MakeAll(NONE, h[..k]).value.x, AllUpdates(h[k])[..i]), AllUpdates(h[k])[i])
    {
      FreshInside(HistoryUpdates(h), HistoryUpdates(h[..k]), AllUpdates(h[k]), i);
    }
  }

  lemma FreshInside(all: seq<Update>, us: seq<Update>, vs: seq<Update>, i: nat)
    requires Linear(all) && Initialized(all) && us + vs <= all && i < |vs|
    ensures Fresh(AddUpdates(AddUpdates(EMPTY, us), vs[..i]), vs[i])
  {
    hide Linear, AddUpdates;
    var before := us + vs[..i];
    AddMore(EMPTY, us, vs[..i]);
    LinearPrefix(all, |before| + 1);
    assert all[..|before| + 1] == before + [vs[i]];
    assert vs[i] == all[|before|];
    FreshNext(before, vs[i]);
  }

  lemma {:induction false} FreshNext(us: seq<Update>, u: Update)
    requires Linear(us + [u]) && u.ref != 0
    ensures Fresh(AddUpdates(EMPTY, us), u)
  {
    assert (us + [u])[..|us|] == us;
    IndexAgrees(us);
  }

  lemma OpsKeys(s: State)
    ensures OpsOf(s).Keys == s.byOriginal.Keys
  {
  }

  // Putting other operations on the chain of o changes nothing but what is under o.
  lemma SetOps(s: State, o: Ptr, ops: seq<Op>)
    requires Ok(s) && o in s.byOriginal
    ensures s.byOriginal[o] in s.ops && OpsOf(s)[o] == s.ops[s.byOriginal[o]]
    ensures var s' := s.(ops := s.ops[s.byOriginal[o] := ops]);
      Ok(s') && IndexOf(s') == IndexOf(s) && OpsOf(s') == OpsOf(s)[o := ops]
  {
    var c := s.byOriginal[o];
    assert OkOriginal(s, o);
    SetOpsOk(s, c, ops);
    assert forall q :: q in s.byOriginal ==> (s.byOriginal[q] == c ==> q == o) by {
      forall q | q in s.byOriginal ensures s.byOriginal[q] == c ==> q == o {
        assert OkOriginal(s, q);
      }
    }
    SetOpsOf(s, o, c, ops);
  }

  lemma SetOpsOk(s: State, c: CrChain, ops: seq<Op>)
    requires Ok(s) && c in s.ops
    ensures Ok(s.(ops := s.ops[c := ops]))
  {
    var s' := s.(ops := s.ops[c := ops]);
    forall q | q in s'.byOriginal ensures OkOriginal(s', q) {
      assert OkOriginal(s, q);
    }
    forall p | p in s'.byMostRecent ensures OkMostRecent(s', p) {
      assert OkMostRecent(s, p);
    }
  }

  lemma SetOpsOf(s: State, o: Ptr, c: CrChain, ops: seq<Op>)
    requires o in s.byOriginal && s.byOriginal[o] == c && c in s.ops
    requires forall q :: q in s.byOriginal ==> (s.byOriginal[q] == c ==> q == o)
    ensures var s' := s.(ops := s.ops[c := ops]); IndexOf(s') == IndexOf(s) && OpsOf(s') == OpsOf(s)[o := ops]
  {
  }

  // --- what is on each chain ---------------------------------------------------------------------------

  // The operations put on the node with original o.
  function Select(x: Index, puts: seq<(Ptr, Op)>, o: Ptr): seq<Op> {
    if puts == [] then []
    else Select(x, puts[..|puts| - 1], o) + if OriginOf(x, puts[|puts| - 1].0) == o then [puts[|puts| - 1].1] else []
  }

  // All operations of a history on the node with original o, in order.
  function OpsFor(h: seq<MDOp>, o: Ptr): seq<Op> {
    if h == [] then []
    else OpsFor(h[..|h| - 1], o) + Select(AddUpdates(EMPTY, HistoryUpdates(h)), Puts(h[|h| - 1]), o)
  }

  function OpsAt(ops: map<Ptr, seq<Op>>, o: Ptr): seq<Op> {
    if o in ops then ops[o] else []
  }

  ghost predicate Keyed(c: Chains) {
    c.ops.Keys == c.x.cur.Keys && forall p :: p in c.x.recent ==> c.x.recent[p] in c.x.cur
  }

  lemma {:induction false} PutSelect(c: Chains, puts: seq<(Ptr, Op)>, o: Ptr)
    requires PutAll(c, puts).Some? && Keyed(c)
    ensures OpsAt(PutAll(c, puts).value.ops, o) == OpsAt(c.ops, o) + Select(c.x, puts, o)
    ensures Keyed(PutAll(c, puts).value)
  {
    if puts != [] {
      PutSelect(c, puts[..|puts| - 1], o);
      PutsKeep(c, puts[..|puts| - 1]);
    }
  }

  lemma {:induction false} ExtendOps(c: Chains, us: seq<Update>, o: Ptr)
    requires Keyed(c) && AllFresh(c.x, us)
    ensures OpsAt(ExtendAll(c, us).ops, o) == OpsAt(c.ops, o) && Keyed(ExtendAll(c, us))
  {
    if us != [] {
      var vs := us[..|us| - 1];
      assert AllFresh(c.x, vs) by {
        forall k | 0 <= k < |vs| ensures Fresh(AddUpdates(c.x, vs[..k]), vs[k]) {
          assert vs[..k] == us[..k] && Fresh(AddUpdates(c.x, us[..k]), us[k]);
        }
      }
      ExtendOps(c, vs, o);
      ExtendIndex(c, vs);
      assert Fresh(AddUpdates(c.x, us[..|us| - 1]), us[|us| - 1]);
    }
  }

  /** Each chain holds the operations of the history on its node, in their order. */
  lemma {:induction false} ChainOps(h: seq<MDOp>, o: Ptr)
    requires Linear(HistoryUpdates(h)) && Initialized(HistoryUpdates(h)) && MakeAll(NONE, h).Some?
    ensures OpsAt(MakeAll(NONE, h).value.ops, o) == OpsFor(h, o) && Keyed(MakeAll(NONE, h).value)
  {
    if h != [] {
      hide Linear, MakeChain, AllUpdates, Puts;
      var k := |h| - 1;
      var c, us := MakeAll(NONE, h[..k]).value, AllUpdates(h[k]);
      HistoryPrefix(h, k);
      LinearPrefix(HistoryUpdates(h), |HistoryUpdates(h[..k])|);
      ChainOps(h[..k], o);
      AlwaysFresh(h, k);
      ExtendOps(c, us, o);
      ExtendIndex(c, us);
      MadeIndex(h[..k]);
      AddMore(EMPTY, HistoryUpdates(h[..k]), us);
      MadeOps(c, h[k], o);
    }
  }

  lemma {:induction false} MadeOps(c: Chains, op: MDOp, o: Ptr)
    requires MakeChain(c, op).Some? && Keyed(ExtendAll(c, AllUpdates(op)))
    ensures OpsAt(MakeChain(c, op).value.ops, o) ==
      OpsAt(ExtendAll(c, AllUpdates(op)).ops, o) + Select(ExtendAll(c, AllUpdates(op)).x, Puts(op), o)
    ensures Keyed(MakeChain(c, op).value)
  {
    hide AllUpdates, Puts, ExtendAll;
    var c2 := Blocks(ExtendAll(c, AllUpdates(op)), op);
    PutSelect(c2, Puts(op), o);
    PutsKeep(c2, Puts(op));
  }

  // --- the same, told by following pointers -----------------------------------------------------------------

  // What an operation did to the node that has the pointer p afterwards.
  function Deeds(op: MDOp, p: Ptr): seq<Op> {
    match op.kind
    case CreateOp(n, dir, what) => if dir.ref == p then [Create(n, false, what)] else []
    case RmOp(n, dir) => if dir.ref == p then [Rm(n)] else []
    case RenameOp(n, oldDir, m, newDir, _, what) =>
      var to := if newDir.Some? then newDir.value.ref else oldDir.ref;
      (if oldDir.ref == p then [Rm(n)] else []) +
      if to != p then [] else if op.unrefs != {} then [Rm(m), Create(m, true, what)] else [Create(m, true, what)]
    case SyncOp(file, tag) => if file.ref == p then [Other(tag)] else []
    case SetAttrOp(_, target, tag) => if target == p then [Other(tag)] else []
    case Neutral => []
  }

  // What a history did to the node that had the pointer o before it.
  function DeedsOn(h: seq<MDOp>, o: Ptr): seq<Op> {
    if h == [] then [] else DeedsOn(h[..|h| - 1], o) + Deeds(h[|h| - 1], Follow(HistoryUpdates(h), o))
  }

  // The writes to the file that had the pointer o before the history, and changes of its attributes.
  function TouchesOn(h: seq<MDOp>, o: Ptr): seq<Op> {
    if h == [] then []
    else
      var p, k := Follow(HistoryUpdates(h), o), h[|h| - 1].kind;
      TouchesOn(h[..|h| - 1], o) +
      if (k.SyncOp? && k.file.ref == p) || (k.SetAttrOp? && k.target == p) then [Other(k.tag)] else []
  }

  // The pointers an operation names.
  function Named(op: MDOp): set<Ptr> {
    match op.kind
    case CreateOp(_, dir, _) => {dir.ref}
    case RmOp(_, dir) => {dir.ref}
    case RenameOp(_, oldDir, _, newDir, _, _) => {oldDir.ref} + if newDir.Some? then {newDir.value.ref} else {}
    case SyncOp(file, _) => {file.ref}
    case SetAttrOp(_, target, _) => {target}
    case Neutral => {}
  }

  // Whatever an operation names is, right after it, the current pointer of a node the history has met.
  ghost predicate AllCurrent(h: seq<MDOp>) {
    forall k :: 0 <= k < |h| ==> NamesCurrent(h, k)
  }

  ghost predicate NamesCurrent(h: seq<MDOp>, k: nat) {
    k < |h| && forall p :: p in Named(h[k]) ==> IsCurrent(h, k, p)
  }

  ghost predicate IsCurrent(h: seq<MDOp>, k: nat, p: Ptr) {
    k < |h| && var us := HistoryUpdates(h[..k + 1]); p in Seen(us) - Replaced(us)
  }

  // The updates of the directories and the file an operation is about; an attribute change has one of its
  // file to itself.
  function OwnUpdates(k: Kind): set<Update> {
    match k
    case CreateOp(_, dir, _) => {dir}
    case RmOp(_, dir) => {dir}
    case RenameOp(_, oldDir, _, newDir, _, _) => {oldDir} + if newDir.Some? then {newDir.value} else {}
    case SyncOp(file, _) => {file}
    case SetAttrOp(dir, target, _) => {dir, Update(target, target)}
    case Neutral => {}
  }

  // The operation lists the update, or it is that of a directory or file the operation is about.
  predicate MakesUpdate(op: MDOp, u: Update) {
    u in op.updates || u in OwnUpdates(op.kind)
  }

  lemma AllUpdatesAre(op: MDOp, u: Update)
    ensures u in AllUpdates(op) <==> MakesUpdate(op, u)
  {
  }

  lemma LastUpdates(h: seq<MDOp>, u: Update)
    requires h != []
    ensures u in HistoryUpdates(h) <==> u in HistoryUpdates(h[..|h| - 1]) || MakesUpdate(h[|h| - 1], u)
  {
    hide AllUpdates, MakesUpdate;
    AllUpdatesAre(h[|h| - 1], u);
  }

  /** The updates followed are those of all operations and of the directories and files they are about. */
  lemma {:induction false} HistoryUpdatesAre(h: seq<MDOp>, u: Update)
    ensures u in HistoryUpdates(h) <==> exists op :: op in h && MakesUpdate(op, u)
  {
    if h != [] {
      hide MakesUpdate, HistoryUpdates;
      var before, last := h[..|h| - 1], h[|h| - 1];
      HistoryUpdatesAre(before, u);
      LastUpdates(h, u);
      if op :| op in before && MakesUpdate(op, u) { assert op in h; }
      if op :| op in h && MakesUpdate(op, u) { assert op in before || op == last; }
    }
  }

  // The pointer p is where the node with original o is now.
  ghost predicate IsAt(x: Index, o: Ptr, p: Ptr) {
    forall q :: q in x.recent ==> (x.recent[q] == o <==> q == p)
  }

  lemma {:induction false} WhereIsIt(us: seq<Update>, o: Ptr)
    requires Linear(us) && o !in New(us)
    ensures IsAt(AddUpdates(EMPTY, us), o, Follow(us, o))
  {
    hide OnTrace, Linear, Replaced, New, AddUpdates;
    IndexAgrees(us);
    if o !in Seen(us) { FollowUnseen(us, o); }
  }

  lemma {:induction false} PutsFound(c: Chains, puts: seq<(Ptr, Op)>)
    requires PutAll(c, puts).Some?
    ensures forall a :: a in puts ==> a.0 in c.x.recent
  {
    if puts != [] {
      PutsFound(c, puts[..|puts| - 1]);
      PutsKeep(c, puts[..|puts| - 1]);
      forall a | a in puts ensures a.0 in c.x.recent {
        if a !in puts[..|puts| - 1] { assert a == puts[|puts| - 1]; }
      }
    }
  }

  lemma {:induction false} HistoryFound(h: seq<MDOp>)
    requires h != [] && MakeAll(NONE, h).Some?
    ensures forall a :: a in Puts(h[|h| - 1]) ==> a.0 in AddUpdates(EMPTY, HistoryUpdates(h)).recent
  {
    hide AllUpdates, Puts, ExtendAll, PutAll;
    var c, op := MakeAll(NONE, h[..|h| - 1]).value, h[|h| - 1];
    var c2 := Blocks(ExtendAll(c, AllUpdates(op)), op);
    PutsFound(c2, Puts(op));
    PutsKeep(c2, Puts(op));
    MadeIndex(h);
  }

  lemma NotNew(us: seq<Update>, vs: seq<Update>, o: Ptr)
    requires Linear(us + vs) && o !in New(us + vs)
    ensures Linear(us) && o !in New(us)
  {
    LinearPrefix(us + vs, |us|);
    assert (us + vs)[..|us|] == us;
    assert forall u :: u in us ==> u in us + vs;
  }

  lemma SelectOne(x: Index, a: (Ptr, Op), o: Ptr)
    ensures Select(x, [a], o) == if OriginOf(x, a.0) == o then [a.1] else []
  {
    assert [a][..0] == [];
  }

  lemma SelectMore(x: Index, puts: seq<(Ptr, Op)>, a: (Ptr, Op), o: Ptr)
    ensures Select(x, puts + [a], o) == Select(x, puts, o) + if OriginOf(x, a.0) == o then [a.1] else []
  {
    assert (puts + [a])[..|puts|] == puts;
  }

  lemma DeedsAre(x: Index, op: MDOp, o: Ptr, p: Ptr)
    requires IsAt(x, o, p) && forall a :: a in Puts(op) ==> a.0 in x.recent
    ensures Select(x, Puts(op), o) == Deeds(op, p)
  {
    hide Select;
    match op.kind
    case RenameOp(n, oldDir, m, newDir, _, what) =>
      var to := NewDirRef(op.kind);
      var gone, over, made := (oldDir.ref, Rm(n)), (to, Rm(m)), (to, Create(m, true, what));
      assert gone in Puts(op) && made in Puts(op);
      SelectOne(x, gone, o);
      if op.unrefs != {} {
        SelectMore(x, [gone], over, o);
        SelectMore(x, [gone] + [over], made, o);
      } else {
        assert [gone] + [] == [gone];
        SelectMore(x, [gone], made, o);
      }
    case Neutral => assert Select(x, [], o) == [] by { SelectNone(x, o); }
    case _ =>
      var a := Puts(op)[0];
      assert a in Puts(op) && Puts(op) == [a];
      SelectOne(x, a, o);
  }

  lemma SelectNone(x: Index, o: Ptr)
    ensures Select(x, [], o) == []
  {
  }

  /** What goes on the chain of a node is what the history did to it, as following its pointer tells. */
  lemma {:induction false} ChainTells(h: seq<MDOp>, o: Ptr)
    requires Linear(HistoryUpdates(h)) && MakeAll(NONE, h).Some? && o !in New(HistoryUpdates(h))
    ensures OpsFor(h, o) == DeedsOn(h, o)
  {
    hide Linear, New, MakeChain, AddUpdates, Follow, AllUpdates, Puts, Select, Deeds;
    if h != [] {
      var k := |h| - 1;
      var us, vs := HistoryUpdates(h[..k]), AllUpdates(h[k]);
      NotNew(us, vs, o);
      ChainTells(h[..k], o);
      WhereIsIt(us + vs, o);
      HistoryFound(h);
      DeedsAre(AddUpdates(EMPTY, us + vs), h[k], o, Follow(us + vs, o));
    }
  }

  lemma OthersMore(a: seq<Op>, b: seq<Op>)
    ensures Others(a + b) == Others(a) + Others(b)
    decreases |b|
  {
    if b == [] {
      assert a + b == a;
    } else {
      OthersMore(a, b[..|b| - 1]);
      assert (a + b)[..|a + b| - 1] == a + b[..|b| - 1];
    }
  }

  lemma OthersOfDeeds(op: MDOp, p: Ptr)
    ensures Others(Deeds(op, p)) ==
      var k := op.kind;
      if (k.SyncOp? && k.file.ref == p) || (k.SetAttrOp? && k.target == p) then [Other(k.tag)] else []
  {
    var ops := Deeds(op, p);
    if |ops| > 0 { assert ops[..|ops| - 1] + [ops[|ops| - 1]] == ops; }
    if |ops| > 1 { assert ops[..|ops| - 1][..|ops| - 2] == ops[..|ops| - 2]; }
    if op.kind.RenameOp? { NoOthers(ops); }
  }

  lemma {:induction false} NoOthers(ops: seq<Op>)
    requires forall op :: op in ops ==> !op.Other?
    ensures Others(ops) == []
  {
    if ops != [] {
      assert ops[|ops| - 1] in ops;
      NoOthers(ops[..|ops| - 1]);
    }
  }

  /** The writes and attribute changes on a node's chain, collapsed or not, are those of the history to the
      node, in their order. */
  lemma {:induction false} ChainTouches(h: seq<MDOp>, o: Ptr)
    ensures Others(DeedsOn(h, o)) == TouchesOn(h, o) == Others(Collapsed(DeedsOn(h, o)))
  {
    hide Deeds, Follow, Collapsed, Others;
    CollapseOthers(DeedsOn(h, o));
    if h == [] {
      NoOthers([]);
    } else {
      var k := |h| - 1;
      ChainTouches(h[..k], o);
      OthersMore(DeedsOn(h[..k], o), Deeds(h[k], Follow(HistoryUpdates(h), o)));
      OthersOfDeeds(h[k], Follow(HistoryUpdates(h), o));
    }
  }

  /** One operation on chains whose current pointers are distinct: it fails exactly if it names a pointer no chain
      ends at once its updates are made, and otherwise it puts on the chain of each node what it did to the node,
      by the pointer that has then. */
  lemma {:induction false} OneOpTells(c: Chains, op: MDOp, o: Ptr, p: Ptr)
    requires var c2 := ExtendAll(c, AllUpdates(op)); Keyed(c2) && IsAt(c2.x, o, p)
    ensures var c2 := ExtendAll(c, AllUpdates(op));
      && (MakeChain(c, op).Some? <==> Named(op) <= c2.x.recent.Keys)
      && (MakeChain(c, op).Some? ==>
        OpsAt(MakeChain(c, op).value.ops, o) == OpsAt(c2.ops, o) + Deeds(op, p) && MakeChain(c, op).value.x == c2.x)
  {
    hide AllUpdates, Puts, Named, ExtendAll, PutAll, Keyed, Deeds, Select;
    var c2 := ExtendAll(c, AllUpdates(op));
    assert Keyed(Blocks(c2, op)) by { BlocksKeyed(c2, op); }
    PutsFit(Blocks(c2, op), Puts(op));
    forall q ensures q in Named(op) <==> exists a :: a in Puts(op) && a.0 == q { PutsName(op, q); }
    forall a | a in Puts(op) ensures a.0 in Named(op) {
    }
    if MakeChain(c, op).Some? {
      PutsKeep(Blocks(c2, op), Puts(op));
      MadeOps(c, op, o);
      DeedsAre(c2.x, op, o, p);
    }
  }

  // --- when it fails ----------------------------------------------------------------------------------------

  lemma {:induction false} PutsFit(c: Chains, puts: seq<(Ptr, Op)>)
    requires Keyed(c)
    ensures PutAll(c, puts).Some? <==> forall a :: a in puts ==> a.0 in c.x.recent
  {
    if puts != [] {
      var k := |puts| - 1;
      PutsFit(c, puts[..k]);
      assert forall a :: a in puts <==> a in puts[..k] || a == puts[k];
      if PutAll(c, puts[..k]).Some? {
        PutsKeep(c, puts[..k]);
        PutSelect(c, puts[..k], 0);
      }
    }
  }

  lemma PutsName(op: MDOp, p: Ptr)
    ensures p in Named(op) <==> exists a :: a in Puts(op) && a.0 == p
  {
    match op.kind
    case RenameOp(n, oldDir, m, newDir, _, what) =>
      var to := NewDirRef(op.kind);
      assert (oldDir.ref, Rm(n)) in Puts(op) && (to, Create(m, true, what)) in Puts(op);
    case Neutral =>
    case _ => assert Puts(op)[0] in Puts(op);
  }

  /** Making the chains of a linear history fails if and only if some operation names a pointer that is not,
      right after it, the current one of a node the history has met. */
  lemma {:induction false} MadeIff(h: seq<MDOp>)
    requires Linear(HistoryUpdates(h)) && Initialized(HistoryUpdates(h))
    ensures MakeAll(NONE, h).Some? <==> AllCurrent(h)
  {
    hide Linear, AllUpdates, Puts, Named, ExtendAll, PutAll, NamesCurrent;
    if h != [] {
      var k := |h| - 1;
      HistoryPrefix(h, k);
      LinearPrefix(HistoryUpdates(h), |HistoryUpdates(h[..k])|);
      MadeIff(h[..k]);
      CurrentBefore(h);
      if MakeAll(NONE, h[..k]).Some? {
        var c, us := MakeAll(NONE, h[..k]).value, AllUpdates(h[k]);
        ChainOps(h[..k], 0);
        AlwaysFresh(h, k);
        ExtendOps(c, us, 0);
        LastFits(h, c);
      }
    }
  }

  lemma CurrentBefore(h: seq<MDOp>)
    requires h != []
    ensures AllCurrent(h) <==>
      AllCurrent(h[..|h| - 1]) && NamesCurrent(h, |h| - 1)
  {
    var k := |h| - 1;
    forall i | 0 <= i < k ensures NamesCurrent(h[..k], i) <==> NamesCurrent(h, i) {
      assert h[..k][i] == h[i] && h[..k][..i + 1] == h[..i + 1];
      forall p ensures IsCurrent(h[..k], i, p) <==> IsCurrent(h, i, p) {
      }
    }
  }

  lemma {:induction false} LastFits(h: seq<MDOp>, c: Chains)
    requires h != [] && Linear(HistoryUpdates(h)) && MakeAll(NONE, h[..|h| - 1]) == Some(c)
    requires Keyed(ExtendAll(c, AllUpdates(h[|h| - 1])))
    ensures MakeAll(NONE, h).Some? <==> NamesCurrent(h, |h| - 1)
  {
    hide Linear, AllUpdates, Puts, Named, ExtendAll, PutAll, Seen, Replaced, Keyed;
    var k := |h| - 1;
    var op, us := h[k], AllUpdates(h[k]);
    var c2 := Blocks(ExtendAll(c, us), op);
    assert Keyed(c2) by { BlocksKeyed(ExtendAll(c, us), op); }
    PutsFit(c2, Puts(op));
    ExtendIndex(c, us);
    MadeIndex(h[..k]);
    AddMore(EMPTY, HistoryUpdates(h[..k]), us);
    assert h[..k + 1] == h;
    CurrentKeys(HistoryUpdates(h));
    forall p ensures p in Named(op) <==> exists a :: a in Puts(op) && a.0 == p { PutsName(op, p); }
    forall a | a in Puts(op) ensures a.0 in Named(op) {
    }
  }

  lemma BlocksKeyed(c: Chains, op: MDOp)
    requires Keyed(c)
    ensures Keyed(Blocks(c, op))
  {
  }

  lemma {:induction false} CurrentKeys(us: seq<Update>)
    requires Linear(us)
    ensures AddUpdates(EMPTY, us).recent.Keys == Seen(us) - Replaced(us)
  {
    hide OnTrace, Linear, AddUpdates, Seen, New, Replaced;
    IndexAgrees(us);
  }

  // What a history brought in, and the originals of what it dropped.
  function CreatedIn(h: seq<MDOp>): set<Ptr> {
    if h == [] then {} else CreatedIn(h[..|h| - 1]) + h[|h| - 1].refs
  }

  function DeletedIn(h: seq<MDOp>): set<Ptr> {
    if h == [] then {}
    else
      var x := AddUpdates(EMPTY, HistoryUpdates(h));
      DeletedIn(h[..|h| - 1]) + OriginsOf(x, h[|h| - 1].unrefs)
  }

  function OriginsOf(x: Index, ps: set<Ptr>): set<Ptr> {
    set p | p in ps :: OriginOf(x, p)
  }

  lemma {:induction false} MadeBlocks(h: seq<MDOp>)
    requires MakeAll(NONE, h).Some?
    ensures MakeAll(NONE, h).value.created == CreatedIn(h) && MakeAll(NONE, h).value.deleted == DeletedIn(h)
  {
    if h != [] {
      hide AllUpdates, Puts, ExtendAll, PutAll;
      var k := |h| - 1;
      var c := MakeAll(NONE, h[..k]).value;
      MadeBlocks(h[..k]);
      MadeIndex(h);
      ExtendIndex(c, AllUpdates(h[k]));
      PutsKeep(Blocks(ExtendAll(c, AllUpdates(h[k])), h[k]), Puts(h[k]));
    }
  }

  // The node with pointer p had the pointer o before the history; a pointer that is not current stands for itself.
  ghost predicate CameFrom(us: seq<Update>, p: Ptr, o: Ptr) {
    if p in Seen(us) - Replaced(us) then o in Seen(us) - New(us) && Follow(us, o) == p else o == p
  }

  lemma {:induction false} OriginIs(us: seq<Update>, p: Ptr, o: Ptr)
    requires Linear(us)
    ensures OriginOf(AddUpdates(EMPTY, us), p) == o <==> CameFrom(us, p, o)
  {
    hide OnTrace, Linear, AddUpdates, Seen, New, Replaced;
    IndexAgrees(us);
  }

  // Operation k drops the node that had the pointer o before the history.
  ghost predicate DropsNode(h: seq<MDOp>, k: nat, o: Ptr) {
    k < |h| && exists p :: p in h[k].unrefs && CameFrom(HistoryUpdates(h[..k + 1]), p, o)
  }

  // What was created is what some operation references, and what was deleted are the nodes some
  // operation drops, by the pointers they had before the history.
  ghost predicate Told(h: seq<MDOp>, created: set<Ptr>, deleted: set<Ptr>) {
    && (forall p :: p in created <==> exists op :: op in h && p in op.refs)
    && (forall o :: o in deleted <==> exists k :: DropsNode(h, k, o))
  }

  lemma {:induction false} CreatedIs(h: seq<MDOp>, p: Ptr)
    ensures p in CreatedIn(h) <==> exists op :: op in h && p in op.refs
  {
    if h != [] {
      var k := |h| - 1;
      CreatedIs(h[..k], p);
      assert h == h[..k] + [h[k]];
    }
  }

  lemma DropsLast(h: seq<MDOp>, o: Ptr)
    requires h != [] && Linear(HistoryUpdates(h))
    ensures o in OriginsOf(AddUpdates(EMPTY, HistoryUpdates(h)), h[|h| - 1].unrefs) <==> DropsNode(h, |h| - 1, o)
  {
    hide CameFrom, OriginOf, AddUpdates, HistoryUpdates, Linear;
    var n, us, unrefs := |h| - 1, HistoryUpdates(h), h[|h| - 1].unrefs;
    var x := AddUpdates(EMPTY, us);
    assert h[..n + 1] == h;
    if DropsNode(h, n, o) {
      var p :| p in unrefs && CameFrom(us, p, o);
      OriginIs(us, p, o);
      assert OriginOf(x, p) in OriginsOf(x, unrefs);
    }
    if o in OriginsOf(x, unrefs) {
      var p :| p in unrefs && OriginOf(x, p) == o;
      OriginIs(us, p, o);
    }
  }

  lemma DropsBefore(h: seq<MDOp>, k: nat, o: Ptr)
    requires k < |h| - 1
    ensures DropsNode(h[..|h| - 1], k, o) <==> DropsNode(h, k, o)
  {
    hide CameFrom, HistoryUpdates;
    assert h[..|h| - 1][..k + 1] == h[..k + 1];
  }

  lemma DeletedLast(h: seq<MDOp>, o: Ptr)
    requires h != [] && Linear(HistoryUpdates(h))
    ensures o in DeletedIn(h) <==> o in DeletedIn(h[..|h| - 1]) || DropsNode(h, |h| - 1, o)
    ensures Linear(HistoryUpdates(h[..|h| - 1]))
  {
    hide DropsNode, AddUpdates, AllUpdates, OriginsOf, Linear;
    var us := HistoryUpdates(h[..|h| - 1]);
    LinearPrefix(HistoryUpdates(h), |us|);
    assert HistoryUpdates(h)[..|us|] == us;
    DropsLast(h, o);
  }

  lemma {:induction false} DeletedIs(h: seq<MDOp>, o: Ptr)
    requires Linear(HistoryUpdates(h))
    ensures o in DeletedIn(h) <==> exists k :: DropsNode(h, k, o)
  {
    if h != [] {
      hide *;
      DeletedLast(h, o);
      var before := h[..|h| - 1];
      DeletedIs(before, o);
      if k :| DropsNode(h, k, o) { DropsWhere(h, k, o); }
      if k :| DropsNode(before, k, o) { DropsWhere(h, k, o); }
    }
  }

  lemma DropsWhere(h: seq<MDOp>, k: nat, o: Ptr)
    requires h != []
    ensures DropsNode(h, k, o) <==> DropsNode(h[..|h| - 1], k, o) || (k == |h| - 1 && DropsNode(h, k, o))
  {
    hide CameFrom, HistoryUpdates;
    if k < |h| - 1 { DropsBefore(h, k, o); }
  }

  /** What a history created and deleted. */
  lemma {:induction false} BlocksTold(h: seq<MDOp>)
    requires Linear(HistoryUpdates(h))
    ensures Told(h, CreatedIn(h), DeletedIn(h))
  {
    hide CreatedIn, DeletedIn, DropsNode, Linear, HistoryUpdates;
    forall p ensures p in CreatedIn(h) <==> exists op :: op in h && p in op.refs {
      CreatedIs(h, p);
    }
    forall o ensures o in DeletedIn(h) <==> exists k :: DropsNode(h, k, o) {
      DeletedIs(h, o);
    }
  }

  // One metadata revision: its operations, the root pointer it ends with, and whether it only copies
  // what the writer before did.
  datatype Revision = Revision(ops: seq<MDOp>, root: Ptr, copied: bool)

  function History(rs: seq<Revision>): seq<MDOp> {
    if rs == [] then [] else History(rs[..|rs| - 1]) + if rs[|rs| - 1].copied then [] else rs[|rs| - 1].ops
  }

  // The operations are those of the revisions that are not copies.
  lemma {:induction false} HistoryIs(rs: seq<Revision>, op: MDOp)
    ensures op in History(rs) <==> exists r :: r in rs && !r.copied && op in r.ops
  {
    if rs != [] {
      var k := |rs| - 1;
      HistoryIs(rs[..k], op);
      assert forall r :: r in rs <==> r in rs[..k] || r == rs[k];
    }
  }

  // The original of the root: of the first revision that ends with a root some chain ends at. 0 if
  // there is none.
  function OriginalRoot(rs: seq<Revision>): Ptr {
    if rs == [] then 0
    else
      var o, last := OriginalRoot(rs[..|rs| - 1]), rs[|rs| - 1];
      var x := AddUpdates(EMPTY, HistoryUpdates(History(rs)));
      if o != 0 || last.copied || last.root !in x.recent then o else x.recent[last.root]
  }

  // Revision i counts for the root: its root is, after it, the current pointer of a node the history has met.
  ghost predicate HasRoot(rs: seq<Revision>, i: nat) {
    i < |rs| && !rs[i].copied && var us := HistoryUpdates(History(rs[..i + 1])); rs[i].root in Seen(us) - Replaced(us)
  }

  // o is the pointer from before the history that leads to the root of revision i.
  ghost predicate LeadsToRoot(rs: seq<Revision>, i: nat, o: Ptr) {
    i < |rs| && var us := HistoryUpdates(History(rs[..i + 1])); Follow(us, o) == rs[i].root && o in Seen(us) - New(us)
  }

  /** The original of the root is the pointer from before the history that leads to the root of the first revision
      that counts, and for which that is not the uninitialized one; there is none exactly if there is no such
      revision. */
  lemma {:induction false} RootLeads(rs: seq<Revision>) returns (i: nat)
    requires Linear(HistoryUpdates(History(rs)))
    ensures OriginalRoot(rs) != 0 ==> HasRoot(rs, i) && LeadsToRoot(rs, i, OriginalRoot(rs))
    ensures forall j :: 0 <= j < |rs| && (OriginalRoot(rs) != 0 ==> j < i) && HasRoot(rs, j) ==> LeadsToRoot(rs, j, 0)
  {
    hide HistoryUpdates, History, Linear, HasRoot, LeadsToRoot, AddUpdates;
    i := 0;
    if rs != [] {
      var k := |rs| - 1;
      HistoryOf(rs);
      HistoryPrefix(History(rs), |History(rs[..k])|);
      LinearPrefix(HistoryUpdates(History(rs)), |HistoryUpdates(History(rs[..k]))|);
      i := RootLeads(rs[..k]);
      forall j, o | 0 <= j < k
        ensures HasRoot(rs[..k], j) == HasRoot(rs, j) && LeadsToRoot(rs[..k], j, o) == LeadsToRoot(rs, j, o)
      {
        RootBefore(rs, k, j, o);
      }
      if OriginalRoot(rs[..k]) == 0 {
        if OriginalRoot(rs) != 0 { i := k; }
        RootHere(rs);
      } else {
        assert i < k by { RootWithin(rs[..k], i); }
      }
    }
  }

  lemma RootWithin(rs: seq<Revision>, i: nat)
    requires HasRoot(rs, i)
    ensures i < |rs|
  {
  }

  lemma RootBefore(rs: seq<Revision>, k: nat, j: nat, o: Ptr)
    requires j < k <= |rs|
    ensures HasRoot(rs[..k], j) == HasRoot(rs, j) && LeadsToRoot(rs[..k], j, o) == LeadsToRoot(rs, j, o)
  {
    assert rs[..k][..j + 1] == rs[..j + 1];
  }

  lemma {:induction false} RootHere(rs: seq<Revision>)
    requires rs != [] && Linear(HistoryUpdates(History(rs))) && OriginalRoot(rs[..|rs| - 1]) == 0
    ensures if HasRoot(rs, |rs| - 1) then LeadsToRoot(rs, |rs| - 1, OriginalRoot(rs)) else OriginalRoot(rs) == 0
  {
    hide HistoryUpdates, History, Linear, AddUpdates, Follow, Seen, New, Replaced;
    var us, last := HistoryUpdates(History(rs)), rs[|rs| - 1];
    assert rs[..|rs| - 1 + 1] == rs;
    CurrentKeys(us);
    if last.root in AddUpdates(EMPTY, us).recent { OriginLeads(us, last.root); }
  }

  lemma {:induction false} OriginLeads(us: seq<Update>, p: Ptr)
    requires Linear(us) && p in AddUpdates(EMPTY, us).recent
    ensures var o := AddUpdates(EMPTY, us).recent[p]; Follow(us, o) == p && o in Seen(us) - New(us)
  {
    hide OnTrace, Seen, New, Replaced;
    IndexAgrees(us);
  }

  lemma HistoryOf(rs: seq<Revision>)
    requires rs != []
    ensures History(rs[..|rs| - 1]) <= History(rs)
    ensures |History(rs[..|rs| - 1])| <= |History(rs)|
    ensures History(rs)[..|History(rs[..|rs| - 1])|] == History(rs[..|rs| - 1])
  {
  }

  // Takes the operations of one revision into the chains, after those before.
  method AddRevision(ccs: CrChains, ops: seq<MDOp>, ghost before: seq<MDOp>, ghost all: seq<MDOp>) returns (ok: bool)
    requires Ok(ccs.St()) && MakeAll(NONE, before) == Some(ccs.Abs()) && before + ops <= all
    requires Linear(HistoryUpdates(all)) && Initialized(HistoryUpdates(all))
    modifies ccs, ccs.objs
    ensures Ok(ccs.St()) && fresh(ccs.objs - old(ccs.objs)) && ccs.originalRoot == old(ccs.originalRoot)
    ensures ok == MakeAll(NONE, before + ops).Some? && (ok ==> MakeAll(NONE, before + ops) == Some(ccs.Abs()))
  {
    hide Ok, Linear, Initialized, CrChains.Abs, CrChains.St, MakeChain, AllFresh;
    var i := 0;
    ok := true;
    assert before + ops[..0] == before;
    while i < |ops|
      invariant 0 <= i <= |ops| && ok && fresh(ccs.objs - old(ccs.objs)) && ccs.originalRoot == old(ccs.originalRoot)
      invariant Ok(ccs.St()) && MakeAll(NONE, before + ops[..i]) == Some(ccs.Abs())
    {
      ghost var k := |before| + i;
      assert all[..k] == before + ops[..i] && all[k] == ops[i];
      AlwaysFresh(all, k);
      assert (before + ops[..i + 1])[..k] == before + ops[..i] && (before + ops[..i + 1])[k] == ops[i];
      ok := ccs.MakeChainForOp(ops[i]);
      if !ok {
        assert (before + ops)[..k + 1] == before + ops[..i + 1];
        MakeFails(NONE, before + ops, k);
        return;
      }
      i := i + 1;
    }
    assert ops[..i] == ops;
  }

  lemma NoRevision()
    ensures MakeAll(NONE, []) == Some(NONE) && OriginalRoot([]) == 0
  {
  }

  // Takes revision i into the chains, unless it only copies, and looks for the root.
  method TakeRevision(ccs: CrChains, rs: seq<Revision>, i: nat) returns (ok: bool)
    requires i < |rs| && Ok(ccs.St()) && MakeAll(NONE, History(rs[..i])) == Some(ccs.Abs())
    requires Linear(HistoryUpdates(History(rs))) && Initialized(HistoryUpdates(History(rs)))
    requires ccs.originalRoot == OriginalRoot(rs[..i])
    modifies ccs, ccs.objs
    ensures Ok(ccs.St()) && fresh(ccs.objs - old(ccs.objs)) && ok == MakeAll(NONE, History(rs[..i + 1])).Some?
    ensures ok ==>
      MakeAll(NONE, History(rs[..i + 1])) == Some(ccs.Abs()) && ccs.originalRoot == OriginalRoot(rs[..i + 1])
  {
    hide Ok, Linear, Initialized, CrChains.Abs, CrChains.St, MakeChain, MakeAll, HistoryUpdates, AddUpdates,
      OriginalRoot;
    ghost var before := History(rs[..i]);
    HistoryNext(rs, i);
    RootNext(rs, i);
    assert before + [] == before;
    ok := true;
    if !rs[i].copied {
      ok := AddRevision(ccs, rs[i].ops, before, History(rs));
      if ok {
        MadeIndex(before + rs[i].ops);
        if ccs.originalRoot == 0 {
          ccs.FindRoot(rs[i].root);
        }
      }
    }
  }

  /** Chains made from a linear history: the indexes agree with following every pointer through it,
      each chain holds the operations on its node, collapsed, what was brought in, dropped and renamed is
      that of the whole history, and it all fails only if an operation names something no chain ends at. */
  method NewCRChains(rs: seq<Revision>) returns (ok: bool, ccs: CrChains)
    requires Linear(HistoryUpdates(History(rs))) && Initialized(HistoryUpdates(History(rs)))
    ensures fresh(ccs) && fresh(ccs.objs) && Ok(ccs.St()) && (ok <==> AllCurrent(History(rs)))
    ensures ok ==> var h, c := History(rs), ccs.Abs();
      && Agrees(c.x, HistoryUpdates(h)) && ccs.originalRoot == OriginalRoot(rs)
      && (forall o :: o in c.x.cur ==> o in c.ops && c.ops[o] == Collapsed(DeedsOn(h, o)))
      && (forall o :: o in c.x.cur ==> Others(c.ops[o]) == TouchesOn(h, o))
      && c.created == CreatedIn(h) && c.deleted == DeletedIn(h) && Told(h, c.created, c.deleted)
      && forall o :: Spans(c.renamed, o, Renames(h, o))
  {
    hide Ok, Linear, Initialized, Agrees, CrChains.Abs, CrChains.St, MakeChain, Collapsed, Spans, Renames,
      HistoryUpdates, DeedsOn, TouchesOn, Others, CreatedIn, DeletedIn, Told, AddUpdates, AllCurrent, OriginalRoot;
    ghost var h := History(rs);
    MadeIff(h);
    ccs := new CrChains();
    assert MakeAll(NONE, []) == Some(NONE) && OriginalRoot([]) == 0 by { NoRevision(); }
    var i := 0;
    ok := true;
    while i < |rs|
      invariant 0 <= i <= |rs| && ok && fresh(ccs.objs) && Ok(ccs.St())
      invariant MakeAll(NONE, History(rs[..i])) == Some(ccs.Abs())
      invariant ccs.originalRoot == OriginalRoot(rs[..i])
    {
      ok := TakeRevision(ccs, rs, i);
      if !ok {
        HistoryNext(rs, i);
        MakeStaysNone(History(rs[..i + 1]), h);
        return;
      }
      i := i + 1;
    }
    assert rs[..i] == rs;
    Made(h);
    ghost var c := ccs.Abs();
    ccs.CollapseAll();
    assert ccs.Abs().ops == CollapsedOps(c);
  }

  ghost function CollapsedOps(c: Chains): map<Ptr, seq<Op>> {
    map o | o in c.ops :: Collapsed(c.ops[o])
  }

  // Everything the chains of a linear history hold, once collapsed.
  lemma Made(h: seq<MDOp>)
    requires Linear(HistoryUpdates(h)) && Initialized(HistoryUpdates(h)) && MakeAll(NONE, h).Some?
    ensures var c := MakeAll(NONE, h).value;
      && Agrees(c.x, HistoryUpdates(h)) && c.created == CreatedIn(h) && c.deleted == DeletedIn(h)
      && Told(h, c.created, c.deleted)
      && (forall o :: o in c.x.cur ==> o in CollapsedOps(c) && CollapsedOps(c)[o] == Collapsed(DeedsOn(h, o)))
      && (forall o :: o in c.x.cur ==> Others(CollapsedOps(c)[o]) == TouchesOn(h, o))
      && forall o :: Spans(c.renamed, o, Renames(h, o))
  {
    hide Linear, Initialized, Agrees, MakeAll, Collapsed, Spans, Renames, HistoryUpdates, OpsFor, CreatedIn, DeletedIn,
      DeedsOn, TouchesOn, Others, New, Told;
    var c := MakeAll(NONE, h).value;
    MadeIndex(h);
    IndexAgrees(HistoryUpdates(h));
    MadeBlocks(h);
    BlocksTold(h);
    forall o | o in c.x.cur
      ensures o in CollapsedOps(c) && CollapsedOps(c)[o] == Collapsed(DeedsOn(h, o))
      ensures Others(CollapsedOps(c)[o]) == TouchesOn(h, o)
    {
      ChainOps(h, o);
      assert o !in New(HistoryUpdates(h)) by { NotLater(c.x, HistoryUpdates(h), o); }
      ChainTells(h, o);
      ChainTouches(h, o);
    }
    forall o ensures Spans(c.renamed, o, Renames(h, o)) {
      RenameSpan(h, o);
    }
  }

  lemma NotLater(x: Index, us: seq<Update>, o: Ptr)
    requires Agrees(x, us) && o in x.cur
    ensures o !in New(us)
  {
    hide OnTrace, Follow, Seen, New, Replaced;
  }

  lemma {:induction false} HistoryNext(rs: seq<Revision>, i: nat)
    requires i < |rs|
    ensures rs[..i + 1][..i] == rs[..i] && History(rs[..i + 1]) <= History(rs)
    ensures History(rs[..i + 1]) == History(rs[..i]) + if rs[i].copied then [] else rs[i].ops
    decreases |rs|
  {
    assert rs[..i + 1][..i] == rs[..i];
    if i + 1 < |rs| {
      HistoryNext(rs[..|rs| - 1], i);
      assert rs[..|rs| - 1][..i + 1] == rs[..i + 1];
    } else {
      assert rs[..i + 1] == rs;
    }
  }

  lemma {:induction false} MakeStaysNone(h: seq<MDOp>, all: seq<MDOp>)
    requires h <= all && MakeAll(NONE, h) == None
    ensures MakeAll(NONE, all) == None
  {
    assert all[..|h|] == h && h != [];
    MakeFails(NONE, all, |h| - 1);
  }

  lemma RootNext(rs: seq<Revision>, i: nat)
    requires i < |rs|
    ensures OriginalRoot(rs[..i + 1]) ==
      var x, o := AddUpdates(EMPTY, HistoryUpdates(History(rs[..i + 1]))), OriginalRoot(rs[..i]);
      if o != 0 || rs[i].copied || rs[i].root !in x.recent then o else x.recent[rs[i].root]
  {
    assert rs[..i + 1][..i] == rs[..i];
  }

  lemma {:induction false} MakeFails(c: Chains, h: seq<MDOp>, i: nat)
    requires i < |h| && MakeAll(c, h[..i + 1]) == None
    ensures MakeAll(c, h) == None
    decreases |h|
  {
    if i + 1 == |h| {
      assert h[..i + 1] == h;
    } else {
      assert h[..|h| - 1][..i + 1] == h[..i + 1];
      MakeFails(c, h[..|h| - 1], i);
    }
  }

  // --- renames over a history -----------------------------------------------------------------------

  // One rename of a node, between parents named by their originals.
  datatype Rename = Rename(oldParent: Ptr, oldName: string, newParent: Ptr, newName: string)

  // The renames of the node with original o, in order.
  function Renames(h: seq<MDOp>, o: Ptr): seq<Rename> {
    if h == [] then []
    else
      var x, k := AddUpdates(EMPTY, HistoryUpdates(h)), h[|h| - 1].kind;
      Renames(h[..|h| - 1], o) +
      if k.RenameOp? && k.node != 0 && OriginOf(x, k.node) == o
      then
        var to := if k.newDir.Some? then k.newDir.value.ref else k.oldDir.ref;
        [Rename(OriginOf(x, k.oldDir.ref), k.oldName, OriginOf(x, to), k.newName)]
      else []
  }

  /** However often a node was renamed, what is kept is where it first came from and where it ended. */
  lemma {:induction false} RenameSpan(h: seq<MDOp>, o: Ptr)
    requires MakeAll(NONE, h).Some?
    ensures Spans(MakeAll(NONE, h).value.renamed, o, Renames(h, o))
  {
    if h != [] {
      hide AllUpdates, Puts, ExtendAll, PutAll;
      var k := |h| - 1;
      var c := MakeAll(NONE, h[..k]).value;
      RenameSpan(h[..k], o);
      MadeIndex(h);
      ExtendIndex(c, AllUpdates(h[k]));
      var c2 := Blocks(ExtendAll(c, AllUpdates(h[k])), h[k]);
      PutsKeep(c2, Puts(h[k]));
      SpanStep(c2, h[k], o, Renames(h[..k], o));
    }
  }

  ghost predicate Spans(renamed: map<Ptr, RenameInfo>, o: Ptr, rs: seq<Rename>) {
    && (o in renamed <==> rs != [])
    && (rs != [] ==> renamed[o] == RenameInfo(rs[0].oldParent, rs[0].oldName, rs[|rs| - 1].newParent,
                                              rs[|rs| - 1].newName))
  }

  lemma SpanStep(c: Chains, op: MDOp, o: Ptr, rs: seq<Rename>)
    requires Spans(c.renamed, o, rs)
    ensures var k := op.kind;
      Spans(Moved(c, op), o, rs +
        if k.RenameOp? && k.node != 0 && OriginOf(c.x, k.node) == o
        then [Rename(OriginOf(c.x, k.oldDir.ref), k.oldName, OriginOf(c.x, NewDirRef(k)), k.newName)] else [])
  {
  }
}
