/** What a stretch of history does to the directories themselves, and what their chains say about it. */
module ChainReplay {
  import opened ChainCollapse
  import opened ChainHistory
  import opened CRChains
  import opened Pointers

  type Dir = map<string, int>

  // The directories by their current pointers. One that is not listed is empty.
  type Dirs = map<Ptr, Dir>

  function DirAt(fs: Dirs, p: Ptr): Dir {
    if p in fs then fs[p] else map[]
  }

  // A pointer is replaced: what was behind the old one is behind the new one.
  function Move(fs: Dirs, u: Update): Dirs {
    (fs - {u.unref})[u.ref := DirAt(fs, u.unref)]
  }

  function MoveAll(fs: Dirs, us: seq<Update>): Dirs {
    if us == [] then fs else Move(MoveAll(fs, us[..|us| - 1]), us[|us| - 1])
  }

  function Removed(fs: Dirs, p: Ptr, n: string): Dirs {
    fs[p := DirAt(fs, p) - {n}]
  }

  function Added(fs: Dirs, p: Ptr, n: string, what: int): Dirs {
    fs[p := DirAt(fs, p)[n := what]]
  }

  // What an operation does to the directories.
  function Do(fs: Dirs, op: MDOp): Dirs {
    match op.kind
    case CreateOp(n, dir, what) => Added(fs, dir.ref, n, what)
    case RmOp(n, dir) => Removed(fs, dir.ref, n)
    case RenameOp(n, oldDir, m, newDir, _, what) =>
      var to := if newDir.Some? then newDir.value.ref else oldDir.ref;
      Added(Removed(fs, oldDir.ref, n), to, m, what)
    case _ => fs
  }

  function Replay(fs: Dirs, h: seq<MDOp>): Dirs {
    if h == [] then fs else Do(MoveAll(Replay(fs, h[..|h| - 1]), AllUpdates(h[|h| - 1])), h[|h| - 1])
  }

  // The operation could be done: a name is created only where there is none, only what is there is
  // removed or renamed, and a rename drops blocks only if it overwrites something else.
  ghost predicate CanDo(fs: Dirs, op: MDOp) {
    match op.kind
    case CreateOp(n, dir, _) => n !in DirAt(fs, dir.ref)
    case RmOp(n, dir) => n in DirAt(fs, dir.ref)
    case RenameOp(n, oldDir, m, newDir, _, _) =>
      var to := if newDir.Some? then newDir.value.ref else oldDir.ref;
      n in DirAt(fs, oldDir.ref) && (op.unrefs != {} ==> m in DirAt(Removed(fs, oldDir.ref, n), to))
    case _ => true
  }

  // Every operation of the history could be done in its turn.
  ghost predicate CanReplay(fs: Dirs, h: seq<MDOp>) {
    h != [] ==>
      CanReplay(fs, h[..|h| - 1]) && CanDo(MoveAll(Replay(fs, h[..|h| - 1]), AllUpdates(h[|h| - 1])), h[|h| - 1])
  }

  // --- the same, as the operations that go on the chains ------------------------------------------------

  function DoPut(fs: Dirs, put: (Ptr, Op)): Dirs {
    match put.1
    case Create(n, _, what) => Added(fs, put.0, n, what)
    case Rm(n) => Removed(fs, put.0, n)
    case Other(_) => fs
  }

  function DoPuts(fs: Dirs, puts: seq<(Ptr, Op)>): Dirs {
    if puts == [] then fs else DoPut(DoPuts(fs, puts[..|puts| - 1]), puts[|puts| - 1])
  }

  ghost predicate LegalNow(op: Op, dir: Dir) {
    match op
    case Create(n, renamed, _) => renamed || n !in dir
    case Rm(n) => n in dir
    case Other(_) => true
  }

  ghost predicate LegalPuts(fs: Dirs, puts: seq<(Ptr, Op)>) {
    puts != [] ==>
      && LegalPuts(fs, puts[..|puts| - 1])
      && LegalNow(puts[|puts| - 1].1, DirAt(DoPuts(fs, puts[..|puts| - 1]), puts[|puts| - 1].0))
  }

  lemma DoPutsOne(fs: Dirs, a: (Ptr, Op))
    ensures DoPuts(fs, [a]) == DoPut(fs, a) && (LegalPuts(fs, [a]) <==> LegalNow(a.1, DirAt(fs, a.0)))
  {
    assert [a][..0] == [];
  }

  lemma DoPutsMore(fs: Dirs, puts: seq<(Ptr, Op)>, a: (Ptr, Op))
    ensures DoPuts(fs, puts + [a]) == DoPut(DoPuts(fs, puts), a)
    ensures LegalPuts(fs, puts + [a]) <==> LegalPuts(fs, puts) && LegalNow(a.1, DirAt(DoPuts(fs, puts), a.0))
  {
    assert (puts + [a])[..|puts|] == puts;
  }

  lemma DoAsPuts(fs: Dirs, op: MDOp)
    ensures Do(fs, op) == DoPuts(fs, Puts(op)) && (CanDo(fs, op) <==> LegalPuts(fs, Puts(op)))
  {
    hide DoPuts, LegalPuts;
    match op.kind
    case CreateOp(n, dir, what) => DoPutsOne(fs, Puts(op)[0]);
    case RmOp(n, dir) => DoPutsOne(fs, Puts(op)[0]);
    case RenameOp(n, oldDir, m, _, _, what) =>
      var p := NewDirRef(op.kind);
      var gone := [(oldDir.ref, Rm(n))];
      DoPutsOne(fs, gone[0]);
      if op.unrefs != {} {
        DoPutsMore(fs, gone, (p, Rm(m)));
        DoPutsMore(fs, gone + [(p, Rm(m))], (p, Create(m, true, what)));
        Overwrite(DoPuts(fs, gone), p, m, what);
      } else {
        assert gone + [] == gone;
        DoPutsMore(fs, gone, (p, Create(m, true, what)));
      }
    case SyncOp(_, _) => DoPutsOne(fs, Puts(op)[0]);
    case SetAttrOp(_, _, _) => DoPutsOne(fs, Puts(op)[0]);
    case Neutral => assert DoPuts(fs, []) == fs && LegalPuts(fs, []) by { NoPuts(fs); }
  }

  lemma Overwrite(fs: Dirs, p: Ptr, n: string, what: int)
    ensures Added(Removed(fs, p, n), p, n, what) == Added(fs, p, n, what)
  {
    assert (DirAt(fs, p) - {n})[n := what] == DirAt(fs, p)[n := what];
  }

  lemma NoPuts(fs: Dirs)
    ensures DoPuts(fs, []) == fs && LegalPuts(fs, [])
  {
  }

  // --- one chain ------------------------------------------------------------------------------------------

  lemma {:induction false} AfterApply(ops: seq<Op>, k: nat, dir: Dir, n: string)
    requires k <= |ops|
    ensures After(ops, {}, k, n, Get(dir, n)) == Get(Apply(ops[..k], dir), n)
  {
    KeepApply(ops, {}, k, dir, n);
    KeepAll(ops, {}, k);
  }

  lemma LegalMore(ops: seq<Op>, op: Op, dir: Dir)
    requires Legal(ops, dir) && LegalNow(op, Apply(ops, dir))
    ensures Legal(ops + [op], dir)
  {
    hide Apply, Get, After;
    var all := ops + [op];
    forall k | 0 <= k < |all| ensures LegalAt(all, k, dir) {
      assert all[..k] == ops[..k];
      if all[k].Create? || all[k].Rm? {
        AfterApply(all, k, dir, all[k].name);
        Gets(Apply(all[..k], dir), all[k].name);
        if k < |ops| {
          assert LegalAt(ops, k, dir);
          AfterApply(ops, k, dir, all[k].name);
        } else {
          assert ops[..k] == ops;
        }
      }
    }
  }

  lemma Gets(dir: Dir, n: string)
    ensures Get(dir, n) == None <==> n !in dir
  {
  }

  lemma {:induction false} PutsReplay(x: Index, fs: Dirs, puts: seq<(Ptr, Op)>, o: Ptr, p: Ptr, ops: seq<Op>, dir: Dir)
    requires IsAt(x, o, p) && (forall a :: a in puts ==> a.0 in x.recent) && LegalPuts(fs, puts)
    requires Legal(ops, dir) && DirAt(fs, p) == Apply(ops, dir)
    ensures Legal(ops + Select(x, puts, o), dir) && DirAt(DoPuts(fs, puts), p) == Apply(ops + Select(x, puts, o), dir)
  {
    hide Legal, LegalNow, Apply, DoPut, DirAt;
    if puts == [] {
      assert ops + Select(x, puts, o) == ops;
    } else {
      var k := |puts| - 1;
      var a, now := puts[k], ops + Select(x, puts[..k], o);
      PutsReplay(x, fs, puts[..k], o, p, ops, dir);
      assert a in puts;
      PutReplay(DoPuts(fs, puts[..k]), a, p, now, dir);
      assert ops + Select(x, puts, o) == if a.0 == p then now + [a.1] else now;
    }
  }

  lemma PutReplay(fs: Dirs, a: (Ptr, Op), p: Ptr, ops: seq<Op>, dir: Dir)
    requires Legal(ops, dir) && DirAt(fs, p) == Apply(ops, dir) && LegalNow(a.1, DirAt(fs, a.0))
    ensures var more := if a.0 == p then ops + [a.1] else ops;
      Legal(more, dir) && DirAt(DoPut(fs, a), p) == Apply(more, dir)
  {
    hide Legal;
    if a.0 == p {
      LegalMore(ops, a.1, dir);
      assert (ops + [a.1])[..|ops|] == ops;
    }
  }

  // --- a whole history --------------------------------------------------------------------------------------

  // Moving pointers leaves every directory as it is, wherever it has got to.
  lemma {:induction false} MoveFollows(fs: Dirs, us: seq<Update>, vs: seq<Update>, o: Ptr)
    requires Linear(us + vs) && o !in New(us + vs)
    ensures DirAt(MoveAll(fs, vs), Follow(us + vs, o)) == DirAt(fs, Follow(us, o))
    decreases |vs|
  {
    if vs == [] {
      assert us + vs == us;
    } else {
      var k := |vs| - 1;
      var before, u := us + vs[..k], vs[k];
      assert (us + vs)[..|us + vs| - 1] == before && us + vs == before + [u];
      SeenSnoc(before, u);
      MoveFollows(fs, us, vs[..k], o);
      FollowSeen(before, o);
    }
  }

  lemma {:induction false} FollowSeen(us: seq<Update>, o: Ptr)
    ensures Follow(us, o) in Seen(us) || Follow(us, o) == o
  {
    if us != [] {
      var k := |us| - 1;
      FollowSeen(us[..k], o);
      assert us[k] in us;
      SeenSnoc(us[..k], us[k]);
      assert us == us[..k] + [us[k]];
    }
  }

  /** The operations on each directory's chain are those of a real directory: one by one they can be done,
      and on the directory as it was they give the directory as it is, under its current pointer. */
  lemma {:induction false} ChainReplays(fs: Dirs, h: seq<MDOp>, o: Ptr)
    requires Linear(HistoryUpdates(h)) && MakeAll(NONE, h).Some? && CanReplay(fs, h) && o !in New(HistoryUpdates(h))
    ensures Legal(OpsFor(h, o), DirAt(fs, o))
    ensures DirAt(Replay(fs, h), Follow(HistoryUpdates(h), o)) == Apply(OpsFor(h, o), DirAt(fs, o))
  {
    hide Linear, Legal, New, MakeChain, AddUpdates, Follow, AllUpdates, Puts, Do, CanDo, MoveAll, Select, Apply;
    if h == [] {
      assert Legal([], DirAt(fs, o)) && Apply([], DirAt(fs, o)) == DirAt(fs, o) && Follow([], o) == o
        by { Nothing(DirAt(fs, o), o); }
    } else {
      var k := |h| - 1;
      var us, vs, op := HistoryUpdates(h[..k]), AllUpdates(h[k]), h[k];
      var fs0 := Replay(fs, h[..k]);
      NotNew(us, vs, o);
      ChainReplays(fs, h[..k], o);
      MoveFollows(fs0, us, vs, o);
      WhereIsIt(us + vs, o);
      HistoryFound(h);
      DoAsPuts(MoveAll(fs0, vs), op);
      PutsReplay(AddUpdates(EMPTY, us + vs), MoveAll(fs0, vs), Puts(op), o, Follow(us + vs, o), OpsFor(h[..k], o),
                 DirAt(fs, o));
    }
  }

  lemma Nothing(dir: Dir, o: Ptr)
    ensures Legal([], dir) && Apply([], dir) == dir && Follow([], o) == o
  {
  }

  /** The chains a history leaves, replayed on a directory from before it, give the directory as it is
      now, under its current pointer, exactly when collapsing lost no overwritten name. */
  lemma {:induction false} CollapsedReplays(fs: Dirs, h: seq<MDOp>, o: Ptr)
    requires Linear(HistoryUpdates(h)) && MakeAll(NONE, h).Some? && CanReplay(fs, h) && o !in New(HistoryUpdates(h))
    ensures
      Apply(Collapsed(OpsFor(h, o)), DirAt(fs, o)) == DirAt(Replay(fs, h), Follow(HistoryUpdates(h), o)) <==>
      forall n :: n in DirAt(fs, o) ==> !Lost(OpsFor(h, o), DirAt(fs, o), n)
  {
    hide Lost, Apply, Collapsed, Legal;
    ChainReplays(fs, h, o);
    CollapseMeaning(OpsFor(h, o), DirAt(fs, o));
  }
}
