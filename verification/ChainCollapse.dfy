/** The operations done to one directory over a stretch of history, and the removal of pairs that
    cancel each other out. */
module ChainCollapse {
  import opened Pointers

  // What happened to one node. Only creates and removes matter to a directory's entries.
  datatype Op =
    | Create(name: string, renamed: bool, what: int)
    | Rm(name: string)
    | Other(tag: int)

  predicate Touches(op: Op, n: string) {
    (op.Create? || op.Rm?) && op.name == n
  }

  // --- what operations mean -------------------------------------------------------------------

  // What an operation leaves under the name n.
  function Effect(op: Op, n: string, v: Option<int>): Option<int> {
    if !Touches(op, n) then v else if op.Create? then Some(op.what) else None
  }

  // What is under n after the first k operations, leaving out those at the indices in `gone`.
  function After(ops: seq<Op>, gone: set<nat>, k: nat, n: string, v: Option<int>): Option<int>
    requires k <= |ops|
  {
    if k == 0 then v
    else
      var w := After(ops, gone, k - 1, n, v);
      if k - 1 in gone then w else Effect(ops[k - 1], n, w)
  }

  // A directory after a sequence of operations.
  function Apply(ops: seq<Op>, dir: map<string, int>): map<string, int> {
    if ops == [] then dir
    else
      var d := Apply(ops[..|ops| - 1], dir);
      match ops[|ops| - 1]
      case Create(n, _, what) => d[n := what]
      case Rm(n) => d - {n}
      case Other(_) => d
  }

  function Get(dir: map<string, int>, n: string): Option<int> {
    if n in dir then Some(dir[n]) else None
  }

  // The chain comes from a real history of a directory: nothing is created over what exists,
  // except by a rename, and only what exists is removed.
  ghost predicate Legal(ops: seq<Op>, dir: map<string, int>) {
    forall k :: 0 <= k < |ops| ==> LegalAt(ops, k, dir)
  }

  ghost predicate LegalAt(ops: seq<Op>, k: nat, dir: map<string, int>)
    requires k < |ops|
  {
    match ops[k]
    case Create(n, renamed, _) => renamed || After(ops, {}, k, n, Get(dir, n)) == None
    case Rm(n) => After(ops, {}, k, n, Get(dir, n)) != None
    case Other(_) => true
  }

  // --- the scan --------------------------------------------------------------------------------

  // Open creates by name, and indices to be removed.
  datatype Scan = Scan(seen: map<string, nat>, gone: set<nat>)

  function Step(s: Scan, op: Op, i: nat): Scan {
    match op
    case Create(n, renamed, _) =>
      Scan(s.seen[n := i], if renamed && n in s.seen then s.gone + {s.seen[n]} else s.gone)
    case Rm(n) =>
      if n in s.seen then Scan(s.seen - {n}, s.gone + {s.seen[n], i}) else s
    case Other(_) => s
  }

  function ScanTo(ops: seq<Op>, k: nat): Scan
    requires k <= |ops|
  {
    if k == 0 then Scan(map[], {}) else Step(ScanTo(ops, k - 1), ops[k - 1], k - 1)
  }

  function Keep(ops: seq<Op>, gone: set<nat>, k: nat): seq<Op>
    requires k <= |ops|
  {
    if k == 0 then [] else Keep(ops, gone, k - 1) + if k - 1 in gone then [] else [ops[k - 1]]
  }

  function Collapsed(ops: seq<Op>): seq<Op> {
    Keep(ops, ScanTo(ops, |ops|).gone, |ops|)
  }

  // --- what the scan has found about one name ---------------------------------------------------

  // Operation j counts for n: it touches n and is not marked for removal.
  predicate Kept(ops: seq<Op>, gone: set<nat>, n: string, j: nat) {
    j < |ops| && j !in gone && Touches(ops[j], n)
  }

  // Index of the first of k operations that touches n, or -1.
  function First(ops: seq<Op>, k: nat, n: string): (f: int)
    requires k <= |ops|
    ensures -1 <= f < k && (f >= 0 ==> Touches(ops[f], n))
    ensures forall j :: 0 <= j < k && (f == -1 || j < f) ==> !Touches(ops[j], n)
  {
    if k == 0 then -1
    else if First(ops, k - 1, n) >= 0 then First(ops, k - 1, n)
    else if Touches(ops[k - 1], n) then k - 1 else -1
  }

  // The open create of n is the last operation on n that counts.
  ghost predicate OpenAt(ops: seq<Op>, k: nat, s: Scan, n: string, t: Option<int>) {
    && n in s.seen && s.seen[n] < k && Kept(ops, s.gone, n, s.seen[n]) && ops[s.seen[n]].Create?
    && t == Some(ops[s.seen[n]].what)
    && forall j :: s.seen[n] < j < k ==> !Kept(ops, s.gone, n, j)
  }

  ghost predicate Pairs(ops: seq<Op>, k: nat, gone: set<nat>, n: string) {
    forall i, j :: 0 <= i < j < k && Kept(ops, gone, n, i) && Kept(ops, gone, n, j) ==> ops[i].Rm? && ops[j].Create?
  }

  ghost predicate All(ops: seq<Op>, k: nat, gone: set<nat>, n: string, creates: bool) {
    forall j :: 0 <= j < k && Kept(ops, gone, n, j) ==> ops[j].Create? == creates
  }

  ghost predicate Inv(ops: seq<Op>, k: nat, s: Scan, n: string, t: Option<int>)
    requires k <= |ops|
  {
    && (forall j :: j in s.gone ==> j < k)
    && (n in s.seen ==> OpenAt(ops, k, s, n, t))
    && (n !in s.seen ==> All(ops, k, s.gone, n, false))
    && (n !in s.seen && t.Some? ==> First(ops, k, n) == -1)
    && Pairs(ops, k, s.gone, n)
    && (First(ops, k, n) >= 0 ==>
      if ops[First(ops, k, n)].Rm? then Kept(ops, s.gone, n, First(ops, k, n)) else All(ops, k, s.gone, n, true))
  }

  lemma InvElsewhere(ops: seq<Op>, k: nat, s: Scan, n: string, m: string, t: Option<int>, u: Option<int>)
    requires k < |ops| && Inv(ops, k, s, n, t) && !Touches(ops[k], n)
    requires Touches(ops[k], m) ==> Inv(ops, k, s, m, u)
    requires (ops[k].Create? || ops[k].Rm?) ==> Touches(ops[k], m)
    ensures Inv(ops, k + 1, Step(s, ops[k], k), n, t)
  {
    var s' := Step(s, ops[k], k);
    forall j | 0 <= j < |ops| ensures Kept(ops, s'.gone, n, j) == Kept(ops, s.gone, n, j) {
    }
  }

  lemma InvCreate(ops: seq<Op>, k: nat, s: Scan, n: string, t: Option<int>)
    requires k < |ops| && Inv(ops, k, s, n, t) && Touches(ops[k], n) && ops[k].Create? && (ops[k].renamed || t == None)
    ensures Inv(ops, k + 1, Step(s, ops[k], k), n, Some(ops[k].what))
  {
    var s' := Step(s, ops[k], k);
    assert n in s.seen ==> ops[k].renamed;
    forall j | 0 <= j < k
      ensures Kept(ops, s'.gone, n, j) == (Kept(ops, s.gone, n, j) && !(n in s.seen && j == s.seen[n]))
    {
    }
    assert All(ops, k, s'.gone, n, false);
    assert Kept(ops, s'.gone, n, k);
  }

  lemma InvRm(ops: seq<Op>, k: nat, s: Scan, n: string, t: Option<int>)
    requires k < |ops| && Inv(ops, k, s, n, t) && Touches(ops[k], n) && ops[k].Rm? && t != None
    ensures Inv(ops, k + 1, Step(s, ops[k], k), n, None)
  {
    var s' := Step(s, ops[k], k);
    if n in s.seen {
      forall j | 0 <= j <= k ensures Kept(ops, s'.gone, n, j) == (j < k && Kept(ops, s.gone, n, j) && j != s.seen[n]) {
      }
    }
  }

  lemma {:induction false} Scanned(ops: seq<Op>, k: nat, n: string, dir: map<string, int>)
    requires k <= |ops| && Legal(ops, dir)
    ensures Inv(ops, k, ScanTo(ops, k), n, After(ops, {}, k, n, Get(dir, n)))
  {
    hide Inv;
    if k > 0 {
      var s, op := ScanTo(ops, k - 1), ops[k - 1];
      Scanned(ops, k - 1, n, dir);
      assert LegalAt(ops, k - 1, dir);
      if !Touches(op, n) {
        var m := if op.Other? then n else op.name;
        Scanned(ops, k - 1, m, dir);
        InvElsewhere(ops, k - 1, s, n, m, After(ops, {}, k - 1, n, Get(dir, n)), After(ops, {}, k - 1, m, Get(dir, m)));
      } else if op.Create? {
        InvCreate(ops, k - 1, s, n, After(ops, {}, k - 1, n, Get(dir, n)));
      } else {
        InvRm(ops, k - 1, s, n, After(ops, {}, k - 1, n, Get(dir, n)));
      }
    } else {
      NothingScanned(ops, n, Get(dir, n));
    }
  }

  lemma NothingScanned(ops: seq<Op>, n: string, v: Option<int>)
    ensures Inv(ops, 0, Scan(map[], {}), n, v)
  {
  }

  // --- what collapsing keeps ---------------------------------------------------------------------

  lemma {:induction false} NoneKept(ops: seq<Op>, gone: set<nat>, k: nat, n: string, v: Option<int>)
    requires k <= |ops| && forall j :: 0 <= j < k ==> !Kept(ops, gone, n, j)
    ensures After(ops, gone, k, n, v) == v
  {
    if k > 0 {
      assert !Kept(ops, gone, n, k - 1);
      NoneKept(ops, gone, k - 1, n, v);
    }
  }

  lemma {:induction false} LastKept(ops: seq<Op>, gone: set<nat>, k: nat, n: string, v: Option<int>, i: nat)
    requires i < k <= |ops| && Kept(ops, gone, n, i) && forall j :: i < j < k ==> !Kept(ops, gone, n, j)
    ensures After(ops, gone, k, n, v) == if ops[i].Create? then Some(ops[i].what) else None
  {
    if i < k - 1 {
      assert !Kept(ops, gone, n, k - 1);
      LastKept(ops, gone, k - 1, n, v, i);
    }
  }

  lemma {:induction false} KeepApply(ops: seq<Op>, gone: set<nat>, k: nat, dir: map<string, int>, n: string)
    requires k <= |ops|
    ensures Get(Apply(Keep(ops, gone, k), dir), n) == After(ops, gone, k, n, Get(dir, n))
  {
    if k > 0 {
      KeepApply(ops, gone, k - 1, dir, n);
      if k - 1 !in gone {
        assert Keep(ops, gone, k)[..|Keep(ops, gone, k)| - 1] == Keep(ops, gone, k - 1);
      } else {
        assert Keep(ops, gone, k) == Keep(ops, gone, k - 1);
      }
    }
  }

  lemma {:induction false} KeepAll(ops: seq<Op>, gone: set<nat>, k: nat)
    requires k <= |ops| && forall j :: 0 <= j < k ==> j !in gone
    ensures Keep(ops, gone, k) == ops[..k]
  {
    if k > 0 { KeepAll(ops, gone, k - 1); }
  }

  // A name that was there before, was first overwritten by a rename, and in the end removed.
  ghost predicate Lost(ops: seq<Op>, dir: map<string, int>, n: string) {
    var f := First(ops, |ops|, n);
    n in dir && n !in Apply(ops, dir) && f >= 0 && ops[f].Create?
  }

  lemma {:induction false} CollapsedAt(ops: seq<Op>, dir: map<string, int>, n: string)
    requires Legal(ops, dir)
    ensures (Get(Apply(Collapsed(ops), dir), n) == Get(Apply(ops, dir), n)) <==> !Lost(ops, dir, n)
  {
    var gone, v := ScanTo(ops, |ops|).gone, Get(dir, n);
    Scanned(ops, |ops|, n, dir);
    KeepApply(ops, gone, |ops|, dir, n);
    KeepApply(ops, {}, |ops|, dir, n);
    KeepAll(ops, {}, |ops|);
    assert ops[..|ops|] == ops;
    if n in ScanTo(ops, |ops|).seen {
      LastKept(ops, gone, |ops|, n, v, ScanTo(ops, |ops|).seen[n]);
    } else if First(ops, |ops|, n) >= 0 && ops[First(ops, |ops|, n)].Rm? {
      OneKept(ops, gone, n, v, First(ops, |ops|, n));
    } else {
      NoneKept(ops, gone, |ops|, n, v);
      if First(ops, |ops|, n) == -1 { NoneKept(ops, {}, |ops|, n, v); }
    }
  }

  lemma OneKept(ops: seq<Op>, gone: set<nat>, n: string, v: Option<int>, f: nat)
    requires Kept(ops, gone, n, f) && All(ops, |ops|, gone, n, false) && Pairs(ops, |ops|, gone, n)
    ensures After(ops, gone, |ops|, n, v) == None
  {
    LastKept(ops, gone, |ops|, n, v, f);
  }

  /** Collapsing a chain leaves what it does to a directory unchanged exactly when it loses no
      name that a rename first overwrote and that was removed in the end. */
  lemma {:induction false} CollapseMeaning(ops: seq<Op>, dir: map<string, int>)
    requires Legal(ops, dir)
    ensures Apply(Collapsed(ops), dir) == Apply(ops, dir) <==> forall n :: n in dir ==> !Lost(ops, dir, n)
  {
    var c, d := Apply(Collapsed(ops), dir), Apply(ops, dir);
    forall n ensures (Get(c, n) == Get(d, n)) <==> !Lost(ops, dir, n) {
      CollapsedAt(ops, dir, n);
    }
    if forall n :: n in dir ==> !Lost(ops, dir, n) {
      forall n ensures Get(c, n) == Get(d, n) {
        assert !Lost(ops, dir, n);
      }
      SameMap(c, d);
    }
  }

  lemma SameMap(c: map<string, int>, d: map<string, int>)
    requires forall n :: Get(c, n) == Get(d, n)
    ensures c == d
  {
    forall n ensures n in c <==> n in d { assert Get(c, n) == Get(d, n); }
    forall n | n in c ensures c[n] == d[n] { assert Get(c, n) == Get(d, n); }
  }

  // A rename over a name that was there before, such as a symbolic link's, and its removal: the
  // chain becomes empty, and the old entry stays.
  lemma CollapseLoses()
    ensures var ops, dir := [Create("a", true, 1), Rm("a")], map["a" := 0];
      Legal(ops, dir) && Apply(ops, dir) == map[] && Collapsed(ops) == []
  {
    var ops, dir := [Create("a", true, 1), Rm("a")], map["a" := 0];
    assert ops[..1] == [Create("a", true, 1)] && ops[..1][..0] == [];
    assert Apply(ops[..1], dir) == map["a" := 1];
    assert After(ops, {}, 1, "a", Some(0)) == Some(1);
    forall k | 0 <= k < |ops| ensures LegalAt(ops, k, dir) {
      if k == 1 { assert ops[1] == Rm("a"); }
    }
    assert ScanTo(ops, 1) == Scan(map["a" := 0], {});
    assert ScanTo(ops, 2).gone == {0, 1};
    assert Keep(ops, {0, 1}, 1) == [];
  }

  // Of any name, a collapsed chain holds at most one remove and then at most one create.
  ghost predicate Normal(ops: seq<Op>) {
    forall i, j, n :: 0 <= i < j < |ops| && Touches(ops[i], n) && Touches(ops[j], n) ==> ops[i].Rm? && ops[j].Create?
  }

  lemma {:induction false} KeepFrom(ops: seq<Op>, gone: set<nat>, k: nat, i: nat) returns (j: nat)
    requires k <= |ops| && i < |Keep(ops, gone, k)|
    ensures j < k && j !in gone && ops[j] == Keep(ops, gone, k)[i]
  {
    if i < |Keep(ops, gone, k - 1)| {
      j := KeepFrom(ops, gone, k - 1, i);
    } else {
      j := k - 1;
    }
  }

  lemma {:induction false} KeepNormal(ops: seq<Op>, gone: set<nat>, k: nat)
    requires k <= |ops| && forall n :: Pairs(ops, |ops|, gone, n)
    ensures Normal(Keep(ops, gone, k))
  {
    if k > 0 {
      KeepNormal(ops, gone, k - 1);
      var kept := Keep(ops, gone, k);
      forall i, j, n | 0 <= i < j < |kept| && Touches(kept[i], n) && Touches(kept[j], n)
        ensures kept[i].Rm? && kept[j].Create?
      {
        if j == |Keep(ops, gone, k - 1)| {
          var f := KeepFrom(ops, gone, k - 1, i);
          assert Pairs(ops, |ops|, gone, n) && Kept(ops, gone, n, f) && Kept(ops, gone, n, k - 1);
        }
      }
    }
  }

  lemma {:induction false} NormalScan(ops: seq<Op>, k: nat)
    requires Normal(ops) && k <= |ops|
    ensures ScanTo(ops, k).gone == {}
    ensures forall n :: n in ScanTo(ops, k).seen ==>
      ScanTo(ops, k).seen[n] < k && Touches(ops[ScanTo(ops, k).seen[n]], n) && ops[ScanTo(ops, k).seen[n]].Create?
  {
    if k > 0 { NormalScan(ops, k - 1); }
  }

  /** A collapsed chain is in normal form, and collapsing it again changes nothing. */
  lemma {:induction false} CollapseNormal(ops: seq<Op>, dir: map<string, int>)
    requires Legal(ops, dir)
    ensures Normal(Collapsed(ops)) && Collapsed(Collapsed(ops)) == Collapsed(ops)
  {
    forall n ensures Pairs(ops, |ops|, ScanTo(ops, |ops|).gone, n) {
      Scanned(ops, |ops|, n, dir);
    }
    KeepNormal(ops, ScanTo(ops, |ops|).gone, |ops|);
    var once := Collapsed(ops);
    NormalScan(once, |once|);
    KeepAll(once, {}, |once|);
    assert once[..|once|] == once;
  }

  function Others(ops: seq<Op>): seq<Op> {
    if ops == [] then []
    else Others(ops[..|ops| - 1]) + if ops[|ops| - 1].Other? then [ops[|ops| - 1]] else []
  }

  lemma {:induction false} GoneTouches(ops: seq<Op>, k: nat)
    requires k <= |ops|
    ensures forall j :: j in ScanTo(ops, k).gone ==> j < k && !ops[j].Other?
    ensures forall n :: n in ScanTo(ops, k).seen ==> ScanTo(ops, k).seen[n] < k && !ops[ScanTo(ops, k).seen[n]].Other?
  {
    if k > 0 { GoneTouches(ops, k - 1); }
  }

  lemma OthersLast(ops: seq<Op>, op: Op)
    ensures Others(ops + [op]) == Others(ops) + if op.Other? then [op] else []
  {
    assert (ops + [op])[..|ops|] == ops;
  }

  lemma {:induction false} KeepOthers(ops: seq<Op>, gone: set<nat>, k: nat)
    requires k <= |ops| && forall j :: j in gone && j < |ops| ==> !ops[j].Other?
    ensures Others(Keep(ops, gone, k)) == Others(ops[..k])
  {
    hide Others;
    if k > 0 {
      KeepOthers(ops, gone, k - 1);
      var kept := Keep(ops, gone, k - 1);
      assert Keep(ops, gone, k) == if k - 1 in gone then kept else kept + [ops[k - 1]];
      OthersLast(kept, ops[k - 1]);
      OthersLast(ops[..k - 1], ops[k - 1]);
      assert ops[..k] == ops[..k - 1] + [ops[k - 1]];
    }
  }

  /** Whatever the chain, operations that are neither create nor remove all stay, in order. */
  lemma CollapseOthers(ops: seq<Op>)
    ensures Others(Collapsed(ops)) == Others(ops)
  {
    GoneTouches(ops, |ops|);
    KeepOthers(ops, ScanTo(ops, |ops|).gone, |ops|);
    assert ops[..|ops|] == ops;
  }

  // The chain of one node, and the loops that collapse it.
  class CrChain {
    var ops: seq<Op>
    var original: nat
    var mostRecent: nat

    constructor (original: nat, mostRecent: nat)
      ensures ops == [] && this.original == original && this.mostRecent == mostRecent
    {
      ops := [];
      this.original := original;
      this.mostRecent := mostRecent;
    }

    method Collapse()
      modifies this`ops
      ensures ops == Collapsed(old(ops))
    {
      var createsSeen: map<string, nat> := map[];
      var toRemove: set<nat> := {};
      for i := 0 to |ops|
        invariant Scan(createsSeen, toRemove) == ScanTo(ops, i)
      {
        match ops[i] {
          case Create(n, renamed, _) =>
            if renamed && n in createsSeen {
              toRemove := toRemove + {createsSeen[n]};
            }
            createsSeen := createsSeen[n := i];
          case Rm(n) =>
            if n in createsSeen {
              toRemove := toRemove + {createsSeen[n], i};
              createsSeen := createsSeen - {n};
            }
          case Other(_) =>
        }
      }
      if |toRemove| > 0 {
        var kept: seq<Op> := [];
        for i := 0 to |ops|
          invariant kept == Keep(ops, toRemove, i)
        {
          if i !in toRemove {
            kept := kept + [ops[i]];
          }
        }
        ops := kept;
      } else {
        KeepAll(ops, {}, |ops|);
      }
    }
  }
}
