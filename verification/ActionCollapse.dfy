/** Dropping the conflict-resolution actions that other actions of the same list make irrelevant. */
module ActionCollapse {

  datatype Action =
    | RenameUnmerged(fromName: string, toName: string)
    | CopyUnmergedEntry(fromName: string, toName: string)
    | CopyUnmergedAttr(fromName: string, toName: string, attr: seq<int>)
    | RenameMerged(fromName: string, toName: string)
    | Other(tag: int)  // removals of merged entries and dropped operations

  // Keeps actions on merged entries apart from those on unmerged ones.
  const MERGED_PREFIX := ".kbfs_merged_"

  predicate Keyed(a: Action) {
    !a.Other?
  }

  function Key(a: Action): string
    requires Keyed(a)
  {
    if a.RenameMerged? then MERGED_PREFIX + a.fromName else a.fromName
  }

  predicate HasKey(a: Action, k: string) {
    Keyed(a) && Key(a) == k
  }

  // Adds the attributes that are not there yet.
  function Merge(top: seq<int>, more: seq<int>): seq<int> {
    if more == [] then top
    else
      var sofar := Merge(top, more[..|more| - 1]);
      if more[|more| - 1] in sofar then sofar else sofar + [more[|more| - 1]]
  }

  // --- the scan ----------------------------------------------------------------------------------

  // The actions with attributes merged so far, the top action of each key, and what is to go.
  datatype Scan = Scan(acts: seq<Action>, top: map<string, nat>, gone: set<nat>)

  function SetTop(s: Scan, k: string, i: nat): Scan {
    s.(top := s.top[k := i], gone := if k in s.top then s.gone + {s.top[k]} else s.gone)
  }

  function Step(s: Scan, i: nat): Scan
    requires i < |s.acts|
  {
    var a := s.acts[i];
    if a.Other? then s
    else
      var k := Key(a);
      var top := if k in s.top && s.top[k] < |s.acts| then s.acts[s.top[k]] else Other(0);
      if a.CopyUnmergedEntry? && top.RenameUnmerged? then s.(gone := s.gone + {i})
      else if a.CopyUnmergedAttr? && (top.RenameUnmerged? || top.CopyUnmergedEntry?) then s.(gone := s.gone + {i})
      else if a.CopyUnmergedAttr? && top.CopyUnmergedAttr? then
        s.(acts := s.acts[s.top[k] := top.(attr := Merge(top.attr, a.attr))], gone := s.gone + {i})
      else SetTop(s, k, i)
  }

  function ScanTo(acts: seq<Action>, n: nat): (s: Scan)
    requires n <= |acts|
    ensures |s.acts| == |acts|
  {
    if n == 0 then Scan(acts, map[], {}) else Step(ScanTo(acts, n - 1), n - 1)
  }

  function Keep(acts: seq<Action>, gone: set<nat>, n: nat): seq<Action>
    requires n <= |acts|
  {
    if n == 0 then [] else Keep(acts, gone, n - 1) + if n - 1 in gone then [] else [acts[n - 1]]
  }

  function Collapsed(acts: seq<Action>): seq<Action> {
    var s := ScanTo(acts, |acts|);
    Keep(s.acts, s.gone, |acts|)
  }

  // --- what it leaves ------------------------------------------------------------------------------

  // Of k's actions among the first n all but the top one are to go, and there is a top one if
  // there is any.
  ghost predicate OneLeft(acts: seq<Action>, n: nat, s: Scan, k: string)
    requires n <= |acts|
  {
    && (k in s.top ==> s.top[k] < n && HasKey(acts[s.top[k]], k) && s.top[k] !in s.gone)
    && forall j :: 0 <= j < n && HasKey(acts[j], k) ==> k in s.top && (j == s.top[k] || j in s.gone)
  }

  // The scan changes attributes only, and never an action it has not come to.
  ghost predicate SameActs(acts: seq<Action>, n: nat, s: Scan) {
    && |s.acts| == |acts|
    && (forall j :: n <= j < |acts| ==> s.acts[j] == acts[j])
    && forall j :: 0 <= j < |acts| ==> SameBut(s.acts[j], acts[j])
  }

  predicate SameBut(a: Action, b: Action) {
    a == b || (a.CopyUnmergedAttr? && b.CopyUnmergedAttr? && a.fromName == b.fromName && a.toName == b.toName)
  }

  ghost predicate Scanned(acts: seq<Action>, n: nat, s: Scan)
    requires n <= |acts|
  {
    && SameActs(acts, n, s) && (forall j :: j in s.gone ==> j < n && Keyed(acts[j]))
    && (forall k :: OneLeft(acts, n, s, k))
    && forall k :: k in s.top ==> s.top[k] < n
  }

  lemma StepOneLeft(acts: seq<Action>, n: nat, s: Scan, k: string)
    requires n < |acts| && |s.acts| == |acts| && s.acts[n] == acts[n]
    requires OneLeft(acts, n, s, k) && (Keyed(acts[n]) ==> OneLeft(acts, n, s, Key(acts[n])))
    requires forall j :: j in s.gone ==> j < n
    ensures OneLeft(acts, n + 1, Step(s, n), k)
  {
  }

  lemma StepScanned(acts: seq<Action>, n: nat, s: Scan)
    requires n < |acts| && Scanned(acts, n, s)
    ensures Scanned(acts, n + 1, Step(s, n))
  {
    hide OneLeft, Merge;
    var s', m := Step(s, n), n + 1;
    assert s.acts[n] == acts[n];
    forall k: string ensures OneLeft(acts, m, s', k) {
      assert OneLeft(acts, n, s, k);
      StepOneLeft(acts, n, s, k);
    }
    if Keyed(acts[n]) { TopKnown(acts, n, s, Key(acts[n])); }
  }

  lemma TopKnown(acts: seq<Action>, n: nat, s: Scan, k: string)
    requires n <= |acts| && OneLeft(acts, n, s, k)
    ensures k in s.top ==> s.top[k] < n && Keyed(acts[s.top[k]])
  {
  }

  lemma {:induction false} AllScanned(acts: seq<Action>, n: nat)
    requires n <= |acts|
    ensures Scanned(acts, n, ScanTo(acts, n))
  {
    if n > 0 {
      AllScanned(acts, n - 1);
      StepScanned(acts, n - 1, ScanTo(acts, n - 1));
    } else {
      assert ScanTo(acts, 0) == Scan(acts, map[], {});
    }
  }

  // --- in terms of the resulting list ------------------------------------------------------------------

  lemma {:induction false} KeepFrom(acts: seq<Action>, gone: set<nat>, n: nat, i: nat) returns (j: nat)
    requires n <= |acts| && i < |Keep(acts, gone, n)|
    ensures j < n && j !in gone && acts[j] == Keep(acts, gone, n)[i]
  {
    if i < |Keep(acts, gone, n - 1)| {
      j := KeepFrom(acts, gone, n - 1, i);
    } else {
      j := n - 1;
    }
  }

  lemma {:induction false} KeepHas(acts: seq<Action>, gone: set<nat>, n: nat, j: nat)
    requires n <= |acts| && j < n && j !in gone
    ensures acts[j] in Keep(acts, gone, n)
  {
    if j < n - 1 { KeepHas(acts, gone, n - 1, j); }
  }

  // No two actions of the list are about the same entry.
  ghost predicate Normal(acts: seq<Action>) {
    forall i, j :: 0 <= i < j < |acts| && Keyed(acts[i]) && Keyed(acts[j]) ==> Key(acts[i]) != Key(acts[j])
  }

  lemma {:induction false} KeepNormal(acts: seq<Action>, s: Scan, n: nat)
    requires Scanned(acts, |acts|, s) && n <= |acts|
    ensures Normal(Keep(s.acts, s.gone, n))
  {
    if n > 0 {
      KeepNormal(acts, s, n - 1);
      var kept, before := Keep(s.acts, s.gone, n), Keep(s.acts, s.gone, n - 1);
      forall i, j | 0 <= i < j < |kept| && Keyed(kept[i]) && Keyed(kept[j]) ensures Key(kept[i]) != Key(kept[j]) {
        if j == |before| {
          var f := KeepFrom(s.acts, s.gone, n - 1, i);
          assert SameBut(s.acts[f], acts[f]) && SameBut(s.acts[n - 1], acts[n - 1]);
          assert OneLeft(acts, |acts|, s, Key(acts[n - 1]));
        }
      }
    }
  }

  lemma {:induction false} NormalScan(acts: seq<Action>, n: nat)
    requires Normal(acts) && n <= |acts|
    ensures ScanTo(acts, n).gone == {} && ScanTo(acts, n).acts == acts
    ensures forall k :: k in ScanTo(acts, n).top ==>
      ScanTo(acts, n).top[k] < n && HasKey(acts[ScanTo(acts, n).top[k]], k)
  {
    if n > 0 { NormalScan(acts, n - 1); }
  }

  lemma {:induction false} KeepAll(acts: seq<Action>, n: nat)
    requires n <= |acts|
    ensures Keep(acts, {}, n) == acts[..n]
  {
    if n > 0 { KeepAll(acts, n - 1); }
  }

  function Others(acts: seq<Action>): seq<Action> {
    if acts == [] then [] else Others(acts[..|acts| - 1]) + if acts[|acts| - 1].Other? then [acts[|acts| - 1]] else []
  }

  lemma OthersLast(acts: seq<Action>, a: Action)
    ensures Others(acts + [a]) == Others(acts) + if a.Other? then [a] else []
  {
    assert (acts + [a])[..|acts|] == acts;
  }

  lemma ScannedAt(acts: seq<Action>, s: Scan, i: nat)
    requires Scanned(acts, |acts|, s) && i < |acts|
    ensures |s.acts| == |acts| && SameBut(s.acts[i], acts[i]) && (i in s.gone ==> !acts[i].Other?)
  {
    hide OneLeft, Merge;
  }

  lemma {:induction false} KeepOthers(acts: seq<Action>, s: Scan, n: nat)
    requires Scanned(acts, |acts|, s) && n <= |acts|
    ensures |s.acts| == |acts| && Others(Keep(s.acts, s.gone, n)) == Others(acts[..n])
  {
    hide Scanned, Others;
    if n > 0 {
      KeepOthers(acts, s, n - 1);
      ScannedAt(acts, s, n - 1);
      var kept := Keep(s.acts, s.gone, n - 1);
      assert Keep(s.acts, s.gone, n) == if n - 1 in s.gone then kept else kept + [s.acts[n - 1]];
      OthersLast(kept, s.acts[n - 1]);
      OthersLast(acts[..n - 1], acts[n - 1]);
      assert acts[..n] == acts[..n - 1] + [acts[n - 1]];
    } else {
      ScannedLength(acts, s);
    }
  }

  lemma ScannedLength(acts: seq<Action>, s: Scan)
    requires Scanned(acts, |acts|, s)
    ensures |s.acts| == |acts|
  {
    hide OneLeft, Merge;
  }

  /** Whatever the list: no two actions left are about the same entry, collapsing again changes
      nothing, and actions about no entry all stay, in order. */
  lemma CollapseNormal(acts: seq<Action>)
    ensures Normal(Collapsed(acts)) && Collapsed(Collapsed(acts)) == Collapsed(acts)
    ensures Others(Collapsed(acts)) == Others(acts)
  {
    var s := ScanTo(acts, |acts|);
    AllScanned(acts, |acts|);
    KeepNormal(acts, s, |acts|);
    KeepOthers(acts, s, |acts|);
    var once := Collapsed(acts);
    NormalScan(once, |once|);
    KeepAll(once, |once|);
    assert once[..|once|] == once && acts[..|acts|] == acts;
  }

  // --- which action is left ----------------------------------------------------------------------------

  // Both actions are about the entry of the same name, on the same side.
  predicate AboutSame(a: Action, b: Action) {
    !a.Other? && !b.Other? && a.fromName == b.fromName && a.RenameMerged? == b.RenameMerged?
  }

  // No unmerged name is a merged one with the reserved prefix.
  ghost predicate NoClash(acts: seq<Action>) {
    forall i, j ::
      && 0 <= i < |acts| && 0 <= j < |acts| && acts[i].RenameMerged?
      && !acts[j].Other? && !acts[j].RenameMerged?
      ==> acts[j].fromName != ".kbfs_merged_" + acts[i].fromName
  }

  // An action about the same entry is left.
  ghost predicate Covers(left: seq<Action>, a: Action) {
    !a.Other? ==> exists b :: b in left && AboutSame(b, a)
  }

  // On one side, keys are equal exactly if names are; across, exactly if the names clash.
  lemma Keys(a: Action, b: Action)
    requires Keyed(a) && Keyed(b)
    ensures a.RenameMerged? == b.RenameMerged? ==> (Key(a) == Key(b) <==> a.fromName == b.fromName)
    ensures a.RenameMerged? && !b.RenameMerged? ==> (Key(a) == Key(b) <==> b.fromName == ".kbfs_merged_" + a.fromName)
  {
    var n := |MERGED_PREFIX|;
    assert (MERGED_PREFIX + a.fromName)[n..] == a.fromName && (MERGED_PREFIX + b.fromName)[n..] == b.fromName;
  }

  /** No two actions left are about the same entry. */
  lemma CollapseOnePer(acts: seq<Action>)
    ensures var left := Collapsed(acts); forall i, j :: 0 <= i < j < |left| ==> !AboutSame(left[i], left[j])
  {
    CollapseNormal(acts);
    var left := Collapsed(acts);
    forall i, j | 0 <= i < j < |left| ensures !AboutSame(left[i], left[j]) {
      if !left[i].Other? && !left[j].Other? { Keys(left[i], left[j]); }
    }
  }

  /** Every entry that had an action still has one exactly when no unmerged name is a merged one with the
      reserved prefix. */
  lemma CollapseCovers(acts: seq<Action>)
    ensures (forall i :: 0 <= i < |acts| ==> Covers(Collapsed(acts), acts[i])) <==> NoClash(acts)
  {
    var s, left := ScanTo(acts, |acts|), Collapsed(acts);
    AllScanned(acts, |acts|);
    if NoClash(acts) {
      forall i | 0 <= i < |acts| ensures Covers(left, acts[i]) {
        if Keyed(acts[i]) {
          TopLeft(acts, s, Key(acts[i]));
          var top := s.top[Key(acts[i])];
          SameSide(acts, i, top);
          Keys(s.acts[top], acts[i]);
        }
      }
    } else {
      var i, j :| 0 <= i < |acts| && 0 <= j < |acts| && acts[i].RenameMerged? && !acts[j].Other?
        && !acts[j].RenameMerged? && acts[j].fromName == ".kbfs_merged_" + acts[i].fromName;
      NotBoth(acts, acts[i], acts[j]);
    }
  }

  /** An unmerged entry is named as the key of a merged one: the rename of the merged entry is dropped. */
  lemma ClashLoses(merged: string)
    ensures var acts := [RenameMerged(merged, "y"), RenameUnmerged(".kbfs_merged_" + merged, "z")];
      Collapsed(acts) == [acts[1]] && !Covers(Collapsed(acts), acts[0])
  {
    var acts := [RenameMerged(merged, "y"), RenameUnmerged(MERGED_PREFIX + merged, "z")];
    assert ScanTo(acts, 1) == Scan(acts, map[MERGED_PREFIX + merged := 0], {});
    assert ScanTo(acts, 2).acts == acts && ScanTo(acts, 2).gone == {0};
    assert Keep(acts, {0}, 1) == [];
  }

  lemma NotBoth(acts: seq<Action>, a: Action, b: Action)
    requires a.RenameMerged? && !b.Other? && !b.RenameMerged? && b.fromName == ".kbfs_merged_" + a.fromName
    ensures !(Covers(Collapsed(acts), a) && Covers(Collapsed(acts), b))
  {
    hide Collapsed;
    var left := Collapsed(acts);
    if Covers(left, a) && Covers(left, b) {
      var x :| x in left && AboutSame(x, a);
      var y :| y in left && AboutSame(y, b);
      Keys(x, y);
      OnlyOne(acts, x, y);
      assert false;
    }
  }

  // If no names clash, actions with the same key are on the same side.
  lemma SameSide(acts: seq<Action>, i: nat, j: nat)
    requires NoClash(acts) && i < |acts| && j < |acts| && Keyed(acts[i]) && Keyed(acts[j])
    requires Key(acts[i]) == Key(acts[j])
    ensures acts[i].RenameMerged? == acts[j].RenameMerged? && AboutSame(acts[i], acts[j])
  {
    Keys(acts[i], acts[j]);
    Keys(acts[j], acts[i]);
  }

  lemma TopLeft(acts: seq<Action>, s: Scan, k: string)
    requires Scanned(acts, |acts|, s) && s == ScanTo(acts, |acts|) && exists i :: 0 <= i < |acts| && HasKey(acts[i], k)
    ensures k in s.top && s.top[k] < |acts| && HasKey(acts[s.top[k]], k) && s.acts[s.top[k]] in Collapsed(acts)
    ensures HasKey(s.acts[s.top[k]], k) && s.acts[s.top[k]].RenameMerged? == acts[s.top[k]].RenameMerged?
  {
    assert OneLeft(acts, |acts|, s, k);
    KeepHas(s.acts, s.gone, |acts|, s.top[k]);
    assert SameBut(s.acts[s.top[k]], acts[s.top[k]]);
  }

  lemma OnlyOne(acts: seq<Action>, a: Action, b: Action)
    requires a in Collapsed(acts) && b in Collapsed(acts) && Keyed(a) && Keyed(b) && Key(a) == Key(b)
    ensures a == b
  {
    CollapseNormal(acts);
    var i, j :| 0 <= i < |Collapsed(acts)| && 0 <= j < |Collapsed(acts)| && Collapsed(acts)[i] == a
      && Collapsed(acts)[j] == b;
  }

  function Rank(a: Action): nat {
    match a
    case RenameUnmerged(_, _) => 3
    case RenameMerged(_, _) => 3
    case CopyUnmergedEntry(_, _) => 2
    case CopyUnmergedAttr(_, _, _) => 1
    case Other(_) => 0
  }

  // Action i is the one to be left of those about k: a rename before an entry copy before an
  // attribute copy, the last one of a kind, but the first of several attribute copies.
  ghost predicate Wins(acts: seq<Action>, n: nat, i: nat, k: string)
    requires n <= |acts|
  {
    && i < n && HasKey(acts[i], k)
    && forall j :: 0 <= j < n && j != i && HasKey(acts[j], k) ==>
      Rank(acts[j]) < Rank(acts[i]) || (Rank(acts[j]) == Rank(acts[i]) && if Rank(acts[i]) == 1 then i < j else j < i)
  }

  // Its attributes are those of all attribute copies about k.
  ghost predicate AllAttrs(acts: seq<Action>, n: nat, attr: seq<int>, k: string)
    requires n <= |acts|
  {
    forall x :: x in attr <==>
      exists j :: 0 <= j < n && HasKey(acts[j], k) && acts[j].CopyUnmergedAttr? && x in acts[j].attr
  }

  ghost predicate TopOk(acts: seq<Action>, n: nat, s: Scan, k: string)
    requires n <= |acts| && |s.acts| == |acts|
  {
    k in s.top ==>
      && Wins(acts, n, s.top[k], k) && SameBut(s.acts[s.top[k]], acts[s.top[k]])
      && (s.acts[s.top[k]].CopyUnmergedAttr? ==> AllAttrs(acts, n, s.acts[s.top[k]].attr, k))
  }

  lemma {:induction false} MergeIn(top: seq<int>, more: seq<int>, x: int)
    ensures x in Merge(top, more) <==> x in top || x in more
  {
    if more != [] {
      MergeIn(top, more[..|more| - 1], x);
      assert more == more[..|more| - 1] + [more[|more| - 1]];
    }
  }

  lemma AttrsNext(acts: seq<Action>, n: nat, attr: seq<int>, k: string)
    requires n < |acts| && AllAttrs(acts, n, attr, k) && HasKey(acts[n], k) && acts[n].CopyUnmergedAttr?
    ensures AllAttrs(acts, n + 1, Merge(attr, acts[n].attr), k)
  {
    forall x ensures x in Merge(attr, acts[n].attr) <==>
      exists j :: 0 <= j < n + 1 && HasKey(acts[j], k) && acts[j].CopyUnmergedAttr? && x in acts[j].attr {
      MergeIn(attr, acts[n].attr, x);
    }
  }

  lemma TopElsewhere(acts: seq<Action>, n: nat, s: Scan, k: string)
    requires n < |acts| && Scanned(acts, n, s) && TopOk(acts, n, s, k) && !HasKey(acts[n], k)
    ensures TopOk(acts, n + 1, Step(s, n), k)
  {
    assert OneLeft(acts, n, s, k);
    if Keyed(acts[n]) { assert OneLeft(acts, n, s, Key(acts[n])); }
    if k in s.top && s.acts[s.top[k]].CopyUnmergedAttr? {
      AttrsSame(acts, n, s.acts[s.top[k]].attr, k);
    }
  }

  lemma AttrsSame(acts: seq<Action>, n: nat, attr: seq<int>, k: string)
    requires n < |acts| && AllAttrs(acts, n, attr, k) && !(HasKey(acts[n], k) && acts[n].CopyUnmergedAttr?)
    ensures AllAttrs(acts, n + 1, attr, k)
  {
    forall x
      ensures x in attr <==>
        exists j :: 0 <= j < n + 1 && HasKey(acts[j], k) && acts[j].CopyUnmergedAttr? && x in acts[j].attr
    {
    }
  }

  lemma TopHere(acts: seq<Action>, n: nat, s: Scan, k: string)
    requires n < |acts| && Scanned(acts, n, s) && TopOk(acts, n, s, k) && HasKey(acts[n], k) && NoClash(acts)
    ensures TopOk(acts, n + 1, Step(s, n), k)
  {
    hide AllAttrs, Merge;
    var s' := Step(s, n);
    assert OneLeft(acts, n, s, k);
    if k in s.top {
      assert SameBut(s.acts[s.top[k]], acts[s.top[k]]);
      if s.acts[s.top[k]].CopyUnmergedAttr? {
        if acts[n].CopyUnmergedAttr? { AttrsNext(acts, n, s.acts[s.top[k]].attr, k); }
      }
    } else {
      assert forall j :: 0 <= j < n ==> !HasKey(acts[j], k);
      if acts[n].CopyUnmergedAttr? { FirstAttrs(acts, n, k); }
    }
  }

  lemma FirstAttrs(acts: seq<Action>, n: nat, k: string)
    requires n < |acts| && HasKey(acts[n], k) && acts[n].CopyUnmergedAttr?
    requires forall j :: 0 <= j < n ==> !HasKey(acts[j], k)
    ensures AllAttrs(acts, n + 1, acts[n].attr, k)
  {
  }

  lemma {:induction false} AllTops(acts: seq<Action>, n: nat, k: string)
    requires n <= |acts| && NoClash(acts)
    ensures TopOk(acts, n, ScanTo(acts, n), k)
  {
    if n > 0 {
      hide TopOk, Scanned, Step;
      AllTops(acts, n - 1, k);
      AllScanned(acts, n - 1);
      if HasKey(acts[n - 1], k) {
        TopHere(acts, n - 1, ScanTo(acts, n - 1), k);
      } else {
        TopElsewhere(acts, n - 1, ScanTo(acts, n - 1), k);
      }
    } else {
      assert ScanTo(acts, 0) == Scan(acts, map[], {});
    }
  }

  /** Of all actions about one entry the one of the highest precedence is left, and if that copies
      attributes, it copies those of all of them. */
  lemma CollapsePrecedence(acts: seq<Action>, k: string) returns (i: nat)
    requires NoClash(acts) && exists j :: 0 <= j < |acts| && HasKey(acts[j], k)
    ensures Wins(acts, |acts|, i, k)
    ensures exists a ::
      && a in Collapsed(acts) && SameBut(a, acts[i])
      && (a.CopyUnmergedAttr? ==> AllAttrs(acts, |acts|, a.attr, k))
  {
    var s := ScanTo(acts, |acts|);
    AllScanned(acts, |acts|);
    AllTops(acts, |acts|, k);
    TopLeft(acts, s, k);
    i := s.top[k];
  }

  // Action i is the one to be left of those about the same entry as e.
  ghost predicate WinsFor(acts: seq<Action>, i: nat, e: Action) {
    && i < |acts| && AboutSame(acts[i], e)
    && forall j :: 0 <= j < |acts| && j != i && AboutSame(acts[j], e) ==>
      Rank(acts[j]) < Rank(acts[i]) || (Rank(acts[j]) == Rank(acts[i]) && if Rank(acts[i]) == 1 then i < j else j < i)
  }

  // The attributes are those of all attribute copies about the same entry as e.
  ghost predicate AttrsFor(acts: seq<Action>, attr: seq<int>, e: Action) {
    forall x :: x in attr <==>
      exists j :: 0 <= j < |acts| && AboutSame(acts[j], e) && acts[j].CopyUnmergedAttr? && x in acts[j].attr
  }

  /** If no names clash, then for every entry that had an action: of all actions about it the one of the highest
      precedence is left, and if that copies attributes, it copies those of all of them. */
  lemma EntryPrecedence(acts: seq<Action>, e: Action) returns (i: nat, a: Action)
    requires NoClash(acts) && e in acts && !e.Other?
    ensures WinsFor(acts, i, e) && a in Collapsed(acts) && SameBut(a, acts[i])
    ensures a.CopyUnmergedAttr? ==> AttrsFor(acts, a.attr, e)
  {
    hide Collapsed;
    var k, m := Key(e), |acts|;
    var at :| 0 <= at < m && acts[at] == e;
    assert HasKey(acts[at], k);
    i := CollapsePrecedence(acts, k);
    a :| a in Collapsed(acts) && SameBut(a, acts[i]) && (a.CopyUnmergedAttr? ==> AllAttrs(acts, m, a.attr, k));
    forall j | 0 <= j < m ensures HasKey(acts[j], k) <==> AboutSame(acts[j], e) {
      if HasKey(acts[j], k) { SameSide(acts, j, at); }
      if AboutSame(acts[j], e) { Keys(acts[j], e); }
    }
  }

  /** The loops that collapse a list of actions. */
  method Collapse(acts: seq<Action>) returns (r: seq<Action>)
    ensures r == Collapsed(acts)
  {
    hide Merge;
    var list := acts;
    var info: map<string, nat> := map[];
    var toRemove: set<nat> := {};
    for i := 0 to |acts|
      invariant |list| == |acts| && Scan(list, info, toRemove) == ScanTo(acts, i)
      invariant forall k :: k in info ==> info[k] < |acts|
    {
      ghost var before := Scan(list, info, toRemove);
      var a := list[i];
      if Keyed(a) {
        var k := Key(a);
        var top := if k in info then list[info[k]] else Other(0);
        if (a.CopyUnmergedEntry? && top.RenameUnmerged?)
          || (a.CopyUnmergedAttr? && (top.RenameUnmerged? || top.CopyUnmergedEntry?)) {
          toRemove := toRemove + {i};
        } else if a.CopyUnmergedAttr? && top.CopyUnmergedAttr? {
          var merged := MergeAttrs(top.attr, a.attr);
          list := list[info[k] := top.(attr := merged)];
          toRemove := toRemove + {i};
        } else {
          if k in info {
            toRemove := toRemove + {info[k]};
          }
          info := info[k := i];
        }
      }
      assert Scan(list, info, toRemove) == Step(before, i);
    }
    if toRemove == {} {
      KeepAll(list, |list|);
      assert list[..|list|] == list;
      return list;
    }
    r := [];
    for i := 0 to |acts|
      invariant r == Keep(list, toRemove, i)
    {
      if i !in toRemove {
        r := r + [list[i]];
      }
    }
  }

  method MergeAttrs(top: seq<int>, more: seq<int>) returns (r: seq<int>)
    ensures r == Merge(top, more)
  {
    r := top;
    for i := 0 to |more|
      invariant r == Merge(top, more[..i])
    {
      assert more[..i + 1][..i] == more[..i];
      var found := false;
      for j := 0 to |r|
        invariant found == (more[i] in r[..j])
      {
        if r[j] == more[i] {
          found := true;
        }
      }
      assert r[..|r|] == r;
      if !found {
        r := r + [more[i]];
      }
    }
    assert more[..|more|] == more;
  }
}
