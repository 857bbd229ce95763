/** Following block pointers through a history of updates: where a pointer that was current at the
    start has got to, and where a pointer met on the way came from. */
module ChainHistory {
  import opened Pointers

  // The current pointer of every node met so far by its original one, the inverse, and the
  // original of every later pointer.
  datatype Index = Index(cur: map<Ptr, Ptr>, recent: map<Ptr, Ptr>, originals: map<Ptr, Ptr>)

  const EMPTY := Index(map[], map[], map[])

  function OriginOf(x: Index, p: Ptr): Ptr {
    if p in x.recent then x.recent[p] else p
  }

  function AddUpdate(x: Index, u: Update): Index {
    var o := OriginOf(x, u.unref);
    Index(x.cur[o := u.ref], (x.recent - {u.unref})[u.ref := o],
          if o == u.ref then x.originals else x.originals[u.ref := o])
  }

  function AddUpdates(x: Index, us: seq<Update>): Index {
    if us == [] then x else AddUpdate(AddUpdates(x, us[..|us| - 1]), us[|us| - 1])
  }

  // --- the history itself ---------------------------------------------------------------------

  // Where the pointer p has got to.
  function Follow(us: seq<Update>, p: Ptr): Ptr {
    if us == [] then p
    else
      var q := Follow(us[..|us| - 1], p);
      var u := us[|us| - 1];
      if u.unref == q then u.ref else q
  }

  // p has been where o had got to at some point.
  ghost predicate OnTrace(us: seq<Update>, o: Ptr, p: Ptr) {
    p == Follow(us, o) || (us != [] && OnTrace(us[..|us| - 1], o, p))
  }

  // The pointers a history mentions, those it replaces, and those it brings in.
  function Seen(us: seq<Update>): set<Ptr> {
    (set u | u in us :: u.unref) + (set u | u in us :: u.ref)
  }

  function Replaced(us: seq<Update>): set<Ptr> {
    set u | u in us && u.ref != u.unref :: u.unref
  }

  function New(us: seq<Update>): set<Ptr> {
    set u | u in us && u.ref != u.unref :: u.ref
  }

  // No pointer is replaced twice, and what replaces one is new.
  ghost predicate LinearAt(before: seq<Update>, u: Update) {
    u.unref !in Replaced(before) && (u.ref == u.unref || u.ref !in Seen(before))
  }

  ghost predicate Linear(us: seq<Update>) {
    us != [] ==> Linear(us[..|us| - 1]) && LinearAt(us[..|us| - 1], us[|us| - 1])
  }

  /** What the index says about a history: its domains are exactly the original, the current and
      the later pointers, and it agrees with following the pointers one by one. */
  ghost predicate Agrees(x: Index, us: seq<Update>) {
    && x.cur.Keys == Seen(us) - New(us) && x.recent.Keys == Seen(us) - Replaced(us) && x.originals.Keys == New(us)
    && (forall o :: o in x.cur ==> x.cur[o] == Follow(us, o) && x.cur[o] in x.recent && x.recent[x.cur[o]] == o)
    && (forall p :: p in x.recent ==> x.recent[p] in x.cur && x.cur[x.recent[p]] == p)
    && (forall q :: q in x.originals ==> x.originals[q] in x.cur && OnTrace(us, x.originals[q], q))
  }

  lemma {:induction false} FollowUnseen(us: seq<Update>, p: Ptr)
    requires p !in Seen(us)
    ensures Follow(us, p) == p
  {
    if us != [] {
      assert Seen(us[..|us| - 1]) <= Seen(us);
      FollowUnseen(us[..|us| - 1], p);
      assert us[|us| - 1] in us;
    }
  }

  lemma {:induction false} FollowMoves(us: seq<Update>, p: Ptr)
    requires Follow(us, p) != p
    ensures p in Replaced(us)
  {
    var k := |us| - 1;
    if Follow(us[..k], p) != p {
      FollowMoves(us[..k], p);
    } else {
      assert us[k] in us;
    }
  }

  lemma SeenSnoc(us: seq<Update>, u: Update)
    ensures Seen(us + [u]) == Seen(us) + {u.unref, u.ref}
    ensures Replaced(us + [u]) == Replaced(us) + (if u.ref != u.unref then {u.unref} else {})
    ensures New(us + [u]) == New(us) + (if u.ref != u.unref then {u.ref} else {})
  {
    assert forall v :: v in us + [u] <==> v in us || v == u;
  }

  lemma DomainsNext(x: Index, seen: set<Ptr>, gone: set<Ptr>, later: set<Ptr>, u: Update)
    requires x.cur.Keys == seen - later && x.recent.Keys == seen - gone && x.originals.Keys == later && later <= seen
    requires gone <= seen
    requires forall p :: p in x.recent ==> x.recent[p] in x.cur && x.cur[x.recent[p]] == p
    requires u.unref !in gone && (u.ref == u.unref || u.ref !in seen)
    requires u.unref in x.recent && x.recent[u.unref] != u.unref ==> u.unref in later
    requires u.unref in later && u.unref in x.recent ==> x.recent[u.unref] != u.unref
    ensures var x' := AddUpdate(x, u);
      && x'.cur.Keys == seen + {u.unref, u.ref} - (later + if u.ref != u.unref then {u.ref} else {})
      && x'.recent.Keys == seen + {u.unref, u.ref} - (gone + if u.ref != u.unref then {u.unref} else {})
      && x'.originals.Keys == later + if u.ref != u.unref then {u.ref} else {}
  {
  }

  lemma {:induction false} FollowNext(x: Index, us: seq<Update>, u: Update)
    requires Agrees(x, us) && LinearAt(us, u)
    ensures Follow(us, OriginOf(x, u.unref)) == u.unref
    ensures forall o :: o in x.cur && o != OriginOf(x, u.unref) ==> Follow(us, o) != u.unref
  {
    hide OnTrace;
    if u.unref !in x.recent {
      FollowUnseen(us, u.unref);
    }
  }

  lemma {:induction false} PointsNext(x: Index, us: seq<Update>, u: Update)
    requires Agrees(x, us) && LinearAt(us, u)
    ensures var x', vs := AddUpdate(x, u), us + [u];
      && (forall o :: o in x'.cur ==> x'.cur[o] == Follow(vs, o) && x'.cur[o] in x'.recent && x'.recent[x'.cur[o]] == o)
      && (forall p :: p in x'.recent ==> x'.recent[p] in x'.cur && x'.cur[x'.recent[p]] == p)
  {
    hide Seen, Replaced, New, OnTrace;
    var vs := us + [u];
    assert vs[..|vs| - 1] == us;
    SeenAll(us);
    FollowNext(x, us, u);
  }

  lemma {:induction false} AgreesNext(x: Index, us: seq<Update>, u: Update)
    requires Agrees(x, us) && LinearAt(us, u)
    ensures Agrees(AddUpdate(x, u), us + [u])
  {
    hide Seen, Replaced, New, Follow;
    var vs, x', o := us + [u], AddUpdate(x, u), OriginOf(x, u.unref);
    assert vs[..|vs| - 1] == us;
    PointsNext(x, us, u);
    SeenSnoc(us, u);
    SeenAll(us);
    if u.unref in x.cur && x.cur[u.unref] != u.unref {
      FollowMoves(us, u.unref);
    }
    DomainsNext(x, Seen(us), Replaced(us), New(us), u);
  }

  /** Over any linear history the index agrees with following the pointers one by one. */
  lemma {:induction false} IndexAgrees(us: seq<Update>)
    requires Linear(us)
    ensures Agrees(AddUpdates(EMPTY, us), us)
  {
    if us == [] {
      assert Seen(us) == {};
    } else {
      IndexAgrees(us[..|us| - 1]);
      AgreesNext(AddUpdates(EMPTY, us[..|us| - 1]), us[..|us| - 1], us[|us| - 1]);
      assert us == us[..|us| - 1] + [us[|us| - 1]];
    }
  }

  lemma SeenAll(us: seq<Update>)
    ensures New(us) <= Seen(us) && Replaced(us) <= Seen(us)
  {
  }
}
