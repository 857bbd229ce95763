/** Many clients, one metadata server: every write goes to the merged history if it succeeds the
    latest revision there, and otherwise to a branch of the client's own until that is resolved. */
module MDHistory {

  // One metadata revision: its hash, the hash of the one it succeeds, and its branch (0 if merged).
  datatype MD = MD(id: nat, rev: nat, prev: nat, bid: nat)

  // `devices` records the branch of each device that has one.
  datatype Server = Server(merged: seq<MD>, branches: map<nat, seq<MD>>, devices: map<nat, nat>)

  datatype Client = Client(dev: nat, staged: bool, bid: nat, head: MD)

  // What becomes of a request: the reply arrives, the request gets lost, or only the reply does.
  datatype Net = Delivered | Lost | ReplyLost

  datatype Reply = Ok | Conflict | Failed

  function Last(mds: seq<MD>): MD
    requires mds != []
  {
    mds[|mds| - 1]
  }

  predicate Succeeds(md: MD, head: MD) {
    md.rev == head.rev + 1 && md.prev == head.id
  }

  // --- the server --------------------------------------------------------------------------------

  function PutMerged(s: Server, md: MD): (Server, Reply)
    requires s.merged != []
  {
    if Succeeds(md, Last(s.merged)) then (s.(merged := s.merged + [md.(bid := 0)]), Ok) else (s, Conflict)
  }

  // The first revision of a branch succeeds one of the merged history, every later one the
  // branch's last. A new branch becomes the one recorded for the device.
  function PutUnmerged(s: Server, md: MD, bid: nat, dev: nat): (Server, Reply) {
    if bid in s.branches && s.branches[bid] != [] then
      if Succeeds(md, Last(s.branches[bid]))
      then (s.(branches := s.branches[bid := s.branches[bid] + [md.(bid := bid)]]), Ok) else (s, Conflict)
    else if md.rev < 2 || md.rev - 2 >= |s.merged| then (s, Failed)
    else if Succeeds(md, s.merged[md.rev - 2])
    then (s.(branches := s.branches[bid := [md.(bid := bid)]], devices := s.devices[dev := bid]), Ok)
    else (s, Conflict)
  }

  // Pruning drops the record; the branch itself is collected some time later.
  function Prune(s: Server, bid: nat, dev: nat): (Server, Reply) {
    if dev in s.devices && s.devices[dev] == bid != 0 then (s.(devices := s.devices - {dev}), Ok) else (s, Failed)
  }

  // A request as the client sees it.
  function Over(net: Net, was: Server, done: (Server, Reply)): (Server, Reply) {
    match net
    case Delivered => done
    case Lost => (was, Failed)
    case ReplyLost => (done.0, Failed)
  }

  // --- what clients do -----------------------------------------------------------------------------

  // A write: merged if the client is not staged and nobody was faster, and otherwise unmerged.
  function Write(s: Server, c: Client, md: MD, newBid: nat, net: Net, net2: Net): (Server, Client)
    requires s.merged != []
  {
    var (s1, r) := if c.staged then (s, Conflict) else Over(net, s, PutMerged(s, md));
    if r == Ok then (s1, Client(c.dev, false, 0, md.(bid := 0)))
    else if r == Failed then (s1, c)
    else
      var bid := if c.staged then c.bid else newBid;
      var (s2, r2) := Over(net2, s1, PutUnmerged(s1, md, bid, c.dev));
      if r2 == Ok then (s2, Client(c.dev, true, bid, md.(bid := bid))) else (s2, c)
  }

  // A rekey, or the record of a reclamation: merged or not at all, and only by a client that is
  // not staged.
  function WriteMergedOnly(s: Server, c: Client, md: MD, net: Net): (Server, Client)
    requires s.merged != []
  {
    if c.staged then (s, c)
    else
      var (s1, r) := Over(net, s, PutMerged(s, md));
      (s1, if r == Ok then Client(c.dev, false, 0, md.(bid := 0)) else c)
  }

  // Updates from the merged history, applied one revision at a time; the second result says
  // whether all of them were.
  function ApplyUpdates(c: Client, mds: seq<MD>): (Client, bool)
    decreases |mds|
  {
    if c.staged then (c, false)
    else if mds == [] then (c, true)
    else if mds[0].rev <= c.head.rev then ApplyUpdates(c, mds[1..])
    else if mds[0].rev != c.head.rev + 1 then (c, false)
    else ApplyUpdates(c.(head := mds[0]), mds[1..])
  }

  // The heads a client takes on the way.
  function HeadsTaken(c: Client, mds: seq<MD>): seq<MD>
    decreases |mds|
  {
    if c.staged || mds == [] then []
    else if mds[0].rev <= c.head.rev then HeadsTaken(c, mds[1..])
    else if mds[0].rev != c.head.rev + 1 then []
    else [mds[0]] + HeadsTaken(c.(head := mds[0]), mds[1..])
  }

  // The result of conflict resolution: merged or given up; on success the branch goes.
  function Resolve(s: Server, c: Client, md: MD, net: Net, net2: Net): (Server, Client)
    requires s.merged != []
  {
    var (s1, r) := Over(net, s, PutMerged(s, md));
    if r != Ok then (s1, c)
    else
      var (s2, r2) := Over(net2, s1, Prune(s1, c.bid, c.dev));
      (s2, if r2 == Ok then Client(c.dev, false, 0, md.(bid := 0)) else c)
  }

  predicate HasBranch(s: Server, bid: nat) {
    bid in s.branches && s.branches[bid] != []
  }

  // The revision before the client's branch; its own if the server has no branch of it.
  function BranchPoint(s: Server, c: Client): int {
    if HasBranch(s, c.bid) then s.branches[c.bid][0].rev - 1 else c.head.rev
  }

  // Dropping the branch: back to where it left the merged history. The client counts as not staged
  // before that revision is looked for.
  function Unstage(s: Server, c: Client, net: Net): (Server, Client) {
    var point := BranchPoint(s, c);
    if !c.staged || point < 1 then (s, c)
    else if point > |s.merged| then (s, Client(c.dev, false, 0, c.head))
    else (Over(net, s, Prune(s, c.bid, c.dev)).0, Client(c.dev, false, 0, s.merged[point - 1]))
  }

  // A client that starts takes the end of the branch recorded for its device, if there is one.
  function Started(s: Server, dev: nat): Client
    requires s.merged != []
  {
    if dev in s.devices && HasBranch(s, s.devices[dev])
    then Client(dev, true, s.devices[dev], Last(s.branches[s.devices[dev]]))
    else Client(dev, false, 0, Last(s.merged))
  }

  // What the client stands on after dropping its branch is in the merged history.
  predicate HasWayBack(s: Server, c: Client) {
    c.bid in s.branches || c.head.rev <= |s.merged|
  }

  // --- what every run keeps ------------------------------------------------------------------------

  ghost predicate MergedOk(merged: seq<MD>) {
    && merged != [] && (forall i :: 0 <= i < |merged| ==> merged[i].rev == i + 1 && merged[i].bid == 0)
    && forall i :: 0 < i < |merged| ==> merged[i].prev == merged[i - 1].id
  }

  ghost predicate NotMerged(merged: seq<MD>, id: nat) {
    forall i :: 0 <= i < |merged| ==> merged[i].id != id
  }

  ghost predicate BranchOk(merged: seq<MD>, bid: nat, mds: seq<MD>) {
    && mds != [] && bid != 0 && 2 <= mds[0].rev <= |merged| + 1 && mds[0].prev == merged[mds[0].rev - 2].id
    && (forall i :: 0 <= i < |mds| ==>
      mds[i].bid == bid && mds[i].rev == mds[0].rev + i && NotMerged(merged, mds[i].id))
    && forall i :: 0 < i < |mds| ==> mds[i].prev == mds[i - 1].id
  }

  ghost predicate On(mds: seq<MD>, head: MD) {
    mds != [] && 0 <= head.rev - mds[0].rev < |mds| && mds[head.rev - mds[0].rev] == head
  }

  // The head is the last revision of its branch or the one before that.
  ghost predicate NearEnd(mds: seq<MD>, head: MD) {
    On(mds, head) && mds[0].rev + |mds| <= head.rev + 2
  }

  // A client that is not staged stands on a merged revision; a staged one on its own branch, as
  // long as the server still has that, and that is the one recorded for its device, if any is.
  ghost predicate ClientOk(s: Server, c: Client) {
    if c.staged
    then
      && c.bid != 0 && c.head.bid == c.bid && 0 < c.head.rev
      && (c.bid in s.branches ==> NearEnd(s.branches[c.bid], c.head))
      && NotMerged(s.merged, c.head.id) && (c.dev in s.devices ==> s.devices[c.dev] == c.bid)
    else c.bid == 0 && On(s.merged, c.head)
  }

  // Recorded branches exist, and no two devices have the same.
  ghost predicate DevicesOk(s: Server) {
    && (forall d :: d in s.devices ==> s.devices[d] in s.branches)
    && forall d, e :: d in s.devices && e in s.devices && d != e ==> s.devices[d] != s.devices[e]
  }

  ghost predicate ServerOk(s: Server) {
    MergedOk(s.merged) && (forall b :: b in s.branches ==> BranchOk(s.merged, b, s.branches[b])) && DevicesOk(s)
  }

  // `used` are the hashes of all revisions made so far.
  datatype State = State(server: Server, clients: seq<Client>, used: set<nat>)

  ghost predicate IdsOk(st: State) {
    && (forall i :: 0 <= i < |st.server.merged| ==> st.server.merged[i].id in st.used)
    && (forall b, i :: b in st.server.branches && 0 <= i < |st.server.branches[b]| ==>
      st.server.branches[b][i].id in st.used)
    && forall i :: 0 <= i < |st.clients| ==> st.clients[i].head.id in st.used
  }

  // The branch b is nobody's but client i's.
  ghost predicate Own(st: State, i: nat, b: nat) {
    && (forall j :: 0 <= j < |st.clients| && j != i && st.clients[j].staged ==> st.clients[j].bid != b)
    && forall d :: d in st.server.devices && d != i ==> st.server.devices[d] != b
  }

  ghost predicate ClientsOk(st: State) {
    && (forall i :: 0 <= i < |st.clients| ==> ClientOk(st.server, st.clients[i]) && st.clients[i].dev == i)
    && (forall d :: d in st.server.devices ==> d < |st.clients| && Own(st, d, st.server.devices[d]))
    && forall i :: 0 <= i < |st.clients| && st.clients[i].staged ==> Own(st, i, st.clients[i].bid)
  }

  ghost predicate Inv(st: State) {
    IdsOk(st) && ServerOk(st.server) && ClientsOk(st)
  }

  datatype Step =
    | Join
    | DoWrite(i: nat, id: nat, newBid: nat, net: Net, net2: Net)
    | DoMergedOnly(i: nat, id: nat, net: Net)
    | DoUpdate(i: nat, lo: nat, hi: nat)
    | DoResolve(i: nat, md: MD, net: Net, net2: Net)
    | DoUnstage(i: nat, net: Net)
    | Restart(i: nat)
    | Collect(bid: nat)

  function Successor(head: MD, id: nat): MD {
    MD(id, head.rev + 1, head.id, 0)
  }

  predicate OfClient(step: Step) {
    !step.Join? && !step.Collect?
  }

  // New branch IDs are random, so never used before; nor is the hash of a new revision. Only
  // branches no device has are collected.
  ghost predicate Enabled(st: State, step: Step) {
    && st.server.merged != [] && (OfClient(step) ==> step.i < |st.clients|)
    && match step
       case Join => true
       case DoWrite(i, id, newBid, _, _) =>
         && id !in st.used && newBid != 0 && newBid !in st.server.branches
         && forall j :: 0 <= j < |st.clients| ==> st.clients[j].bid != newBid
       case DoMergedOnly(_, id, _) => id !in st.used
       case DoUpdate(_, lo, hi) => lo <= hi <= |st.server.merged|
       case DoResolve(i, md, _, _) => st.clients[i].staged && md.id !in st.used
       case DoUnstage(i, _) => HasWayBack(st.server, st.clients[i])
       case Restart(i) => true
       case Collect(bid) => forall d :: d in st.server.devices ==> st.server.devices[d] != bid
  }

  function With(st: State, i: nat, sc: (Server, Client), ids: set<nat>): State
    requires i < |st.clients|
  {
    State(sc.0, st.clients[i := sc.1], st.used + ids)
  }

  function Do(st: State, step: Step): State
    requires Enabled(st, step)
  {
    match step
    case Join => st.(clients := st.clients + [Started(st.server, |st.clients|)])
    case DoWrite(i, id, newBid, net, net2) =>
      var c := st.clients[i];
      With(st, i, Write(st.server, c, Successor(c.head, id), newBid, net, net2), {id})
    case DoMergedOnly(i, id, net) =>
      With(st, i, WriteMergedOnly(st.server, st.clients[i], Successor(st.clients[i].head, id), net), {id})
    case DoUpdate(i, lo, hi) =>
      With(st, i, (st.server, ApplyUpdates(st.clients[i], st.server.merged[lo..hi]).0), {})
    case DoResolve(i, md, net, net2) => With(st, i, Resolve(st.server, st.clients[i], md, net, net2), {md.id})
    case DoUnstage(i, net) => With(st, i, Unstage(st.server, st.clients[i], net), {})
    case Restart(i) => With(st, i, (st.server, Started(st.server, st.clients[i].dev)), {})
    case Collect(bid) => st.(server := st.server.(branches := st.server.branches - {bid}))
  }

  // --- one client's step ------------------------------------------------------------------------------

  // The merged history only grows, of the branches only b may change, and of the records only that
  // of dev, which may go or become b.
  ghost predicate Only(s: Server, s': Server, b: nat, dev: nat) {
    && s.merged <= s'.merged
    && (forall x :: x != b ==>
      (x in s.branches <==> x in s'.branches) && (x in s.branches ==> s'.branches[x] == s.branches[x]))
    && (forall d :: d in s'.devices && d != dev ==> d in s.devices && s'.devices[d] == s.devices[d])
    && (forall d :: d in s.devices && d != dev ==> d in s'.devices)
    && (dev in s'.devices ==> s'.devices[dev] == b || (dev in s.devices && s'.devices[dev] == s.devices[dev]))
  }

  // No revision with this hash exists.
  ghost predicate NewId(s: Server, id: nat) {
    && NotMerged(s.merged, id)
    && forall b, i :: b in s.branches && 0 <= i < |s.branches[b]| ==> s.branches[b][i].id != id
  }

  lemma ServerKeepsMerged(s: Server, md: MD, dev: nat)
    requires ServerOk(s) && NewId(s, md.id)
    ensures ServerOk(PutMerged(s, md).0) && Only(s, PutMerged(s, md).0, 0, dev)
    ensures PutMerged(s, md).1 == Ok ==> On(PutMerged(s, md).0.merged, md.(bid := 0))
  {
    var s' := PutMerged(s, md).0;
    forall b | b in s'.branches ensures BranchOk(s'.merged, b, s'.branches[b]) {
      assert BranchOk(s.merged, b, s.branches[b]);
    }
  }

  // No device but dev has the branch.
  ghost predicate NoOther(s: Server, bid: nat, dev: nat) {
    forall d :: d in s.devices && d != dev ==> s.devices[d] != bid
  }

  lemma ServerKeepsUnmerged(s: Server, md: MD, bid: nat, dev: nat)
    requires ServerOk(s) && bid != 0 && NotMerged(s.merged, md.id) && NoOther(s, bid, dev)
    ensures var (s', r) := PutUnmerged(s, md, bid, dev);
      && ServerOk(s') && Only(s, s', bid, dev) && s'.merged == s.merged
      && (forall head :: bid in s.branches && On(s.branches[bid], head) ==> On(s'.branches[bid], head))
      && (r == Ok ==> bid in s'.branches && NearEnd(s'.branches[bid], md.(bid := bid)))
  {
    hide MergedOk, NotMerged, BranchOk, On, NearEnd;
    if bid in s.branches {
      assert BranchOk(s.merged, bid, s.branches[bid]);
      assert s.branches[bid] != [] by { BranchFirst(s.merged, bid, s.branches[bid]); }
      if Succeeds(md, Last(s.branches[bid])) { BranchGrows(s.merged, bid, s.branches[bid], md); }
    } else if 2 <= md.rev < |s.merged| + 2 && Succeeds(md, s.merged[md.rev - 2]) {
      BranchStarts(s.merged, bid, md);
    }
  }

  lemma BranchFirst(merged: seq<MD>, bid: nat, mds: seq<MD>)
    requires BranchOk(merged, bid, mds)
    ensures mds != []
  {
  }

  lemma BranchStarts(merged: seq<MD>, bid: nat, md: MD)
    requires bid != 0 && NotMerged(merged, md.id) && 2 <= md.rev < |merged| + 2 && Succeeds(md, merged[md.rev - 2])
    ensures BranchOk(merged, bid, [md.(bid := bid)]) && NearEnd([md.(bid := bid)], md.(bid := bid))
  {
  }

  lemma BranchGrows(merged: seq<MD>, bid: nat, mds: seq<MD>, md: MD)
    requires BranchOk(merged, bid, mds) && Succeeds(md, Last(mds)) && NotMerged(merged, md.id)
    ensures BranchOk(merged, bid, mds + [md.(bid := bid)]) && NearEnd(mds + [md.(bid := bid)], md.(bid := bid))
    ensures forall head :: On(mds, head) ==> On(mds + [md.(bid := bid)], head)
  {
  }

  lemma ServerKeepsPrune(s: Server, bid: nat, dev: nat)
    requires ServerOk(s)
    ensures ServerOk(Prune(s, bid, dev).0) && Only(s, Prune(s, bid, dev).0, bid, dev)
  {
    hide BranchOk, MergedOk;
  }

  // A client stays where it is when others write.
  lemma ClientKept(s: Server, s': Server, b: nat, dev: nat, c: Client)
    requires ClientOk(s, c) && Only(s, s', b, dev)
    requires c.staged ==> c.bid != b && c.dev != dev && NotMerged(s'.merged, c.head.id)
    ensures ClientOk(s', c)
  {
  }

  // What a client's step does to the server, and to the client's own standing.
  ghost predicate Kept(s: Server, c: Client, s': Server, c': Client, b: nat) {
    && ServerOk(s') && Only(s, s', b, c.dev) && ClientOk(s', c') && c'.dev == c.dev
    && (c'.staged ==> (c.staged && c'.bid == c.bid) || c'.bid == b)
  }

  // The client's branch goes on after its head: a put reached the server and the reply got lost.
  ghost predicate Ahead(s: Server, c: Client) {
    c.bid in s.branches && On(s.branches[c.bid], c.head) && c.head != Last(s.branches[c.bid])
  }

  predicate AtEnd(s: Server, c: Client) {
    HasBranch(s, c.bid) && Last(s.branches[c.bid]) == c.head
  }

  // What a staged client's write does: it reaches the server exactly if it succeeds the end of the
  // branch there.
  lemma StagedPut(s: Server, c: Client, id: nat)
    requires ServerOk(s) && ClientOk(s, c) && c.staged
    ensures var (s', r) := PutUnmerged(s, Successor(c.head, id), c.bid, c.dev);
      (r == Ok <==> AtEnd(s, c)) && (r != Ok ==> s' == s) && (r == Ok ==> s'.devices == s.devices)
  {
    if c.bid in s.branches {
      assert BranchOk(s.merged, c.bid, s.branches[c.bid]);
    } else {
      assert !(2 <= c.head.rev + 1 < |s.merged| + 2 && s.merged[c.head.rev - 1].id == c.head.id);
    }
  }

  lemma WriteKeepsStaged(s: Server, c: Client, id: nat, newBid: nat, net: Net, net2: Net)
    requires ServerOk(s) && ClientOk(s, c) && c.staged && NewId(s, id) && NoOther(s, c.bid, c.dev)
    ensures var (s', c') := Write(s, c, Successor(c.head, id), newBid, net, net2);
      Kept(s, c, s', c', c.bid) && s'.merged == s.merged && c'.staged && c'.bid == c.bid
  {
    hide BranchOk, NotMerged;
    var md := Successor(c.head, id);
    ServerKeepsUnmerged(s, md, c.bid, c.dev);
    StagedPut(s, c, id);
  }

  lemma WriteKeeps(s: Server, c: Client, id: nat, newBid: nat, net: Net, net2: Net)
    requires ServerOk(s) && ClientOk(s, c) && !c.staged && NewId(s, id)
    requires newBid != 0 && newBid !in s.branches
    ensures var (s', c') := Write(s, c, Successor(c.head, id), newBid, net, net2); Kept(s, c, s', c', newBid)
  {
    hide BranchOk, On, NearEnd;
    var md := Successor(c.head, id);
    ServerKeepsMerged(s, md, c.dev);
    ClientKept(s, PutMerged(s, md).0, 0, c.dev, c);
    ServerKeepsUnmerged(s, md, newBid, c.dev);
  }

  lemma MergedOnlyKeeps(s: Server, c: Client, id: nat, net: Net)
    requires ServerOk(s) && ClientOk(s, c) && NewId(s, id)
    ensures var (s', c') := WriteMergedOnly(s, c, Successor(c.head, id), net); Kept(s, c, s', c', 0)
  {
    hide BranchOk, On;
    ServerKeepsMerged(s, Successor(c.head, id), c.dev);
    if !c.staged { ClientKept(s, PutMerged(s, Successor(c.head, id)).0, 0, c.dev, c); }
  }

  /** Applying any stretch of the merged history keeps a client on it, and moves it forward to the last
      of them one revision at a time. It fails exactly if the client is staged or there is a gap before
      the first, and then nothing changes. */
  lemma {:induction false} UpdatesKeep(s: Server, c: Client, lo: nat, hi: nat)
    requires ServerOk(s) && ClientOk(s, c) && lo <= hi <= |s.merged|
    ensures var (c', all) := ApplyUpdates(c, s.merged[lo..hi]);
      && ClientOk(s, c') && c'.dev == c.dev && c'.staged == c.staged && c'.bid == c.bid
      && all == (!c.staged && (lo == hi || lo <= c.head.rev)) && (!all ==> c' == c)
      && (all ==> c'.head.rev == if lo < hi && hi > c.head.rev then hi else c.head.rev)
      && c.head.rev <= c'.head.rev
      && (!c.staged ==>
        c'.head.rev <= |s.merged| && HeadsTaken(c, s.merged[lo..hi]) == s.merged[c.head.rev..c'.head.rev])
    decreases hi - lo
  {
    hide BranchOk, DevicesOk;
    if !c.staged && lo < hi {
      assert s.merged[lo..hi][1..] == s.merged[lo + 1..hi] && s.merged[lo..hi][0] == s.merged[lo];
      if lo + 1 <= c.head.rev {
        UpdatesKeep(s, c, lo + 1, hi);
      } else if lo == c.head.rev {
        UpdatesKeep(s, c.(head := s.merged[lo]), lo + 1, hi);
      }
    }
  }

  lemma ResolveKeeps(s: Server, c: Client, md: MD, net: Net, net2: Net)
    requires ServerOk(s) && ClientOk(s, c) && c.staged && NewId(s, md.id) && md.id != c.head.id
    ensures var (s', c') := Resolve(s, c, md, net, net2); Kept(s, c, s', c', c.bid)
  {
    hide BranchOk, On, NearEnd, DevicesOk;
    ServerKeepsMerged(s, md, c.dev);
    var s1 := PutMerged(s, md).0;
    ServerKeepsPrune(s1, c.bid, c.dev);
    assert Only(s, Prune(s1, c.bid, c.dev).0, c.bid, c.dev);
  }

  lemma UnstageKeeps(s: Server, c: Client, net: Net)
    requires ServerOk(s) && ClientOk(s, c)
    ensures var (s', c') := Unstage(s, c, net);
      && s'.merged == s.merged && s'.branches == s.branches && ServerOk(s') && Only(s, s', c.bid, c.dev)
      && c'.dev == c.dev && (c'.staged ==> c' == c) && (c'.head == c.head || c'.head in s.merged)
      && (ClientOk(s', c') <==> HasWayBack(s, c))
  {
    hide BranchOk, MergedOk, NearEnd, NotMerged, ServerOk, On;
    ServerKeepsPrune(s, c.bid, c.dev);
    PointOk(s, c);
  }

  lemma PointOk(s: Server, c: Client)
    requires ServerOk(s) && ClientOk(s, c)
    ensures c.bid in s.branches ==> HasBranch(s, c.bid) && 1 <= BranchPoint(s, c) <= |s.merged|
    ensures forall k :: 0 <= k < |s.merged| ==> On(s.merged, s.merged[k])
    ensures On(s.merged, c.head) ==> 1 <= c.head.rev <= |s.merged|
    ensures c.staged && c.bid !in s.branches && c.head.rev < 1 ==> ClientOk(s, c)
  {
    hide NotMerged, DevicesOk, NearEnd;
    assert c.bid in s.branches ==> BranchOk(s.merged, c.bid, s.branches[c.bid]);
  }

  lemma StartedOk(s: Server, dev: nat)
    requires ServerOk(s)
    ensures ClientOk(s, Started(s, dev)) && Started(s, dev).dev == dev
    ensures Started(s, dev).staged ==> dev in s.devices && Started(s, dev).bid == s.devices[dev]
    ensures Started(s, dev).head in s.merged ||
      (Started(s, dev).bid in s.branches && Started(s, dev).head in s.branches[Started(s, dev).bid])
  {
    if dev in s.devices { assert BranchOk(s.merged, s.devices[dev], s.branches[s.devices[dev]]); }
  }

  // --- all clients ------------------------------------------------------------------------------------

  // Whatever is new on the server has this hash.
  ghost predicate Adds(s: Server, s': Server, id: nat) {
    && (forall i :: |s.merged| <= i < |s'.merged| ==> s'.merged[i].id == id)
    && forall x, i :: x in s'.branches && 0 <= i < |s'.branches[x]| ==>
      s'.branches[x][i].id == id || (x in s.branches && i < |s.branches[x]| && s'.branches[x][i] == s.branches[x][i])
  }

  lemma StepIds(st: State, i: nat, s': Server, c': Client, b: nat, id: nat, ids: set<nat>)
    requires IdsOk(st) && i < |st.clients| && Only(st.server, s', b, i) && Adds(st.server, s', id)
    requires id in st.used + ids && c'.head.id in st.used + ids
    ensures IdsOk(With(st, i, (s', c'), ids))
  {
  }

  lemma ClientStep(st: State, i: nat, s': Server, c': Client, b: nat, id: nat, ids: set<nat>)
    requires Inv(st) && i < |st.clients| && Kept(st.server, st.clients[i], s', c', b) && Own(st, i, b)
    requires Adds(st.server, s', id) && id in st.used + ids && c'.head.id in st.used + ids
    requires s'.merged == st.server.merged || id !in st.used
    ensures Inv(With(st, i, (s', c'), ids))
  {
    hide BranchOk, MergedOk, On, NearEnd, IdsOk, ServerOk, Adds, ClientOk, NotMerged;
    var s, st' := st.server, With(st, i, (s', c'), ids);
    StepIds(st, i, s', c', b, id, ids);
    forall j | 0 <= j < |st.clients| && j != i ensures ClientOk(s', st.clients[j]) {
      if st.clients[j].staged { StillNotMerged(st, s', j, id); }
      assert st.clients[j].staged ==> st.clients[j].bid != b;
      ClientKept(s, s', b, i, st.clients[j]);
    }
    assert forall d :: d in s'.devices ==> d < |st.clients| && Own(st', d, s'.devices[d]);
  }

  lemma StillNotMerged(st: State, s': Server, j: nat, id: nat)
    requires IdsOk(st) && j < |st.clients| && st.clients[j].staged && ClientOk(st.server, st.clients[j])
    requires st.server.merged <= s'.merged && Adds(st.server, s', id)
    requires s'.merged == st.server.merged || id !in st.used
    ensures NotMerged(s'.merged, st.clients[j].head.id)
  {
  }

  lemma FreshHere(st: State, id: nat)
    requires Inv(st) && id !in st.used
    ensures NewId(st.server, id) && forall i :: 0 <= i < |st.clients| ==> st.clients[i].head.id != id
  {
    hide ServerOk, ClientsOk;
  }

  lemma FreshBranch(st: State, i: nat, b: nat)
    requires Inv(st) && b !in st.server.branches && forall j :: 0 <= j < |st.clients| ==> st.clients[j].bid != b
    ensures Own(st, i, b) && NoOther(st.server, b, i)
  {
    hide MergedOk, BranchOk, IdsOk, ClientOk;
  }

  lemma OwnBranch(st: State, i: nat)
    requires Inv(st) && i < |st.clients| && st.clients[i].staged
    ensures Own(st, i, st.clients[i].bid) && NoOther(st.server, st.clients[i].bid, i) && st.clients[i].dev == i
  {
    hide ServerOk, IdsOk, ClientOk;
  }

  lemma KeepsWrite(st: State, i: nat, id: nat, newBid: nat, net: Net, net2: Net)
    requires Inv(st) && Enabled(st, DoWrite(i, id, newBid, net, net2))
    ensures Inv(Do(st, DoWrite(i, id, newBid, net, net2)))
  {
    hide BranchOk, On, NearEnd, Kept, IdsOk, Own, NotMerged;
    FreshHere(st, id);
    FreshBranch(st, i, newBid);
    var c := st.clients[i];
    var (s', c') := Write(st.server, c, Successor(c.head, id), newBid, net, net2);
    if c.staged {
      OwnBranch(st, i);
      WriteKeepsStaged(st.server, c, id, newBid, net, net2);
      ClientStep(st, i, s', c', c.bid, id, {id}) by { HeadUsed(st, i); }
    } else {
      WriteKeeps(st.server, c, id, newBid, net, net2);
      ClientStep(st, i, s', c', newBid, id, {id}) by { HeadUsed(st, i); }
    }
  }

  lemma HeadUsed(st: State, i: nat)
    requires IdsOk(st) && i < |st.clients|
    ensures st.clients[i].head.id in st.used
  {
  }

  lemma KeepsMergedOnly(st: State, i: nat, id: nat, net: Net)
    requires Inv(st) && Enabled(st, DoMergedOnly(i, id, net))
    ensures Inv(Do(st, DoMergedOnly(i, id, net)))
  {
    hide BranchOk, On, NearEnd, Kept, IdsOk, NotMerged;
    FreshHere(st, id);
    var c := st.clients[i];
    MergedOnlyKeeps(st.server, c, id, net);
    var (s', c') := WriteMergedOnly(st.server, c, Successor(c.head, id), net);
    HeadUsed(st, i);
    NoBranchZero(st, i);
    ClientStep(st, i, s', c', 0, id, {id});
  }

  lemma NoBranchZero(st: State, i: nat)
    requires Inv(st)
    ensures Own(st, i, 0)
  {
    forall d | d in st.server.devices ensures st.server.devices[d] != 0 {
      assert BranchOk(st.server.merged, st.server.devices[d], st.server.branches[st.server.devices[d]]);
    }
  }

  lemma KeepsResolve(st: State, i: nat, md: MD, net: Net, net2: Net)
    requires Inv(st) && Enabled(st, DoResolve(i, md, net, net2))
    ensures Inv(Do(st, DoResolve(i, md, net, net2)))
  {
    hide BranchOk, On, NearEnd, Kept, IdsOk, NotMerged, Own;
    FreshHere(st, md.id);
    OwnBranch(st, i);
    HeadUsed(st, i);
    var c := st.clients[i];
    ResolveKeeps(st.server, c, md, net, net2);
    var (s', c') := Resolve(st.server, c, md, net, net2);
    ClientStep(st, i, s', c', c.bid, md.id, {md.id});
  }

  /** Giving up a branch takes the client back to the merged history exactly if the server still has the
      branch or the merged history has got as far as the client. Otherwise the branch was pruned while the
      reply got lost, and the client counts as not staged on a revision that is not merged. */
  lemma UnstageStands(st: State, i: nat, net: Net)
    requires Inv(st) && i < |st.clients|
    ensures Inv(With(st, i, Unstage(st.server, st.clients[i], net), {})) <==> HasWayBack(st.server, st.clients[i])
  {
    hide On, NearEnd, BranchOk, MergedOk, NotMerged, Own;
    var c := st.clients[i];
    UnstageKeeps(st.server, c, net);
    var (s', c') := Unstage(st.server, c, net);
    if !c.staged {
      assert With(st, i, (s', c'), {}) == st;
      assert HasWayBack(st.server, c) by { OnMerged(st, i); }
    } else if HasWayBack(st.server, c) {
      OwnBranch(st, i);
      ClientStep(st, i, s', c', c.bid, c.head.id, {});
    } else {
      assert !ClientOk(s', With(st, i, (s', c'), {}).clients[i]);
    }
  }

  lemma OnMerged(st: State, i: nat)
    requires Inv(st) && i < |st.clients| && !st.clients[i].staged
    ensures st.clients[i].head.rev <= |st.server.merged|
  {
    assert ClientOk(st.server, st.clients[i]);
  }

  lemma KeepsUnstage(st: State, i: nat, net: Net)
    requires Inv(st) && Enabled(st, DoUnstage(i, net))
    ensures Inv(Do(st, DoUnstage(i, net)))
  {
    hide Inv, Unstage;
    UnstageStands(st, i, net);
  }

  // A step of one client that leaves the server alone.
  lemma KeepsLocal(st: State, i: nat, c': Client)
    requires Inv(st) && i < |st.clients| && ClientOk(st.server, c') && c'.head.id in st.used && c'.dev == i
    requires c'.staged ==> Own(st, i, c'.bid)
    ensures Inv(With(st, i, (st.server, c'), {}))
  {
    hide ServerOk, ClientOk;
  }

  lemma KeepsUpdate(st: State, i: nat, lo: nat, hi: nat)
    requires Inv(st) && Enabled(st, DoUpdate(i, lo, hi))
    ensures Inv(Do(st, DoUpdate(i, lo, hi)))
  {
    hide BranchOk, MergedOk, NearEnd, Own;
    UpdatesKeep(st.server, st.clients[i], lo, hi);
    KeepsLocal(st, i, ApplyUpdates(st.clients[i], st.server.merged[lo..hi]).0);
  }

  lemma KeepsStart(st: State, dev: nat)
    requires Inv(st)
    ensures var c := Started(st.server, dev);
      ClientOk(st.server, c) && c.head.id in st.used && c.dev == dev && (c.staged ==> Own(st, dev, c.bid))
  {
    hide BranchOk, NearEnd, Own;
    StartedOk(st.server, dev);
  }

  lemma KeepsRestart(st: State, i: nat)
    requires Inv(st) && Enabled(st, Restart(i))
    ensures Inv(Do(st, Restart(i)))
  {
    hide BranchOk, On, NearEnd, Own, ServerOk, Started, ClientOk;
    KeepsStart(st, i);
    KeepsLocal(st, i, Started(st.server, i));
  }

  lemma KeepsJoin(st: State)
    requires Inv(st) && Enabled(st, Join)
    ensures Inv(Do(st, Join))
  {
    hide ServerOk, Started, ClientOk;
    KeepsStart(st, |st.clients|);
  }

  lemma KeepsCollect(st: State, bid: nat)
    requires Inv(st) && Enabled(st, Collect(bid))
    ensures Inv(Do(st, Collect(bid)))
  {
    hide BranchOk, MergedOk, On, NearEnd, NotMerged;
  }

  lemma Keeps(st: State, step: Step)
    requires Inv(st) && Enabled(st, step)
    ensures Inv(Do(st, step))
  {
    hide Inv, Enabled, Do;
    match step
    case Join => KeepsJoin(st);
    case DoWrite(i, id, newBid, net, net2) => KeepsWrite(st, i, id, newBid, net, net2);
    case DoMergedOnly(i, id, net) => KeepsMergedOnly(st, i, id, net);
    case DoUpdate(i, lo, hi) => KeepsUpdate(st, i, lo, hi);
    case DoResolve(i, md, net, net2) => KeepsResolve(st, i, md, net, net2);
    case DoUnstage(i, net) => KeepsUnstage(st, i, net);
    case Restart(i) => KeepsRestart(st, i);
    case Collect(bid) => KeepsCollect(st, bid);
  }

  // --- runs ---------------------------------------------------------------------------------------------

  // A new folder with its first revision and no clients.
  function Initial(id: nat): State {
    State(Server([MD(id, 1, 0, 0)], map[], map[]), [], {id})
  }

  ghost predicate Run(ss: seq<State>, steps: seq<Step>, id: nat) {
    && |ss| == |steps| + 1 && ss[0] == Initial(id)
    && forall k :: 0 <= k < |steps| ==> Enabled(ss[k], steps[k]) && ss[k + 1] == Do(ss[k], steps[k])
  }

  /** In every state of every run, with any number of clients and any requests or replies lost: the
      merged history is without gaps, each revision succeeding the one before; every client that is not
      staged stands on the merged revision of its number; every staged one stands on a branch no other
      client uses, at its end or one before it, if the server still has the branch, which leaves the
      merged history at an existing revision. */
  lemma {:induction false} RunKeeps(ss: seq<State>, steps: seq<Step>, id: nat, k: nat)
    requires Run(ss, steps, id) && k < |ss|
    ensures Inv(ss[k])
  {
    if k > 0 {
      hide Inv, Enabled, Do;
      RunKeeps(ss, steps, id, k - 1);
      NextState(ss, steps, id, k - 1);
      Keeps(ss[k - 1], steps[k - 1]);
    }
  }

  lemma NextState(ss: seq<State>, steps: seq<Step>, id: nat, k: nat)
    requires Run(ss, steps, id) && k + 1 < |ss|
    ensures k < |steps| && Enabled(ss[k], steps[k]) && ss[k + 1] == Do(ss[k], steps[k])
  {
    hide Enabled, Do;
  }

  // No step takes anything back from the merged history, and only writes of clients that are not
  // staged, and resolutions, add to it.
  lemma MergedGrows(st: State, step: Step)
    requires Inv(st) && Enabled(st, step)
    ensures st.server.merged <= Do(st, step).server.merged
    ensures st.server.merged < Do(st, step).server.merged ==>
      match step
      case DoWrite(i, _, _, _, _) => !st.clients[i].staged
      case DoMergedOnly(i, _, _) => !st.clients[i].staged
      case DoResolve(_, _, _, _) => true
      case _ => false
  {
    hide Inv;
  }

  /** Over any stretch of any run the merged history only grows: what was merged stays merged. */
  lemma {:induction false} MergedStays(ss: seq<State>, steps: seq<Step>, id: nat, j: nat, k: nat)
    requires Run(ss, steps, id) && j <= k < |ss|
    ensures ss[j].server.merged <= ss[k].server.merged
    decreases k
  {
    hide Inv, Enabled, Do, Run;
    if j < k {
      MergedStays(ss, steps, id, j, k - 1);
      RunKeeps(ss, steps, id, k - 1);
      NextState(ss, steps, id, k - 1);
      MergedGrows(ss[k - 1], steps[k - 1]);
    }
  }

  // --- how a client's head moves ----------------------------------------------------------------------

  // The merged revision a client is not going back behind.
  function Floor(s: Server, c: Client): int {
    if !c.staged then c.head.rev
    else if HasBranch(s, c.bid) then s.branches[c.bid][0].rev - 1
    else if c.head.rev <= |s.merged| then c.head.rev else |s.merged|
  }

  // Another client's step, or the collection of a branch.
  lemma FloorElsewhere(s: Server, s': Server, c: Client)
    requires ServerOk(s) && ClientOk(s, c) && s.merged <= s'.merged
    requires c.staged && c.bid in s'.branches ==> c.bid in s.branches && s'.branches[c.bid] == s.branches[c.bid]
    ensures Floor(s, c) <= Floor(s', c)
  {
    if c.bid in s.branches { assert BranchOk(s.merged, c.bid, s.branches[c.bid]); }
  }

  lemma FloorBound(s: Server, c: Client)
    requires ServerOk(s) && ClientOk(s, c)
    ensures Floor(s, c) <= |s.merged| && Floor(s, c) <= c.head.rev
    ensures c.staged && c.bid in s.branches ==> Floor(s, c) < c.head.rev && HasBranch(s, c.bid)
  {
    if c.bid in s.branches { assert BranchOk(s.merged, c.bid, s.branches[c.bid]); }
  }

  lemma FloorWrite(s: Server, c: Client, id: nat, newBid: nat, net: Net, net2: Net)
    requires ServerOk(s) && ClientOk(s, c) && newBid !in s.branches
    ensures var (s', c') := Write(s, c, Successor(c.head, id), newBid, net, net2); Floor(s, c) <= Floor(s', c')
  {
    FloorBound(s, c);
    if c.staged { StagedPut(s, c, id); }
  }

  lemma FloorOwn(st: State, step: Step)
    requires Inv(st) && Enabled(st, step) && OfClient(step) && !step.Restart?
    ensures Floor(st.server, st.clients[step.i]) <= Floor(Do(st, step).server, Do(st, step).clients[step.i])
  {
    hide BranchOk, On, NearEnd, IdsOk, Own;
    var s, c := st.server, st.clients[step.i];
    FloorBound(s, c);
    match step
    case DoWrite(i, id, newBid, net, net2) => FloorWrite(s, c, id, newBid, net, net2);
    case DoUpdate(i, lo, hi) => UpdatesKeep(s, c, lo, hi);
    case DoResolve(_, _, _, _) =>
    case DoMergedOnly(_, _, _) =>
    case DoUnstage(_, _) =>
  }

  lemma FloorStep(st: State, step: Step, i: nat)
    requires Inv(st) && Enabled(st, step) && i < |st.clients| && step != Restart(i)
    ensures i < |Do(st, step).clients|
    ensures Floor(st.server, st.clients[i]) <= Floor(Do(st, step).server, Do(st, step).clients[i])
  {
    hide Floor, BranchOk, MergedOk, On, NearEnd, IdsOk, NotMerged;
    if OfClient(step) && step.i == i {
      FloorOwn(st, step);
    } else {
      OthersBranch(st, step, i);
      MergedGrows(st, step);
      FloorElsewhere(st.server, Do(st, step).server, st.clients[i]);
    }
  }

  // A step of somebody else leaves a client and its branch alone, or collects that.
  lemma OthersBranch(st: State, step: Step, i: nat)
    requires Inv(st) && Enabled(st, step) && i < |st.clients| && (OfClient(step) ==> step.i != i)
    ensures var st', c := Do(st, step), st.clients[i];
      && i < |st'.clients| && st'.clients[i] == c
      && (c.staged && c.bid in st'.server.branches ==>
        c.bid in st.server.branches && st'.server.branches[c.bid] == st.server.branches[c.bid])
      && (i in st'.server.devices <==> i in st.server.devices)
  {
    hide IdsOk, ClientOk, ServerOk, ApplyUpdates, Write;
    if st.clients[i].staged { OwnBranch(st, i); }
    if step.DoWrite? { WriteElsewhere(st, step, st.clients[i].bid); }
  }

  lemma WriteElsewhere(st: State, step: Step, b: nat)
    requires step.DoWrite? && Enabled(st, step) && b != step.newBid
    ensures var s, s' := st.server, Do(st, step).server;
      && (!(st.clients[step.i].staged && st.clients[step.i].bid == b) ==>
        ((b in s'.branches <==> b in s.branches) && (b in s.branches ==> s'.branches[b] == s.branches[b])))
      && forall d :: d != st.clients[step.i].dev ==> (d in s'.devices <==> d in s.devices)
  {
  }

  /** A client's head never goes back: whenever a client is not staged, it stands on a merged revision no
      earlier than any it stood on before while not staged, unless it started over in between. */
  lemma {:induction false} HeadNeverGoesBack(ss: seq<State>, steps: seq<Step>, id: nat, i: nat, j: nat, k: nat)
    requires Run(ss, steps, id) && j <= k < |ss| && i < |ss[j].clients|
    requires forall x :: j <= x < k ==> steps[x] != Restart(i)
    ensures i < |ss[k].clients| && Floor(ss[j].server, ss[j].clients[i]) <= Floor(ss[k].server, ss[k].clients[i])
    ensures !ss[j].clients[i].staged && !ss[k].clients[i].staged ==>
      ss[j].clients[i].head.rev <= ss[k].clients[i].head.rev <= |ss[k].server.merged| &&
      ss[k].clients[i].head in ss[k].server.merged
    decreases k
  {
    hide Inv, Enabled, Do, Run;
    RunKeeps(ss, steps, id, k);
    if j < k {
      HeadNeverGoesBack(ss, steps, id, i, j, k - 1);
      RunKeeps(ss, steps, id, k - 1);
      NextState(ss, steps, id, k - 1);
      FloorStep(ss[k - 1], steps[k - 1], i);
    }
    if !ss[k].clients[i].staged { StandsOnMerged(ss[k], i); }
  }

  lemma StandsOnMerged(st: State, i: nat)
    requires Inv(st) && i < |st.clients| && !st.clients[i].staged
    ensures st.clients[i].head.rev <= |st.server.merged| && st.clients[i].head in st.server.merged
  {
    assert ClientOk(st.server, st.clients[i]);
  }

  // --- which writes and resolutions of a staged client succeed ------------------------------------------

  // The steps by which client i can leave its branch.
  predicate Leaves(step: Step, i: nat) {
    (step.DoResolve? || step.DoUnstage? || step.Restart?) && step.i == i
  }

  // Where the server or the client changed, the branch, or the client's head, got the revision after it.
  ghost predicate WroteStaged(s: Server, c: Client, id: nat, s': Server, c': Client) {
    var md := MD(id, c.head.rev + 1, c.head.id, c.bid);
    && (s' != s ==> c.bid in s.branches && s' == s.(branches := s.branches[c.bid := s.branches[c.bid] + [md]]))
    && (c' != c ==> c' == c.(head := md))
  }

  // A staged client's write reaches the server exactly if it is not lost and the client stands at the
  // end of its branch; it touches nothing but that.
  lemma StagedWriteStep(st: State, step: Step)
    requires Inv(st) && step.DoWrite? && Enabled(st, step) && st.clients[step.i].staged
    ensures var st', c := Do(st, step), st.clients[step.i];
      && (st'.server != st.server <==> step.net2 != Lost && AtEnd(st.server, c))
      && (st'.clients[step.i] != c <==> step.net2 == Delivered && AtEnd(st.server, c))
      && WroteStaged(st.server, c, step.id, st'.server, st'.clients[step.i])
      && st'.server.merged == st.server.merged && st'.server.devices == st.server.devices
      && Only(st.server, st'.server, c.bid, c.dev) && st'.clients[step.i].staged && st'.clients[step.i].bid == c.bid
  {
    hide BranchOk, MergedOk, On, NearEnd, NotMerged;
    var c := st.clients[step.i];
    StagedPut(st.server, c, step.id);
    FreshHere(st, step.id);
    OwnBranch(st, step.i);
    WriteKeepsStaged(st.server, c, step.id, step.newBid, step.net, step.net2);
  }

  /** Over every run: a staged client's write changes the server if and only if the request arrives and
      the client stands at the end of its branch there, and the client takes it for done if and only if
      the reply arrives as well; what the branch and the client get is the revision after the client's head. */
  lemma StagedWrite(ss: seq<State>, steps: seq<Step>, id: nat, k: nat)
    requires Run(ss, steps, id) && k < |steps| && steps[k].DoWrite? && steps[k].i < |ss[k].clients|
    requires ss[k].clients[steps[k].i].staged
    ensures var (s, s', c) := (ss[k].server, ss[k + 1].server, ss[k].clients[steps[k].i]);
      && (s' != s <==> steps[k].net2 != Lost && AtEnd(s, c))
      && |ss[k + 1].clients| == |ss[k].clients|
      && (ss[k + 1].clients[steps[k].i] != c <==> steps[k].net2 == Delivered && AtEnd(s, c))
      && WroteStaged(s, c, steps[k].id, s', ss[k + 1].clients[steps[k].i])
  {
    RunKeeps(ss, steps, id, k);
    NextState(ss, steps, id, k);
    hide Inv, Run;
    StagedWriteStep(ss[k], steps[k]);
  }

  /** The two ways not to stand at the end of the branch: it was pruned while the reply got lost, and has
      been collected; or an earlier write reached it while the reply got lost, and it is one ahead. */
  lemma NotAtEnd(st: State, i: nat)
    requires Inv(st) && i < |st.clients| && st.clients[i].staged
    ensures var s, c := st.server, st.clients[i];
      !AtEnd(s, c) <==>
        (c.bid !in s.branches && i !in s.devices) ||
        (HasBranch(s, c.bid) && Succeeds(Last(s.branches[c.bid]), c.head) && NearEnd(s.branches[c.bid], c.head))
  {
    var s, c := st.server, st.clients[i];
    assert ClientOk(s, c);
    if c.bid in s.branches { assert BranchOk(s.merged, c.bid, s.branches[c.bid]); }
  }

  lemma StagedStep(st: State, step: Step, i: nat)
    requires Inv(st) && Enabled(st, step) && i < |st.clients| && st.clients[i].staged && !Leaves(step, i)
    ensures var st', c := Do(st, step), st.clients[i];
      && i < |st'.clients| && st'.clients[i].staged && st'.clients[i].bid == c.bid
      && (i in st'.server.devices <==> i in st.server.devices)
      && (!AtEnd(st.server, c) ==> st'.clients[i] == c && !AtEnd(st'.server, c))
  {
    hide Inv;
    if OfClient(step) && step.i == i {
      if step.DoWrite? {
        StagedWriteStep(st, step);
      }
    } else {
      OthersBranch(st, step, i);
    }
  }

  /** Until a resolution, giving up its branch or starting over, a staged client stays staged on its
      branch, whatever others do, and each of its writes touches nothing but that branch. */
  lemma {:induction false} StagedWritesOwnBranch(ss: seq<State>, steps: seq<Step>, id: nat, i: nat, j: nat, k: nat)
    requires Run(ss, steps, id) && j <= k < |ss| && i < |ss[j].clients| && ss[j].clients[i].staged
    requires forall x :: j <= x < k ==> !Leaves(steps[x], i)
    ensures i < |ss[k].clients| && ss[k].clients[i].staged && ss[k].clients[i].bid == ss[j].clients[i].bid
    ensures k < |steps| && steps[k].DoWrite? && steps[k].i == i ==>
      Only(ss[k].server, ss[k + 1].server, ss[j].clients[i].bid, i) && ss[k + 1].server.merged == ss[k].server.merged
    decreases k
  {
    hide Inv, Enabled, Do, Run, Only;
    if j < k {
      StagedWritesOwnBranch(ss, steps, id, i, j, k - 1);
      RunKeeps(ss, steps, id, k - 1);
      NextState(ss, steps, id, k - 1);
      StagedStep(ss[k - 1], steps[k - 1], i);
    }
    RunKeeps(ss, steps, id, k);
    if k < |steps| && steps[k].DoWrite? && steps[k].i == i {
      RunLength(ss, steps, id);
      NextState(ss, steps, id, k);
      StagedWriteStep(ss[k], steps[k]);
      OwnBranch(ss[k], i);
    }
  }

  lemma RunLength(ss: seq<State>, steps: seq<Step>, id: nat)
    requires Run(ss, steps, id)
    ensures |ss| == |steps| + 1
  {
  }

  /** A staged client that does not stand at the end of its branch can write nothing until it resolves,
      gives the branch up or starts over, whatever others do. */
  lemma {:induction false} StuckWrites(ss: seq<State>, steps: seq<Step>, id: nat, i: nat, j: nat, k: nat)
    requires Run(ss, steps, id) && j <= k < |ss| && i < |ss[j].clients|
    requires ss[j].clients[i].staged && !AtEnd(ss[j].server, ss[j].clients[i])
    requires forall x :: j <= x < k ==> !Leaves(steps[x], i)
    ensures i < |ss[k].clients| && ss[k].clients[i] == ss[j].clients[i] && !AtEnd(ss[k].server, ss[k].clients[i])
    ensures k < |steps| && steps[k].DoWrite? && steps[k].i == i ==> ss[k + 1].server == ss[k].server
    decreases k
  {
    hide Inv, Enabled, Do, Run;
    if j < k {
      StuckWrites(ss, steps, id, i, j, k - 1);
      RunKeeps(ss, steps, id, k - 1);
      NextState(ss, steps, id, k - 1);
      StagedStep(ss[k - 1], steps[k - 1], i);
    }
    if k < |steps| && steps[k].DoWrite? && steps[k].i == i {
      RunLength(ss, steps, id);
      StagedWrite(ss, steps, id, k);
    }
  }

  lemma ResolveStep(st: State, step: Step)
    requires Inv(st) && step.DoResolve? && Enabled(st, step)
    ensures var st', put := Do(st, step), step.net != Lost && Succeeds(step.md, Last(st.server.merged));
      && |st'.clients| == |st.clients|
      && st'.server.merged == st.server.merged + (if put then [step.md.(bid := 0)] else [])
      && (!st'.clients[step.i].staged <==>
        put && step.net == Delivered && step.net2 == Delivered && step.i in st.server.devices)
      && (step.i !in st.server.devices ==> step.i !in st'.server.devices && st'.clients[step.i] == st.clients[step.i])
      && st'.server.branches == st.server.branches
      && st'.server.devices == (if put && step.net == Delivered && step.net2 != Lost then st.server.devices - {step.i}
        else st.server.devices)
      && st'.clients[step.i] == (if st'.clients[step.i].staged then st.clients[step.i]
        else Client(step.i, false, 0, step.md.(bid := 0)))
  {
    hide ServerOk, IdsOk, On, NearEnd, NotMerged, Own;
    assert ClientOk(st.server, st.clients[step.i]);
    assert st.clients[step.i].dev == step.i;
    if step.i !in st.server.devices { assert st.server.devices - {step.i} == st.server.devices; }
    hide Inv, ClientOk;
  }

  /** Over every run: a resolution takes its client off its branch if and only if both replies arrive, it
      succeeds the latest merged revision, and the branch is still the one recorded for the device; the
      merged history gets its revision whether or not the rest succeeds. */
  lemma ResolutionDone(ss: seq<State>, steps: seq<Step>, id: nat, k: nat)
    requires Run(ss, steps, id) && k < |steps| && steps[k].DoResolve? && steps[k].i < |ss[k].clients|
    ensures ss[k].server.merged != [] && |ss[k + 1].clients| == |ss[k].clients|
    ensures var (s, step) := (ss[k].server, steps[k]);
      var put := step.net != Lost && Succeeds(step.md, Last(s.merged));
      && ss[k + 1].server.merged == s.merged + (if put then [step.md.(bid := 0)] else [])
      && (!ss[k + 1].clients[step.i].staged <==>
        put && step.net == Delivered && step.net2 == Delivered && step.i in s.devices)
      && ss[k + 1].server.branches == s.branches
      && ss[k + 1].server.devices ==
        (if put && step.net == Delivered && step.net2 != Lost then s.devices - {step.i} else s.devices)
      && ss[k + 1].clients[step.i] == (if ss[k + 1].clients[step.i].staged then ss[k].clients[step.i]
        else Client(step.i, false, 0, step.md.(bid := 0)))
  {
    RunKeeps(ss, steps, id, k);
    NextState(ss, steps, id, k);
    hide Inv, Run;
    ResolveStep(ss[k], steps[k]);
  }

  /** Once a pruned branch's record is gone while the client is still on the branch, no resolution gets it
      off any more: only giving up or starting over does. */
  lemma {:induction false} NeverResolved(ss: seq<State>, steps: seq<Step>, id: nat, i: nat, j: nat, k: nat)
    requires Run(ss, steps, id) && j <= k < |ss| && i < |ss[j].clients|
    requires ss[j].clients[i].staged && i !in ss[j].server.devices
    requires forall x :: j <= x < k ==> !((steps[x].DoUnstage? || steps[x].Restart?) && steps[x].i == i)
    ensures i < |ss[k].clients| && ss[k].clients[i].staged && i !in ss[k].server.devices
    ensures ss[k].clients[i].bid == ss[j].clients[i].bid
    decreases k
  {
    hide Inv, Enabled, Do, Run;
    if j < k {
      NeverResolved(ss, steps, id, i, j, k - 1);
      RunKeeps(ss, steps, id, k - 1);
      NextState(ss, steps, id, k - 1);
      if steps[k - 1].DoResolve? && steps[k - 1].i == i {
        ResolveStep(ss[k - 1], steps[k - 1]);
      } else {
        StagedStep(ss[k - 1], steps[k - 1], i);
      }
    }
  }

  // --- what writing, giving up and starting over lead to ----------------------------------------------------

  // The outcome of a write by a client that is not staged.
  ghost predicate Wrote(s: Server, c: Client, i: nat, id: nat, newBid: nat, net: Net, net2: Net, s': Server, c': Client)
    requires s.merged != []
  {
    var md, mine := MD(id, c.head.rev + 1, c.head.id, 0), MD(id, c.head.rev + 1, c.head.id, newBid);
    if c.head == Last(s.merged) then
      && s' == (if net == Lost then s else s.(merged := s.merged + [md]))
      && c' == (if net == Delivered then Client(i, false, 0, md) else c)
    else
      && s' == (if net == Delivered && net2 != Lost
        then s.(branches := s.branches[newBid := [mine]], devices := s.devices[i := newBid]) else s)
      && c' == if net == Delivered && net2 == Delivered then Client(i, true, newBid, mine) else c
  }

  // The revision after a client's head is the one after the latest exactly if the head is the latest; if not,
  // it succeeds the merged revision of the head's number.
  lemma HeadOnMerged(s: Server, c: Client, id: nat)
    requires ServerOk(s) && ClientOk(s, c) && !c.staged
    ensures 1 <= c.head.rev <= |s.merged| && s.merged[c.head.rev - 1] == c.head && c.bid == 0
    ensures Succeeds(Successor(c.head, id), Last(s.merged)) <==> c.head == Last(s.merged)
  {
    hide BranchOk;
  }

  lemma WriteStep(st: State, step: Step)
    requires Inv(st) && step.DoWrite? && Enabled(st, step) && !st.clients[step.i].staged
    ensures Wrote(st.server, st.clients[step.i], step.i, step.id, step.newBid, step.net, step.net2,
                  Do(st, step).server, Do(st, step).clients[step.i])
  {
    hide ServerOk;
    HeadOnMerged(st.server, st.clients[step.i], step.id);
  }

  /** Over every run: a write of a client that is not staged is merged if and only if the request arrives and its
      head is the latest merged revision. If it is not the latest, the client learns so if the reply arrives, and
      the write becomes the first revision of a new branch, recorded for the device, if that request arrives;
      the client is on that branch if the second reply arrives too. */
  lemma WriteDone(ss: seq<State>, steps: seq<Step>, id: nat, k: nat)
    requires Run(ss, steps, id) && k < |steps| && steps[k].DoWrite? && steps[k].i < |ss[k].clients|
    requires !ss[k].clients[steps[k].i].staged
    ensures ss[k].server.merged != [] && |ss[k + 1].clients| == |ss[k].clients|
    ensures var (step, i) := (steps[k], steps[k].i);
      Wrote(ss[k].server, ss[k].clients[i], i, step.id, step.newBid, step.net, step.net2, ss[k + 1].server,
            ss[k + 1].clients[i])
  {
    RunKeeps(ss, steps, id, k);
    NextState(ss, steps, id, k);
    hide Inv, Run;
    WriteStep(ss[k], steps[k]);
  }

  /** Over every run: a rekey, or the record of a reclamation, is merged if and only if its client is not staged,
      the request arrives and the client's head is the latest merged revision; nothing else changes. */
  lemma MergedOnlyDone(ss: seq<State>, steps: seq<Step>, id: nat, k: nat)
    requires Run(ss, steps, id) && k < |steps| && steps[k].DoMergedOnly? && steps[k].i < |ss[k].clients|
    ensures ss[k].server.merged != [] && |ss[k + 1].clients| == |ss[k].clients|
    ensures var (s, step, c) := (ss[k].server, steps[k], ss[k].clients[steps[k].i]);
      var md := MD(step.id, c.head.rev + 1, c.head.id, 0);
      var put := !c.staged && step.net != Lost && c.head == Last(s.merged);
      && ss[k + 1].server == (if put then s.(merged := s.merged + [md]) else s)
      && ss[k + 1].clients[step.i] == if put && step.net == Delivered then Client(step.i, false, 0, md) else c
  {
    RunKeeps(ss, steps, id, k);
    NextState(ss, steps, id, k);
    hide Run, ServerOk;
    var st, c := ss[k], ss[k].clients[steps[k].i];
    assert ClientOk(st.server, c) && c.dev == steps[k].i;
    if !c.staged { HeadOnMerged(st.server, c, steps[k].id); }
  }

  lemma UnstageStep(st: State, step: Step)
    requires Inv(st) && step.DoUnstage? && Enabled(st, step)
    ensures var s, c, st' := st.server, st.clients[step.i], Do(st, step);
      var s', c' := st'.server, st'.clients[step.i];
      && |st'.clients| == |st.clients| && (!c.staged ==> s' == s && c' == c)
      && (c.staged ==>
        && s' == s.(devices := if step.net == Lost then s.devices else s.devices - {step.i})
        && !c'.staged && c'.bid == 0 && c'.dev == step.i && c'.head in s.merged
        && c'.head.rev == if c.bid in s.branches then s.branches[c.bid][0].rev - 1 else c.head.rev)
  {
    hide IdsOk;
    var s, c := st.server, st.clients[step.i];
    assert ClientOk(s, c) && c.dev == step.i;
    if c.staged {
      if c.bid in s.branches { assert BranchOk(s.merged, c.bid, s.branches[c.bid]); }
      if step.i !in s.devices { assert s.devices - {step.i} == s.devices; }
    }
  }

  /** Over every run: giving up a branch takes the client to the merged revision the branch left from, or to that of
      its own number if the server has no branch of it, and if the request arrives the server has no branch recorded
      for the device any more; the branch itself, and all else, stays. */
  lemma UnstageDone(ss: seq<State>, steps: seq<Step>, id: nat, k: nat)
    requires Run(ss, steps, id) && k < |steps| && steps[k].DoUnstage? && steps[k].i < |ss[k].clients|
    requires ss[k].clients[steps[k].i].staged
    ensures |ss[k + 1].clients| == |ss[k].clients|
    ensures var (s, i, c) := (ss[k].server, steps[k].i, ss[k].clients[steps[k].i]);
      var c' := ss[k + 1].clients[i];
      && ss[k + 1].server == s.(devices := if steps[k].net == Lost then s.devices else s.devices - {i})
      && !c'.staged && c'.bid == 0 && c'.dev == i && c'.head in s.merged
      && (c.bid in s.branches ==> s.branches[c.bid] != [] && c'.head.rev == s.branches[c.bid][0].rev - 1)
      && (c.bid !in s.branches ==> c'.head.rev == c.head.rev)
  {
    RunKeeps(ss, steps, id, k);
    NextState(ss, steps, id, k);
    var s, c := ss[k].server, ss[k].clients[steps[k].i];
    if c.bid in s.branches { assert BranchOk(s.merged, c.bid, s.branches[c.bid]); }
    hide Inv, Run;
    UnstageStep(ss[k], steps[k]);
  }

  /** Over every run: a client that starts over is staged, at the end of the branch recorded for its device, if there
      is one, and that is the branch it was on if it was staged; otherwise it stands on the latest merged revision. */
  lemma RestartDone(ss: seq<State>, steps: seq<Step>, id: nat, k: nat)
    requires Run(ss, steps, id) && k < |steps| && steps[k].Restart? && steps[k].i < |ss[k].clients|
    ensures ss[k + 1].server == ss[k].server && |ss[k + 1].clients| == |ss[k].clients| && ss[k].server.merged != []
    ensures var (s, i, c) := (ss[k].server, steps[k].i, ss[k].clients[steps[k].i]);
      var c' := ss[k + 1].clients[i];
      && (i in s.devices ==>
        && s.devices[i] in s.branches && s.branches[s.devices[i]] != []
        && c' == Client(i, true, s.devices[i], Last(s.branches[s.devices[i]])) && (c.staged ==> c'.bid == c.bid))
      && (i !in s.devices ==> c' == Client(i, false, 0, Last(s.merged)))
  {
    RunKeeps(ss, steps, id, k);
    NextState(ss, steps, id, k);
    var s, i := ss[k].server, steps[k].i;
    assert ClientOk(s, ss[k].clients[i]) && ss[k].clients[i].dev == i;
    if i in s.devices { assert BranchOk(s.merged, s.devices[i], s.branches[s.devices[i]]); }
    hide Inv, Run;
  }

  /** Over every run: a client that joins starts on the latest merged revision. */
  lemma JoinDone(ss: seq<State>, steps: seq<Step>, id: nat, k: nat)
    requires Run(ss, steps, id) && k < |steps| && steps[k].Join?
    ensures ss[k].server.merged != [] && ss[k + 1].server == ss[k].server
    ensures ss[k + 1].clients == ss[k].clients + [Client(|ss[k].clients|, false, 0, Last(ss[k].server.merged))]
  {
    RunKeeps(ss, steps, id, k);
    NextState(ss, steps, id, k);
    hide ServerOk, IdsOk, Run;
  }

  // Nothing but a write of the client records a branch for its device.
  lemma RecordStep(st: State, step: Step, i: nat)
    requires Inv(st) && Enabled(st, step) && i < |st.clients| && i !in st.server.devices
    requires !(step.DoWrite? && step.i == i)
    ensures i < |Do(st, step).clients| && i !in Do(st, step).server.devices
  {
    hide ServerOk, IdsOk;
    if OfClient(step) { assert st.clients[step.i].dev == step.i; }
  }

  lemma {:induction false} NoRecord(ss: seq<State>, steps: seq<Step>, id: nat, i: nat, j: nat, k: nat)
    requires Run(ss, steps, id) && j <= k < |ss| && i < |ss[j].clients| && i !in ss[j].server.devices
    requires forall x :: j <= x < k ==> !(steps[x].DoWrite? && steps[x].i == i)
    ensures i < |ss[k].clients| && i !in ss[k].server.devices
    decreases k
  {
    hide Inv, Enabled, Do, Run;
    if j < k {
      NoRecord(ss, steps, id, i, j, k - 1);
      RunKeeps(ss, steps, id, k - 1);
      NextState(ss, steps, id, k - 1);
      RecordStep(ss[k - 1], steps[k - 1], i);
    }
  }

  /** Over every run: a branch that was given up does not come back. If the request to prune it arrived, then whatever
      happens before the client's next write, starting over puts the client on the latest merged revision. */
  lemma GivenUpForGood(ss: seq<State>, steps: seq<Step>, id: nat, j: nat, k: nat)
    requires Run(ss, steps, id) && j < k < |steps| && steps[j].DoUnstage? && steps[j].i < |ss[j].clients|
    requires ss[j].clients[steps[j].i].staged && steps[j].net != Lost && steps[k] == Restart(steps[j].i)
    requires forall x :: j < x < k ==> !(steps[x].DoWrite? && steps[x].i == steps[j].i)
    ensures steps[j].i < |ss[k + 1].clients| && ss[k].server.merged != []
    ensures ss[k + 1].clients[steps[j].i] == Client(steps[j].i, false, 0, Last(ss[k].server.merged))
  {
    UnstageDone(ss, steps, id, j);
    NoRecord(ss, steps, id, steps[j].i, j + 1, k);
    RestartDone(ss, steps, id, k);
    hide Run;
  }

  // Nor does anything but the client's own steps change what is recorded for its device.
  lemma OthersRecord(st: State, step: Step, i: nat)
    requires Inv(st) && Enabled(st, step) && i < |st.clients| && !(OfClient(step) && step.i == i)
    ensures var st' := Do(st, step);
      && i < |st'.clients| && (i in st'.server.devices <==> i in st.server.devices)
      && (i in st.server.devices ==> st'.server.devices[i] == st.server.devices[i])
  {
    hide ServerOk, IdsOk;
    if OfClient(step) { assert st.clients[step.i].dev == step.i; }
  }

  lemma {:induction false} SameRecord(ss: seq<State>, steps: seq<Step>, id: nat, i: nat, j: nat, k: nat)
    requires Run(ss, steps, id) && j <= k < |ss| && i < |ss[j].clients|
    requires forall x :: j <= x < k ==> !(OfClient(steps[x]) && steps[x].i == i)
    ensures i < |ss[k].clients| && (i in ss[k].server.devices <==> i in ss[j].server.devices)
    ensures i in ss[j].server.devices ==> ss[k].server.devices[i] == ss[j].server.devices[i]
    decreases k
  {
    hide Inv, Enabled, Do, Run;
    if j < k {
      SameRecord(ss, steps, id, i, j, k - 1);
      RunKeeps(ss, steps, id, k - 1);
      NextState(ss, steps, id, k - 1);
      OthersRecord(ss[k - 1], steps[k - 1], i);
    }
  }

  /** Over every run: if the next thing a client does after giving up its branch is to start over, it is back on that
      branch if and only if the request to prune it got lost and the server had it recorded. */
  lemma BranchComesBack(ss: seq<State>, steps: seq<Step>, id: nat, j: nat, k: nat)
    requires Run(ss, steps, id) && j < k < |steps| && steps[j].DoUnstage? && steps[j].i < |ss[j].clients|
    requires ss[j].clients[steps[j].i].staged && steps[k] == Restart(steps[j].i)
    requires forall x :: j < x < k ==> !(OfClient(steps[x]) && steps[x].i == steps[j].i)
    ensures steps[j].i < |ss[k + 1].clients|
    ensures var (i, c) := (steps[j].i, ss[j].clients[steps[j].i]);
      && (ss[k + 1].clients[i].staged <==> steps[j].net == Lost && i in ss[j].server.devices)
      && (ss[k + 1].clients[i].staged ==> ss[k + 1].clients[i].bid == c.bid)
  {
    UnstageDone(ss, steps, id, j);
    var i := steps[j].i;
    SameRecord(ss, steps, id, i, j + 1, k);
    RestartDone(ss, steps, id, k);
    RunKeeps(ss, steps, id, j);
    assert ClientOk(ss[j].server, ss[j].clients[i]) && ss[j].clients[i].dev == i;
    hide Run, Inv;
  }

  // --- that these states occur ----------------------------------------------------------------------------

  // Two clients; the first one's write is merged, the second one's goes to branch 7.
  lemma Conflicting() returns (ss: seq<State>, steps: seq<Step>)
    ensures Run(ss, steps, 1) && |steps| == 4
    ensures ss[4] == State(
      Server([MD(1, 1, 0, 0), MD(2, 2, 1, 0)], map[7 := [MD(3, 2, 1, 7)]], map[1 := 7]),
      [Client(0, false, 0, MD(2, 2, 1, 0)), Client(1, true, 7, MD(3, 2, 1, 7))], {1, 2, 3})
  {
    var s0 := Initial(1);
    var s1 := Do(s0, Join);
    var s2 := Do(s1, Join);
    var s3 := Do(s2, DoWrite(0, 2, 9, Delivered, Delivered));
    var s4 := Do(s3, DoWrite(1, 3, 7, Delivered, Delivered));
    ss := [s0, s1, s2, s3, s4];
    steps := [Join, Join, DoWrite(0, 2, 9, Delivered, Delivered), DoWrite(1, 3, 7, Delivered, Delivered)];
  }

  lemma OneMore(ss: seq<State>, steps: seq<Step>, id: nat, step: Step)
    requires Run(ss, steps, id) && Enabled(ss[|ss| - 1], step)
    ensures Run(ss + [Do(ss[|ss| - 1], step)], steps + [step], id)
  {
    hide Enabled, Do;
    var ss', steps' := ss + [Do(ss[|ss| - 1], step)], steps + [step];
    forall k | 0 <= k < |steps'| ensures Enabled(ss'[k], steps'[k]) && ss'[k + 1] == Do(ss'[k], steps'[k]) {
      if k < |steps| { NextState(ss, steps, id, k); }
    }
  }

  /** A write of the staged client reaches the server and the reply gets lost: from then on its branch is
      ahead of it, and it can write nothing more. */
  lemma ReplyLostRun() returns (ss: seq<State>, steps: seq<Step>)
    ensures Run(ss, steps, 1) && |steps| == 5 && |ss[5].clients| == 2 && ss[5].clients[1].staged
    ensures !AtEnd(ss[5].server, ss[5].clients[1]) && 7 in ss[5].server.branches
  {
    ss, steps := Conflicting();
    var step := DoWrite(1, 4, 8, Delivered, ReplyLost);
    OneMore(ss, steps, 1, step);
    ss, steps := ss + [Do(ss[4], step)], steps + [step];
  }

  /** The staged client writes twice more, and its resolution is merged while the reply to the pruning
      gets lost. Once the branch is collected, the client can write nothing, no resolution gets it off
      the branch, and giving it up leaves the client not staged on a revision that is not merged. */
  lemma PruneLostRun() returns (ss: seq<State>, steps: seq<Step>)
    ensures Run(ss, steps, 1) && |steps| == 8 && |ss[8].clients| == 2 && ss[8].clients[1].staged
    ensures 7 !in ss[8].server.branches && 1 !in ss[8].server.devices && !AtEnd(ss[8].server, ss[8].clients[1])
    ensures !HasWayBack(ss[8].server, ss[8].clients[1])
  {
    ss, steps := Conflicting();
    var write1, write2 := DoWrite(1, 4, 8, Delivered, Delivered), DoWrite(1, 5, 8, Delivered, Delivered);
    OneMore(ss, steps, 1, write1);
    ss, steps := ss + [Do(ss[4], write1)], steps + [write1];
    OneMore(ss, steps, 1, write2);
    ss, steps := ss + [Do(ss[5], write2)], steps + [write2];
    var resolve := DoResolve(1, MD(6, 3, 2, 0), Delivered, ReplyLost);
    OneMore(ss, steps, 1, resolve);
    ss, steps := ss + [Do(ss[6], resolve)], steps + [resolve];
    OneMore(ss, steps, 1, Collect(7));
    ss, steps := ss + [Do(ss[7], Collect(7))], steps + [Collect(7)];
  }

  /** The staged client gives its branch up and the request to prune it gets lost: when it starts over, it is on the
      branch again. */
  lemma BackAgainRun() returns (ss: seq<State>, steps: seq<Step>)
    ensures Run(ss, steps, 1) && |steps| == 6 && |ss[5].clients| == |ss[6].clients| == 2
    ensures !ss[5].clients[1].staged && ss[6].clients[1] == Client(1, true, 7, MD(3, 2, 1, 7))
  {
    ss, steps := Conflicting();
    var unstage := DoUnstage(1, Lost);
    OneMore(ss, steps, 1, unstage);
    ss, steps := ss + [Do(ss[4], unstage)], steps + [unstage];
    OneMore(ss, steps, 1, Restart(1));
    ss, steps := ss + [Do(ss[5], Restart(1))], steps + [Restart(1)];
  }

  // --- the server and one client as objects ---------------------------------------------------------------

  class MDServer {
    var merged: seq<MD>
    var branches: map<nat, seq<MD>>
    var devices: map<nat, nat>

    function Val(): Server
      reads this
    {
      Server(merged, branches, devices)
    }

    constructor (id: nat)
      ensures Val() == Initial(id).server
    {
      merged, branches, devices := [MD(id, 1, 0, 0)], map[], map[];
    }

    method Put(md: MD, net: Net) returns (r: Reply)
      requires merged != []
      modifies this
      ensures (Val(), r) == Over(net, old(Val()), PutMerged(old(Val()), md))
      ensures var head := old(merged[|merged| - 1]);
        var next := md.rev == head.rev + 1 && md.prev == head.id;
        && merged == (if net != Lost && next then old(merged) + [md.(bid := 0)] else old(merged))
        && r == (if net != Delivered then Failed else if next then Ok else Conflict)
      ensures branches == old(branches) && devices == old(devices)
    {
      if net == Lost { return Failed; }
      var head := merged[|merged| - 1];
      if head.rev + 1 != md.rev || md.prev != head.id {
        r := Conflict;
      } else {
        merged := merged + [md.(bid := 0)];
        r := Ok;
      }
      if net == ReplyLost { r := Failed; }
    }

    method PutOnBranch(md: MD, bid: nat, dev: nat, net: Net) returns (r: Reply)
      modifies this
      ensures (Val(), r) == Over(net, old(Val()), PutUnmerged(old(Val()), md, bid, dev))
      ensures var isNew := !(bid in old(branches) && old(branches)[bid] != []);
        var known := !isNew || 2 <= md.rev < |old(merged)| + 2;
        var next := known &&
          var head := if isNew then old(merged)[md.rev - 2] else old(branches)[bid][|old(branches)[bid]| - 1];
          md.rev == head.rev + 1 && md.prev == head.id;
        && r == (if net != Delivered || !known then Failed else if next then Ok else Conflict)
        && branches == (if net == Lost || !next then old(branches) else
          old(branches)[bid := if isNew then [md.(bid := bid)] else old(branches)[bid] + [md.(bid := bid)]])
        && devices == if net != Lost && next && isNew then old(devices)[dev := bid] else old(devices)
      ensures merged == old(merged)
    {
      if net == Lost { return Failed; }
      if bid in branches && branches[bid] != [] {
        var head := branches[bid][|branches[bid]| - 1];
        if head.rev + 1 != md.rev || md.prev != head.id {
          r := Conflict;
        } else {
          branches := branches[bid := branches[bid] + [md.(bid := bid)]];
          r := Ok;
        }
      } else if md.rev < 2 || md.rev - 2 >= |merged| {
        r := Failed;
      } else {
        var head := merged[md.rev - 2];
        if head.rev + 1 != md.rev || md.prev != head.id {
          r := Conflict;
        } else {
          devices := devices[dev := bid];
          branches := branches[bid := [md.(bid := bid)]];
          r := Ok;
        }
      }
      if net == ReplyLost { r := Failed; }
    }

    // Only the record goes; the branch itself is collected in the background.
    method PruneBranch(bid: nat, dev: nat, net: Net) returns (r: Reply)
      modifies this
      ensures (Val(), r) == Over(net, old(Val()), Prune(old(Val()), bid, dev))
      ensures var recorded := bid != 0 && dev in old(devices) && old(devices)[dev] == bid;
        && devices == (if net != Lost && recorded then old(devices) - {dev} else old(devices))
        && r == if net == Delivered && recorded then Ok else Failed
      ensures merged == old(merged) && branches == old(branches)
    {
      if net == Lost { return Failed; }
      var currBid := if dev in devices then devices[dev] else 0;
      if bid == 0 || currBid == 0 || bid != currBid { return Failed; }
      devices := devices - {dev};
      r := if net == ReplyLost then Failed else Ok;
    }
  }

  class FolderBranch {
    const dev: nat
    var staged: bool
    var bid: nat
    var head: MD

    function Val(): Client
      reads this
    {
      Client(dev, staged, bid, head)
    }

    // The first use of a folder: the device's unmerged revisions come first.
    constructor (dev: nat, sv: MDServer)
      requires sv.merged != []
      ensures Val() == Started(sv.Val(), dev)
    {
      this.dev := dev;
      if dev in sv.devices && sv.devices[dev] in sv.branches && sv.branches[sv.devices[dev]] != [] {
        var b := sv.devices[dev];
        staged, bid, head := true, b, sv.branches[b][|sv.branches[b]| - 1];
      } else {
        staged, bid, head := false, 0, sv.merged[|sv.merged| - 1];
      }
    }

    method FinalizeMDWrite(sv: MDServer, md: MD, newBid: nat, net: Net, net2: Net)
      requires sv.merged != []
      modifies this, sv
      ensures (sv.Val(), Val()) == Write(old(sv.Val()), old(Val()), md, newBid, net, net2)
    {
      var doUnmergedPut, wasStaged, head' := true, staged, md.(bid := 0);
      if !staged {
        var r := sv.Put(md, net);
        doUnmergedPut := r == Conflict;
        if r != Ok && !doUnmergedPut { return; }
      }
      if doUnmergedPut {
        var b := if wasStaged then bid else newBid;
        var r := sv.PutOnBranch(md, b, dev, net2);
        if r != Ok { return; }
        staged, bid := true, b;
        head' := md.(bid := b);
      } else {
        staged, bid := false, 0;
      }
      head := head';
    }

    // A rekey is refused while staged, and dropped on a conflict; so is the record of a reclamation.
    method FinalizeMergedOnly(sv: MDServer, md: MD, net: Net)
      requires sv.merged != []
      modifies this, sv
      ensures (sv.Val(), Val()) == WriteMergedOnly(old(sv.Val()), old(Val()), md, net)
    {
      if staged { return; }
      var r := sv.Put(md, net);
      if r != Ok { return; }
      staged, bid, head := false, 0, md.(bid := 0);
    }

    method ApplyMDUpdates(mds: seq<MD>) returns (all: bool, ghost heads: seq<MD>)
      modifies this
      ensures (Val(), all) == ApplyUpdates(old(Val()), mds) && heads == HeadsTaken(old(Val()), mds)
    {
      heads := [];
      if staged { return false, heads; }
      var i := 0;
      while i < |mds|
        invariant 0 <= i <= |mds| && !staged && ApplyUpdates(old(Val()), mds) == ApplyUpdates(Val(), mds[i..])
        invariant HeadsTaken(old(Val()), mds) == heads + HeadsTaken(Val(), mds[i..])
      {
        assert mds[i..][1..] == mds[i + 1..];
        if mds[i].rev <= head.rev {
          i := i + 1;
          continue;
        }
        if mds[i].rev != head.rev + 1 { return false, heads; }
        head := mds[i];
        heads := heads + [head];
        i := i + 1;
      }
      return true, heads;
    }

    method FinalizeResolution(sv: MDServer, md: MD, net: Net, net2: Net)
      requires sv.merged != []
      modifies this, sv
      ensures (sv.Val(), Val()) == Resolve(old(sv.Val()), old(Val()), md, net, net2)
    {
      var r := sv.Put(md, net);
      if r != Ok { return; }
      r := sv.PruneBranch(bid, dev, net2);
      if r != Ok { return; }
      head := md.(bid := 0);
      staged, bid := false, 0;
    }

    method UnstageBranch(sv: MDServer, net: Net)
      modifies this, sv
      ensures (sv.Val(), Val()) == Unstage(old(sv.Val()), old(Val()), net)
    {
      if !staged { return; }
      var b, branchPoint := bid, BranchPoint(sv.Val(), Val());
      if branchPoint < 1 { return; }
      staged, bid := false, 0;
      if branchPoint > |sv.merged| { return; }
      head := sv.merged[branchPoint - 1];
      var r := sv.PruneBranch(b, dev, net);
    }
  }
}
