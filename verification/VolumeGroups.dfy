// EnsureEveryNodeHasLVMVolumeGroup of testkit_v2/util/kube_storage.go, in a world where
// other actors add groups and change phases but delete no group.
module VolumeGroups {
  import opened Wrappers
  import opened Conditions
  import opened Filters
  import opened Retry

  datatype Storage = Storage(fault: Error, groups: seq<Lvg>, nodes: seq<Node>)

  const NAME_PREFIX := "default-lvg-"

  function Names(w: Storage): set<string> {
    set i | 0 <= i < |w.groups| :: w.groups[i].name
  }

  function Permanent(): Storage -> set<string> {
    (w: Storage) => Names(w)
  }

  function ByLvgFilter(): (LvgFilter, Lvg) -> bool {
    (f: LvgFilter, g: Lvg) => f.Accepts(g)
  }

  const NOT_READY := LvgFilter(Unset, Unset, Text("!Ready"))
  const READY := LvgFilter(Unset, Unset, Text("Ready"))

  function Named(name: string): LvgFilter {
    LvgFilter(Text(name), Unset, Unset)
  }

  function NotReadyYet(filters: seq<LvgFilter>, w: Storage): Error {
    if w.fault.Some? then w.fault
    else if ApplyAll(ByLvgFilter(), filters + [NOT_READY], w.groups) != [] then Some("LVGs not Ready")
    else None
  }

  // No listed group of that name is in another phase than Ready.
  ghost predicate NoneUnready(name: string, w: Storage) {
    w.fault.None? && forall g :: g in w.groups && g.name == name ==> g.phase == "Ready"
  }

  ghost predicate ListedAsReady(name: string, w: Storage) {
    name in Names(w) && NoneUnready(name, w)
  }

  lemma GroupName(node: string, v: string)
    ensures Check(Text(NAME_PREFIX + node), v) <==> v == NAME_PREFIX + node
  {
    var name := NAME_PREFIX + node;
    assert name[0] == 'd';
    NotLikeBytes(name);
    CheckMeansPattern(name, v);
  }

  lemma PhaseConditions(phase: string)
    ensures Check(Text("!Ready"), phase) <==> phase != "Ready"
    ensures Check(Text("Ready"), phase) <==> phase == "Ready"
  {
    NotLikeBytes("!Ready");
    CheckMeansPattern("!Ready", phase);
    CheckMeansPattern("Ready", phase);
    assert Parse("!Ready") == Not("Ready");
  }

  lemma WaitMeans(node: string, w: Storage)
    ensures NotReadyYet([Named(NAME_PREFIX + node)], w).None? <==> NoneUnready(NAME_PREFIX + node, w)
  {
    var filters := [Named(NAME_PREFIX + node), NOT_READY];
    assert [Named(NAME_PREFIX + node)] + [NOT_READY] == filters;
    FoldIsConjunction(ByLvgFilter(), filters, w.groups);
    KeepElements(w.groups, Accepted(ByLvgFilter(), filters));
    forall g | g in w.groups
      ensures Accepted(ByLvgFilter(), filters)(g) <==> g.name == NAME_PREFIX + node && g.phase != "Ready"
    {
      GroupName(node, g.name);
      PhaseConditions(g.phase);
      assert forall f :: f in filters <==> f == filters[0] || f == filters[1];
      assert ByLvgFilter()(filters[0], g) == filters[0].Accepts(g);
      assert ByLvgFilter()(filters[1], g) == filters[1].Accepts(g);
    }
    var kept := Keep(w.groups, Accepted(ByLvgFilter(), filters));
    if kept != [] {
      assert kept[0] in kept;
    }
  }

  // What makes a wait fail: a listing in which the group was unready, made when no full
  // poll fitted in before the deadline any more, or a last listing that failed or showed
  // the group without nodes.
  ghost predicate WaitTrouble(h: seq<Snapshot<Storage>>, from: nat, start: nat, name: string, c: nat) {
    || (exists k :: from <= k < |h| && start + 36 * SECOND <= h[k].at + c && !NoneUnready(name, h[k].world))
    || (|h| > from && h[|h| - 1].world.fault.Some?)
    || (|h| > from && HasNoNodes(h[|h| - 1].world, name))
  }

  ghost predicate HasNoNodes(w: Storage, name: string) {
    exists g :: g in w.groups && g.name == name && g.nodes == []
  }

  lemma UnreadyWhenLast(h: seq<Snapshot<Storage>>, probe: (nat, Storage, Storage) -> Error, polls: seq<Poll>,
                        seen: seq<(nat, nat)>, start: nat, from: nat, node: string, c: nat, lag: nat)
    requires forall k: nat, a, b :: probe(k, a, b) == NotReadyYet([Named(NAME_PREFIX + node)], a)
    requires Finished(35, polls) && Brief(35, polls, c, lag) && Readings(h, probe, polls, seen, start, from)
    ensures Last(polls).err.Some? ==> WaitTrouble(h, from, start, NAME_PREFIX + node, c)
    ensures seen != [] && from <= seen[|seen| - 1].0 < |h|
    ensures Last(polls).err.None? ==> NoneUnready(NAME_PREFIX + node, h[seen[|seen| - 1].0].world)
  {
    hide NotReadyYet, NoneUnready, Named;
    var k := |polls| - 1;
    assert Reading(h, probe, k, polls[k], seen[k], start, from);
    WaitMeans(node, h[seen[k].0].world);
  }

  lemma ListedByName(node: string, w: Storage)
    ensures forall g :: g in ApplyAll(ByLvgFilter(), [Named(NAME_PREFIX + node)], w.groups) <==>
      g in w.groups && g.name == NAME_PREFIX + node
  {
    var filters := [Named(NAME_PREFIX + node)];
    FoldIsConjunction(ByLvgFilter(), filters, w.groups);
    KeepElements(w.groups, Accepted(ByLvgFilter(), filters));
    forall g
      ensures Accepted(ByLvgFilter(), filters)(g) <==> g.name == NAME_PREFIX + node
    {
      GroupName(node, g.name);
      assert forall f :: f in filters <==> f == filters[0];
      assert ByLvgFilter()(filters[0], g) == filters[0].Accepts(g);
    }
  }

  method WaitLVGsReady(s: Session<Storage>, node: string) returns (err: Error, ghost ready: nat)
    requires s.Valid() && s.permanent == Permanent()
    modifies s
    ensures s.Later()
    ensures err.None? ==>
      |old(s.history)| <= ready < |s.history| && NoneUnready(NAME_PREFIX + node, s.history[ready].world)
    ensures err.Some? ==> WaitTrouble(s.history, |old(s.history)|, old(s.now), NAME_PREFIX + node, s.maxPoll)
  {
    hide NoneUnready, Readings, Brief, NotReadyYet, Throttled;
    var filters := [Named(NAME_PREFIX + node)];
    var probe := (k: nat, w: Storage, later: Storage) => NotReadyYet(filters, w);
    var read;
    ghost var polls, seen;
    err, read, polls, seen := s.RetrySec(35, probe);
    ready := seen[|seen| - 1].0;
    UnreadyWhenLast(s.history, probe, polls, seen, old(s.now), |old(s.history)|, node, s.maxPoll, s.maxLag);
    if err.Some? { return; }
    err := CheckNodes(s, node);
  }

  // The listing after the wait.
  method CheckNodes(s: Session<Storage>, node: string) returns (err: Error)
    requires s.Valid() && s.permanent == Permanent()
    modifies s
    ensures s.Later() && |s.history| == |old(s.history)| + 1
    ensures
      var w := s.history[|old(s.history)|].world;
      err.Some? <==> w.fault.Some? || HasNoNodes(w, NAME_PREFIX + node)
  {
    s.Elapse(s.now, s.now + s.maxPoll);
    if s.world.fault.Some? { return s.world.fault; }
    var lvgs := List(ByLvgFilter(), [Named(NAME_PREFIX + node)], s.world.groups);
    ListedByName(node, s.world);
    for i := 0 to |lvgs|
      invariant forall j :: 0 <= j < i ==> lvgs[j].nodes != []
    {
      if lvgs[i].nodes == [] {
        assert lvgs[i] in lvgs;
        return Some("no nodes in LVG status");
      }
    }
    err := None;
  }

  // The server refuses a name it has.
  method CreateLVG(s: Session<Storage>, name: string) returns (err: Error)
    requires s.Valid() && s.permanent == Permanent()
    modifies s
    ensures s.Later()
    ensures err.None? ==> name !in Names(old(s.world)) && name in Names(s.world)
    ensures |s.history| == |old(s.history)| + 1 && s.now == s.history[|old(s.history)|].at
    ensures
      var w := s.history[|old(s.history)|].world;
      err.Some? <==> w.fault.Some? || name in Names(w)
  {
    s.Elapse(s.now, s.now + s.maxPoll);
    if s.world.fault.Some? { return s.world.fault; }
    if name in Names(s.world) { return Some("already exists"); }
    ghost var before := s.world;
    s.world := s.world.(groups := s.world.groups + [Lvg(name, "", [])]);
    assert s.world.groups[|before.groups|].name == name;
    assert forall i :: 0 <= i < |before.groups| ==> s.world.groups[i] == before.groups[i];
    err := None;
  }

  // What makes the creation that began at this position fail: the server, a name that is
  // taken, or the wait.
  ghost predicate NodeTrouble(h: seq<Snapshot<Storage>>, from: nat, name: string, c: nat) {
    && from < |h|
    && (h[from].world.fault.Some? || name in Names(h[from].world) || WaitTrouble(h, from + 1, h[from].at, name, c))
  }

  method CreateLvgWithCheck(s: Session<Storage>, node: string) returns (err: Error, created: bool, ghost ready: nat)
    requires s.Valid() && s.permanent == Permanent()
    modifies s
    ensures s.Later()
    ensures created ==> NAME_PREFIX + node !in Names(old(s.world)) && NAME_PREFIX + node in Names(s.world)
    ensures err.None? ==>
      && created && |old(s.history)| <= ready < |s.history|
      && ListedAsReady(NAME_PREFIX + node, s.history[ready].world)
    ensures err.Some? ==> NodeTrouble(s.history, |old(s.history)|, NAME_PREFIX + node, s.maxPoll)
  {
    hide WaitTrouble, NoneUnready;
    ready := 0;
    err := CreateLVG(s, NAME_PREFIX + node);
    created := err.None?;
    if err.Some? { return; }
    err, ready := WaitLVGsReady(s, node);
  }

  predicate HasGroup(ready: seq<Lvg>, name: string) {
    exists i :: 0 <= i < |ready| && ready[i].name == name
  }

  // The groups to create, in the order of the nodes.
  function Missing(nodes: seq<Node>, ready: seq<Lvg>): seq<string>
    decreases |nodes|
  {
    if nodes == [] then [] else
    var name := NAME_PREFIX + nodes[|nodes| - 1].name;
    Missing(nodes[..|nodes| - 1], ready) + if HasGroup(ready, name) then [] else [name]
  }

  ghost predicate Distinct(names: seq<string>) {
    forall i, j :: 0 <= i < j < |names| ==> names[i] != names[j]
  }

  ghost predicate SeenOne(h: seq<Snapshot<Storage>>, from: nat, name: string) {
    exists k :: from <= k < |h| && ListedAsReady(name, h[k].world)
  }

  // Each group created was listed, and listed as Ready, by some poll.
  ghost predicate SeenReady(h: seq<Snapshot<Storage>>, from: nat, names: seq<string>) {
    forall i :: 0 <= i < |names| ==> SeenOne(h, from, names[i])
  }

  lemma SeenReadyLater(h: seq<Snapshot<Storage>>, h': seq<Snapshot<Storage>>, from: nat, names: seq<string>)
    requires SeenReady(h, from, names) && h <= h'
    ensures SeenReady(h', from, names)
  {
    forall i | 0 <= i < |names|
      ensures SeenOne(h', from, names[i])
    {
      assert SeenOne(h, from, names[i]);
      var k :| from <= k < |h| && ListedAsReady(names[i], h[k].world);
      assert h'[k] == h[k];
    }
  }

  // Exactly the nodes without a Ready group have one to be created.
  lemma {:induction false} MissingMeans(nodes: seq<Node>, ready: seq<Lvg>, name: string)
    ensures NAME_PREFIX + name in Missing(nodes, ready) <==>
      !HasGroup(ready, NAME_PREFIX + name) && exists i :: 0 <= i < |nodes| && nodes[i].name == name
  {
    if nodes != [] {
      var rest := nodes[..|nodes| - 1];
      MissingMeans(rest, ready, name);
      var last := nodes[|nodes| - 1].name;
      assert (NAME_PREFIX + last)[|NAME_PREFIX|..] == last && (NAME_PREFIX + name)[|NAME_PREFIX|..] == name;
      if i :| 0 <= i < |nodes| && nodes[i].name == name {
        assert i < |rest| ==> rest[i].name == name;
      }
    }
  }

  // The listing the loop goes by: the groups that one world had in phase Ready.
  lemma ListedReady(ready: seq<Lvg>, w: Storage)
    requires ready == ApplyAll(ByLvgFilter(), [READY], w.groups)
    ensures forall g :: g in ready <==> g in w.groups && g.phase == "Ready"
    ensures forall name :: HasGroup(ready, name) ==> name in Names(w)
  {
    FoldIsConjunction(ByLvgFilter(), [READY], w.groups);
    KeepElements(w.groups, Accepted(ByLvgFilter(), [READY]));
    forall g
      ensures Accepted(ByLvgFilter(), [READY])(g) <==> g.phase == "Ready"
    {
      PhaseConditions(g.phase);
      assert READY in [READY] && (ByLvgFilter()(READY, g) == READY.Accepts(g));
    }
    forall name | HasGroup(ready, name)
      ensures name in Names(w)
    {
      var i :| 0 <= i < |ready| && ready[i].name == name;
      assert ready[i] in ready;
    }
  }

  // The inner scan of the listing.
  method LvgExists(ready: seq<Lvg>, name: string) returns (found: bool)
    ensures found == HasGroup(ready, name)
  {
    found := false;
    for i := 0 to |ready|
      invariant !found && forall j :: 0 <= j < i ==> ready[j].name != name
    {
      if ready[i].name == name {
        found := true;
        break;
      }
    }
  }

  // What a run that has dealt with the first n nodes has done since history h and world w.
  ghost predicate Done(s: Session<Storage>, h: seq<Snapshot<Storage>>, w: Storage, nodes: seq<Node>, ready: seq<Lvg>,
                       n: nat, created: seq<string>)
    requires n <= |nodes|
    reads s
  {
    && s.Valid() && s.permanent == Permanent()
    && h <= s.history && Names(w) <= Names(s.world)
    && created == Missing(nodes[..n], ready)
    && Distinct(created)
    && (forall i :: 0 <= i < |created| ==> created[i] in Names(s.world) && created[i] !in Names(w))
    && SeenReady(s.history, |h|, created)
  }

  // One node of the loop.
  method EnsureNode(s: Session<Storage>, ghost h: seq<Snapshot<Storage>>, ghost w: Storage, nodes: seq<Node>,
                    ready: seq<Lvg>, n: nat, created: seq<string>)
    returns (err: Error, now: seq<string>)
    requires n < |nodes| && Done(s, h, w, nodes, ready, n, created)
    modifies s
    ensures err.None? ==> Done(s, h, w, nodes, ready, n + 1, now)
    ensures now == created || now == Missing(nodes[..n + 1], ready)
    ensures err.Some? ==>
      && !HasGroup(ready, NAME_PREFIX + nodes[n].name)
      && NodeTrouble(s.history, |old(s.history)|, NAME_PREFIX + nodes[n].name, s.maxPoll)
    ensures Distinct(now)
    ensures forall i :: 0 <= i < |now| ==> now[i] !in Names(w)
    ensures old(s.history) <= s.history && Names(old(s.world)) <= Names(s.world)
  {
    var name := NAME_PREFIX + nodes[n].name;
    assert nodes[..n + 1][..n] == nodes[..n];
    now := created;
    var lvgExists := LvgExists(ready, name);
    if lvgExists { return None, now; }
    label creating:
    var made;
    ghost var seen;
    err, made, seen := CreateLvgWithCheck(s, nodes[n].name);
    if made {
      assert forall i :: 0 <= i < |created| ==> created[i] != name;
      now := created + [name];
    }
    SeenReadyLater(old@creating(s.history), s.history, |h|, created);
  }

  lemma {:induction false} EachHasGroup(nodes: seq<Node>, ready: seq<Lvg>, created: seq<string>, before: set<string>,
                                        after: set<string>)
    requires created == Missing(nodes, ready) && before <= after
    requires forall name :: HasGroup(ready, name) ==> name in before
    requires forall i :: 0 <= i < |created| ==> created[i] in after
    ensures forall i :: 0 <= i < |nodes| ==> NAME_PREFIX + nodes[i].name in after
  {
    forall i | 0 <= i < |nodes|
      ensures NAME_PREFIX + nodes[i].name in after
    {
      MissingMeans(nodes, ready, nodes[i].name);
    }
  }

  // The creation for some node without a Ready group met trouble.
  ghost predicate SomeTrouble(h: seq<Snapshot<Storage>>, from: nat, nodes: seq<Node>, ready: seq<Lvg>, c: nat) {
    exists n, k: nat ::
      && 0 <= n < |nodes| && !HasGroup(ready, NAME_PREFIX + nodes[n].name)
      && from <= k && NodeTrouble(h, k, NAME_PREFIX + nodes[n].name, c)
  }

  // The loop over the nodes.
  method EnsureNodes(s: Session<Storage>, ghost h: seq<Snapshot<Storage>>, ghost w: Storage, nodes: seq<Node>,
                     ready: seq<Lvg>)
    returns (err: Error, created: seq<string>)
    requires Done(s, h, w, nodes, ready, 0, [])
    modifies s
    ensures err.None? ==> Done(s, h, w, nodes, ready, |nodes|, created)
    ensures exists n :: 0 <= n <= |nodes| && created == Missing(nodes[..n], ready)
    ensures err.Some? ==> SomeTrouble(s.history, |old(s.history)|, nodes, ready, s.maxPoll)
    ensures Distinct(created) && forall i :: 0 <= i < |created| ==> created[i] !in Names(w)
    ensures old(s.history) <= s.history && Names(old(s.world)) <= Names(s.world)
  {
    created := [];
    assert nodes[..0] == [];
    for n := 0 to |nodes|
      invariant Done(s, h, w, nodes, ready, n, created)
      invariant old(s.history) <= s.history && Names(old(s.world)) <= Names(s.world)
    {
      err, created := EnsureNode(s, h, w, nodes, ready, n, created);
      if err.Some? { return; }
    }
    err := None;
  }

  // Neither the listing of the groups nor that of the nodes met a fault.
  ghost predicate BothListed(h: seq<Snapshot<Storage>>, from: nat) {
    from + 1 < |h| && h[from].world.fault.None? && h[from + 1].world.fault.None?
  }

  // On success each listed node has its group; those without one among the groups listed
  // as Ready had it created, each once, and none of those existed before in another phase.
  // On failure the groups created are those of some first nodes.
  method EnsureEveryNodeHasLVMVolumeGroup(s: Session<Storage>)
    returns (err: Error, created: seq<string>, ghost nodes: seq<Node>, ghost ready: seq<Lvg>)
    requires s.Valid() && s.permanent == Permanent()
    modifies s
    ensures |s.history| > |old(s.history)|
    ensures s.history[|old(s.history)|].world.fault.None? ==> |s.history| >= |old(s.history)| + 2
    ensures err.None? || created != [] ==> BothListed(s.history, |old(s.history)|)
    ensures BothListed(s.history, |old(s.history)|) ==>
      && (forall g :: g in ready <==> g in s.history[|old(s.history)|].world.groups && g.phase == "Ready")
      && nodes == s.history[|old(s.history)| + 1].world.nodes
    ensures err.None? ==> created == Missing(nodes, ready)
    ensures err.None? ==> (forall i :: 0 <= i < |nodes| ==> "default-lvg-" + nodes[i].name in Names(s.world))
    ensures err.Some? ==>
      || !BothListed(s.history, |old(s.history)|)
      || SomeTrouble(s.history, |old(s.history)| + 2, nodes, ready, s.maxPoll)
    ensures err.None? ==> SeenReady(s.history, |old(s.history)|, created)
    ensures exists n :: 0 <= n <= |nodes| && created == Missing(nodes[..n], ready)
    ensures Distinct(created) && forall i :: 0 <= i < |created| ==> created[i] !in Names(old(s.world))
  {
    created, nodes, ready := [], [], [];
    assert Missing(nodes[..0], ready) == [];
    ghost var h, w := s.history, s.world;
    s.Elapse(s.now, s.now + s.maxPoll);
    if s.world.fault.Some? { return s.world.fault, created, nodes, ready; }
    var readyLvgs := List(ByLvgFilter(), [READY], s.world.groups);
    ghost var listed := s.world;
    ready := readyLvgs;
    ListedReady(ready, listed);
    s.Elapse(s.now, s.now + s.maxPoll);
    if s.world.fault.Some? { return s.world.fault, created, nodes, ready; }
    nodes := s.world.nodes;
    err, created := EnsureNodes(s, h, w, s.world.nodes, readyLvgs);
    if err.None? {
      assert nodes[..|nodes|] == nodes;
      EachHasGroup(nodes, ready, created, Names(listed), Names(s.world));
    }
  }
}
