// vmSync and identifyVmRoles of testkit_v2/util/kube_vm_cluster.go.
module VirtualMachines {
  import opened FiniteSets
  import opened Wrappers
  import opened Conditions
  import opened Filters
  import opened Retry
  import opened Namespaces

  datatype VmConfig =
    VmConfig(name: string, roles: seq<string>, ip: string, cpu: int, ram: int, diskSize: int, image: string)

  datatype Deployment = Deployment(readyReplicas: int, replicas: int)
  datatype DaemonSet = DaemonSet(desired: int, current: int, ready: int)

  // Both clusters, as the requests of a bring-up read them. fault, when set, is the error
  // a request meets; apt is the outcome of a package installation.
  datatype Infra = Infra(
    fault: Error, apt: Error, namespaces: seq<Ns>, vms: seq<Vm>, nodes: seq<Node>,
    deployments: map<(string, string), Deployment>, daemonSets: map<(string, string), DaemonSet>,
    pods: map<string, seq<Pod>>)

  function ByVmFilter(): (VmFilter, Vm) -> bool {
    (f: VmFilter, vm: Vm) => f.Accepts(vm)
  }

  // ---- Addresses ----

  // The first entry of that name gets the machine's address.
  function SetIp(cfgs: seq<VmConfig>, vm: Vm): seq<VmConfig> {
    if cfgs == [] then []
    else if cfgs[0].name == vm.name then [cfgs[0].(ip := vm.ip)] + cfgs[1..]
    else [cfgs[0]] + SetIp(cfgs[1..], vm)
  }

  function Assigned(list: seq<Vm>, cfgs: seq<VmConfig>): seq<VmConfig>
    decreases |list|
  {
    if list == [] then cfgs else SetIp(Assigned(list[..|list| - 1], cfgs), list[|list| - 1])
  }

  lemma {:induction false} SetIpAt(cfgs: seq<VmConfig>, vm: Vm, i: nat)
    requires i <= |cfgs| && (forall j :: 0 <= j < i ==> cfgs[j].name != vm.name)
    requires (i < |cfgs| ==> cfgs[i].name == vm.name)
    ensures SetIp(cfgs, vm) == if i < |cfgs| then cfgs[i := cfgs[i].(ip := vm.ip)] else cfgs
  {
    if cfgs != [] && i > 0 {
      SetIpAt(cfgs[1..], vm, i - 1);
    }
  }

  method AssignIps(list: seq<Vm>, vms: array<VmConfig>)
    modifies vms
    ensures vms[..] == Assigned(list, old(vms[..]))
  {
    for k := 0 to |list|
      invariant vms[..] == Assigned(list[..k], old(vms[..]))
    {
      var vm := list[k];
      ghost var cfgs := vms[..];
      var i := 0;
      while i < vms.Length && vm.name != vms[i].name
        invariant i <= vms.Length && forall j :: 0 <= j < i ==> vms[j].name != vm.name
      {
        i := i + 1;
      }
      SetIpAt(cfgs, vm, i);
      if i < vms.Length {
        vms[i] := vms[i].(ip := vm.ip);
      }
      assert list[..k + 1][..k] == list[..k];
    }
    assert list[..|list|] == list;
  }

  ghost predicate DistinctNames(cfgs: seq<VmConfig>) {
    forall i, j :: 0 <= i < j < |cfgs| ==> cfgs[i].name != cfgs[j].name
  }

  ghost predicate DistinctVms(list: seq<Vm>) {
    forall i, j :: 0 <= i < j < |list| ==> list[i].name != list[j].name
  }

  // Only addresses change.
  ghost predicate SameButIp(a: seq<VmConfig>, b: seq<VmConfig>) {
    |a| == |b| && forall i :: 0 <= i < |a| ==> a[i] == b[i].(ip := a[i].ip)
  }

  lemma {:induction false} SetIpOne(cfgs: seq<VmConfig>, vm: Vm)
    requires DistinctNames(cfgs)
    ensures SameButIp(SetIp(cfgs, vm), cfgs)
    ensures forall i :: 0 <= i < |cfgs| ==>
      SetIp(cfgs, vm)[i].ip == if cfgs[i].name == vm.name then vm.ip else cfgs[i].ip
  {
    if cfgs != [] {
      SetIpOne(cfgs[1..], vm);
    }
  }

  lemma {:induction false} AssignedLength(list: seq<Vm>, cfgs: seq<VmConfig>)
    ensures |Assigned(list, cfgs)| == |cfgs|
    decreases |list|
  {
    if list != [] {
      AssignedLength(list[..|list| - 1], cfgs);
      SetIpLength(Assigned(list[..|list| - 1], cfgs), list[|list| - 1]);
    }
  }

  lemma {:induction false} SetIpLength(cfgs: seq<VmConfig>, vm: Vm)
    ensures |SetIp(cfgs, vm)| == |cfgs|
  {
    if cfgs != [] {
      SetIpLength(cfgs[1..], vm);
    }
  }

  // With distinct names, an entry gets the address of the machine of its name.
  lemma {:induction false} AssignedIp(list: seq<Vm>, cfgs: seq<VmConfig>)
    requires DistinctNames(cfgs) && DistinctVms(list)
    ensures SameButIp(Assigned(list, cfgs), cfgs)
    ensures forall i, k :: 0 <= i < |cfgs| && 0 <= k < |list| && list[k].name == cfgs[i].name ==>
      Assigned(list, cfgs)[i].ip == list[k].ip
    ensures forall i :: 0 <= i < |cfgs| && (forall k :: 0 <= k < |list| ==> list[k].name != cfgs[i].name) ==>
      Assigned(list, cfgs)[i] == cfgs[i]
    decreases |list|
  {
    if list != [] {
      var before, last := list[..|list| - 1], list[|list| - 1];
      AssignedIp(before, cfgs);
      SetIpOne(Assigned(before, cfgs), last);
      assert Assigned(list, cfgs) == SetIp(Assigned(before, cfgs), last);
      hide SetIp, Assigned;
      assert forall k :: 0 <= k < |before| ==> before[k] == list[k] && last.name != list[k].name;
    }
  }

  // ---- The count test ----

  lemma {:induction false} NamesOf(list: seq<Vm>) returns (names: set<string>)
    requires DistinctVms(list)
    ensures |names| == |list| && forall n :: n in names <==> exists k :: 0 <= k < |list| && list[k].name == n
    decreases |list|
  {
    names := {};
    if list != [] {
      var rest := NamesOf(list[..|list| - 1]);
      names := rest + {list[|list| - 1].name};
      assert forall k :: 0 <= k < |list| - 1 ==> list[..|list| - 1][k] == list[k];
    }
  }

  lemma {:induction false} ConfigNames(cfgs: seq<VmConfig>) returns (names: set<string>)
    ensures |names| <= |cfgs| && forall n :: n in names <==> exists k :: 0 <= k < |cfgs| && cfgs[k].name == n
    decreases |cfgs|
  {
    names := {};
    if cfgs != [] {
      var rest := ConfigNames(cfgs[..|cfgs| - 1]);
      names := rest + {cfgs[|cfgs| - 1].name};
      assert forall k :: 0 <= k < |cfgs| - 1 ==> cfgs[..|cfgs| - 1][k] == cfgs[k];
    }
  }

  // As many machines as entries, every machine an entry's: every entry has its machine.
  lemma EveryEntryHasItsVm(list: seq<Vm>, cfgs: seq<VmConfig>, i: nat) returns (k: nat)
    requires DistinctVms(list) && |list| >= |cfgs| && i < |cfgs|
    requires forall k :: 0 <= k < |list| ==> exists j :: 0 <= j < |cfgs| && cfgs[j].name == list[k].name
    ensures k < |list| && list[k].name == cfgs[i].name
  {
    var have := NamesOf(list);
    var want := ConfigNames(cfgs);
    SubsetOfSize(have, want);
    assert cfgs[i].name in want;
    k :| 0 <= k < |list| && list[k].name == cfgs[i].name;
  }

  // ---- vmSync ----

  function RunningFilters(ns: string): seq<VmFilter> {
    [VmFilter(Text(ns), Unset, Text("Running"))]
  }

  function Running(w: Infra, ns: string): seq<Vm> {
    ApplyAll(ByVmFilter(), RunningFilters(ns), w.vms)
  }

  function VmsRunning(ns: string, n: nat, w: Infra): Error {
    if w.fault.Some? then w.fault
    else if |Running(w, ns)| < n then Some("VMs are not ready")
    else None
  }

  // Every machine is requested, in order, when the listing failed or is too short, and
  // none otherwise; a refused request ends the process.
  ghost predicate CreatedAsNeeded(w: Infra, ns: string, vms: seq<VmConfig>, created: seq<VmConfig>, ok: bool) {
    if w.fault.Some? || |ApplyAll(ByVmFilter(), [VmFilter(Text(ns), Unset, Unset)], w.vms)| < |vms|
    then created <= vms && (ok <==> created == vms)
    else created == [] && ok
  }

  method CreateMissing(s: Session<Infra>, vms: seq<VmConfig>, ns: string) returns (fatal: Error, created: seq<VmConfig>)
    requires s.Valid()
    modifies s
    ensures s.Later() && |old(s.history)| < |s.history|
    ensures CreatedAsNeeded(s.history[|old(s.history)|].world, ns, vms, created, fatal.None?)
  {
    s.Elapse(s.now, s.now + s.maxPoll);
    var present := List(ByVmFilter(), [VmFilter(Text(ns), Unset, Unset)], s.world.vms);
    fatal, created := None, [];
    if s.world.fault.Some? || |present| < |vms| {
      ghost var listed := s.history;
      for i := 0 to |vms|
        invariant s.Later() && listed <= s.history && created == vms[..i]
      {
        var length: nat :| 0 <= length;
        s.Elapse(s.now, s.now + length);
        fatal := *;
        if fatal.Some? { return; }
        created := created + [vms[i]];
      }
      fatal := None;
    }
  }

  // A poll of the wait succeeds exactly when no fault is met and enough machines of the
  // namespace run.
  lemma EnoughRun(ns: string, n: nat, w: Infra)
    requires HostLabel(ns)
    ensures VmsRunning(ns, n, w).None? <==>
      && w.fault.None?
      && |set i | 0 <= i < |w.vms| && w.vms[i].namespace == ns && w.vms[i].phase == "Running"| >= n
  {
    RunningMeans(w, ns);
    KeepCount(w.vms, InPhase(ns, "Running"));
    assert (set i | 0 <= i < |w.vms| && w.vms[i].namespace == ns && w.vms[i].phase == "Running")
      == Positions(w.vms, InPhase(ns, "Running"));
  }

  // The wait saw too few machines run, a poll's length before its deadline or later.
  ghost predicate TooFewLate(h: seq<Snapshot<Infra>>, w: Span, ns: string, n: nat, c: nat) {
    exists k :: w.first <= k < w.last <= |h| && VmsRunning(ns, n, h[k].world).Some?
      && w.start + 481 * SECOND <= h[k].at + c
  }

  lemma TooFewWhenLast(h: seq<Snapshot<Infra>>, probe: (nat, Infra, Infra) -> Error, polls: seq<Poll>,
                       seen: seq<(nat, nat)>, w: Span, ns: string, n: nat, c: nat, lag: nat)
    requires forall k: nat, a, b :: probe(k, a, b) == VmsRunning(ns, n, a)
    requires Finished(480, polls) && Brief(480, polls, c, lag) && Readings(h, probe, polls, seen, w.start, w.first)
    requires w.last == |h|
    ensures Last(polls).err.Some? ==> TooFewLate(h, w, ns, n, c)
  {
    hide VmsRunning;
    var k := |polls| - 1;
    assert Reading(h, probe, k, polls[k], seen[k], w.start, w.first);
  }

  // When from some instant on, a poll's length before the deadline, enough machines run,
  // the wait succeeds.
  lemma EnoughInTime(h: seq<Snapshot<Infra>>, w: Span, ns: string, n: nat, c: nat, settled: int)
    requires settled + c <= w.start + 481 * SECOND
    requires forall k :: w.first <= k < w.last <= |h| && h[k].at >= settled ==> VmsRunning(ns, n, h[k].world).None?
    ensures !TooFewLate(h, w, ns, n, c)
  {
  }

  // Waits until as many machines run as are asked for.
  method AwaitRunning(s: Session<Infra>, n: nat, ns: string) returns (err: Error, vmList: seq<Vm>, ghost listed: nat)
    requires s.Valid()
    modifies s
    ensures s.Later()
    ensures Timed(480, Span(old(s.now), s.now, |old(s.history)|, |s.history|), err.None?, s.maxPoll, s.maxLag)
    ensures err.Some? ==>
      TooFewLate(s.history, Span(old(s.now), s.now, |old(s.history)|, |s.history|), ns, n, s.maxPoll)
    ensures err.None? ==> |old(s.history)| <= listed < |s.history|
    ensures err.None? ==> VmsRunning(ns, n, s.history[listed].world).None?
    ensures err.None? ==> vmList == Running(s.history[listed].world, ns)
  {
    var probe := (k: nat, w: Infra, later: Infra) => VmsRunning(ns, n, w);
    var read;
    ghost var polls, seen;
    err, read, polls, seen := s.RetrySec(480, probe);
    FinishedTiming(480, polls, s.maxPoll, s.maxLag);
    listed := seen[|seen| - 1].0;
    TooFewWhenLast(s.history, probe, polls, seen, Span(old(s.now), s.now, |old(s.history)|, |s.history|), ns, n,
                   s.maxPoll, s.maxLag);
    ghost var at := seen[|seen| - 1];
    assert Reading(s.history, probe, |polls| - 1, Last(polls), at, old(s.now), |old(s.history)|);
    vmList := List(ByVmFilter(), RunningFilters(ns), read.vms);
  }

  // The entries' addresses are those of one listing of the wait, in which enough machines ran.
  ghost predicate FilledFrom(h: seq<Snapshot<Infra>>, w: Span, listed: nat, ns: string, asked: seq<VmConfig>,
                             filled: seq<VmConfig>) {
    && w.first <= listed < w.last <= |h|
    && VmsRunning(ns, |asked|, h[listed].world).None?
    && filled == Assigned(Running(h[listed].world, ns), asked)
  }

  // Create what is missing, wait until enough run, then fill in their addresses. The
  // returned span is that of the wait, if it came to that.
  method VmSync(s: Session<Infra>, vms: array<VmConfig>, ns: string)
    returns (fatal: Error, created: seq<VmConfig>, ghost listed: nat, ghost wait: Option<Span>)
    requires s.Valid()
    modifies s, vms
    ensures s.Later() && |old(s.history)| < |s.history|
    ensures CreatedAsNeeded(s.history[|old(s.history)|].world, ns, old(vms[..]), created, wait.Some?)
    ensures fatal.Some? ==> vms[..] == old(vms[..])
    ensures wait.None? ==> fatal.Some?
    ensures wait.Some? ==>
      && old(s.now) <= wait.value.start <= wait.value.end == s.now
      && |old(s.history)| < wait.value.first <= wait.value.last == |s.history|
      && Timed(480, wait.value, fatal.None?, s.maxPoll, s.maxLag)
      && (fatal.Some? ==> TooFewLate(s.history, wait.value, ns, vms.Length, s.maxPoll))
    ensures fatal.None? ==> FilledFrom(s.history, wait.value, listed, ns, old(vms[..]), vms[..])
  {
    hide Budget, Running, VmsRunning, Timed, TooFewLate;
    var vmList;
    listed, wait := 0, None;
    fatal, created := CreateMissing(s, vms[..], ns);
    if fatal.Some? { return; }
    ghost var start, first := s.now, |s.history|;
    fatal, vmList, listed := AwaitRunning(s, vms.Length, ns);
    wait := Some(Span(start, s.now, first, |s.history|));
    if fatal.Some? { return; }
    AssignIps(vmList, vms);
  }

  // What Kubernetes guarantees of a listing: no two machines of a namespace share a name.
  ghost predicate UniqueVms(w: Infra) {
    forall i, j :: 0 <= i < j < |w.vms| ==> w.vms[i].namespace != w.vms[j].namespace || w.vms[i].name != w.vms[j].name
  }

  lemma RunningMeans(w: Infra, ns: string)
    requires HostLabel(ns)
    ensures Running(w, ns) == Keep(w.vms, InPhase(ns, "Running"))
    ensures forall vm :: vm in Running(w, ns) <==> vm in w.vms && vm.namespace == ns && vm.phase == "Running"
  {
    var filters := RunningFilters(ns);
    FoldIsConjunction(ByVmFilter(), filters, w.vms);
    forall vm | vm in w.vms
      ensures Accepted(ByVmFilter(), filters)(vm) == InPhase(ns, "Running")(vm)
    {
      PlainName(ns, vm.namespace);
      CheckMeansPattern("Running", vm.phase);
      assert forall f :: f in filters <==> f == filters[0];
      assert ByVmFilter()(filters[0], vm) == filters[0].Accepts(vm);
    }
    KeepSame(w.vms, Accepted(ByVmFilter(), filters), InPhase(ns, "Running"));
    KeepElements(w.vms, InPhase(ns, "Running"));
  }

  function InPhase(ns: string, phase: string): Vm -> bool {
    (vm: Vm) => vm.namespace == ns && vm.phase == phase
  }

  lemma {:induction false} RunningDistinct(vms: seq<Vm>, ns: string, phase: string)
    requires forall i, j :: 0 <= i < j < |vms| ==> vms[i].namespace != vms[j].namespace || vms[i].name != vms[j].name
    ensures DistinctVms(Keep(vms, InPhase(ns, phase)))
  {
    if vms != [] {
      RunningDistinct(vms[1..], ns, phase);
      KeepElements(vms[1..], InPhase(ns, phase));
      var kept := Keep(vms[1..], InPhase(ns, phase));
      forall j | 0 <= j < |kept| && InPhase(ns, phase)(vms[0])
        ensures vms[0].name != kept[j].name
      {
        assert kept[j] in vms[1..];
        var k :| 0 <= k < |vms| - 1 && vms[1..][k] == kept[j];
        assert vms[k + 1] == kept[j];
      }
    }
  }

  // When only machines that were asked for live in the namespace, vmSync leaves each
  // entry with the address of the running machine of its name, and nothing else changed.
  lemma SyncedAddresses(w: Infra, ns: string, cfgs: seq<VmConfig>, i: nat) returns (vm: Vm)
    requires HostLabel(ns) && UniqueVms(w) && DistinctNames(cfgs) && VmsRunning(ns, |cfgs|, w).None?
    requires forall vm :: vm in w.vms && vm.namespace == ns ==> exists j :: 0 <= j < |cfgs| && cfgs[j].name == vm.name
    requires i < |cfgs|
    ensures vm in w.vms && vm.namespace == ns && vm.phase == "Running" && vm.name == cfgs[i].name
    ensures |Assigned(Running(w, ns), cfgs)| == |cfgs| && Assigned(Running(w, ns), cfgs)[i] == cfgs[i].(ip := vm.ip)
  {
    var list := Running(w, ns);
    RunningMeans(w, ns);
    RunningDistinct(w.vms, ns, "Running");
    AssignedIp(list, cfgs);
    forall k | 0 <= k < |list|
      ensures exists j :: 0 <= j < |cfgs| && cfgs[j].name == list[k].name
    {
      assert list[k] in list;
    }
    var k := EveryEntryHasItsVm(list, cfgs, i);
    vm := list[k];
    assert vm in list;
  }

  function NamedVms(names: seq<string>, ns: string): seq<Vm>
    decreases |names|
  {
    if names == [] then [] else NamedVms(names[..|names| - 1], ns) + [Vm(names[|names| - 1], ns, "Running", "10.0.0.9")]
  }

  lemma {:induction false} NamedVmsAre(names: seq<string>, ns: string)
    ensures |NamedVms(names, ns)| == |names|
    ensures forall i :: 0 <= i < |names| ==> NamedVms(names, ns)[i] == Vm(names[i], ns, "Running", "10.0.0.9")
    decreases |names|
  {
    if names != [] {
      NamedVmsAre(names[..|names| - 1], ns);
    }
  }

  lemma {:induction false} CountMisled(vms: seq<Vm>, ns: string, cfgs: seq<VmConfig>)
    requires HostLabel(ns) && cfgs != [] && DistinctNames(cfgs) && |vms| == |cfgs| && DistinctVms(vms)
    requires forall i :: 0 <= i < |vms| ==>
      vms[i].namespace == ns && vms[i].phase == "Running" && vms[i].name != cfgs[0].name
    ensures
      var w := Infra(None, None, [], vms, [], map[], map[], map[]);
      && UniqueVms(w) && VmsRunning(ns, |cfgs|, w).None?
      && |Assigned(Running(w, ns), cfgs)| == |cfgs| && Assigned(Running(w, ns), cfgs)[0] == cfgs[0]
  {
    var w := Infra(None, None, [], vms, [], map[], map[], map[]);
    RunningMeans(w, ns);
    KeepAll(vms, InPhase(ns, "Running"));
    AssignedIp(vms, cfgs);
  }

  // A running machine for each entry, but for the first one a foreign one.
  function ForeignVms(ns: string, cfgs: seq<VmConfig>, foreign: string): seq<Vm> {
    NamedVms(seq(|cfgs|, i requires 0 <= i < |cfgs| => if i == 0 then foreign else cfgs[i].name), ns)
  }

  // One foreign name is enough to mislead the count: with it in place of the first entry's
  // machine vmSync succeeds and leaves that entry's address as it was.
  lemma {:induction false} ForeignVmMisleads(ns: string, cfgs: seq<VmConfig>, foreign: string)
    requires HostLabel(ns) && cfgs != [] && DistinctNames(cfgs)
    requires forall j :: 0 <= j < |cfgs| ==> cfgs[j].name != foreign
    ensures
      var vms := ForeignVms(ns, cfgs, foreign);
      && |vms| == |cfgs| && vms[0].name == foreign
      && forall i :: 0 < i < |vms| ==> vms[i].name == cfgs[i].name
    ensures
      var w := Infra(None, None, [], ForeignVms(ns, cfgs, foreign), [], map[], map[], map[]);
      && UniqueVms(w) && VmsRunning(ns, |cfgs|, w).None?
      && |Assigned(Running(w, ns), cfgs)| == |cfgs| && Assigned(Running(w, ns), cfgs)[0] == cfgs[0]
  {
    NamedVmsAre(seq(|cfgs|, i requires 0 <= i < |cfgs| => if i == 0 then foreign else cfgs[i].name), ns);
    hide Running, VmsRunning, UniqueVms, Assigned, NamedVms;
    CountMisled(ForeignVms(ns, cfgs, foreign), ns, cfgs);
  }

  // ---- When the count is enough ----

  ghost predicate Requested(cfgs: seq<VmConfig>, name: string) {
    exists j :: 0 <= j < |cfgs| && cfgs[j].name == name
  }

  // Every machine of the namespace has one of these names.
  ghost predicate OnlyLive(w: Infra, ns: string, live: string -> bool) {
    forall vm :: vm in w.vms && vm.namespace == ns ==> live(vm.name)
  }

  // Each entry has the address of the running machine of its name.
  ghost predicate RightAddresses(w: Infra, ns: string, cfgs: seq<VmConfig>) {
    && |Assigned(Running(w, ns), cfgs)| == |cfgs|
    && forall i :: 0 <= i < |cfgs| ==> HasAddress(w, ns, cfgs[i], Assigned(Running(w, ns), cfgs)[i])
  }

  ghost predicate HasAddress(w: Infra, ns: string, cfg: VmConfig, filled: VmConfig) {
    exists vm :: vm in w.vms && vm.namespace == ns && vm.phase == "Running" && vm.name == cfg.name
      && filled == cfg.(ip := vm.ip)
  }

  ghost predicate CountIsEnough(w: Infra, ns: string, cfgs: seq<VmConfig>, live: string -> bool) {
    UniqueVms(w) && OnlyLive(w, ns, live) && VmsRunning(ns, |cfgs|, w).None? ==> RightAddresses(w, ns, cfgs)
  }

  lemma RequestedSuffice(w: Infra, ns: string, cfgs: seq<VmConfig>, live: string -> bool)
    requires HostLabel(ns) && DistinctNames(cfgs) && forall n :: live(n) ==> Requested(cfgs, n)
    ensures CountIsEnough(w, ns, cfgs, live)
  {
    if UniqueVms(w) && OnlyLive(w, ns, live) && VmsRunning(ns, |cfgs|, w).None? {
      hide VmsRunning, Running, Assigned, UniqueVms, DistinctNames;
      AssignedLength(Running(w, ns), cfgs);
      forall vm | vm in w.vms && vm.namespace == ns
        ensures exists j :: 0 <= j < |cfgs| && cfgs[j].name == vm.name
      {
        assert Requested(cfgs, vm.name);
      }
      forall i | 0 <= i < |cfgs|
        ensures HasAddress(w, ns, cfgs[i], Assigned(Running(w, ns), cfgs)[i])
      {
        var vm := SyncedAddresses(w, ns, cfgs, i);
      }
    }
  }

  lemma ForeignNameFails(ns: string, cfgs: seq<VmConfig>, live: string -> bool, foreign: string) returns (w: Infra)
    requires HostLabel(ns) && cfgs != [] && DistinctNames(cfgs) && forall j :: 0 <= j < |cfgs| ==> live(cfgs[j].name)
    requires live(foreign) && !Requested(cfgs, foreign)
    ensures !CountIsEnough(w, ns, cfgs, live)
  {
    w := Infra(None, None, [], ForeignVms(ns, cfgs, foreign), [], map[], map[], map[]);
    forall j | 0 <= j < |cfgs|
      ensures cfgs[j].name != foreign
    {
      assert cfgs[j].name == foreign ==> Requested(cfgs, foreign);
    }
    ForeignVmMisleads(ns, cfgs, foreign);
    forall vm | vm in w.vms
      ensures live(vm.name) && vm.name != cfgs[0].name
    {
      var i :| 0 <= i < |w.vms| && w.vms[i] == vm;
    }
    assert !HasAddress(w, ns, cfgs[0], Assigned(Running(w, ns), cfgs)[0]);
  }

  // The count test finds the right addresses in every listing exactly when no machine
  // but the requested ones may live in the namespace.
  lemma CountIsEnoughExactlyWhen(ns: string, cfgs: seq<VmConfig>, live: string -> bool)
    requires HostLabel(ns) && cfgs != [] && DistinctNames(cfgs) && forall j :: 0 <= j < |cfgs| ==> live(cfgs[j].name)
    ensures (forall w :: CountIsEnough(w, ns, cfgs, live)) <==> forall n :: live(n) ==> Requested(cfgs, n)
  {
    if n :| live(n) && !Requested(cfgs, n) {
      var w := ForeignNameFails(ns, cfgs, live, n);
    } else {
      forall w
        ensures CountIsEnough(w, ns, cfgs, live)
      {
        RequestedSuffice(w, ns, cfgs, live);
      }
    }
  }

  // ---- Roles ----

  predicate IsMaster(vm: VmConfig) { "master" in vm.roles }

  predicate IsWorker(vm: VmConfig) { !IsMaster(vm) && "worker" in vm.roles }

  predicate IsSetup(vm: VmConfig) { !IsMaster(vm) && "setup" in vm.roles }

  function Masters(vms: seq<VmConfig>): seq<VmConfig> { Keep(vms, (vm: VmConfig) => IsMaster(vm)) }

  function Workers(vms: seq<VmConfig>): seq<VmConfig> { Keep(vms, (vm: VmConfig) => IsWorker(vm)) }

  function Setups(vms: seq<VmConfig>): seq<VmConfig> { Keep(vms, (vm: VmConfig) => IsSetup(vm)) }

  datatype Roles = Roles(masters: seq<VmConfig>, workers: seq<VmConfig>, bootstrap: VmConfig)

  // One master; the bootstrap is the last setup entry, else the first worker.
  predicate Identified(vms: seq<VmConfig>, roles: Roles) {
    && |Masters(vms)| == 1 && (Setups(vms) != [] || Workers(vms) != [])
    && roles.masters == Masters(vms) && roles.workers == Workers(vms)
    && roles.bootstrap == if Setups(vms) != [] then Setups(vms)[|Setups(vms)| - 1] else Workers(vms)[0]
  }

  method IdentifyVmRoles(vms: seq<VmConfig>) returns (roles: Option<Roles>)
    ensures roles.Some? <==> |Masters(vms)| == 1 && (Setups(vms) != [] || Workers(vms) != [])
    ensures roles.Some? ==> Identified(vms, roles.value)
  {
    var masters, workers, bootstrap := [], [], None;
    for i := 0 to |vms|
      invariant masters == Masters(vms[..i]) && workers == Workers(vms[..i])
      invariant bootstrap == var s := Setups(vms[..i]); if s == [] then None else Some(s[|s| - 1])
    {
      var vm := vms[i];
      assert vms[..i + 1] == vms[..i] + [vm];
      KeepAppend(vms[..i], [vm], (vm: VmConfig) => IsMaster(vm));
      KeepAppend(vms[..i], [vm], (vm: VmConfig) => IsWorker(vm));
      KeepAppend(vms[..i], [vm], (vm: VmConfig) => IsSetup(vm));
      if "master" in vm.roles {
        masters := masters + [vm];
        continue;
      }
      if "setup" in vm.roles {
        bootstrap := Some(vm);
      }
      if "worker" in vm.roles {
        workers := workers + [vm];
      }
    }
    assert vms[..|vms|] == vms;
    if bootstrap.None? && |workers| > 0 {
      bootstrap := Some(workers[0]);
    }
    if |masters| != 1 || bootstrap.None? {
      return None;
    }
    return Some(Roles(masters, workers, bootstrap.value));
  }

  lemma BootstrapIsNoMaster(vms: seq<VmConfig>)
    ensures forall vm :: vm in Setups(vms) + Workers(vms) ==> vm in vms && !IsMaster(vm)
    ensures forall vm :: vm in Masters(vms) ==> vm in vms && IsMaster(vm)
  {
    KeepElements(vms, (vm: VmConfig) => IsMaster(vm));
    KeepElements(vms, (vm: VmConfig) => IsWorker(vm));
    KeepElements(vms, (vm: VmConfig) => IsSetup(vm));
  }
}
