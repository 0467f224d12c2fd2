// The script of ClusterCreate of testkit_v2/util/kube_vm_cluster.go: what a bring-up does, in
// which order, what each of its waits waits for, and how long they may take.
module BringupScript {
  import opened Wrappers
  import opened Conditions
  import opened Filters
  import opened Retry
  import opened Namespaces
  import opened VirtualMachines
  import opened StaticNodes

  datatype Stage =
    | Connect | PrepareNamespace | SyncMachines | IdentifyRoles | InstallDeckhouse | NestedHandle | RemoveDocker
    | AddNodes | NodesReady | SnapshotController | LocalVolumeDeployment | LocalVolumeDaemonSet | NodeConfigurator

  const STAGES: seq<Stage> := [
    Connect, PrepareNamespace, SyncMachines, IdentifyRoles, InstallDeckhouse, NestedHandle, RemoveDocker,
    AddNodes, NodesReady, SnapshotController, LocalVolumeDeployment, LocalVolumeDaemonSet, NodeConfigurator]

  // ---- What the waits wait for ----

  datatype Goal =
    | NamespaceGone(name: string)
    | DockerInstalled
    | NodesUp(count: nat)
    | DeploymentUp(ns: string, name: string)
    | DaemonSetUp(ns: string, name: string)

  const SNAPSHOT_CONTROLLER := DeploymentUp("d8-snapshot-controller", "snapshot-controller")
  const LOCAL_VOLUME_CONTROLLER := DeploymentUp("d8-sds-local-volume", "csi-controller")
  const LOCAL_VOLUME_NODE := DaemonSetUp("d8-sds-local-volume", "csi-node")
  const NODE_CONFIGURATOR := DaemonSetUp("d8-sds-node-configurator", "sds-node-configurator")

  predicate IsReady(node: Node) {
    exists i :: 0 <= i < |node.conditions| && node.conditions[i] == ("Ready", "True")
  }

  function ReadyNodes(nodes: seq<Node>): seq<Node> {
    Keep(nodes, (node: Node) => IsReady(node))
  }

  function ByPodFilter(): (PodFilter, Pod) -> bool {
    (f: PodFilter, pod: Pod) => f.Accepts(pod)
  }

  function PodsOf(w: Infra, ns: string, name: string): seq<Pod> {
    ApplyAll(ByPodFilter(), [PodFilter(Text("%" + name + "-%"), Unset)], if ns in w.pods then w.pods[ns] else [])
  }

  // One poll. Only the daemon set check makes a second request, later.
  function Probe(g: Goal, w: Infra, later: Infra): Error {
    if w.fault.Some? then w.fault else
    match g
    case NamespaceGone(name) =>
      if Selected(w.namespaces, [NsFilter(Text(name))]) != [] then Some("not deleted") else None
    case DockerInstalled => w.apt
    case NodesUp(n) => if |ReadyNodes(w.nodes)| < n then Some("nodes are not ready") else None
    case DeploymentUp(ns, name) =>
      if (ns, name) !in w.deployments then Some("not found") else
      var d := w.deployments[(ns, name)];
      if d.readyReplicas != d.replicas then Some("deployment is not ready") else None
    case DaemonSetUp(ns, name) =>
      if (ns, name) !in w.daemonSets then Some("not found") else
      var ds := w.daemonSets[(ns, name)];
      if ds.desired != ds.current || ds.current != ds.ready || ds.desired != ds.ready
      then Some("daemonset is not ready")
      else if later.fault.Some? then later.fault
      else if |PodsOf(later, ns, name)| != ds.desired then Some("unexpected number of pods")
      else if exists i :: 0 <= i < |PodsOf(later, ns, name)| && PodsOf(later, ns, name)[i].phase != "Running"
      then Some("pod is not running")
      else None
  }

  // The same in plain terms, of the world read first and, for daemon sets, of the later one.
  ghost predicate GoalMet(g: Goal, w: Infra, later: Infra) {
    && w.fault.None?
    && match g {
      case NamespaceGone(name) => forall ns :: ns in w.namespaces ==> !Says(Text(name), ns.name)
      case DockerInstalled => w.apt.None?
      case NodesUp(n) => |ReadyPositions(w.nodes)| >= n
      case DeploymentUp(ns, name) =>
        && (ns, name) in w.deployments
        && w.deployments[(ns, name)].readyReplicas == w.deployments[(ns, name)].replicas
      case DaemonSetUp(ns, name) =>
        && (ns, name) in w.daemonSets && later.fault.None?
        && var ds := w.daemonSets[(ns, name)];
        && ds.desired == ds.current == ds.ready == |OwnPositions(NamespacePods(later, ns), name)|
        && forall i :: i in OwnPositions(NamespacePods(later, ns), name) ==>
            NamespacePods(later, ns)[i].phase == "Running"
    }
  }

  ghost function ReadyPositions(nodes: seq<Node>): set<int> {
    set i | 0 <= i < |nodes| && ("Ready", "True") in nodes[i].conditions
  }

  function NamespacePods(w: Infra, ns: string): seq<Pod> {
    if ns in w.pods then w.pods[ns] else []
  }

  ghost function OwnPositions(pods: seq<Pod>, name: string): set<int> {
    set i | 0 <= i < |pods| && Contains(pods[i].name, name + "-")
  }

  // A poll succeeds exactly when its goal is met.
  lemma ProbeMeans(g: Goal, w: Infra, later: Infra)
    ensures Probe(g, w, later).None? <==> GoalMet(g, w, later)
  {
    match g {
      case NamespaceGone(name) => GoneMeans(name, w.namespaces);
      case NodesUp(n) => ReadyMeans(w.nodes);
      case DaemonSetUp(ns, name) => PodsCountMeans(later, ns, name); PodsRunMeans(later, ns, name);
      case _ =>
    }
  }

  lemma GoneMeans(name: string, nss: seq<Ns>)
    ensures Selected(nss, [NsFilter(Text(name))]) == [] <==> forall ns :: ns in nss ==> !Says(Text(name), ns.name)
  {
    var filters := [NsFilter(Text(name))];
    FoldIsConjunction(ByFilter(), filters, nss);
    KeepElements(nss, Accepted(ByFilter(), filters));
    forall ns | ns in nss
      ensures Accepted(ByFilter(), filters)(ns) <==> Says(Text(name), ns.name)
    {
      NsFilterSays(filters[0], ns);
      assert forall f :: f in filters <==> f == filters[0];
      assert ByFilter()(filters[0], ns) == filters[0].Accepts(ns);
    }
    var kept := Selected(nss, filters);
    assert forall ns :: ns in nss && Says(Text(name), ns.name) ==> ns in kept;
    if kept != [] {
      assert kept[0] in kept;
    }
  }

  // For a host label it is the namespace of that name that is gone.
  lemma NamespaceIsGone(name: string, w: Infra, later: Infra)
    requires HostLabel(name)
    ensures GoalMet(NamespaceGone(name), w, later)
      <==> w.fault.None? && forall ns :: ns in w.namespaces ==> ns.name != name
  {
    forall ns | ns in w.namespaces
      ensures Says(Text(name), ns.name) <==> ns.name == name
    {
      PlainName(name, ns.name);
      CheckSays(Text(name), ns.name);
    }
  }

  lemma ReadyMeans(nodes: seq<Node>)
    ensures |ReadyNodes(nodes)| == |ReadyPositions(nodes)|
  {
    var ready := (node: Node) => IsReady(node);
    KeepCount(nodes, ready);
    assert Positions(nodes, ready) == ReadyPositions(nodes);
  }

  lemma PodsCountMeans(w: Infra, ns: string, name: string)
    ensures |PodsOf(w, ns, name)| == |OwnPositions(NamespacePods(w, ns), name)|
  {
    var pods, own := NamespacePods(w, ns), HasPart(name + "-");
    PodsOfMeans(w, ns, name);
    KeepCount(pods, own);
    assert Positions(pods, own) == OwnPositions(pods, name);
  }

  lemma PodsRunMeans(w: Infra, ns: string, name: string)
    ensures (forall i :: 0 <= i < |PodsOf(w, ns, name)| ==> PodsOf(w, ns, name)[i].phase == "Running") <==>
      forall i :: i in OwnPositions(NamespacePods(w, ns), name) ==> NamespacePods(w, ns)[i].phase == "Running"
  {
    var pods, own := NamespacePods(w, ns), HasPart(name + "-");
    PodsOfMeans(w, ns, name);
    KeepElements(pods, own);
    var kept := Keep(pods, own);
    assert forall i :: 0 <= i < |kept| ==> kept[i] in kept;
    assert forall i :: i in OwnPositions(pods, name) ==> pods[i] in kept;
    forall i | 0 <= i < |kept|
      ensures exists j :: j in OwnPositions(pods, name) && pods[j] == kept[i]
    {
      assert kept[i] in pods;
      var j :| 0 <= j < |pods| && pods[j] == kept[i];
      assert j in OwnPositions(pods, name);
    }
  }

  // The pods a daemon set check counts are those with "<name>-" in their names.
  lemma PodsOfMeans(w: Infra, ns: string, name: string)
    ensures PodsOf(w, ns, name) == Keep(if ns in w.pods then w.pods[ns] else [], HasPart(name + "-"))
  {
    var filters := [PodFilter(Text("%" + name + "-%"), Unset)];
    var pods := if ns in w.pods then w.pods[ns] else [];
    FoldIsConjunction(ByPodFilter(), filters, pods);
    forall pod | pod in pods
      ensures Accepted(ByPodFilter(), filters)(pod) == HasPart(name + "-")(pod)
    {
      var text := "%" + name + "-%";
      assert text == Like(name + "-").Print();
      ParseAfterPrint(Like(name + "-"));
      CheckMeansPattern(text, pod.name);
      assert forall f :: f in filters <==> f == filters[0];
      assert ByPodFilter()(filters[0], pod) == filters[0].Accepts(pod);
    }
    KeepSame(pods, Accepted(ByPodFilter(), filters), HasPart(name + "-"));
  }

  function HasPart(part: string): Pod -> bool {
    (pod: Pod) => Contains(pod.name, part)
  }

  function Negated<T>(p: T -> bool): T -> bool {
    x => !p(x)
  }

  function Copies<T>(x: T, n: nat): (s: seq<T>)
    ensures |s| == n
  {
    if n == 0 then [] else [x] + Copies(x, n - 1)
  }

  lemma {:induction false} KeepCopies<T>(x: T, n: nat, p: T -> bool)
    ensures Keep(Copies(x, n), p) == if p(x) then Copies(x, n) else []
  {
    if n > 0 {
      assert Copies(x, n)[1..] == Copies(x, n - 1);
      KeepCopies(x, n - 1, p);
    }
  }

  // The node wait counts masters too: what it guarantees of the workers is the number
  // asked for less the ready masters.
  lemma MastersCountAsReady(nodes: seq<Node>, n: nat, isMaster: Node -> bool)
    ensures
      var masters, others := Keep(ReadyNodes(nodes), isMaster), Keep(ReadyNodes(nodes), Negated(isMaster));
      |ReadyNodes(nodes)| >= n <==> |others| >= n - |masters|
  {
    KeepSplits(ReadyNodes(nodes), isMaster, Negated(isMaster));
    var a, b := Keep(ReadyNodes(nodes), isMaster), Keep(ReadyNodes(nodes), Negated(isMaster));
    assert |multiset(a) + multiset(b)| == |a| + |b|;
    assert |multiset(ReadyNodes(nodes))| == |ReadyNodes(nodes)|;
  }

  // With that many ready masters, a wait for n nodes that succeeds has found n ready workers.
  predicate WaitsEnough(nodes: seq<Node>, n: nat, ready: nat, isMaster: Node -> bool) {
    var masters, others := Keep(ReadyNodes(nodes), isMaster), Keep(ReadyNodes(nodes), Negated(isMaster));
    |ReadyNodes(nodes)| >= n && |masters| == ready ==> |others| >= n
  }

  // So it is a wait for as many workers exactly when no master is ready.
  lemma ReadyWorkers(n: nat, ready: nat, isMaster: Node -> bool, master: Node, worker: Node)
    requires n > 0 && isMaster(master) && !isMaster(worker) && IsReady(master) && IsReady(worker)
    ensures (forall nodes :: WaitsEnough(nodes, n, ready, isMaster)) <==> ready == 0
  {
    if ready == 0 {
      forall nodes
        ensures WaitsEnough(nodes, n, ready, isMaster)
      {
        MastersCountAsReady(nodes, n, isMaster);
      }
    } else {
      var nodes := Copies(master, ready) + Copies(worker, n - 1);
      AllReady(master, ready, worker, n - 1);
      KeepCopiesOfTwo(master, ready, worker, n - 1, isMaster);
      KeepCopiesOfTwo(master, ready, worker, n - 1, Negated(isMaster));
      assert !WaitsEnough(nodes, n, ready, isMaster);
    }
  }

  lemma {:induction false} AllReady(a: Node, i: nat, b: Node, j: nat)
    requires IsReady(a) && IsReady(b)
    ensures ReadyNodes(Copies(a, i) + Copies(b, j)) == Copies(a, i) + Copies(b, j)
  {
    KeepCopiesOfTwo(a, i, b, j, (node: Node) => IsReady(node));
  }

  lemma {:induction false} KeepCopiesOfTwo<T>(a: T, i: nat, b: T, j: nat, p: T -> bool)
    ensures Keep(Copies(a, i) + Copies(b, j), p)
      == (if p(a) then Copies(a, i) else []) + if p(b) then Copies(b, j) else []
  {
    KeepAppend(Copies(a, i), Copies(b, j), p);
    KeepCopies(a, i, p);
    KeepCopies(b, j, p);
  }

  // ---- Tasks, events and the script of a run ----

  datatype CleanUp = LeaveAlone | Reinit | FreeTmp | DeleteAfter

  datatype Config =
    Config(nsName: string, cleanUp: CleanUp, hasLicense: bool, key: string, keyFile: Error, hash8: string -> string)

  // Commands of the installation run on the bootstrap machine.
  datatype Action =
    | OpenHypervisor | MakeKeys | CreateNamespace(name: string)
    | CheckDeckhouse | MakeTemplates | Upload(to: string)
    | CheckDocker(on: string) | VerifyDocker(on: string) | Login(on: string)
    | BootstrapConfig(on: string, master: string) | BootstrapResources(on: string, master: string)
    | ReadKubeconfig | OpenNested | RemoveDockerFrom(on: string)

  datatype Task =
    | Entered(stage: Stage)
    | Do(action: Action)
    | WaitFor(sec: nat, goal: Goal)
    | ListStale(names: seq<string>)
    | Delete(name: string)
    | CreateMachines(asked: seq<VmConfig>, created: seq<VmConfig>)
    | FillAddresses(asked: seq<VmConfig>, filled: seq<VmConfig>, listed: nat)
    | Identify(filled: seq<VmConfig>, roles: Option<Roles>)
    | License
    | Join(order: Order)

  // A task, when it ran, and whether the run could go on after it.
  datatype Event = Event(task: Task, span: Span, ok: bool)

  // What a run finds out on its way.
  datatype Choices = Choices(
    stale: seq<string>, asked: seq<VmConfig>, created: seq<VmConfig>, filled: seq<VmConfig>, listed: nat,
    roles: Option<Roles>, missing: bool, docker: bool)

  function Addresses(vms: seq<VmConfig>): (ips: seq<string>)
    ensures |ips| == |vms| && forall i :: 0 <= i < |vms| ==> ips[i] == vms[i].ip
  {
    seq(|vms|, i requires 0 <= i < |vms| => vms[i].ip)
  }

  function MasterIp(roles: Option<Roles>): string {
    if roles.None? || roles.value.masters == [] then "" else roles.value.masters[0].ip
  }

  function BootstrapIp(roles: Option<Roles>): string {
    if roles.None? then "" else roles.value.bootstrap.ip
  }

  function OrderOf(config: Config, roles: Option<Roles>): Order {
    Order("e2e", "user", config.key, Addresses(if roles.None? then [] else roles.value.workers), config.hash8)
  }

  function DeleteTasks(names: seq<string>): seq<Task> {
    seq(|names|, i requires 0 <= i < |names| => Delete(names[i]))
  }

  function CleanUpTasks(config: Config, stale: seq<string>): seq<Task> {
    if config.cleanUp.Reinit? then [Delete(config.nsName), WaitFor(20, NamespaceGone(config.nsName))]
    else if config.cleanUp.FreeTmp? then [ListStale(stale)] + DeleteTasks(stale)
    else []
  }

  function PrepareTasks(config: Config, stale: seq<string>): seq<Task> {
    [Entered(PrepareNamespace)] + CleanUpTasks(config, stale) + [Do(MakeKeys), Do(CreateNamespace(config.nsName))]
  }

  function SyncTasks(asked: seq<VmConfig>, created: seq<VmConfig>, filled: seq<VmConfig>, listed: nat): seq<Task> {
    [Entered(SyncMachines), CreateMachines(asked, created), FillAddresses(asked, filled, listed)]
  }

  // docker tells whether Docker had to be installed.
  function DockerTasks(docker: bool, on: string): seq<Task> {
    [Do(CheckDocker(on))] + if docker then [WaitFor(120, DockerInstalled), Do(VerifyDocker(on))] else []
  }

  function InstallTasks(docker: bool, master: string, on: string): seq<Task> {
    [License, Do(MakeTemplates), Do(Upload(on))] + DockerTasks(docker, on)
    + [Do(Login(on)), Do(BootstrapConfig(on, master)), Do(BootstrapResources(on, master))]
  }

  // missing tells whether Deckhouse had to be deployed.
  function DeckhouseTasks(missing: bool, docker: bool, master: string, on: string): seq<Task> {
    [Entered(InstallDeckhouse), Do(CheckDeckhouse)] + (if missing then InstallTasks(docker, master, on) else [])
    + [Do(ReadKubeconfig)]
  }

  function FirstTasks(config: Config, c: Choices): seq<Task> {
    [Entered(Connect), Do(OpenHypervisor)] + PrepareTasks(config, c.stale)
    + SyncTasks(c.asked, c.created, c.filled, c.listed) + [Entered(IdentifyRoles), Identify(c.filled, c.roles)]
  }

  function MiddleTasks(c: Choices): seq<Task> {
    DeckhouseTasks(c.missing, c.docker, MasterIp(c.roles), BootstrapIp(c.roles))
    + [Entered(NestedHandle), Do(OpenNested)]
  }

  function JoinTasks(o: Order, on: string): seq<Task> {
    [Entered(RemoveDocker), Do(RemoveDockerFrom(on))]
    + [Entered(AddNodes), Join(o), Entered(NodesReady), WaitFor(600, NodesUp(|o.ips|))]
  }

  function ModuleTasks(): seq<Task> {
    [Entered(SnapshotController), WaitFor(300, SNAPSHOT_CONTROLLER)]
    + [Entered(LocalVolumeDeployment), WaitFor(300, LOCAL_VOLUME_CONTROLLER)]
    + [Entered(LocalVolumeDaemonSet), WaitFor(300, LOCAL_VOLUME_NODE)]
    + [Entered(NodeConfigurator), WaitFor(300, NODE_CONFIGURATOR)]
  }

  function RestTasks(config: Config, c: Choices): seq<Task> {
    MiddleTasks(c) + (JoinTasks(OrderOf(config, c.roles), BootstrapIp(c.roles)) + ModuleTasks())
  }

  function Script(config: Config, c: Choices): seq<Task> {
    FirstTasks(config, c) + RestTasks(config, c)
  }

  // ---- Following a script ----

  // The events added since are the first tasks of the script, in order; all of them when
  // it is complete, else the last one is the one that failed, and only that.
  ghost predicate Goes(before: seq<Event>, after: seq<Event>, script: seq<Task>, complete: bool) {
    && before <= after && |after| <= |before| + |script|
    && (forall i :: |before| <= i < |after| ==> after[i].task == script[i - |before|])
    && (forall i :: |before| <= i < |after| && (complete || i < |after| - 1) ==> after[i].ok)
    && (if complete then |after| == |before| + |script| else |after| > |before| && !after[|after| - 1].ok)
  }

  lemma OneStep(before: seq<Event>, e: Event)
    ensures Goes(before, before + [e], [e.task], e.ok)
  {
  }

  lemma NoStep(before: seq<Event>)
    ensures Goes(before, before, [], true)
  {
  }

  lemma Chain(a: seq<Event>, b: seq<Event>, x: seq<Task>, done: bool, c: seq<Event>, y: seq<Task>, complete: bool)
    requires Goes(a, b, x, done)
    requires if done then Goes(b, c, y, complete) else c == b && !complete
    ensures Goes(a, c, x + y, complete)
  {
    if done {
      forall i | |a| <= i < |c|
        ensures c[i].task == (x + y)[i - |a|]
      {
        if i < |b| { assert c[i] == b[i]; }
      }
    }
  }

  function Tasks(trace: seq<Event>): (tasks: seq<Task>)
    ensures |tasks| == |trace| && forall i :: 0 <= i < |trace| ==> tasks[i] == trace[i].task
  {
    seq(|trace|, i requires 0 <= i < |trace| => trace[i].task)
  }

  lemma TasksOfScript(trace: seq<Event>, script: seq<Task>, complete: bool)
    requires Goes([], trace, script, complete)
    ensures Tasks(trace) <= script && (complete ==> Tasks(trace) == script)
  {
  }

  // ---- Stages ----

  function StagesOf(tasks: seq<Task>): seq<Stage> {
    if tasks == [] then []
    else (if tasks[0].Entered? then [tasks[0].stage] else []) + StagesOf(tasks[1..])
  }

  lemma {:induction false} StagesOfBoth(a: seq<Task>, b: seq<Task>)
    ensures StagesOf(a + b) == StagesOf(a) + StagesOf(b)
  {
    if a == [] {
      assert a + b == b;
    } else {
      assert (a + b)[0] == a[0] && (a + b)[1..] == a[1..] + b;
      StagesOfBoth(a[1..], b);
    }
  }

  lemma {:induction false} NoStages(tasks: seq<Task>)
    requires forall i :: 0 <= i < |tasks| ==> !tasks[i].Entered?
    ensures StagesOf(tasks) == []
  {
    if tasks != [] {
      NoStages(tasks[1..]);
    }
  }

  lemma {:induction false} OneStage(stage: Stage, tasks: seq<Task>)
    requires tasks != [] && tasks[0] == Entered(stage) && forall i :: 1 <= i < |tasks| ==> !tasks[i].Entered?
    ensures StagesOf(tasks) == [stage]
  {
    NoStages(tasks[1..]);
  }

  // The stages a run enters are the first stages, in their order; all of them when it completes.
  lemma StagesInOrder(config: Config, c: Choices, trace: seq<Event>, complete: bool)
    requires Goes([], trace, Script(config, c), complete)
    ensures StagesOf(Tasks(trace)) <= STAGES && (complete ==> StagesOf(Tasks(trace)) == STAGES)
  {
    hide Script, StagesOf, Goes, Tasks;
    TasksOfScript(trace, Script(config, c), complete);
    ScriptStages(config, c);
    var done, all := Tasks(trace), Script(config, c);
    assert all == done + all[|done|..];
    StagesOfBoth(done, all[|done|..]);
  }

  lemma ScriptStages(config: Config, c: Choices)
    ensures StagesOf(Script(config, c)) == STAGES
  {
    FirstStages(config, c);
    MiddleStages(c);
    JoinStages(OrderOf(config, c.roles), BootstrapIp(c.roles));
    ModuleStages();
    hide StagesOf, FirstTasks, MiddleTasks, JoinTasks, ModuleTasks;
    var a, b, d := FirstTasks(config, c), MiddleTasks(c), JoinTasks(OrderOf(config, c.roles), BootstrapIp(c.roles));
    StagesOfBoth(d, ModuleTasks());
    StagesOfBoth(b, d + ModuleTasks());
    StagesOfBoth(a, RestTasks(config, c));
  }

  lemma PrepareStage(config: Config, stale: seq<string>)
    ensures StagesOf(PrepareTasks(config, stale)) == [PrepareNamespace]
  {
    hide StagesOf;
    OneStage(PrepareNamespace, PrepareTasks(config, stale));
  }

  lemma FirstStages(config: Config, c: Choices)
    ensures StagesOf(FirstTasks(config, c)) == [Connect, PrepareNamespace, SyncMachines, IdentifyRoles]
  {
    hide StagesOf, PrepareTasks;
    var connect, prepare := [Entered(Connect), Do(OpenHypervisor)], PrepareTasks(config, c.stale);
    var sync := SyncTasks(c.asked, c.created, c.filled, c.listed);
    var roles := [Entered(IdentifyRoles), Identify(c.filled, c.roles)];
    OneStage(Connect, connect);
    PrepareStage(config, c.stale);
    OneStage(SyncMachines, sync);
    OneStage(IdentifyRoles, roles);
    hide SyncTasks;
    StagesOfBoth(connect, prepare);
    StagesOfBoth(connect + prepare, sync);
    StagesOfBoth(connect + prepare + sync, roles);
  }

  lemma MiddleStages(c: Choices)
    ensures StagesOf(MiddleTasks(c)) == [InstallDeckhouse, NestedHandle]
  {
    var deckhouse := DeckhouseTasks(c.missing, c.docker, MasterIp(c.roles), BootstrapIp(c.roles));
    OneStage(InstallDeckhouse, deckhouse);
    OneStage(NestedHandle, [Entered(NestedHandle), Do(OpenNested)]);
    hide StagesOf, DeckhouseTasks;
    StagesOfBoth(deckhouse, [Entered(NestedHandle), Do(OpenNested)]);
  }

  lemma JoinStages(o: Order, on: string)
    ensures StagesOf(JoinTasks(o, on)) == [RemoveDocker, AddNodes, NodesReady]
  {
    var docker, add := [Entered(RemoveDocker), Do(RemoveDockerFrom(on))], [Entered(AddNodes), Join(o)];
    var ready := [Entered(NodesReady), WaitFor(600, NodesUp(|o.ips|))];
    OneStage(RemoveDocker, docker);
    OneStage(AddNodes, add);
    OneStage(NodesReady, ready);
    StagesOfBoth(docker, add);
    StagesOfBoth(docker + add, ready);
    hide StagesOf;
    assert JoinTasks(o, on) == docker + add + ready;
  }

  lemma ModuleStages()
    ensures StagesOf(ModuleTasks())
      == [SnapshotController, LocalVolumeDeployment, LocalVolumeDaemonSet, NodeConfigurator]
  {
    var a := [Entered(SnapshotController), WaitFor(300, SNAPSHOT_CONTROLLER)];
    var b := [Entered(LocalVolumeDeployment), WaitFor(300, LOCAL_VOLUME_CONTROLLER)];
    var d := [Entered(LocalVolumeDaemonSet), WaitFor(300, LOCAL_VOLUME_NODE)];
    var e := [Entered(NodeConfigurator), WaitFor(300, NODE_CONFIGURATOR)];
    OneStage(SnapshotController, a);
    OneStage(LocalVolumeDeployment, b);
    OneStage(LocalVolumeDaemonSet, d);
    OneStage(NodeConfigurator, e);
    hide StagesOf;
    StagesOfBoth(a, b);
    StagesOfBoth(a + b, d);
    StagesOfBoth(a + b + d, e);
  }

  // ---- What an event tells of the clusters ----

  // The goal was found met by readings inside the span.
  ghost predicate HeldIn(h: seq<Snapshot<Infra>>, w: Span, g: Goal) {
    exists a, b ::
      && w.first <= a <= b < w.last <= |h|
      && GoalMet(g, h[a].world, h[b].world)
      && w.start <= h[a].at <= h[b].at <= w.end
  }

  // The goal was found unmet by readings inside the span, made when no full poll fitted in
  // before the deadline any more, or later.
  ghost predicate MissedIn(h: seq<Snapshot<Infra>>, w: Span, sec: nat, g: Goal, c: nat) {
    exists a, b ::
      && w.first <= a <= b < w.last <= |h|
      && !GoalMet(g, h[a].world, h[b].world)
      && w.start + (sec + 1) * SECOND <= h[a].at + c
      && w.start <= h[a].at <= h[b].at <= w.end
  }

  // The names, in order, of the stale ones among these namespaces.
  function StaleNames(nss: seq<Ns>, now: int, testNs: string): seq<string> {
    if nss == [] then []
    else (if Stale(nss[0], now, testNs) then [nss[0].name] else []) + StaleNames(nss[1..], now, testNs)
  }

  lemma {:induction false} StaleAppend(a: seq<Ns>, b: seq<Ns>, now: int, testNs: string)
    ensures StaleNames(a + b, now, testNs) == StaleNames(a, now, testNs) + StaleNames(b, now, testNs)
  {
    if a == [] {
      assert a + b == b;
    } else {
      assert (a + b)[0] == a[0] && (a + b)[1..] == a[1..] + b;
      StaleAppend(a[1..], b, now, testNs);
    }
  }

  lemma {:induction false} StaleKept(nss: seq<Ns>, now: int, testNs: string, p: Ns -> bool)
    requires forall x :: x in nss && Stale(x, now, testNs) ==> p(x)
    ensures StaleNames(Keep(nss, p), now, testNs) == StaleNames(nss, now, testNs)
  {
    if nss != [] {
      StaleKept(nss[1..], now, testNs, p);
      StaleAppend(if p(nss[0]) then [nss[0]] else [], Keep(nss[1..], p), now, testNs);
    }
  }

  // The listing of the clean-up misses no stale namespace.
  lemma {:induction false} StaleListed(nss: seq<Ns>, now: int, testNs: string)
    ensures StaleNames(Selected(nss, [NsFilter(Text("%e2e-tmp-%"))]), now, testNs) == StaleNames(nss, now, testNs)
  {
    var filters := [NsFilter(Text("%e2e-tmp-%"))];
    ListedStale(nss, now, testNs);
    FoldIsConjunction(ByFilter(), filters, nss);
    KeepElements(nss, Accepted(ByFilter(), filters));
    StaleKept(nss, now, testNs, Accepted(ByFilter(), filters));
  }

  // Fewer namespaces were selected by one listing than the next one found in all.
  ghost predicate Guarded(h: seq<Snapshot<Infra>>, w: Span, name: string) {
    && w.first + 1 < w.last <= |h|
    && h[w.first].world.fault.None? && h[w.first + 1].world.fault.None?
    && |Selected(h[w.first].world.namespaces, [NsFilter(Text(name))])| != |h[w.first + 1].world.namespaces|
  }

  ghost predicate Fulfilled(config: Config, h: seq<Snapshot<Infra>>, e: Event, c: nat, lag: nat) {
    match e.task
    case WaitFor(sec, goal) =>
      && Timed(sec, e.span, e.ok, c, lag)
      && if e.ok then HeldIn(h, e.span, goal) else MissedIn(h, e.span, sec, goal, c)
    case ListStale(names) =>
      && e.ok && e.span.first < e.span.last <= |h|
      && var w := h[e.span.first].world;
      names == if w.fault.Some? then [] else StaleNames(w.namespaces, e.span.start / SECOND, config.nsName)
    case Delete(name) => e.ok ==> Guarded(h, e.span, name)
    case CreateMachines(asked, created) =>
      && e.span.first < e.span.last <= |h|
      && CreatedAsNeeded(h[e.span.first].world, config.nsName, asked, created, e.ok)
    case FillAddresses(asked, filled, listed) =>
      && Timed(480, e.span, e.ok, c, lag)
      && if e.ok then FilledFrom(h, e.span, listed, config.nsName, asked, filled)
        else filled == asked && e.span.last <= |h| && TooFewLate(h, e.span, config.nsName, |asked|, c)
    case Identify(filled, roles) => e.ok == roles.Some? && (e.ok ==> Identified(filled, roles.value))
    case License => e.ok == config.hasLicense
    case _ => true
  }

  ghost predicate Within(e: Event, from: nat, to: nat, now: nat) {
    from <= e.span.first <= e.span.last <= to && e.span.start <= e.span.end <= now
  }

  // Events follow one another in time and in the history, and tell the truth about it.
  ghost predicate Sound(config: Config, h: seq<Snapshot<Infra>>, from: nat, now: nat, trace: seq<Event>, c: nat,
                        lag: nat) {
    && (forall i :: 0 <= i < |trace| ==> Within(trace[i], from, |h|, now) && Fulfilled(config, h, trace[i], c, lag))
    && (forall i, j :: 0 <= i < j < |trace| ==>
      trace[i].span.end <= trace[j].span.start && trace[i].span.last <= trace[j].span.first)
  }

  lemma FulfilledLater(config: Config, h: seq<Snapshot<Infra>>, h': seq<Snapshot<Infra>>, e: Event, c: nat, lag: nat)
    requires h <= h' && e.span.last <= |h| && Fulfilled(config, h, e, c, lag)
    ensures Fulfilled(config, h', e, c, lag)
  {
    hide GoalMet, Timed, CreatedAsNeeded, VmsRunning, Assigned, Running, StaleNames, Selected, Identified;
    assert forall k :: 0 <= k < |h| ==> h'[k] == h[k];
    match e.task {
      case WaitFor(sec, goal) =>
        if e.ok {
          var a, b :| e.span.first <= a <= b < e.span.last <= |h| && GoalMet(goal, h[a].world, h[b].world)
            && e.span.start <= h[a].at <= h[b].at <= e.span.end;
          assert GoalMet(goal, h'[a].world, h'[b].world);
        } else {
          var a, b :| e.span.first <= a <= b < e.span.last <= |h| && !GoalMet(goal, h[a].world, h[b].world)
            && e.span.start + (sec + 1) * SECOND <= h[a].at + c && e.span.start <= h[a].at <= h[b].at <= e.span.end;
          assert !GoalMet(goal, h'[a].world, h'[b].world);
        }
      case _ =>
    }
  }

  lemma SoundLater(config: Config, h: seq<Snapshot<Infra>>, h': seq<Snapshot<Infra>>, from: nat, now: nat, now': nat,
                   trace: seq<Event>, c: nat, lag: nat)
    requires Sound(config, h, from, now, trace, c, lag) && h <= h' && now <= now'
    ensures Sound(config, h', from, now', trace, c, lag)
  {
    hide Fulfilled;
    forall i | 0 <= i < |trace|
      ensures Fulfilled(config, h', trace[i], c, lag)
    {
      FulfilledLater(config, h, h', trace[i], c, lag);
    }
  }

  lemma SoundStep(config: Config, h: seq<Snapshot<Infra>>, h': seq<Snapshot<Infra>>, from: nat, now: nat, now': nat,
                  trace: seq<Event>, e: Event, c: nat, lag: nat)
    requires Sound(config, h, from, now, trace, c, lag) && h <= h' && now <= now' && from <= |h|
    requires e.span == Span(now, now', |h|, |h'|) && Fulfilled(config, h', e, c, lag)
    ensures Sound(config, h', from, now', trace + [e], c, lag)
  {
    SoundLater(config, h, h', from, now, now', trace, c, lag);
    hide Fulfilled;
    var next := trace + [e];
    assert forall i :: 0 <= i < |trace| ==> next[i] == trace[i];
  }

  // A wait whose goal is met by all that is read from some instant on, a poll's length
  // before the deadline, has succeeded.
  lemma SettledWaitSucceeds(config: Config, h: seq<Snapshot<Infra>>, e: Event, c: nat, lag: nat, settled: int)
    requires e.task.WaitFor? && Fulfilled(config, h, e, c, lag)
    requires settled + c <= e.span.start + (e.task.sec + 1) * SECOND
    requires forall a, b :: e.span.first <= a <= b < e.span.last <= |h| && h[a].at >= settled ==>
      GoalMet(e.task.goal, h[a].world, h[b].world)
    ensures e.ok && HeldIn(h, e.span, e.task.goal)
  {
    hide GoalMet, Timed;
  }

  // In a complete run each wait of the script has found its goal met inside its own span.
  lemma EveryWaitMet(config: Config, choices: Choices, h: seq<Snapshot<Infra>>, from: nat, now: nat,
                     trace: seq<Event>, c: nat, lag: nat, k: nat)
    requires Sound(config, h, from, now, trace, c, lag) && Goes([], trace, Script(config, choices), true)
    requires k < |Script(config, choices)| && Script(config, choices)[k].WaitFor?
    ensures k < |trace| && trace[k].task == Script(config, choices)[k]
    ensures HeldIn(h, trace[k].span, trace[k].task.goal)
  {
    hide Script, HeldIn;
    assert trace[k].ok && Fulfilled(config, h, trace[k], c, lag);
  }

  // ---- Which addresses a run works on ----

  // The addresses of the entries that are workers and no masters, in their order.
  function WorkerIps(vms: seq<VmConfig>): seq<string> {
    if vms == [] then []
    else (if "worker" in vms[0].roles && "master" !in vms[0].roles then [vms[0].ip] else []) + WorkerIps(vms[1..])
  }

  lemma {:induction false} WorkersHaveThem(vms: seq<VmConfig>)
    ensures Addresses(Workers(vms)) == WorkerIps(vms)
  {
    if vms != [] {
      WorkersHaveThem(vms[1..]);
      var rest := Workers(vms[1..]);
      assert Workers(vms) == (if IsWorker(vms[0]) then [vms[0]] else []) + rest;
    }
  }

  // The only order of the run is placed at this event: it asks for one node per worker, and
  // the wait that follows is for as many nodes.
  ghost predicate JoinsAt(trace: seq<Event>, k: nat, config: Config, vms: seq<VmConfig>) {
    && k + 2 < |trace| && trace[k].task.Join?
    && (forall i :: 0 <= i < |trace| && trace[i].task.Join? ==> i == k)
    && var o := trace[k].task.order;
    && o.name == "e2e" && o.user == "user" && o.key == config.key && o.hash8 == config.hash8
    && o.ips == WorkerIps(vms)
    && trace[k + 1].task == Entered(NodesReady)
    && trace[k + 2].task == WaitFor(600, NodesUp(|o.ips|))
  }

  ghost predicate NoJoin(tasks: seq<Task>) {
    forall i :: 0 <= i < |tasks| ==> !tasks[i].Join?
  }

  lemma OnlyOneJoin(config: Config, c: Choices)
    ensures
      var k, all := |FirstTasks(config, c)| + |MiddleTasks(c)| + 3, Script(config, c);
      && k + 2 < |all| && all[k] == Join(OrderOf(config, c.roles))
      && (forall i :: 0 <= i < |all| && all[i].Join? ==> i == k)
      && all[k + 1] == Entered(NodesReady)
      && all[k + 2] == WaitFor(600, NodesUp(|OrderOf(config, c.roles).ips|))
  {
    assert NoJoin(FirstTasks(config, c));
    assert NoJoin(MiddleTasks(c));
    assert NoJoin(ModuleTasks());
    var join := JoinTasks(OrderOf(config, c.roles), BootstrapIp(c.roles));
    assert forall i :: 0 <= i < |join| && join[i].Join? ==> i == 3;
    hide FirstTasks, MiddleTasks, ModuleTasks, OrderOf;
    var first, middle := FirstTasks(config, c), MiddleTasks(c);
    assert Script(config, c) == first + middle + join + ModuleTasks();
  }

  lemma JoinedWorkers(config: Config, c: Choices, trace: seq<Event>)
    requires Goes([], trace, Script(config, c), true)
    requires c.roles.Some? && Identified(c.filled, c.roles.value)
    ensures exists k: nat :: JoinsAt(trace, k, config, c.filled) && trace[k].task.order == OrderOf(config, c.roles)
  {
    WorkersHaveThem(c.filled);
    OnlyOneJoin(config, c);
    hide Script, FirstTasks, MiddleTasks, Workers, WorkerIps;
    var k := |FirstTasks(config, c)| + |MiddleTasks(c)| + 3;
    assert JoinsAt(trace, k, config, c.filled);
  }

  // Where Deckhouse is installed from and to, and where Docker is removed.
  ghost predicate RightMachines(t: Task, vms: seq<VmConfig>) {
    match t
    case Do(BootstrapConfig(on, master)) => IsMasterIp(vms, master) && IsBootstrapIp(vms, on)
    case Do(BootstrapResources(on, master)) => IsMasterIp(vms, master) && IsBootstrapIp(vms, on)
    case Do(RemoveDockerFrom(on)) => IsBootstrapIp(vms, on)
    case _ => true
  }

  ghost predicate IsMasterIp(vms: seq<VmConfig>, ip: string) {
    exists i :: 0 <= i < |vms| && "master" in vms[i].roles && vms[i].ip == ip
  }

  ghost predicate IsBootstrapIp(vms: seq<VmConfig>, ip: string) {
    exists i :: 0 <= i < |vms| && "master" !in vms[i].roles && ("setup" in vms[i].roles || "worker" in vms[i].roles)
      && vms[i].ip == ip
  }

  lemma RolesHaveIps(vms: seq<VmConfig>, roles: Roles)
    requires Identified(vms, roles)
    ensures IsMasterIp(vms, MasterIp(Some(roles))) && IsBootstrapIp(vms, BootstrapIp(Some(roles)))
  {
    KeepElements(vms, (vm: VmConfig) => IsMaster(vm));
    KeepElements(vms, (vm: VmConfig) => IsWorker(vm));
    KeepElements(vms, (vm: VmConfig) => IsSetup(vm));
    assert roles.masters[0] in Masters(vms);
    assert roles.bootstrap in Setups(vms) || roles.bootstrap in Workers(vms);
    var i :| 0 <= i < |vms| && vms[i] == roles.masters[0];
    var j :| 0 <= j < |vms| && vms[j] == roles.bootstrap;
  }

  ghost predicate AllRight(tasks: seq<Task>, vms: seq<VmConfig>) {
    forall i :: 0 <= i < |tasks| ==> RightMachines(tasks[i], vms)
  }

  lemma FirstRight(config: Config, c: Choices, vms: seq<VmConfig>)
    ensures AllRight(FirstTasks(config, c), vms) && AllRight(ModuleTasks(), vms)
  {
    hide IsMasterIp, IsBootstrapIp;
  }

  lemma MiddleRight(c: Choices, o: Order, vms: seq<VmConfig>)
    requires IsMasterIp(vms, MasterIp(c.roles)) && IsBootstrapIp(vms, BootstrapIp(c.roles))
    ensures AllRight(MiddleTasks(c), vms) && AllRight(JoinTasks(o, BootstrapIp(c.roles)), vms)
  {
    hide IsMasterIp, IsBootstrapIp, MasterIp, BootstrapIp;
  }

  lemma WorksOnRightMachines(config: Config, c: Choices, trace: seq<Event>, complete: bool)
    requires Goes([], trace, Script(config, c), complete)
    requires c.roles.Some? && Identified(c.filled, c.roles.value)
    ensures AllRight(Tasks(trace), c.filled)
  {
    RolesHaveIps(c.filled, c.roles.value);
    FirstRight(config, c, c.filled);
    MiddleRight(c, OrderOf(config, c.roles), c.filled);
    hide FirstTasks, MiddleTasks, JoinTasks, ModuleTasks, RightMachines, Identified, OrderOf;
    assert AllRight(Script(config, c), c.filled);
  }

  // ---- What a complete run has seen ----

  ghost predicate Saw(h: seq<Snapshot<Infra>>, from: nat, g: Goal) {
    exists a, b :: from <= a <= b < |h| && GoalMet(g, h[a].world, h[b].world)
  }

  lemma ModulePositions(config: Config, c: Choices)
    ensures
      var all := Script(config, c);
      && |all| >= 8
      && all[|all| - 7] == WaitFor(300, DeploymentUp("d8-snapshot-controller", "snapshot-controller"))
      && all[|all| - 5] == WaitFor(300, DeploymentUp("d8-sds-local-volume", "csi-controller"))
      && all[|all| - 3] == WaitFor(300, DaemonSetUp("d8-sds-local-volume", "csi-node"))
      && all[|all| - 1] == WaitFor(300, DaemonSetUp("d8-sds-node-configurator", "sds-node-configurator"))
  {
    hide FirstTasks, MiddleTasks, JoinTasks;
    var before := FirstTasks(config, c) + MiddleTasks(c) + JoinTasks(OrderOf(config, c.roles), BootstrapIp(c.roles));
    assert Script(config, c) == before + ModuleTasks();
  }

  // Each module's workload was seen up by this run.
  lemma ModulesSeen(config: Config, choices: Choices, h: seq<Snapshot<Infra>>, from: nat, now: nat,
                    trace: seq<Event>, c: nat, lag: nat)
    requires Sound(config, h, from, now, trace, c, lag) && Goes([], trace, Script(config, choices), true)
    ensures Saw(h, from, DeploymentUp("d8-snapshot-controller", "snapshot-controller"))
    ensures Saw(h, from, DeploymentUp("d8-sds-local-volume", "csi-controller"))
    ensures Saw(h, from, DaemonSetUp("d8-sds-local-volume", "csi-node"))
    ensures Saw(h, from, DaemonSetUp("d8-sds-node-configurator", "sds-node-configurator"))
  {
    ModulePositions(config, choices);
    hide Script, GoalMet, Fulfilled, Goes;
    var n := |Script(config, choices)|;
    EveryWaitMet(config, choices, h, from, now, trace, c, lag, n - 7);
    EveryWaitMet(config, choices, h, from, now, trace, c, lag, n - 5);
    EveryWaitMet(config, choices, h, from, now, trace, c, lag, n - 3);
    EveryWaitMet(config, choices, h, from, now, trace, c, lag, n - 1);
  }

  // ---- Time ----

  function Allowance(t: Task, c: nat, lag: nat): nat {
    match t
    case WaitFor(sec, _) => Budget(sec, c, lag) - 1
    case FillAddresses(_, _, _) => Budget(480, c, lag) - 1
    case _ => 0
  }

  function TotalAllowance(tasks: seq<Task>, c: nat, lag: nat): nat {
    if tasks == [] then 0 else Allowance(tasks[0], c, lag) + TotalAllowance(tasks[1..], c, lag)
  }

  predicate IsWait(t: Task) {
    t.WaitFor? || t.FillAddresses?
  }

  // The time a run has spent in its waits, by the clock.
  function TimeWaited(trace: seq<Event>): int {
    if trace == [] then 0
    else (if IsWait(trace[0].task) then trace[0].span.end - trace[0].span.start else 0) + TimeWaited(trace[1..])
  }

  lemma {:induction false} WaitedWithin(config: Config, h: seq<Snapshot<Infra>>, trace: seq<Event>, c: nat, lag: nat)
    requires forall i :: 0 <= i < |trace| ==> Fulfilled(config, h, trace[i], c, lag)
    ensures TimeWaited(trace) <= TotalAllowance(Tasks(trace), c, lag)
  {
    if trace != [] {
      hide Budget, HeldIn, FilledFrom, CreatedAsNeeded, Identified, Guarded, StaleNames;
      WaitedWithin(config, h, trace[1..], c, lag);
      assert Tasks(trace)[1..] == Tasks(trace[1..]);
      assert Fulfilled(config, h, trace[0], c, lag);
    }
  }

  lemma {:induction false} TotalOfBoth(a: seq<Task>, b: seq<Task>, c: nat, lag: nat)
    ensures TotalAllowance(a + b, c, lag) == TotalAllowance(a, c, lag) + TotalAllowance(b, c, lag)
  {
    if a == [] {
      assert a + b == b;
    } else {
      assert (a + b)[0] == a[0] && (a + b)[1..] == a[1..] + b;
      TotalOfBoth(a[1..], b, c, lag);
    }
  }

  lemma {:induction false} NoWaits(tasks: seq<Task>, c: nat, lag: nat)
    requires forall i :: 0 <= i < |tasks| ==> Allowance(tasks[i], c, lag) == 0
    ensures TotalAllowance(tasks, c, lag) == 0
  {
    if tasks != [] {
      NoWaits(tasks[1..], c, lag);
    }
  }

  // All of it is one wait.
  lemma {:induction false} OneWait(tasks: seq<Task>, k: nat, c: nat, lag: nat)
    requires k < |tasks| && forall i :: 0 <= i < |tasks| && i != k ==> Allowance(tasks[i], c, lag) == 0
    ensures TotalAllowance(tasks, c, lag) == Allowance(tasks[k], c, lag)
  {
    if k == 0 {
      NoWaits(tasks[1..], c, lag);
    } else {
      OneWait(tasks[1..], k - 1, c, lag);
    }
  }

  lemma BudgetValues(c: nat, lag: nat)
    ensures Budget(20, c, lag) == 26 * SECOND + c + lag
    ensures Budget(480, c, lag) == 496 * SECOND + c + lag
    ensures Budget(120, c, lag) == 136 * SECOND + c + lag
    ensures Budget(600, c, lag) == 616 * SECOND + c + lag
    ensures Budget(300, c, lag) == 316 * SECOND + c + lag
  {
  }

  lemma {:induction false} FirstWaits(config: Config, choices: Choices, c: nat, lag: nat)
    ensures TotalAllowance(FirstTasks(config, choices), c, lag) <= 522 * SECOND + 2 * (c + lag)
  {
    BudgetValues(c, lag);
    var connect, prepare := [Entered(Connect), Do(OpenHypervisor)], PrepareTasks(config, choices.stale);
    var sync := SyncTasks(choices.asked, choices.created, choices.filled, choices.listed);
    var roles := [Entered(IdentifyRoles), Identify(choices.filled, choices.roles)];
    NoWaits(connect, c, lag);
    if config.cleanUp.Reinit? { OneWait(prepare, 2, c, lag); } else { NoWaits(prepare, c, lag); }
    OneWait(sync, 2, c, lag);
    NoWaits(roles, c, lag);
    assert TotalAllowance(prepare, c, lag) < 26 * SECOND + c + lag;
    hide TotalAllowance, PrepareTasks, SyncTasks, Budget;
    TotalOfBoth(connect, prepare, c, lag);
    TotalOfBoth(connect + prepare, sync, c, lag);
    TotalOfBoth(connect + prepare + sync, roles, c, lag);
  }

  lemma {:induction false} MiddleWaits(choices: Choices, c: nat, lag: nat)
    ensures TotalAllowance(MiddleTasks(choices), c, lag) <= 136 * SECOND + c + lag
  {
    BudgetValues(c, lag);
    var tasks := MiddleTasks(choices);
    hide Budget, TotalAllowance;
    if choices.missing && choices.docker { OneWait(tasks, 6, c, lag); } else { NoWaits(tasks, c, lag); }
  }

  lemma {:induction false} LastWaits(o: Order, on: string, c: nat, lag: nat)
    ensures TotalAllowance(JoinTasks(o, on), c, lag) <= 616 * SECOND + c + lag
    ensures TotalAllowance(ModuleTasks(), c, lag) < 4 * (316 * SECOND + c + lag)
  {
    BudgetValues(c, lag);
    hide Budget, TotalAllowance;
    OneWait(JoinTasks(o, on), 5, c, lag);
    var a := [Entered(SnapshotController), WaitFor(300, SNAPSHOT_CONTROLLER)];
    var b := [Entered(LocalVolumeDeployment), WaitFor(300, LOCAL_VOLUME_CONTROLLER)];
    var d := [Entered(LocalVolumeDaemonSet), WaitFor(300, LOCAL_VOLUME_NODE)];
    var e := [Entered(NodeConfigurator), WaitFor(300, NODE_CONFIGURATOR)];
    OneWait(a, 1, c, lag);
    OneWait(b, 1, c, lag);
    OneWait(d, 1, c, lag);
    OneWait(e, 1, c, lag);
    TotalOfBoth(a, b, c, lag);
    TotalOfBoth(a + b, d, c, lag);
    TotalOfBoth(a + b + d, e, c, lag);
  }

  lemma {:induction false} ScriptAllowance(config: Config, choices: Choices, c: nat, lag: nat)
    ensures TotalAllowance(Script(config, choices), c, lag) < 2538 * SECOND + 8 * (c + lag)
  {
    var a, b := FirstTasks(config, choices), MiddleTasks(choices);
    var d := JoinTasks(OrderOf(config, choices.roles), BootstrapIp(choices.roles));
    FirstWaits(config, choices, c, lag);
    MiddleWaits(choices, c, lag);
    LastWaits(OrderOf(config, choices.roles), BootstrapIp(choices.roles), c, lag);
    hide TotalAllowance, FirstTasks, MiddleTasks, JoinTasks, ModuleTasks;
    TotalOfBoth(d, ModuleTasks(), c, lag);
    TotalOfBoth(b, d + ModuleTasks(), c, lag);
    TotalOfBoth(a, RestTasks(config, choices), c, lag);
  }

  // However a run ends, the clock shows less than 2538 seconds, eight polls and eight
  // oversleeps spent in its waits.
  lemma {:induction false} BoundedWaiting(config: Config, choices: Choices, h: seq<Snapshot<Infra>>, from: nat,
                                          now: nat, trace: seq<Event>, complete: bool, c: nat, lag: nat)
    requires Sound(config, h, from, now, trace, c, lag) && Goes([], trace, Script(config, choices), complete)
    ensures TimeWaited(trace) < 2538 * SECOND + 8 * (c + lag)
  {
    hide Script, TotalAllowance, TimeWaited, Fulfilled, Goes, Tasks;
    WaitedWithin(config, h, trace, c, lag);
    TasksOfScript(trace, Script(config, choices), complete);
    ScriptAllowance(config, choices, c, lag);
    var done, all := Tasks(trace), Script(config, choices);
    assert all == done + all[|done|..];
    TotalOfBoth(done, all[|done|..], c, lag);
  }
}
