// ClusterCreate of testkit_v2/util/kube_vm_cluster.go: the stages that turn a namespace
// of a hypervisor into a working nested cluster, while both clusters change by themselves.
//
// Remote commands and cluster clients are actions that may fail. Fatalf ends the process:
// here the run returns at once.
module Bringup {
  import opened Wrappers
  import opened Conditions
  import opened Filters
  import opened Retry
  import opened Namespaces
  import opened VirtualMachines
  import opened StaticNodes
  import DeleteAndWait
  import opened BringupScript

  // A machine of the entry's name runs in the namespace and has the address.
  ghost predicate RunsAt(w: Infra, ns: string, cfg: VmConfig, ip: string) {
    exists vm :: vm in w.vms && vm.namespace == ns && vm.phase == "Running" && vm.name == cfg.name && vm.ip == ip
  }

  // When only requested machines live in the namespace, the addresses the run joins are
  // those of running machines asked for as workers.
  lemma {:induction false} WorkerAddresses(trace: seq<Event>, j: nat, config: Config, w: Infra, cfgs: seq<VmConfig>,
                                           k: nat)
    requires HostLabel(config.nsName) && UniqueVms(w) && DistinctNames(cfgs)
    requires VmsRunning(config.nsName, |cfgs|, w).None?
    requires forall vm :: vm in w.vms && vm.namespace == config.nsName ==> Requested(cfgs, vm.name)
    requires JoinsAt(trace, j, config, Assigned(Running(w, config.nsName), cfgs)) && k < |trace[j].task.order.ips|
    ensures exists i ::
      && 0 <= i < |cfgs| && "worker" in cfgs[i].roles && "master" !in cfgs[i].roles
      && RunsAt(w, config.nsName, cfgs[i], trace[j].task.order.ips[k])
  {
    var synced := Assigned(Running(w, config.nsName), cfgs);
    WorkersHaveThem(synced);
    BootstrapIsNoMaster(synced);
    KeepElements(synced, (cfg: VmConfig) => IsWorker(cfg));
    var worker := Workers(synced)[k];
    assert worker in synced && IsWorker(worker);
    AssignedLength(Running(w, config.nsName), cfgs);
    var i :| 0 <= i < |synced| && synced[i] == worker;
    hide Running, Assigned, UniqueVms, DistinctNames, VmsRunning, WorkerIps, Workers;
    forall vm | vm in w.vms && vm.namespace == config.nsName
      ensures exists j :: 0 <= j < |cfgs| && cfgs[j].name == vm.name
    {
      assert Requested(cfgs, vm.name);
    }
    var vm := SyncedAddresses(w, config.nsName, cfgs, i);
    assert RunsAt(w, config.nsName, cfgs[i], vm.ip);
  }

  // A wait that succeeded has read its goal as met inside its own span, one that failed as
  // unmet when its time was up.
  lemma GoalRead(goal: Goal, h: seq<Snapshot<Infra>>, probe: (nat, Infra, Infra) -> Error, polls: seq<Poll>,
                 seen: seq<(nat, nat)>, w: Span, sec: nat, c: nat, lag: nat)
    requires forall k: nat, a, b :: probe(k, a, b) == Probe(goal, a, b)
    requires Finished(sec, polls) && Brief(sec, polls, c, lag) && Readings(h, probe, polls, seen, w.start, w.first)
    requires w.end == w.start + Last(polls).end && w.last == |h|
    ensures if Last(polls).err.None? then HeldIn(h, w, goal) else MissedIn(h, w, sec, goal, c)
  {
    hide GoalMet, Probe;
    var k := |polls| - 1;
    assert Reading(h, probe, k, polls[k], seen[k], w.start, w.first);
    ProbeMeans(goal, h[seen[k].0].world, h[seen[k].1].world);
  }

  // Creating and waiting as two events, the second starting where the first ends.
  lemma CreatedAndFilled(config: Config, h: seq<Snapshot<Infra>>, h': seq<Snapshot<Infra>>, from: nat, now: nat,
                         w: Span, trace: seq<Event>, asked: seq<VmConfig>, created: seq<VmConfig>,
                         filled: seq<VmConfig>, listed: nat, ok: bool, c: nat, lag: nat) returns (next: seq<Event>)
    requires Sound(config, h, from, now, trace, c, lag) && from <= |h| < w.first <= w.last == |h'| && h <= h'
    requires now <= w.start <= w.end && CreatedAsNeeded(h'[|h|].world, config.nsName, asked, created, true)
    requires Fulfilled(config, h', Event(FillAddresses(asked, filled, listed), w, ok), c, lag)
    ensures Sound(config, h', from, w.end, next, c, lag)
    ensures Goes(trace, next, [CreateMachines(asked, created), FillAddresses(asked, filled, listed)], ok)
  {
    var create := Event(CreateMachines(asked, created), Span(now, w.start, |h|, w.first), true);
    var fill := Event(FillAddresses(asked, filled, listed), w, ok);
    next := trace + [create] + [fill];
    hide CreatedAsNeeded, FilledFrom, Timed, TooFewLate;
    assert Fulfilled(config, h'[..w.first], create, c, lag);
    SoundStep(config, h, h'[..w.first], from, now, w.start, trace, create, c, lag);
    SoundStep(config, h'[..w.first], h', from, w.start, w.end, trace + [create], fill, c, lag);
    OneStep(trace, create);
    OneStep(trace + [create], fill);
    hide Fulfilled, Sound, Goes;
    Chain(trace, trace + [create], [create.task], true, next, [fill.task], ok);
    assert [create.task] + [fill.task] == [create.task, fill.task];
  }

  class Run {
    const config: Config
    const s: Session<Infra>
    const nested: Server
    const vms: array<VmConfig>
    ghost var trace: seq<Event>

    constructor (config: Config, s: Session<Infra>, nested: Server, vms: array<VmConfig>)
      ensures this.config == config && this.s == s && this.nested == nested && this.vms == vms
      ensures trace == []
    {
      this.config, this.s, this.nested, this.vms := config, s, nested, vms;
      trace := [];
    }

    // The trace of a run that began after history h.
    ghost predicate Inv(h: seq<Snapshot<Infra>>)
      reads `trace, s
    {
      && s.Valid()
      && h <= s.history
      && Sound(config, s.history, |h|, s.now, trace, s.maxPoll, s.maxLag)
    }

    // One task was done, from the earlier instant to this one.
    twostate predicate Logged(task: Task, ok: bool)
      reads `trace, s
    {
      trace == old(trace) + [Event(task, Span(old(s.now), s.now, |old(s.history)|, |s.history|), ok)]
    }

    ghost method Log(task: Task, ok: bool, before: seq<Snapshot<Infra>>, start: nat, h: seq<Snapshot<Infra>>)
      requires s.Valid() && h <= before <= s.history && start <= s.now
      requires Sound(config, before, |h|, start, trace, s.maxPoll, s.maxLag)
      requires
        var e := Event(task, Span(start, s.now, |before|, |s.history|), ok);
        Fulfilled(config, s.history, e, s.maxPoll, s.maxLag)
      modifies `trace
      ensures Inv(h)
      ensures trace == old(trace) + [Event(task, Span(start, s.now, |before|, |s.history|), ok)]
      ensures Goes(old(trace), trace, [task], ok)
    {
      hide Fulfilled, Sound, Goes;
      var e := Event(task, Span(start, s.now, |before|, |s.history|), ok);
      SoundStep(config, before, s.history, |h|, start, s.now, trace, e, s.maxPoll, s.maxLag);
      OneStep(trace, e);
      trace := trace + [e];
    }

    ghost method Enter(stage: Stage, h: seq<Snapshot<Infra>>)
      requires Inv(h)
      modifies `trace
      ensures Inv(h) && Logged(Entered(stage), true) && Goes(old(trace), trace, [Entered(stage)], true)
    {
      hide Sound;
      Log(Entered(stage), true, s.history, s.now, h);
    }

    // Any time passes while an action runs.
    method Act(action: Action, ghost h: seq<Snapshot<Infra>>) returns (err: Error)
      requires Inv(h)
      modifies s, `trace
      ensures Inv(h) && Logged(Do(action), err.None?) && Goes(old(trace), trace, [Do(action)], err.None?)
    {
      hide Sound, Goes, Recorded;
      ghost var before, start := s.history, s.now;
      var length: nat :| 0 <= length;
      s.Elapse(s.now, s.now + length);
      err := *;
      Log(Do(action), err.None?, before, start, h);
    }

    // An action whose outcome decides how to go on.
    method Ask(action: Action, ghost h: seq<Snapshot<Infra>>) returns (answer: bool)
      requires Inv(h)
      modifies s, `trace
      ensures Inv(h) && Logged(Do(action), true) && Goes(old(trace), trace, [Do(action)], true)
    {
      hide Sound, Goes, Recorded;
      ghost var before, start := s.history, s.now;
      var length: nat :| 0 <= length;
      s.Elapse(s.now, s.now + length);
      answer := *;
      Log(Do(action), true, before, start, h);
    }

    method TwoActs(first: Action, second: Action, ghost h: seq<Snapshot<Infra>>) returns (err: Error)
      requires Inv(h)
      modifies s, `trace
      ensures Inv(h) && Goes(old(trace), trace, [Do(first), Do(second)], err.None?)
    {
      hide Inv, Goes;
      err := Act(first, h);
      ghost var done, go := trace, err.None?;
      if err.None? {
        err := Act(second, h);
      }
      Chain(old(trace), done, [Do(first)], go, trace, [Do(second)], err.None?);
      assert [Do(first)] + [Do(second)] == [Do(first), Do(second)];
    }

    // A wait of so many seconds for the goal.
    method Await(sec: nat, goal: Goal, ghost h: seq<Snapshot<Infra>>) returns (err: Error)
      requires Inv(h)
      modifies s, `trace
      ensures Inv(h) && Logged(WaitFor(sec, goal), err.None?)
      ensures Goes(old(trace), trace, [WaitFor(sec, goal)], err.None?)
    {
      hide HeldIn, MissedIn, Probe, Budget, Readings, Brief, Recorded, Sound, Goes, Throttled;
      ghost var before, start := s.history, s.now;
      var probe := (k: nat, w: Infra, later: Infra) => Probe(goal, w, later);
      var read;
      ghost var polls, seen;
      err, read, polls, seen := s.RetrySec(sec, probe);
      FinishedTiming(sec, polls, s.maxPoll, s.maxLag);
      GoalRead(goal, s.history, probe, polls, seen, Span(start, s.now, |before|, |s.history|), sec,
               s.maxPoll, s.maxLag);
      Log(WaitFor(sec, goal), err.None?, before, start, h);
    }

    // ---- The namespace ----

    // The selected namespaces and all namespaces are listed at two instants. Only selected
    // ones are asked to be deleted, in order, all of them on success.
    method DeleteSelected(name: string) returns (err: Error, deleted: seq<Ns>)
      requires s.Valid()
      modifies s
      ensures s.Later() && |old(s.history)| < |s.history|
      ensures deleted <= Selected(s.history[|old(s.history)|].world.namespaces, [NsFilter(Text(name))])
      ensures err.None? ==>
        && Guarded(s.history, Span(old(s.now), s.now, |old(s.history)|, |s.history|), name)
        && deleted == Selected(s.history[|old(s.history)|].world.namespaces, [NsFilter(Text(name))])
    {
      s.Elapse(s.now, s.now + s.maxPoll);
      deleted := [];
      if s.world.fault.Some? { return s.world.fault, deleted; }
      var selected := List(ByFilter(), [NsFilter(Text(name))], s.world.namespaces);
      s.Elapse(s.now, s.now + s.maxPoll);
      if s.world.fault.Some? { return s.world.fault, deleted; }
      if |selected| == |s.world.namespaces| { return Some("can't delete all namespaces"), deleted; }
      var refused: nat -> Error := *;
      err, deleted := DeleteAndWait.DeleteEach(s, (w: Infra) => w.fault, refused, selected);
    }

    method DeleteNs(name: string, ghost h: seq<Snapshot<Infra>>) returns (err: Error)
      requires Inv(h)
      modifies s, `trace
      ensures Inv(h) && Logged(Delete(name), err.None?) && Goes(old(trace), trace, [Delete(name)], err.None?)
    {
      hide Sound, Goes, Recorded, Guarded;
      ghost var before, start := s.history, s.now;
      var deleted;
      err, deleted := DeleteSelected(name);
      Log(Delete(name), err.None?, before, start, h);
    }

    method ListOld(ghost h: seq<Snapshot<Infra>>) returns (unixNow: int, found: seq<Ns>, ghost names: seq<string>)
      requires Inv(h)
      modifies s, `trace
      ensures Inv(h) && Logged(ListStale(names), true) && Goes(old(trace), trace, [ListStale(names)], true)
      ensures names == StaleNames(found, unixNow, config.nsName)
    {
      hide Sound, Goes, Recorded, StaleNames;
      ghost var before, start := s.history, s.now;
      unixNow, found := s.now / SECOND, [];
      s.Elapse(s.now, s.now + s.maxPoll);
      if s.world.fault.None? {
        found := List(ByFilter(), [NsFilter(Text("%e2e-tmp-%"))], s.world.namespaces);
        StaleListed(s.world.namespaces, unixNow, config.nsName);
      }
      NoneStale(unixNow, config.nsName);
      names := StaleNames(found, unixNow, config.nsName);
      Log(ListStale(names), true, before, start, h);
    }

    // One namespace of the listing.
    method CleanUpOne(unixNow: int, found: seq<Ns>, i: nat, ghost h: seq<Snapshot<Infra>>) returns (fatal: Error)
      requires Inv(h) && i < |found|
      modifies s, `trace
      ensures Inv(h)
      ensures Stale(found[i], unixNow, config.nsName) ==> Goes(old(trace), trace, [Delete(found[i].name)], fatal.None?)
      ensures !Stale(found[i], unixNow, config.nsName) ==> trace == old(trace) && fatal.None?
    {
      hide Inv, Goes;
      var ns := found[i];
      fatal := None;
      if ns.name == config.nsName || !HasPrefix(ns.name, TMP_PREFIX) { return; }
      if unixNow - ns.created > CLEAN_UP_SECONDS {
        fatal := DeleteNs(ns.name, h);
      }
    }

    // Every stale namespace of the listing, and no other, is asked to be deleted, by name.
    method CleanUpNs(ghost h: seq<Snapshot<Infra>>) returns (fatal: Error, ghost names: seq<string>)
      requires Inv(h)
      modifies s, `trace
      ensures Inv(h) && Goes(old(trace), trace, [ListStale(names)] + DeleteTasks(names), fatal.None?)
    {
      hide Inv, Goes, StaleNames, DeleteTasks, Stale;
      var unixNow, found;
      unixNow, found, names := ListOld(h);
      ghost var listed := trace;
      NoneSwept(trace, found, unixNow, config.nsName);
      for i := 0 to |found|
        invariant Inv(h) && Goes(listed, trace, DeleteTasks(StaleNames(found[..i], unixNow, config.nsName)), true)
      {
        ghost var done := trace;
        fatal := CleanUpOne(unixNow, found, i, h);
        OneSwept(listed, done, trace, found, i, unixNow, config.nsName, fatal.None?);
        if fatal.Some? {
          Chain(old(trace), listed, [ListStale(names)], true, trace, DeleteTasks(names), false);
          return;
        }
      }
      fatal := None;
      assert found[..|found|] == found;
      Chain(old(trace), listed, [ListStale(names)], true, trace, DeleteTasks(names), true);
    }

    method CleanUpFirst(ghost h: seq<Snapshot<Infra>>) returns (fatal: Error, ghost stale: seq<string>)
      requires Inv(h)
      modifies s, `trace
      ensures Inv(h) && Goes(old(trace), trace, CleanUpTasks(config, stale), fatal.None?)
    {
      hide Inv, Goes;
      fatal, stale := None, [];
      if config.cleanUp.Reinit? {
        fatal := DeleteNs(config.nsName, h);
        ghost var deleted, go := trace, fatal.None?;
        if fatal.None? {
          fatal := Await(20, NamespaceGone(config.nsName), h);
        }
        Chain(old(trace), deleted, [Delete(config.nsName)], go,
              trace, [WaitFor(20, NamespaceGone(config.nsName))], fatal.None?);
        assert CleanUpTasks(config, stale) == [Delete(config.nsName)] + [WaitFor(20, NamespaceGone(config.nsName))];
      } else if config.cleanUp.FreeTmp? {
        fatal, stale := CleanUpNs(h);
      } else {
        NoStep(trace);
      }
    }

    method Prepare(ghost h: seq<Snapshot<Infra>>) returns (fatal: Error, ghost stale: seq<string>)
      requires Inv(h)
      modifies s, `trace
      ensures Inv(h) && Goes(old(trace), trace, PrepareTasks(config, stale), fatal.None?)
    {
      hide Inv, Goes, CleanUpTasks;
      Enter(PrepareNamespace, h);
      ghost var entered := trace;
      fatal, stale := CleanUpFirst(h);
      ghost var cleaned, go := trace, fatal.None?;
      Chain(old(trace), entered, [Entered(PrepareNamespace)], true, trace, CleanUpTasks(config, stale), go);
      if fatal.None? {
        fatal := TwoActs(MakeKeys, CreateNamespace(config.nsName), h);
      }
      Chain(old(trace), cleaned, [Entered(PrepareNamespace)] + CleanUpTasks(config, stale), go,
            trace, [Do(MakeKeys), Do(CreateNamespace(config.nsName))], fatal.None?);
    }

    // ---- The machines ----

    method Machines(ghost h: seq<Snapshot<Infra>>)
      returns (fatal: Error, ghost created: seq<VmConfig>, ghost listed: nat)
      requires Inv(h)
      modifies s, vms, `trace
      ensures Inv(h)
      ensures Goes(old(trace), trace,
                   [CreateMachines(old(vms[..]), created), FillAddresses(old(vms[..]), vms[..], listed)], fatal.None?)
    {
      hide Sound, Goes, Recorded, CreatedAsNeeded, FilledFrom, Timed, TooFewLate;
      ghost var before, start, asked := s.history, s.now, vms[..];
      var made;
      ghost var wait;
      fatal, made, listed, wait := VmSync(s, vms, config.nsName);
      created := made;
      ghost var tasks := [CreateMachines(asked, made), FillAddresses(asked, vms[..], listed)];
      if wait.None? {
        Log(CreateMachines(asked, made), false, before, start, h);
        Chain(old(trace), trace, [CreateMachines(asked, made)], false,
              trace, [FillAddresses(asked, vms[..], listed)], false);
        assert tasks == [CreateMachines(asked, made)] + [FillAddresses(asked, vms[..], listed)];
      } else {
        trace := CreatedAndFilled(config, before, s.history, |h|, start, wait.value, trace, asked, made, vms[..],
                                  listed, fatal.None?, s.maxPoll, s.maxLag);
      }
    }

    method SyncStage(ghost h: seq<Snapshot<Infra>>)
      returns (fatal: Error, ghost created: seq<VmConfig>, ghost listed: nat)
      requires Inv(h)
      modifies s, vms, `trace
      ensures Inv(h) && Goes(old(trace), trace, SyncTasks(old(vms[..]), created, vms[..], listed), fatal.None?)
    {
      hide Inv, Goes;
      Enter(SyncMachines, h);
      ghost var entered := trace;
      fatal, created, listed := Machines(h);
      ghost var tasks := [CreateMachines(old(vms[..]), created), FillAddresses(old(vms[..]), vms[..], listed)];
      Chain(old(trace), entered, [Entered(SyncMachines)], true, trace, tasks, fatal.None?);
      assert SyncTasks(old(vms[..]), created, vms[..], listed) == [Entered(SyncMachines)] + tasks;
    }

    method RolesStage(ghost h: seq<Snapshot<Infra>>) returns (fatal: Error, roles: Option<Roles>)
      requires Inv(h)
      modifies `trace
      ensures Inv(h) && Goes(old(trace), trace, [Entered(IdentifyRoles), Identify(vms[..], roles)], fatal.None?)
      ensures fatal.None? ==> roles.Some? && Identified(vms[..], roles.value)
    {
      hide Sound, Goes, Masters, Setups, Workers;
      Enter(IdentifyRoles, h);
      ghost var entered := trace;
      roles := IdentifyVmRoles(vms[..]);
      fatal := if roles.None? then Some("1 master and 1 setup record is required") else None;
      Log(Identify(vms[..], roles), fatal.None?, s.history, s.now, h);
      Chain(old(trace), entered, [Entered(IdentifyRoles)], true, trace, [Identify(vms[..], roles)], fatal.None?);
      assert [Entered(IdentifyRoles)] + [Identify(vms[..], roles)]
        == [Entered(IdentifyRoles), Identify(vms[..], roles)];
    }

    // ---- Deckhouse ----

    method EnsureDockerInstalled(on: string, ghost h: seq<Snapshot<Infra>>) returns (err: Error, ghost docker: bool)
      requires Inv(h)
      modifies s, `trace
      ensures Inv(h) && Goes(old(trace), trace, DockerTasks(docker, on), err.None?)
    {
      hide Inv, Goes;
      var present := Ask(CheckDocker(on), h);
      ghost var asked := trace;
      err, docker := None, !present;
      if present {
        assert [Do(CheckDocker(on))] + [] == [Do(CheckDocker(on))];
        return;
      }
      err := Await(120, DockerInstalled, h);
      ghost var waited, go := trace, err.None?;
      if err.None? {
        err := Act(VerifyDocker(on), h);
      }
      Chain(asked, waited, [WaitFor(120, DockerInstalled)], go, trace, [Do(VerifyDocker(on))], err.None?);
      ghost var install := [WaitFor(120, DockerInstalled), Do(VerifyDocker(on))];
      assert [WaitFor(120, DockerInstalled)] + [Do(VerifyDocker(on))] == install;
      Chain(old(trace), asked, [Do(CheckDocker(on))], true, trace, install, err.None?);
    }

    // Login, configuration, resources.
    method Bootstrap(master: string, on: string, ghost h: seq<Snapshot<Infra>>) returns (err: Error)
      requires Inv(h)
      modifies s, `trace
      ensures Inv(h)
      ensures Goes(old(trace), trace,
                   [Do(Login(on)), Do(BootstrapConfig(on, master)), Do(BootstrapResources(on, master))], err.None?)
    {
      hide Inv, Goes;
      err := Act(Login(on), h);
      ghost var loggedIn, go := trace, err.None?;
      if err.None? {
        err := TwoActs(BootstrapConfig(on, master), BootstrapResources(on, master), h);
      }
      ghost var rest := [Do(BootstrapConfig(on, master)), Do(BootstrapResources(on, master))];
      Chain(old(trace), loggedIn, [Do(Login(on))], go, trace, rest, err.None?);
      assert [Do(Login(on))] + rest
        == [Do(Login(on)), Do(BootstrapConfig(on, master)), Do(BootstrapResources(on, master))];
    }

    method InstallDh(master: string, on: string, ghost h: seq<Snapshot<Infra>>) returns (err: Error, ghost docker: bool)
      requires Inv(h)
      modifies s, `trace
      ensures Inv(h)
      ensures Goes(old(trace), trace,
                   DockerTasks(docker, on)
                   + [Do(Login(on)), Do(BootstrapConfig(on, master)), Do(BootstrapResources(on, master))], err.None?)
    {
      hide Inv, Goes, DockerTasks;
      err, docker := EnsureDockerInstalled(on, h);
      ghost var ready, go := trace, err.None?;
      if err.None? {
        err := Bootstrap(master, on, h);
      }
      Chain(old(trace), ready, DockerTasks(docker, on), go,
            trace, [Do(Login(on)), Do(BootstrapConfig(on, master)), Do(BootstrapResources(on, master))], err.None?);
    }

    // License, templates, upload.
    method PrepareInstall(on: string, ghost h: seq<Snapshot<Infra>>) returns (fatal: Error)
      requires Inv(h)
      modifies s, `trace
      ensures Inv(h) && Goes(old(trace), trace, [License, Do(MakeTemplates), Do(Upload(on))], fatal.None?)
    {
      hide Sound, Goes;
      fatal := if config.hasLicense then None else Some("Deckhouse EE license key is required");
      Log(License, config.hasLicense, s.history, s.now, h);
      ghost var checked := trace;
      if config.hasLicense {
        fatal := TwoActs(MakeTemplates, Upload(on), h);
      }
      Chain(old(trace), checked, [License], config.hasLicense, trace, [Do(MakeTemplates), Do(Upload(on))], fatal.None?);
      assert [License] + [Do(MakeTemplates), Do(Upload(on))] == [License, Do(MakeTemplates), Do(Upload(on))];
    }

    // The part of initVmD8 that runs when Deckhouse is missing.
    method DeployDeckhouse(master: string, on: string, ghost h: seq<Snapshot<Infra>>)
      returns (fatal: Error, ghost docker: bool)
      requires Inv(h)
      modifies s, `trace
      ensures Inv(h) && Goes(old(trace), trace, InstallTasks(docker, master, on), fatal.None?)
    {
      hide Inv, Goes, DockerTasks;
      docker := false;
      fatal := PrepareInstall(on, h);
      ghost var prepared, go := trace, fatal.None?;
      if fatal.None? {
        fatal, docker := InstallDh(master, on, h);
      }
      ghost var first := [License, Do(MakeTemplates), Do(Upload(on))];
      ghost var last := [Do(Login(on)), Do(BootstrapConfig(on, master)), Do(BootstrapResources(on, master))];
      Chain(old(trace), prepared, first, go, trace, DockerTasks(docker, on) + last, fatal.None?);
      assert first + (DockerTasks(docker, on) + last) == first + DockerTasks(docker, on) + last;
    }

    method InitVmD8(master: string, on: string, ghost h: seq<Snapshot<Infra>>)
      returns (fatal: Error, ghost missing: bool, ghost docker: bool)
      requires Inv(h)
      modifies s, `trace
      ensures Inv(h) && Goes(old(trace), trace, DeckhouseTasks(missing, docker, master, on), fatal.None?)
    {
      hide Inv, Goes, InstallTasks;
      Enter(InstallDeckhouse, h);
      ghost var entered := trace;
      var present := Ask(CheckDeckhouse, h);
      ghost var asked := trace;
      Chain(old(trace), entered, [Entered(InstallDeckhouse)], true, asked, [Do(CheckDeckhouse)], true);
      ghost var first := [Entered(InstallDeckhouse), Do(CheckDeckhouse)];
      assert [Entered(InstallDeckhouse)] + [Do(CheckDeckhouse)] == first;
      fatal, missing, docker := None, !present, false;
      ghost var install := [];
      NoStep(asked);
      if !present {
        fatal, docker := DeployDeckhouse(master, on, h);
        install := InstallTasks(docker, master, on);
      }
      ghost var deployed, go := trace, fatal.None?;
      Chain(old(trace), asked, first, true, deployed, install, go);
      if fatal.None? {
        fatal := Act(ReadKubeconfig, h);
      }
      Chain(old(trace), deployed, first + install, go, trace, [Do(ReadKubeconfig)], fatal.None?);
    }

    // ---- The nested cluster ----

    method AddStaticNodes(o: Order, ghost h: seq<Snapshot<Infra>>) returns (err: Error)
      requires Inv(h)
      modifies s, nested, `trace
      ensures Inv(h) && Logged(Join(o), err.None?) && Goes(old(trace), trace, [Join(o)], err.None?)
      ensures err.None? ==> (nested.Provisioned(o) <==> o.CollisionFree())
    {
      hide Sound, Goes, Recorded, Server.Provisioned, Order.CollisionFree, Lookup;
      ghost var before, start := s.history, s.now;
      err := nested.AddStaticNodes(o, config.keyFile);
      var length: nat :| 0 <= length;
      s.Elapse(s.now, s.now + length);
      Log(Join(o), err.None?, before, start, h);
    }

    // The stage that consists of one wait.
    method AwaitStage(stage: Stage, sec: nat, goal: Goal, ghost h: seq<Snapshot<Infra>>) returns (fatal: Error)
      requires Inv(h)
      modifies s, `trace
      ensures Inv(h) && Goes(old(trace), trace, [Entered(stage), WaitFor(sec, goal)], fatal.None?)
    {
      hide Inv, Goes;
      Enter(stage, h);
      ghost var entered := trace;
      fatal := Await(sec, goal, h);
      Chain(old(trace), entered, [Entered(stage)], true, trace, [WaitFor(sec, goal)], fatal.None?);
      assert [Entered(stage)] + [WaitFor(sec, goal)] == [Entered(stage), WaitFor(sec, goal)];
    }

    // The stage that consists of one action.
    method ActStage(stage: Stage, action: Action, ghost h: seq<Snapshot<Infra>>) returns (fatal: Error)
      requires Inv(h)
      modifies s, `trace
      ensures Inv(h) && Goes(old(trace), trace, [Entered(stage), Do(action)], fatal.None?)
    {
      hide Inv, Goes;
      Enter(stage, h);
      ghost var entered := trace;
      fatal := Act(action, h);
      Chain(old(trace), entered, [Entered(stage)], true, trace, [Do(action)], fatal.None?);
      assert [Entered(stage)] + [Do(action)] == [Entered(stage), Do(action)];
    }

    // Static nodes are added, then waited for.
    method JoinNodes(o: Order, ghost h: seq<Snapshot<Infra>>) returns (fatal: Error)
      requires Inv(h)
      modifies s, nested, `trace
      ensures Inv(h)
      ensures Goes(old(trace), trace,
                   [Entered(AddNodes), Join(o), Entered(NodesReady), WaitFor(600, NodesUp(|o.ips|))], fatal.None?)
      ensures fatal.None? ==> (nested.Provisioned(o) <==> o.CollisionFree())
    {
      hide Inv, Goes, Server.Provisioned, Order.CollisionFree, Lookup;
      Enter(AddNodes, h);
      ghost var entered := trace;
      fatal := AddStaticNodes(o, h);
      ghost var joined, go := trace, fatal.None?;
      Chain(old(trace), entered, [Entered(AddNodes)], true, joined, [Join(o)], go);
      if fatal.None? {
        fatal := AwaitStage(NodesReady, 600, NodesUp(|o.ips|), h);
      }
      ghost var wait := [Entered(NodesReady), WaitFor(600, NodesUp(|o.ips|))];
      Chain(old(trace), joined, [Entered(AddNodes)] + [Join(o)], go, trace, wait, fatal.None?);
      assert [Entered(AddNodes)] + [Join(o)] + wait
        == [Entered(AddNodes), Join(o), Entered(NodesReady), WaitFor(600, NodesUp(|o.ips|))];
    }

    method EnsureClusterReady(ghost h: seq<Snapshot<Infra>>) returns (fatal: Error)
      requires Inv(h)
      modifies s, `trace
      ensures Inv(h) && Goes(old(trace), trace, ModuleTasks(), fatal.None?)
    {
      hide Inv, Goes;
      ghost var a := [Entered(SnapshotController), WaitFor(300, SNAPSHOT_CONTROLLER)];
      ghost var b := [Entered(LocalVolumeDeployment), WaitFor(300, LOCAL_VOLUME_CONTROLLER)];
      ghost var c := [Entered(LocalVolumeDaemonSet), WaitFor(300, LOCAL_VOLUME_NODE)];
      ghost var d := [Entered(NodeConfigurator), WaitFor(300, NODE_CONFIGURATOR)];
      fatal := AwaitStage(SnapshotController, 300, SNAPSHOT_CONTROLLER, h);
      ghost var t, go := trace, fatal.None?;
      if fatal.None? {
        fatal := AwaitStage(LocalVolumeDeployment, 300, LOCAL_VOLUME_CONTROLLER, h);
      }
      Chain(old(trace), t, a, go, trace, b, fatal.None?);
      t, go := trace, fatal.None?;
      if fatal.None? {
        fatal := AwaitStage(LocalVolumeDaemonSet, 300, LOCAL_VOLUME_NODE, h);
      }
      Chain(old(trace), t, a + b, go, trace, c, fatal.None?);
      t, go := trace, fatal.None?;
      if fatal.None? {
        fatal := AwaitStage(NodeConfigurator, 300, NODE_CONFIGURATOR, h);
      }
      Chain(old(trace), t, a + b + c, go, trace, d, fatal.None?);
    }

    // ---- The run ----

    // Up to the machines' roles.
    method SetUpMachines(ghost h: seq<Snapshot<Infra>>) returns (fatal: Error, roles: Option<Roles>, ghost c: Choices)
      requires Inv(h)
      modifies s, vms, `trace
      ensures Inv(h) && Goes(old(trace), trace, FirstTasks(config, c), fatal.None?)
      ensures c.asked == old(vms[..]) && c.roles == roles
      ensures fatal.None? ==> c.filled == vms[..] && roles.Some? && Identified(vms[..], roles.value)
    {
      hide Inv, Goes, PrepareTasks, SyncTasks, Identified;
      ghost var stale, created, listed := [], [], 0;
      roles := None;
      fatal := ActStage(Connect, OpenHypervisor, h);
      ghost var t, go, tasks := trace, fatal.None?, [Entered(Connect), Do(OpenHypervisor)];
      if fatal.None? {
        fatal, stale := Prepare(h);
      }
      Chain(old(trace), t, tasks, go, trace, PrepareTasks(config, stale), fatal.None?);
      t, go, tasks := trace, fatal.None?, tasks + PrepareTasks(config, stale);
      if fatal.None? {
        fatal, created, listed := SyncStage(h);
      }
      ghost var filled := vms[..];
      Chain(old(trace), t, tasks, go, trace, SyncTasks(old(vms[..]), created, filled, listed), fatal.None?);
      t, go, tasks := trace, fatal.None?, tasks + SyncTasks(old(vms[..]), created, filled, listed);
      if fatal.None? {
        fatal, roles := RolesStage(h);
      }
      Chain(old(trace), t, tasks, go, trace, [Entered(IdentifyRoles), Identify(filled, roles)], fatal.None?);
      c := Choices(stale, old(vms[..]), created, filled, listed, roles, false, false);
    }

    // Deckhouse and the handle of the nested cluster.
    method Deploy(roles: Roles, ghost h: seq<Snapshot<Infra>>)
      returns (fatal: Error, ghost missing: bool, ghost docker: bool)
      requires Inv(h) && |roles.masters| == 1
      modifies s, `trace
      ensures Inv(h)
      ensures Goes(old(trace), trace,
                   DeckhouseTasks(missing, docker, roles.masters[0].ip, roles.bootstrap.ip)
                   + [Entered(NestedHandle), Do(OpenNested)], fatal.None?)
    {
      hide Inv, Goes, DeckhouseTasks;
      fatal, missing, docker := InitVmD8(roles.masters[0].ip, roles.bootstrap.ip, h);
      ghost var t, go := trace, fatal.None?;
      if fatal.None? {
        fatal := ActStage(NestedHandle, OpenNested, h);
      }
      Chain(old(trace), t, DeckhouseTasks(missing, docker, roles.masters[0].ip, roles.bootstrap.ip), go,
            trace, [Entered(NestedHandle), Do(OpenNested)], fatal.None?);
    }

    // From the nested cluster's handle to its working modules.
    method Populate(o: Order, on: string, ghost h: seq<Snapshot<Infra>>) returns (fatal: Error)
      requires Inv(h)
      modifies s, nested, `trace
      ensures Inv(h) && Goes(old(trace), trace, JoinTasks(o, on) + ModuleTasks(), fatal.None?)
      ensures fatal.None? ==> (nested.Provisioned(o) <==> o.CollisionFree())
    {
      hide Inv, Goes, ModuleTasks, Server.Provisioned, Order.CollisionFree, Lookup;
      fatal := ActStage(RemoveDocker, RemoveDockerFrom(on), h);
      ghost var t, go := trace, fatal.None?;
      if fatal.None? {
        fatal := JoinNodes(o, h);
      }
      ghost var join := [Entered(AddNodes), Join(o), Entered(NodesReady), WaitFor(600, NodesUp(|o.ips|))];
      Chain(old(trace), t, [Entered(RemoveDocker), Do(RemoveDockerFrom(on))], go, trace, join, fatal.None?);
      t, go := trace, fatal.None?;
      if fatal.None? {
        fatal := EnsureClusterReady(h);
      }
      Chain(old(trace), t, JoinTasks(o, on), go, trace, ModuleTasks(), fatal.None?);
    }

    // From the roles to the end, given a trace that has followed the script so far.
    method Finish(roles: Roles, ghost c: Choices, ghost h: seq<Snapshot<Infra>>)
      returns (fatal: Error, ghost c': Choices)
      requires Inv(h) && |roles.masters| == 1 && c.roles == Some(roles)
      modifies s, nested, `trace
      ensures Inv(h) && c' == c.(missing := c'.missing, docker := c'.docker)
      ensures Goes(old(trace), trace, RestTasks(config, c'), fatal.None?)
      ensures fatal.None? ==>
        (nested.Provisioned(OrderOf(config, c.roles)) <==> OrderOf(config, c.roles).CollisionFree())
    {
      hide Inv, Goes, DeckhouseTasks, JoinTasks, ModuleTasks, Server.Provisioned, Order.CollisionFree, Lookup;
      ghost var missing, docker;
      fatal, missing, docker := Deploy(roles, h);
      c' := c.(missing := missing, docker := docker);
      ghost var deployed, go := trace, fatal.None?;
      var order := OrderOf(config, Some(roles));
      if fatal.None? {
        fatal := Populate(order, roles.bootstrap.ip, h);
      }
      Chain(old(trace), deployed, MiddleTasks(c'), go,
            trace, JoinTasks(order, roles.bootstrap.ip) + ModuleTasks(), fatal.None?);
    }

    method FollowScript(ghost h: seq<Snapshot<Infra>>) returns (fatal: Error, ghost c: Choices)
      requires Inv(h) && trace == []
      modifies s, nested, vms, `trace
      ensures Inv(h) && Goes([], trace, Script(config, c), fatal.None?)
      ensures c.asked == old(vms[..])
      ensures fatal.None? ==> c.filled == vms[..] && c.roles.Some? && Identified(vms[..], c.roles.value)
      ensures fatal.None? ==>
        (nested.Provisioned(OrderOf(config, c.roles)) <==> OrderOf(config, c.roles).CollisionFree())
    {
      hide Inv, Goes, FirstTasks, RestTasks, Server.Provisioned, Order.CollisionFree, Lookup, Identified, OrderOf;
      var roles;
      fatal, roles, c := SetUpMachines(h);
      ghost var t, go, first := trace, fatal.None?, FirstTasks(config, c);
      if fatal.None? {
        MasterOf(vms[..], roles.value);
        SameFirst(config, c);
        fatal, c := Finish(roles.value, c, h);
      }
      Chain([], t, first, go, trace, RestTasks(config, c), fatal.None?);
    }

    // The trace follows the script, event after event; all of it on success, else up to
    // the one task that failed. Each event tells what its own time span shows.
    method ClusterCreate() returns (fatal: Error, ghost c: Choices)
      requires s.Valid() && trace == []
      modifies s, nested, vms, `trace
      ensures Inv(old(s.history)) && Goes([], trace, Script(config, c), fatal.None?)
      ensures StagesOf(Tasks(trace)) <= STAGES && (fatal.None? ==> StagesOf(Tasks(trace)) == STAGES)
      ensures TimeWaited(trace) < 2538 * SECOND + 8 * (s.maxPoll + s.maxLag)
      ensures c.asked == old(vms[..])
      ensures fatal.None? ==> c.filled == vms[..] && c.roles.Some? && Identified(vms[..], c.roles.value)
      ensures fatal.None? ==> Joined(vms[..]) && AllRight(Tasks(trace), vms[..])
      ensures fatal.None? ==>
        && Saw(s.history, |old(s.history)|, DeploymentUp("d8-snapshot-controller", "snapshot-controller"))
        && Saw(s.history, |old(s.history)|, DeploymentUp("d8-sds-local-volume", "csi-controller"))
        && Saw(s.history, |old(s.history)|, DaemonSetUp("d8-sds-local-volume", "csi-node"))
        && Saw(s.history, |old(s.history)|, DaemonSetUp("d8-sds-node-configurator", "sds-node-configurator"))
    {
      hide Joined, AllRight, Saw;
      hide Goes, Script, Server.Provisioned, Order.CollisionFree, Lookup, Identified, OrderOf;
      hide StagesOf, TimeWaited, Tasks;
      ghost var h := s.history;
      BeginSound(h);
      hide Inv;
      fatal, c := FollowScript(h);
      Concluded(config, c, h, fatal.None?);
      if fatal.None? {
        Completed(c, h);
      }
    }

    // The run's one order is for its workers, and is provisioned as StaticNodes promises.
    ghost predicate Joined(filled: seq<VmConfig>)
      reads `trace, nested
    {
      exists k: nat :: JoinsAt(trace, k, config, filled)
        && (nested.Provisioned(trace[k].task.order) <==> trace[k].task.order.CollisionFree())
        && (trace[k].task.order.CollisionFree() ==> nested.Furnished(trace[k].task.order))
    }

    lemma Completed(c: Choices, h: seq<Snapshot<Infra>>)
      requires Inv(h) && Goes([], trace, Script(config, c), true)
      requires c.roles.Some? && Identified(c.filled, c.roles.value)
      requires nested.Provisioned(OrderOf(config, c.roles)) <==> OrderOf(config, c.roles).CollisionFree()
      ensures Joined(c.filled) && AllRight(Tasks(trace), c.filled)
      ensures Saw(s.history, |h|, DeploymentUp("d8-snapshot-controller", "snapshot-controller"))
      ensures Saw(s.history, |h|, DeploymentUp("d8-sds-local-volume", "csi-controller"))
      ensures Saw(s.history, |h|, DaemonSetUp("d8-sds-local-volume", "csi-node"))
      ensures Saw(s.history, |h|, DaemonSetUp("d8-sds-node-configurator", "sds-node-configurator"))
    {
      hide Goes, Script, Sound, Server.Provisioned, Order.CollisionFree, Identified, OrderOf, AllRight, Saw, Tasks;
      hide JoinsAt, Server.Furnished;
      ModulesSeen(config, c, s.history, |h|, s.now, trace, s.maxPoll, s.maxLag);
      WorksOnRightMachines(config, c, trace, true);
      JoinedWorkers(config, c, trace);
      if OrderOf(config, c.roles).CollisionFree() {
        nested.ProvisionedIsFurnished(OrderOf(config, c.roles));
      }
    }

    lemma BeginSound(h: seq<Snapshot<Infra>>)
      requires s.Valid() && trace == [] && h == s.history
      ensures Inv(h)
    {
    }

    lemma Concluded(config: Config, c: Choices, h: seq<Snapshot<Infra>>, complete: bool)
      requires config == this.config && Inv(h) && Goes([], trace, Script(config, c), complete)
      ensures StagesOf(Tasks(trace)) <= STAGES && (complete ==> StagesOf(Tasks(trace)) == STAGES)
      ensures TimeWaited(trace) < 2538 * SECOND + 8 * (s.maxPoll + s.maxLag)
    {
      hide Goes, Script, Sound;
      StagesInOrder(config, c, trace, complete);
      BoundedWaiting(config, c, s.history, |h|, s.now, trace, complete, s.maxPoll, s.maxLag);
    }
  }

  lemma {:induction false} NoneStale(now: int, testNs: string)
    ensures StaleNames([], now, testNs) == []
  {
  }

  lemma {:induction false} StaleOneMore(found: seq<Ns>, i: nat, now: int, testNs: string)
    requires i < |found|
    ensures StaleNames(found[..i + 1], now, testNs) ==
      var before := StaleNames(found[..i], now, testNs);
      if Stale(found[i], now, testNs) then before + [found[i].name] else before
    ensures StaleNames(found, now, testNs)
      == StaleNames(found[..i + 1], now, testNs) + StaleNames(found[i + 1..], now, testNs)
  {
    assert found[..i + 1] == found[..i] + [found[i]] && found == found[..i + 1] + found[i + 1..];
    StaleAppend(found[..i], [found[i]], now, testNs);
    StaleAppend(found[..i + 1], found[i + 1..], now, testNs);
  }

  lemma {:induction false} NoneSwept(trace: seq<Event>, found: seq<Ns>, now: int, testNs: string)
    ensures Goes(trace, trace, DeleteTasks(StaleNames(found[..0], now, testNs)), true)
  {
    NoStep(trace);
    assert DeleteTasks([]) == [];
  }

  lemma DeletesOfBoth(a: seq<string>, b: seq<string>)
    ensures DeleteTasks(a + b) == DeleteTasks(a) + DeleteTasks(b)
    ensures |b| == 1 ==> DeleteTasks(b) == [Delete(b[0])]
  {
  }

  // The clean-up of one more namespace; if it fails, the clean-up of all of them fails.
  lemma {:induction false} OneSwept(listed: seq<Event>, done: seq<Event>, trace: seq<Event>, found: seq<Ns>, i: nat,
                                    now: int, testNs: string, ok: bool)
    requires i < |found| && Goes(listed, done, DeleteTasks(StaleNames(found[..i], now, testNs)), true)
    requires Stale(found[i], now, testNs) ==> Goes(done, trace, [Delete(found[i].name)], ok)
    requires !Stale(found[i], now, testNs) ==> trace == done && ok
    ensures ok ==> Goes(listed, trace, DeleteTasks(StaleNames(found[..i + 1], now, testNs)), true)
    ensures !ok ==> Goes(listed, trace, DeleteTasks(StaleNames(found, now, testNs)), false)
  {
    StaleOneMore(found, i, now, testNs);
    hide Goes, Stale, StaleNames, DeleteTasks;
    var sofar, rest := StaleNames(found[..i], now, testNs), StaleNames(found[i + 1..], now, testNs);
    if Stale(found[i], now, testNs) {
      var name := found[i].name;
      DeletesOfBoth(sofar, [name]);
      Chain(listed, done, DeleteTasks(sofar), true, trace, [Delete(name)], ok);
      if !ok {
        DeletesOfBoth(sofar + [name], rest);
        Chain(listed, trace, DeleteTasks(sofar + [name]), false, trace, DeleteTasks(rest), false);
      }
    }
  }

  lemma MasterOf(vms: seq<VmConfig>, roles: Roles)
    requires Identified(vms, roles)
    ensures |roles.masters| == 1 && roles.workers == Workers(vms)
  {
  }

  lemma SameFirst(config: Config, c: Choices)
    ensures forall missing, docker ::
      FirstTasks(config, c.(missing := missing, docker := docker)) == FirstTasks(config, c)
  {
  }
}
