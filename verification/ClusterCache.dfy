// EnsureCluster of testkit_v2/util/kube_cluster.go: a map of cluster handles behind a
// mutex, with the environment set up by the first caller.
module ClusterCache {
  import opened Wrappers

  // What InitKCluster returns for these arguments; id tells two calls apart.
  datatype Handle = Handle(id: nat, path: string, name: string)

  function Key(path: string, name: string): string {
    path + ":" + name
  }

  lemma KeysOverlap(path: string, name: string, p: string, n: string)
    requires Key(p, n) == Key(path, name)
    ensures |p| == |path| ==> p == path && n == name
    ensures |p| < |path| ==> path[|p|] == ':'
    ensures |p| > |path| ==> name[|p| - |path| - 1] == ':'
  {
    var k := Key(path, name);
    assert k[|p|] == ':';
    assert |p| == |path| ==> k[..|p|] == p && k[..|p|] == path && k[|p| + 1..] == n && k[|p| + 1..] == name;
  }

  // Without a ':' in the paths a key belongs to one pair.
  lemma KeyOfOnePair(path: string, name: string, path': string, name': string)
    requires ':' !in path && ':' !in path' && Key(path, name) == Key(path', name')
    ensures path == path' && name == name'
  {
    KeysOverlap(path, name, path', name');
    KeysOverlap(path', name', path, name);
  }

  // Another pair has the same key exactly when one of the two strings has a ':'.
  lemma KeyIsShared(path: string, name: string)
    ensures (exists p, n :: (p, n) != (path, name) && Key(p, n) == Key(path, name)) <==> ':' in path || ':' in name
  {
    if ':' in path {
      var i :| 0 <= i < |path| && path[i] == ':';
      SplitAt(path, name, i);
    } else if ':' in name {
      var i :| 0 <= i < |name| && name[i] == ':';
      SplitAt(path, name, |path| + 1 + i);
    } else {
      forall p, n | Key(p, n) == Key(path, name)
        ensures (p, n) == (path, name)
      {
        KeysOverlap(path, name, p, n);
      }
    }
  }

  lemma SplitAt(path: string, name: string, i: nat)
    requires i < |Key(path, name)| && i != |path| && Key(path, name)[i] == ':'
    ensures exists p, n :: (p, n) != (path, name) && Key(p, n) == Key(path, name)
  {
    var k := Key(path, name);
    assert k == k[..i] + ":" + k[i + 1..];
    assert Key(k[..i], k[i + 1..]) == k && |k[..i]| != |path|;
  }

  // What one call does to the map: it returns the handle under its key, built for its
  // own arguments if the key was new.
  ghost predicate Section(before: map<string, Handle>, after: map<string, Handle>, path: string, name: string,
                          h: Handle) {
    var k := Key(path, name);
    if k in before then after == before && h == before[k]
    else after == before[k := h] && h.path == path && h.name == name
  }

  // ---- One caller ----

  class Cache {
    var handles: map<string, Handle>
    var inits: nat
    var creates: nat
    var built: nat
    const hypervisor: bool

    ghost predicate Valid()
      reads this
    {
      && (handles != map[] ==> inits == 1 && creates == (if hypervisor then 1 else 0))
      && (handles == map[] ==> inits == 0 && creates == 0)
      && (forall k :: k in handles ==> Key(handles[k].path, handles[k].name) == k)
    }

    constructor (hypervisor: bool)
      ensures Valid() && handles == map[]
    {
      handles, inits, creates, built := map[], 0, 0, 0;
      this.hypervisor := hypervisor;
    }

    // The map of a call that returns; a failing request ends the process instead.
    method EnsureCluster(path: string, name: string) returns (exited: bool, h: Handle)
      requires Valid()
      modifies this
      ensures !exited ==> Valid() && Section(old(handles), handles, path, name, h)
      ensures !exited ==> inits == 1 && creates == (if hypervisor then 1 else 0)
      ensures inits <= 1 && creates <= 1
    {
      exited, h := false, Handle(built, path, name);
      if handles == map[] {
        inits := inits + 1;
        if hypervisor {
          var fatal: bool := *;
          if fatal { return true, h; }
          creates := creates + 1;
        }
      }
      var k := Key(path, name);
      if k !in handles {
        var fatal: bool := *;
        if fatal { return true, h; }
        built := built + 1;
        handles := handles[k := h];
      }
      h := handles[k];
    }
  }

  // ---- Any number of callers ----

  datatype Stage =
    | Outside | Locked | Initialised | Ready | Building | Storing(handle: Handle) | Leaving | Returned(handle: Handle)

  // entry is the map the caller found when it took the lock.
  datatype Caller = Caller(path: string, name: string, stage: Stage, entry: map<string, Handle>) {
    predicate Inside() { !stage.Outside? && !stage.Returned? }

    function CacheKey(): string { Key(path, name) }
  }

  datatype State = State(
    handles: map<string, Handle>, holder: Option<nat>, inits: nat, creates: nat, built: nat,
    hypervisor: bool, exited: bool, callers: seq<Caller>)

  // The next step of caller i; fatal says whether a request it makes ends the process.
  datatype Step = Step(i: nat, fatal: bool)

  predicate Enabled(s: State, a: Step) {
    && !s.exited && a.i < |s.callers|
    && !s.callers[a.i].stage.Returned?
    && (s.callers[a.i].stage.Outside? ==> s.holder.None?)
    && (s.callers[a.i].stage.Leaving? ==> s.callers[a.i].CacheKey() in s.handles)
  }

  function Move(s: State, i: nat, stage: Stage): State
    requires i < |s.callers|
  {
    s.(callers := s.callers[i := s.callers[i].(stage := stage)])
  }

  function After(s: State, a: Step): State
    requires Enabled(s, a)
  {
    var c := s.callers[a.i];
    match c.stage
    case Outside =>
      s.(holder := Some(a.i), callers := s.callers[a.i := c.(stage := Locked, entry := s.handles)])
    case Locked =>
      if s.handles == map[] then Move(s.(inits := s.inits + 1), a.i, Initialised) else Move(s, a.i, Ready)
    case Initialised =>
      if s.hypervisor && a.fatal then s.(exited := true)
      else Move(s.(creates := s.creates + if s.hypervisor then 1 else 0), a.i, Ready)
    case Ready =>
      Move(s, a.i, if c.CacheKey() in s.handles then Leaving else Building)
    case Building =>
      if a.fatal then s.(exited := true)
      else Move(s.(built := s.built + 1), a.i, Storing(Handle(s.built, c.path, c.name)))
    case Storing(h) =>
      Move(s.(handles := s.handles[c.CacheKey() := h]), a.i, Leaving)
    case Leaving =>
      Move(s.(holder := None), a.i, Returned(s.handles[c.CacheKey()]))
    case Returned(_) => s
  }

  datatype Run = Run(states: seq<State>, steps: seq<Step>) {
    ghost predicate Valid() {
      && |states| == |steps| + 1
      && Initial(states[0])
      && (forall k :: 0 <= k < |steps| ==> Enabled(states[k], steps[k]) && states[k + 1] == After(states[k], steps[k]))
    }
  }

  ghost predicate Initial(s: State) {
    && s.handles == map[] && s.holder.None? && s.inits == 0 && s.creates == 0 && !s.exited
    && (forall i :: 0 <= i < |s.callers| ==> s.callers[i].stage.Outside?)
  }

  function Creations(s: State): nat {
    if s.hypervisor then 1 else 0
  }

  // What holds of the caller that has the lock.
  ghost predicate HolderInv(s: State, c: Caller) {
    match c.stage
    case Locked => c.entry == s.handles && (s.handles == map[] ==> s.inits == 0 && s.creates == 0)
    case Initialised => c.entry == s.handles == map[] && s.inits == 1 && s.creates == 0
    case Ready => c.entry == s.handles && s.inits == 1 && s.creates == Creations(s)
    case Building => c.entry == s.handles && s.inits == 1 && s.creates == Creations(s) && c.CacheKey() !in s.handles
    case Storing(h) =>
      && c.entry == s.handles && s.inits == 1 && s.creates == Creations(s) && c.CacheKey() !in s.handles
      && h.path == c.path && h.name == c.name
    case Leaving =>
      && s.inits == 1 && s.creates == Creations(s) && c.CacheKey() in s.handles
      && Section(c.entry, s.handles, c.path, c.name, s.handles[c.CacheKey()])
    case _ => false
  }

  ghost predicate Inv(s: State) {
    && (forall i :: 0 <= i < |s.callers| && s.callers[i].Inside() ==> s.holder == Some(i))
    && (s.holder.Some? ==> s.holder.value < |s.callers| && HolderInv(s, s.callers[s.holder.value]))
    && (s.holder.None? && s.handles == map[] ==> s.inits == 0 && s.creates == 0)
    && (s.handles != map[] ==> s.inits == 1 && s.creates == Creations(s))
    && (forall k :: k in s.handles ==> Key(s.handles[k].path, s.handles[k].name) == k)
    && (forall i :: 0 <= i < |s.callers| && s.callers[i].stage.Returned? ==> Served(s, s.callers[i]))
  }

  // A returned handle is, and stays, the one cached under its key.
  ghost predicate Served(s: State, c: Caller)
    requires c.stage.Returned?
  {
    c.CacheKey() in s.handles && s.handles[c.CacheKey()] == c.stage.handle
  }

  lemma InvLock(s: State, a: Step)
    requires Inv(s) && Enabled(s, a) && s.callers[a.i].stage.Outside?
    ensures Inv(After(s, a))
  {
  }

  lemma InvSetUp(s: State, a: Step)
    requires Inv(s) && Enabled(s, a) && (s.callers[a.i].stage.Locked? || s.callers[a.i].stage.Initialised?)
    ensures Inv(After(s, a))
  {
  }

  lemma InvLookup(s: State, a: Step)
    requires Inv(s) && Enabled(s, a) && (s.callers[a.i].stage.Ready? || s.callers[a.i].stage.Building?)
    ensures Inv(After(s, a))
  {
  }

  lemma InvStore(s: State, a: Step)
    requires Inv(s) && Enabled(s, a) && s.callers[a.i].stage.Storing?
    ensures Inv(After(s, a))
  {
  }

  lemma InvLeave(s: State, a: Step)
    requires Inv(s) && Enabled(s, a) && s.callers[a.i].stage.Leaving?
    ensures Inv(After(s, a))
  {
  }

  lemma InvStep(s: State, a: Step)
    requires Inv(s) && Enabled(s, a)
    ensures Inv(After(s, a))
  {
    hide Inv, After;
    match s.callers[a.i].stage
    case Outside => InvLock(s, a);
    case Locked => InvSetUp(s, a);
    case Initialised => InvSetUp(s, a);
    case Ready => InvLookup(s, a);
    case Building => InvLookup(s, a);
    case Storing(_) => InvStore(s, a);
    case Leaving => InvLeave(s, a);
    case Returned(_) =>
  }

  lemma ArgumentsStay(s: State, a: Step)
    requires Enabled(s, a)
    ensures |After(s, a).callers| == |s.callers|
    ensures forall j :: 0 <= j < |s.callers| ==>
      After(s, a).callers[j].path == s.callers[j].path && After(s, a).callers[j].name == s.callers[j].name
  {
  }

  // A handle enters the map with the arguments of the caller storing it, and stays.
  lemma StoredByCaller(s: State, a: Step)
    requires Inv(s) && Enabled(s, a)
    ensures forall k :: k in s.handles ==> k in After(s, a).handles && After(s, a).handles[k] == s.handles[k]
    ensures forall k :: k in After(s, a).handles && k !in s.handles ==>
      After(s, a).handles[k].path == s.callers[a.i].path && After(s, a).handles[k].name == s.callers[a.i].name
  {
    hide Section;
  }

  lemma {:induction false} InvHolds(run: Run, k: nat)
    requires run.Valid() && k < |run.states|
    ensures Inv(run.states[k])
  {
    if k > 0 {
      InvHolds(run, k - 1);
      InvStep(run.states[k - 1], run.steps[k - 1]);
    }
  }

  // The environment is initialised and the cluster created at most once, and both are
  // done before any call returns a handle.
  lemma SetUpOnce(run: Run, k: nat)
    requires run.Valid() && k < |run.states|
    ensures run.states[k].inits <= 1 && run.states[k].creates <= 1
    ensures (exists i :: 0 <= i < |run.states[k].callers| && run.states[k].callers[i].stage.Returned?) ==>
      run.states[k].inits == 1 && run.states[k].creates == Creations(run.states[k])
  {
    InvHolds(run, k);
  }

  lemma MutualExclusion(run: Run, k: nat, i: nat, j: nat)
    requires run.Valid() && k < |run.states| && i < |run.states[k].callers| && j < |run.states[k].callers|
    requires run.states[k].callers[i].Inside() && run.states[k].callers[j].Inside()
    ensures i == j
  {
    InvHolds(run, k);
  }

  // Calls with equal arguments return the same handle, whenever they return.
  lemma SameKeySameHandle(run: Run, k: nat, i: nat, j: nat)
    requires run.Valid() && k < |run.states| && i < |run.states[k].callers| && j < |run.states[k].callers|
    requires run.states[k].callers[i].stage.Returned? && run.states[k].callers[j].stage.Returned?
    requires run.states[k].callers[i].CacheKey() == run.states[k].callers[j].CacheKey()
    ensures run.states[k].callers[i].stage.handle == run.states[k].callers[j].stage.handle
  {
    InvHolds(run, k);
  }

  // With ':'-free config paths a call gets the handle built for its own arguments.
  lemma OwnHandle(run: Run, k: nat, i: nat)
    requires run.Valid() && k < |run.states| && i < |run.states[k].callers| && run.states[k].callers[i].stage.Returned?
    requires forall j :: 0 <= j < |run.states[k].callers| ==> ':' !in run.states[k].callers[j].path
    ensures run.states[k].callers[i].stage.handle.path == run.states[k].callers[i].path
    ensures run.states[k].callers[i].stage.handle.name == run.states[k].callers[i].name
  {
    InvHolds(run, k);
    var c := run.states[k].callers[i];
    BuiltByCaller(run, k, c.CacheKey());
    KeyOfOnePair(c.path, c.name, c.stage.handle.path, c.stage.handle.name);
  }

  ghost predicate BuiltFor(s: State, h: Handle) {
    exists j :: 0 <= j < |s.callers| && s.callers[j].path == h.path && s.callers[j].name == h.name
  }

  // Every cached handle was built from some caller's arguments.
  lemma {:induction false} BuiltByCaller(run: Run, k: nat, key: string)
    requires run.Valid() && k < |run.states| && key in run.states[k].handles
    ensures BuiltFor(run.states[k], run.states[k].handles[key])
  {
    hide Inv, After;
    if k > 0 {
      var s, a := run.states[k - 1], run.steps[k - 1];
      InvHolds(run, k - 1);
      ArgumentsStay(s, a);
      StoredByCaller(s, a);
      if key in s.handles {
        BuiltByCaller(run, k - 1, key);
        var h := s.handles[key];
        var j :| 0 <= j < |s.callers| && s.callers[j].path == h.path && s.callers[j].name == h.name;
        assert run.states[k].callers[j].path == s.handles[key].path;
      } else {
        assert run.states[k].callers[a.i].path == run.states[k].handles[key].path;
      }
    }
  }

  // Between taking the lock and releasing it a call does to the map what it would do alone.
  lemma RunsAsSection(run: Run, k: nat)
    requires run.Valid() && k < |run.steps| && run.states[k].callers[run.steps[k].i].stage.Leaving?
    ensures
      var c, s := run.states[k].callers[run.steps[k].i], run.states[k + 1];
      && s.callers[run.steps[k].i].stage.Returned?
      && Section(c.entry, s.handles, c.path, c.name, s.callers[run.steps[k].i].stage.handle)
  {
    InvHolds(run, k);
  }

  // ---- Handles built for other arguments ----

  function LastState(run: Run): State
    requires run.states != []
  {
    run.states[|run.states| - 1]
  }

  lemma OneStepMore(run: Run, a: Step) returns (next: Run)
    requires run.Valid() && Enabled(LastState(run), a)
    ensures next.Valid() && LastState(next) == After(LastState(run), a)
  {
    hide Enabled, After, Initial;
    next := Run(run.states + [After(LastState(run), a)], run.steps + [a]);
    assert forall k :: 0 <= k < |run.steps| ==> next.steps[k] == run.steps[k];
    assert forall k :: 0 <= k < |run.states| ==> next.states[k] == run.states[k];
  }

  // Caller i takes the free lock and comes to look its key up.
  lemma EntersAlone(run: Run, i: nat) returns (next: Run)
    requires run.Valid() && Free(LastState(run), i)
    ensures next.Valid()
    ensures
      var s, s' := LastState(run), LastState(next);
      && !s'.exited && s'.handles == s.handles && s'.holder == Some(i)
      && s'.callers == s.callers[i := s.callers[i].(stage := Ready, entry := s.handles)]
  {
    next := OneStepMore(run, Step(i, false));
    next := OneStepMore(next, Step(i, false));
    if LastState(run).handles == map[] {
      next := OneStepMore(next, Step(i, false));
    }
  }

  ghost predicate Free(s: State, i: nat) {
    !s.exited && s.holder.None? && i < |s.callers| && s.callers[i].stage.Outside?
  }

  // It finds or builds its handle and leaves with it.
  lemma LeavesAlone(run: Run, i: nat) returns (next: Run, h: Handle)
    requires run.Valid()
    requires !LastState(run).exited && i < |LastState(run).callers| && LastState(run).callers[i].stage.Ready?
    ensures next.Valid()
    ensures
      var s, s' := LastState(run), LastState(next);
      && !s'.exited && s'.holder.None? && Section(s.handles, s'.handles, s.callers[i].path, s.callers[i].name, h)
      && s'.callers == s.callers[i := s.callers[i].(stage := Returned(h))]
  {
    var s := LastState(run);
    next := OneStepMore(run, Step(i, false));
    if s.callers[i].CacheKey() !in s.handles {
      next := OneStepMore(next, Step(i, false));
      next := OneStepMore(next, Step(i, false));
    }
    h := LastState(next).handles[s.callers[i].CacheKey()];
    next := OneStepMore(next, Step(i, false));
  }

  // In this run a call with these arguments returned a handle built for others.
  ghost predicate Misserved(run: Run, path: string, name: string) {
    && run.Valid()
    && exists k, i ::
      && 0 <= k < |run.states| && 0 <= i < |run.states[k].callers|
      && GotForeign(run.states[k].callers[i], path, name)
  }

  predicate GotForeign(c: Caller, path: string, name: string) {
    c.path == path && c.name == name && c.stage.Returned? && (c.stage.handle.path, c.stage.handle.name) != (path, name)
  }

  lemma ForeignCallFirst(path: string, name: string, p: string, n: string) returns (run: Run)
    requires (p, n) != (path, name) && Key(p, n) == Key(path, name)
    ensures Misserved(run, path, name)
  {
    var callers := [Caller(p, n, Outside, map[]), Caller(path, name, Outside, map[])];
    run := Run([State(map[], None, 0, 0, 0, false, false, callers)], []);
    var h;
    run := EntersAlone(run, 0);
    run, h := LeavesAlone(run, 0);
    run := EntersAlone(run, 1);
    run, h := LeavesAlone(run, 1);
    assert GotForeign(LastState(run).callers[1], path, name);
  }

  // Some run hands a call a handle built for other arguments exactly when the call's path
  // or name has a ':'.
  lemma ForeignHandle(path: string, name: string)
    ensures (exists run :: Misserved(run, path, name)) <==> ':' in path || ':' in name
  {
    KeyIsShared(path, name);
    if p, n :| (p, n) != (path, name) && Key(p, n) == Key(path, name) {
      var run := ForeignCallFirst(path, name, p, n);
    } else if run :| Misserved(run, path, name) {
      hide Enabled, After;
      var k, i :| 0 <= k < |run.states| && 0 <= i < |run.states[k].callers|
        && GotForeign(run.states[k].callers[i], path, name);
      InvHolds(run, k);
      assert Served(run.states[k], run.states[k].callers[i]);
    }
  }
}
