// EnsureStaticInstance of testkit_v2/util/kube_node.go: a read, then a create or an
// update, against a server that refuses updates carrying a stale resourceVersion.
// Any number of calls run at once, other clients write and delete in between.
module StaticInstances {
  import opened Wrappers

  datatype Spec = Spec(address: string, credentials: Option<string>)
  datatype Instance = Instance(spec: Spec, labels: map<string, string>, version: nat)
  datatype Request = Request(role: string, ip: string, credentials: string)

  const ROLE_LABEL := "node-role"

  predicate NeedsUpdate(existing: Instance, desired: Instance) {
    var has, want := existing.spec.credentials, desired.spec.credentials;
    if existing.spec.address != desired.spec.address then true
    else if want.Some? && (has.None? || has.value != want.value) then true
    else if want.None? && has.Some? then true
    else
      || ROLE_LABEL !in existing.labels || ROLE_LABEL !in desired.labels
      || existing.labels[ROLE_LABEL] != desired.labels[ROLE_LABEL]
  }

  function Desired(r: Request, version: nat): Instance {
    Instance(Spec(r.ip, Some(r.credentials)), map[ROLE_LABEL := r.role], version)
  }

  predicate Matches(store: Option<Instance>, r: Request) {
    && store.Some?
    && store.value.spec == Spec(r.ip, Some(r.credentials))
    && ROLE_LABEL in store.value.labels && store.value.labels[ROLE_LABEL] == r.role
  }

  // An update is due exactly when the stored instance is not the requested one.
  lemma UpdateDue(existing: Instance, r: Request, version: nat)
    ensures NeedsUpdate(existing, Desired(r, version)) <==> !Matches(Some(existing), r)
  {
  }

  // What one call does when nothing runs beside it.
  function Ensured(store: Option<Instance>, next: nat, r: Request): Option<Instance> {
    if store.Some? && !NeedsUpdate(store.value, Desired(r, next)) then store
    else Some(Desired(r, next))
  }

  // ---- The interleaved machine ----

  datatype Call =
    | Idle
    | Reading(request: Request)
    | Creating(request: Request)
    | Updating(request: Request, read: Instance)
    | Returned(request: Request, err: Error)
  {
    predicate Active() { !Idle? && !Returned? }
  }

  datatype State = State(store: Option<Instance>, next: nat, calls: seq<Call>)

  datatype Step =
    | Invoke(i: nat, request: Request)
    | Get(i: nat)
    | Create(i: nat)
    | Update(i: nat)
    | Fault(i: nat, message: string)       // any request of an active call may fail
    | Status                               // a controller writes the object's status
    | Foreign(spec: Spec, labels: map<string, string>)
    | Delete

  predicate Enabled(s: State, a: Step) {
    match a
    case Invoke(i, _) => i < |s.calls| && s.calls[i].Idle?
    case Get(i) => i < |s.calls| && s.calls[i].Reading?
    case Create(i) => i < |s.calls| && s.calls[i].Creating?
    case Update(i) => i < |s.calls| && s.calls[i].Updating?
    case Fault(i, _) => i < |s.calls| && s.calls[i].Active()
    case Status => s.store.Some?
    case Foreign(_, _) => true
    case Delete => true
  }

  function Put(s: State, o: Instance): State {
    s.(store := Some(o.(version := s.next)), next := s.next + 1)
  }

  function Return(s: State, i: nat, err: Error): State
    requires i < |s.calls| && s.calls[i].Active()
  {
    s.(calls := s.calls[i := Returned(s.calls[i].request, err)])
  }

  function After(s: State, a: Step): State
    requires Enabled(s, a)
  {
    match a
    case Invoke(i, r) => s.(calls := s.calls[i := Reading(r)])
    case Get(i) =>
      var r := s.calls[i].request;
      if s.store.None? then s.(calls := s.calls[i := Creating(r)])
      else if NeedsUpdate(s.store.value, Desired(r, 0)) then s.(calls := s.calls[i := Updating(r, s.store.value)])
      else Return(s, i, None)
    case Create(i) =>
      if s.store.Some? then Return(s, i, Some("already exists"))
      else Return(Put(s, Desired(s.calls[i].request, 0)), i, None)
    case Update(i) =>
      var r, read := s.calls[i].request, s.calls[i].read;
      if s.store.None? then Return(s, i, Some("not found"))
      else if s.store.value.version != read.version then Return(s, i, Some("conflict"))
      else Return(Put(s, read.(spec := Desired(r, 0).spec, labels := Desired(r, 0).labels)), i, None)
    case Fault(i, m) => Return(s, i, Some(m))
    case Status => Put(s, s.store.value)
    case Foreign(spec, labels) => Put(s, Instance(spec, labels, 0))
    case Delete => s.(store := None)
  }

  datatype Run = Run(states: seq<State>, steps: seq<Step>) {
    ghost predicate Valid() {
      && |states| == |steps| + 1
      && Initial(states[0])
      && (forall k :: 0 <= k < |steps| ==> Enabled(states[k], steps[k]) && states[k + 1] == After(states[k], steps[k]))
    }
  }

  ghost predicate Initial(s: State) {
    && (s.store.Some? ==> s.store.value.version < s.next)
    && (forall i :: 0 <= i < |s.calls| ==> s.calls[i].Idle?)
  }

  // A version names one stored value: what a call read is what is stored under it.
  ghost predicate Inv(s: State) {
    && (s.store.Some? ==> s.store.value.version < s.next)
    && (forall i :: 0 <= i < |s.calls| && s.calls[i].Updating? ==>
      && s.calls[i].read.version < s.next
      && !Matches(Some(s.calls[i].read), s.calls[i].request)
      && (s.store.Some? && s.store.value.version == s.calls[i].read.version ==> s.store.value == s.calls[i].read))
  }

  lemma InvStep(s: State, a: Step)
    requires Inv(s) && Enabled(s, a)
    ensures Inv(After(s, a))
  {
    match a {
      case Get(i) =>
        if s.store.Some? {
          UpdateDue(s.store.value, s.calls[i].request, 0);
        }
      case _ =>
    }
  }

  lemma {:induction false} InvHolds(run: Run, k: nat)
    requires run.Valid() && k < |run.states|
    ensures Inv(run.states[k])
  {
    if k > 0 {
      InvHolds(run, k - 1);
      InvStep(run.states[k - 1], run.steps[k - 1]);
      hide Inv, After, Enabled;
    }
  }

  // ---- Each nil return is the whole call at one instant ----

  // Step k returned nil from call i, after the call was invoked.
  ghost predicate Completes(run: Run, k: nat, i: nat, r: Request)
    requires run.Valid() && k < |run.steps|
  {
    && i < |run.states[k].calls|
    && run.states[k].calls[i].Active() && run.states[k].calls[i].request == r
    && run.states[k + 1].calls[i] == Returned(r, None)
  }

  lemma CompletionIsEnsure(run: Run, k: nat, i: nat, r: Request)
    requires run.Valid() && k < |run.steps| && Completes(run, k, i, r)
    ensures run.states[k + 1].store == Ensured(run.states[k].store, run.states[k].next, r)
    ensures Matches(run.states[k + 1].store, r)
  {
    InvHolds(run, k);
    var s := run.states[k];
    if s.store.Some? {
      UpdateDue(s.store.value, r, 0);
      UpdateDue(s.store.value, r, s.next);
    }
  }

  // A call that has returned nil did so at one step of its own interval, and at that
  // step the stored instance became, or was, the one it asked for.
  lemma {:induction false} NilReturn(run: Run, j: nat, i: nat) returns (k: nat)
    requires run.Valid() && j < |run.states| && i < |run.states[j].calls|
    requires run.states[j].calls[i].Returned? && run.states[j].calls[i].err.None?
    ensures k < j && Completes(run, k, i, run.states[j].calls[i].request)
    ensures Matches(run.states[k + 1].store, run.states[j].calls[i].request)
    ensures run.states[k + 1].store == Ensured(run.states[k].store, run.states[k].next, run.states[j].calls[i].request)
  {
    var before := run.states[j - 1].calls[i];
    if before.Returned? {
      k := NilReturn(run, j - 1, i);
    } else {
      k := j - 1;
      CompletionIsEnsure(run, k, i, run.states[j].calls[i].request);
    }
  }

  // ---- No update is lost ----

  // The stored value of that version has been overwritten or deleted, for good.
  predicate Gone(s: State, version: nat) {
    version < s.next && (s.store.Some? ==> s.store.value.version != version)
  }

  lemma {:induction false} GoneForever(run: Run, m: nat, u: nat, version: nat)
    requires run.Valid() && m <= u < |run.states| && Gone(run.states[m], version)
    ensures Gone(run.states[u], version)
    decreases u - m
  {
    if m < u {
      GoneForever(run, m + 1, u, version);
    }
  }

  lemma StepKeeps(s: State, a: Step, x: Instance)
    requires Inv(s) && Enabled(s, a) && s.store == Some(x)
    ensures After(s, a).store == Some(x) || Gone(After(s, a), x.version)
  {
  }

  lemma {:induction false} KeptOrGone(run: Run, g: nat, m: nat, x: Instance)
    requires run.Valid() && g <= m < |run.states| && run.states[g].store == Some(x)
    ensures run.states[m].store == Some(x) || Gone(run.states[m], x.version)
    decreases m - g
  {
    if g < m {
      KeptOrGone(run, g, m - 1, x);
      InvHolds(run, m - 1);
      if Gone(run.states[m - 1], x.version) {
        GoneForever(run, m - 1, m, x.version);
      } else {
        StepKeeps(run.states[m - 1], run.steps[m - 1], x);
      }
      hide Inv, After, Enabled, Gone;
    }
  }

  // The step at which an updating call read what it holds.
  lemma {:induction false} ReadAt(run: Run, j: nat, i: nat) returns (g: nat)
    requires run.Valid() && j < |run.states| && i < |run.states[j].calls| && run.states[j].calls[i].Updating?
    ensures g < j && run.steps[g] == Get(i) && run.states[g].store == Some(run.states[j].calls[i].read)
  {
    if run.states[j - 1].calls[i].Updating? {
      g := ReadAt(run, j - 1, i);
    } else {
      g := j - 1;
    }
  }

  // From a call's read up to its successful update the stored instance is untouched:
  // the update overwrites nothing its caller has not seen.
  lemma NoLostUpdate(run: Run, u: nat, i: nat) returns (g: nat)
    requires run.Valid() && u < |run.steps| && run.steps[u] == Update(i)
    requires run.states[u + 1].calls[i] == Returned(run.states[u].calls[i].request, None)
    ensures g < u && run.steps[g] == Get(i)
    ensures forall m :: g <= m <= u ==> run.states[m].store == Some(run.states[u].calls[i].read)
  {
    var x := run.states[u].calls[i].read;
    g := ReadAt(run, u, i);
    forall m | g <= m <= u
      ensures run.states[m].store == Some(x)
    {
      KeptOrGone(run, g, m, x);
      if Gone(run.states[m], x.version) {
        GoneForever(run, m, u, x.version);
        assert false;
      }
    }
  }

  // ---- The whole run is the sequential one ----

  datatype Event = Ensure(request: Request) | Rewrite(spec: Spec, labels: map<string, string>) | Touch | Remove

  // The store-relevant events of a run, in order: the nil returns and the foreign writes.
  function EventOf(s: State, a: Step): seq<Event>
    requires Enabled(s, a)
  {
    match a
    case Status => [Touch]
    case Foreign(spec, labels) => [Rewrite(spec, labels)]
    case Delete => [Remove]
    case Invoke(_, _) => []
    case _ =>
      var c := After(s, a).calls[a.i];
      if c.Returned? && c.err.None? then [Ensure(c.request)] else []
  }

  function Events(run: Run, k: nat): seq<Event>
    requires run.Valid() && k < |run.states|
  {
    if k == 0 then [] else Events(run, k - 1) + EventOf(run.states[k - 1], run.steps[k - 1])
  }

  // One client at a time.
  function Replay(store: Option<Instance>, next: nat, events: seq<Event>): (Option<Instance>, nat)
    decreases |events|
  {
    if events == [] then (store, next)
    else
      var (o, v) := Replay(store, next, events[..|events| - 1]);
      Serve(o, v, events[|events| - 1])
  }

  function Serve(o: Option<Instance>, v: nat, event: Event): (Option<Instance>, nat) {
    match event
    case Ensure(r) => (Ensured(o, v, r), if Ensured(o, v, r) == o then v else v + 1)
    case Rewrite(spec, labels) => (Some(Instance(spec, labels, v)), v + 1)
    case Touch => (if o.Some? then Some(o.value.(version := v)) else o, v + 1)
    case Remove => (None, v)
  }

  lemma StepServes(s: State, a: Step)
    requires Inv(s) && Enabled(s, a)
    ensures
      var e, s' := EventOf(s, a), After(s, a);
      && |e| <= 1
      && (s'.store, s'.next) == if e == [] then (s.store, s.next) else Serve(s.store, s.next, e[0])
  {
    var e := EventOf(s, a);
    if s.store.Some? && e != [] && e[0].Ensure? {
      UpdateDue(s.store.value, e[0].request, 0);
      UpdateDue(s.store.value, e[0].request, s.next);
    }
  }

  // The server's history is that of the calls run one after another, each nil-returning
  // call exactly once, at its return; failed calls leave no trace.
  lemma {:induction false} Linearizable(run: Run, k: nat)
    requires run.Valid() && k < |run.states|
    ensures (run.states[k].store, run.states[k].next) == Replay(run.states[0].store, run.states[0].next, Events(run, k))
  {
    if k > 0 {
      Linearizable(run, k - 1);
      InvHolds(run, k - 1);
      StepServes(run.states[k - 1], run.steps[k - 1]);
      hide Inv, After, Enabled, EventOf, Serve;
      var e := EventOf(run.states[k - 1], run.steps[k - 1]);
      assert e == [] ==> Events(run, k) == Events(run, k - 1);
      assert e != [] ==> Events(run, k)[..|Events(run, k)| - 1] == Events(run, k - 1);
    }
  }

  // The final instance is the one the last successful call asked for, when no foreign
  // write or delete follows it.
  lemma {:induction false} LastWriterWins(run: Run, k: nat, n: nat, r: Request)
    requires run.Valid() && k < |run.states| && n < |Events(run, k)| && Events(run, k)[n] == Ensure(r)
    requires forall m :: n < m < |Events(run, k)| ==> Events(run, k)[m].Touch?
    ensures Matches(run.states[k].store, r)
  {
    Linearizable(run, k);
    LastInReplay(run.states[0].store, run.states[0].next, Events(run, k), n, r);
  }

  lemma {:induction false} LastInReplay(store: Option<Instance>, next: nat, events: seq<Event>, n: nat, r: Request)
    requires n < |events| && events[n] == Ensure(r) && forall m :: n < m < |events| ==> events[m].Touch?
    ensures Matches(Replay(store, next, events).0, r)
    decreases |events|
  {
    var before := events[..|events| - 1];
    if n < |before| {
      LastInReplay(store, next, before, n, r);
    } else {
      var (o, v) := Replay(store, next, before);
      if o.Some? { UpdateDue(o.value, r, v); }
    }
  }
}
