// The delete-and-wait functions of testkit_v2/util, and the wait for attachments.
//
// The world is a listing that other actors change; its fault, when set, is the error
// every request meets.
module DeleteAndWait {
  import opened Wrappers
  import opened Conditions
  import opened Filters
  import opened Retry

  datatype Listing<T> = Listing(fault: Error, items: seq<T>)

  datatype Kind = NamespaceKind | BlockDeviceKind | VolumeGroupKind | DiskKind | AttachmentKind

  function WaitSeconds(kind: Kind): int {
    match kind
    case NamespaceKind => 20
    case BlockDeviceKind => 20
    case VolumeGroupKind => 15
    case DiskKind => 15
    case AttachmentKind => 15
  }

  // One poll: list, and fail while the filters still select something.
  function StillSelected<F, T>(accepts: (F, T) -> bool, filters: seq<F>, w: Listing<T>): Error {
    if w.fault.Some? then w.fault
    else if ApplyAll(accepts, filters, w.items) != [] then Some("not deleted")
    else None
  }

  ghost predicate Clear<F(!new), T>(accepts: (F, T) -> bool, filters: seq<F>, w: Listing<T>) {
    w.fault.None? && forall x :: x in w.items ==> !AllAccept(accepts, filters, x)
  }

  lemma PollIsClear<F(!new), T>(accepts: (F, T) -> bool, filters: seq<F>, w: Listing<T>)
    ensures StillSelected(accepts, filters, w).None? <==> Clear(accepts, filters, w)
  {
    FoldIsConjunction(accepts, filters, w.items);
    KeepElements(w.items, Accepted(accepts, filters));
    var kept := Keep(w.items, Accepted(accepts, filters));
    assert forall x :: x in w.items && AllAccept(accepts, filters, x) ==> x in kept;
    if kept != [] {
      assert kept[0] in kept;
      assert AllAccept(accepts, filters, kept[0]);
    }
  }

  // The first n requests, made at successive instants of the history, went through.
  ghost predicate Granted<W>(h: seq<Snapshot<W>>, from: nat, n: nat, fault: W -> Error, refused: nat -> Error) {
    && from + n <= |h|
    && (forall j :: from <= j < from + n ==> fault(h[j].world).None?)
    && (forall k :: 0 <= k < n ==> refused(k).None?)
  }

  // One request each, up to the first one refused: by the world's fault at that instant,
  // or for a reason of its own, which refused gives for each request.
  method DeleteEach<W(0,!new), T(!new)>(s: Session<W>, fault: W -> Error, refused: nat -> Error, selected: seq<T>)
    returns (err: Error, deleted: seq<T>)
    requires s.Valid()
    modifies s
    ensures s.Later()
    ensures deleted <= selected && (err.None? <==> deleted == selected)
    ensures |s.history| == |old(s.history)| + |deleted| + if err.None? then 0 else 1
    ensures Granted(s.history, |old(s.history)|, |deleted|, fault, refused)
    ensures err.Some? ==> refused(|deleted|).Some? || fault(s.history[|s.history| - 1].world).Some?
  {
    deleted := [];
    for i := 0 to |selected|
      invariant s.Later() && deleted == selected[..i] && |s.history| == |old(s.history)| + i
      invariant Granted(s.history, |old(s.history)|, i, fault, refused)
    {
      ghost var before := s.history;
      s.Elapse(s.now, s.now + s.maxPoll);
      assert Granted(s.history, |old(s.history)|, i, fault, refused) by {
        assert forall j :: 0 <= j < |before| ==> s.history[j] == before[j];
      }
      err := if fault(s.world).Some? then fault(s.world) else refused(i);
      if err.Some? {
        return;
      }
      deleted := deleted + [selected[i]];
    }
    err := None;
  }

  function FaultOf<T>(): Listing<T> -> Error {
    (w: Listing<T>) => w.fault
  }

  // No request of this stretch of history met a fault, and none was refused.
  ghost predicate Smooth<T>(h: seq<Snapshot<Listing<T>>>, from: nat, to: nat, refused: nat -> Error) {
    && to <= |h|
    && (forall k :: from <= k < to ==> h[k].world.fault.None?)
    && forall k: nat :: refused(k).None?
  }

  // Deleting namespaces lists them all again, and goes on only if the listing before had
  // selected another number of them.
  ghost predicate GuardOpen<T>(kind: Kind, h: seq<Snapshot<Listing<T>>>, listed: nat, selected: nat) {
    kind.NamespaceKind? ==> listed + 1 < |h| && selected != |h[listed + 1].world.items|
  }

  method ListAgain<T(!new)>(s: Session<Listing<T>>, selected: nat) returns (err: Error)
    requires s.Valid()
    modifies s
    ensures s.Later() && |s.history| == |old(s.history)| + 1
    ensures
      var w := s.history[|old(s.history)|].world;
      err.None? <==> w.fault.None? && selected != |w.items|
  {
    s.Elapse(s.now, s.now + s.maxPoll);
    err := if s.world.fault.Some? then s.world.fault
      else if selected == |s.world.items| then Some("can't delete all namespaces")
      else None;
  }

  // List and delete what the filters select, stopping at the first refused request.
  // Deleting volume groups ignores a failed listing.
  method DeleteListed<F(!new), T(!new)>(s: Session<Listing<T>>, kind: Kind, accepts: (F, T) -> bool, filters: seq<F>,
                                        refused: nat -> Error)
    returns (err: Error, deleted: seq<T>, ghost listed: nat)
    requires s.Valid()
    modifies s
    ensures s.Later() && listed == |old(s.history)| < |s.history|
    ensures var w := s.history[listed].world;
      if w.fault.Some? then deleted == [] && err == (if kind.VolumeGroupKind? then None else w.fault)
      else
        var selected := Keep(w.items, Accepted(accepts, filters));
        && deleted <= selected && (err.None? ==> deleted == selected && GuardOpen(kind, s.history, listed, |selected|))
        && (!GuardOpen(kind, s.history, listed, |selected|) ==> deleted == [])
        && (Smooth(s.history, listed, |s.history|, refused) && GuardOpen(kind, s.history, listed, |selected|)
            ==> err.None?)
  {
    s.Elapse(s.now, s.now + s.maxPoll);
    listed := |s.history| - 1;
    ghost var w := s.world;
    deleted := [];
    if s.world.fault.Some? {
      err := if kind.VolumeGroupKind? then None else s.world.fault;
      return;
    }
    var selected := List(accepts, filters, s.world.items);
    FoldIsConjunction(accepts, filters, w.items);
    hide Keep, ApplyAll, Accepted, Granted, Recorded, Spaced;
    if kind.NamespaceKind? {
      err := ListAgain(s, |selected|);
      if err.Some? { return; }
    }
    err, deleted := DeleteEach(s, FaultOf(), refused, selected);
  }

  // The waiting half. settled is any instant: if from then on, with a poll's length to
  // spare before the deadline, nothing is selected, the wait succeeds.
  method WaitGone<F(!new), T(!new)>(s: Session<Listing<T>>, sec: int, accepts: (F, T) -> bool, filters: seq<F>,
                                    ghost settled: int)
    returns (err: Error)
    requires s.Valid()
    modifies s
    ensures s.Later()
    ensures err.None? ==> exists k :: |old(s.history)| <= k < |s.history| && Clear(accepts, filters, s.history[k].world)
    ensures settled + s.maxPoll <= old(s.now) + (sec + 1) * SECOND
      && (forall k :: |old(s.history)| <= k < |s.history| && s.history[k].at >= settled ==>
            Clear(accepts, filters, s.history[k].world))
      ==> err.None?
  {
    var probe := (k: nat, w: Listing<T>, later: Listing<T>) => StillSelected(accepts, filters, w);
    var read;
    ghost var polls, seen;
    err, read, polls, seen := s.RetrySec(sec, probe);
    GoneOrNot(s.history, probe, polls, seen, old(s.now), |old(s.history)|, sec, s.maxPoll, s.maxLag,
              accepts, filters, settled);
  }

  lemma GoneOrNot<F(!new), T(!new)>(
    h: seq<Snapshot<Listing<T>>>, probe: (nat, Listing<T>, Listing<T>) -> Error, polls: seq<Poll>,
    seen: seq<(nat, nat)>,
    start: nat, from: nat, sec: int, c: nat, lag: nat, accepts: (F, T) -> bool, filters: seq<F>, settled: int)
    requires Readings(h, probe, polls, seen, start, from) && Finished(sec, polls) && Brief(sec, polls, c, lag)
    requires forall k: nat, w, later :: probe(k, w, later) == StillSelected(accepts, filters, w)
    ensures Last(polls).err.None? ==> exists k :: from <= k < |h| && Clear(accepts, filters, h[k].world)
    ensures settled + c <= start + (sec + 1) * SECOND
      && (forall k :: from <= k < |h| && h[k].at >= settled ==> Clear(accepts, filters, h[k].world))
      ==> Last(polls).err.None?
  {
    var last := |polls| - 1;
    assert Reading(h, probe, last, polls[last], seen[last], start, from);
    var k := seen[last].0;
    PollIsClear(accepts, filters, h[k].world);
  }

  // From some instant on the others have removed all that was deleted and added nothing
  // the filters accept, and listing works.
  ghost predicate Settled<F(!new), T(!new)>(
    h: seq<Snapshot<Listing<T>>>, listed: nat, accepts: (F, T) -> bool, filters: seq<F>, deleted: seq<T>, settled: int)
    requires listed < |h|
  {
    forall k :: listed < k < |h| && h[k].at >= settled ==>
      h[k].world.fault.None? && forall x :: x in h[k].world.items && AllAccept(accepts, filters, x) ==>
        x in h[listed].world.items && x !in deleted
  }

  lemma SettledIsClear<F(!new), T(!new)>(
    h: seq<Snapshot<Listing<T>>>, listed: nat, accepts: (F, T) -> bool, filters: seq<F>, deleted: seq<T>, settled: int,
    k: nat)
    requires listed < k < |h| && h[k].at >= settled && Settled(h, listed, accepts, filters, deleted, settled)
    requires deleted == Keep(h[listed].world.items, Accepted(accepts, filters))
    ensures Clear(accepts, filters, h[k].world)
  {
    KeepElements(h[listed].world.items, Accepted(accepts, filters));
  }

  // The whole function. On success everything selected by the listing was deleted and
  // some later poll saw nothing selected. When no request of the deleting half meets a
  // fault or is refused and the guard is open, the wait begins; when moreover the others
  // settle in time, a poll before the deadline, the result is nil.
  method DeleteAndWait<F(!new), T(!new)>(s: Session<Listing<T>>, kind: Kind, accepts: (F, T) -> bool, filters: seq<F>,
                                         refused: nat -> Error, ghost settled: int)
    returns (err: Error, deleted: seq<T>, ghost listed: nat, ghost asked: nat, ghost waiting: Option<nat>)
    requires s.Valid()
    modifies s
    ensures s.Later() && listed == |old(s.history)| < asked <= |s.history|
    ensures waiting.Some? ==> old(s.now) <= waiting.value <= s.now
    ensures waiting.None? ==> err.Some? && asked == |s.history|
    ensures
      var selected := Keep(s.history[listed].world.items, Accepted(accepts, filters));
      && deleted <= selected
      && (waiting.Some? && s.history[listed].world.fault.None? ==> deleted == selected)
      && (Smooth(s.history, listed, asked, refused) && GuardOpen(kind, s.history, listed, |selected|) ==> waiting.Some?)
    ensures err.None? ==> exists k :: listed < k < |s.history| && Clear(accepts, filters, s.history[k].world)
    ensures
      && Smooth(s.history, listed, asked, refused)
      && GuardOpen(kind, s.history, listed, |Keep(s.history[listed].world.items, Accepted(accepts, filters))|)
      && Settled(s.history, listed, accepts, filters, deleted, settled)
      && settled + s.maxPoll <= old(s.now) + (if kind.NamespaceKind? || kind.BlockDeviceKind? then 21 else 16) * SECOND
      ==> err.None?
  {
    waiting := None;
    err, deleted, listed := DeleteListed(s, kind, accepts, filters, refused);
    asked := |s.history|;
    if err.Some? {
      return;
    }
    hide Keep, Accepted, Clear, Recorded, Spaced;
    ghost var h := s.history;
    waiting := Some(s.now);
    err := WaitGone(s, WaitSeconds(kind), accepts, filters, settled);
    forall k | asked <= k < |s.history| && s.history[k].at >= settled && s.history[listed].world.fault.None?
      && Settled(s.history, listed, accepts, filters, deleted, settled)
      ensures Clear(accepts, filters, s.history[k].world)
    {
      SettledIsClear(s.history, listed, accepts, filters, deleted, settled, k);
    }
  }

  // ---- WaitVmbdAttached ----

  const NOT_ATTACHED := VmbdFilter(Unset, Unset, Unset, Unset, Text("!Attached"))

  function Selects(): (VmbdFilter, Vmbd) -> bool {
    (f: VmbdFilter, b: Vmbd) => f.Accepts(b)
  }

  // The captured slice grows by one filter a poll.
  function Grown(filters: seq<VmbdFilter>, k: nat): seq<VmbdFilter>
    decreases k
  {
    (if k == 0 then filters else Grown(filters, k - 1)) + [NOT_ATTACHED]
  }

  // Whatever the number of polls, the grown list decides as the list with one copy.
  lemma {:induction false} GrownIsOnce(filters: seq<VmbdFilter>, k: nat, w: Listing<Vmbd>)
    ensures StillSelected(Selects(), Grown(filters, k), w) == StillSelected(Selects(), filters + [NOT_ATTACHED], w)
  {
    GrownElements(filters, k);
    OrderAndRepetition(Selects(), Grown(filters, k), filters + [NOT_ATTACHED], w.items);
  }

  lemma {:induction false} GrownElements(filters: seq<VmbdFilter>, k: nat)
    ensures forall f :: f in Grown(filters, k) <==> f in filters + [NOT_ATTACHED]
  {
    if k > 0 {
      GrownElements(filters, k - 1);
    }
  }

  lemma NotAttachedMeans(b: Vmbd)
    ensures NOT_ATTACHED.Accepts(b) <==> b.phase != "Attached"
  {
    CheckMeansPattern("!Attached", b.phase);
    assert !LikeShaped("!Attached");
    NotLikeBytes("!Attached");
    assert Parse("!Attached") == Not("Attached");
  }

  ghost predicate AllAttached(filters: seq<VmbdFilter>, w: Listing<Vmbd>) {
    w.fault.None? && forall b :: b in w.items && AllAccept(Selects(), filters, b) ==> b.phase == "Attached"
  }

  lemma ClearIsAttached(filters: seq<VmbdFilter>, w: Listing<Vmbd>)
    ensures Clear(Selects(), filters + [NOT_ATTACHED], w) <==> AllAttached(filters, w)
  {
    forall b | b in w.items
      ensures AllAccept(Selects(), filters + [NOT_ATTACHED], b)
        <==> AllAccept(Selects(), filters, b) && b.phase != "Attached"
    {
      NotAttachedMeans(b);
      var all := filters + [NOT_ATTACHED];
      assert all[|filters|] == NOT_ATTACHED;
      assert forall f :: f in all <==> f in filters || f == NOT_ATTACHED;
      assert Selects()(NOT_ATTACHED, b) == NOT_ATTACHED.Accepts(b);
    }
  }

  method WaitVmbdAttached(s: Session<Listing<Vmbd>>, filters: seq<VmbdFilter>, ghost settled: int) returns (err: Error)
    requires s.Valid()
    modifies s
    ensures s.Later()
    ensures err.None? ==> exists k :: |old(s.history)| <= k < |s.history| && AllAttached(filters, s.history[k].world)
    ensures settled + s.maxPoll <= old(s.now) + 26 * SECOND
      && (forall k :: |old(s.history)| <= k < |s.history| && s.history[k].at >= settled ==>
            AllAttached(filters, s.history[k].world))
      ==> err.None?
  {
    var probe := (k: nat, w: Listing<Vmbd>, later: Listing<Vmbd>) => StillSelected(Selects(), Grown(filters, k), w);
    var read;
    ghost var polls, seen;
    err, read, polls, seen := s.RetrySec(25, probe);
    ghost var all := filters + [NOT_ATTACHED];
    ghost var once := (k: nat, w: Listing<Vmbd>, later: Listing<Vmbd>) => StillSelected(Selects(), all, w);
    forall k | 0 <= k < |polls|
      ensures Reading(s.history, once, k, polls[k], seen[k], old(s.now), |old(s.history)|)
    {
      assert Reading(s.history, probe, k, polls[k], seen[k], old(s.now), |old(s.history)|);
      GrownIsOnce(filters, k, s.history[seen[k].0].world);
    }
    GoneOrNot(s.history, once, polls, seen, old(s.now), |old(s.history)|, 25, s.maxPoll, s.maxLag,
              Selects(), all, settled);
    forall k | |old(s.history)| <= k < |s.history|
      ensures Clear(Selects(), all, s.history[k].world) <==> AllAttached(filters, s.history[k].world)
    {
      ClearIsAttached(filters, s.history[k].world);
    }
  }
}
