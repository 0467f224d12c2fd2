// The node-group runners of testkit_v2/util/kube_tester.go over the groups that
// MapLabelNodes in testkit_v2/util/kube_node.go makes. A callback may report a failure,
// and it may abort its test (Fatal, Skip): the whole flat run, or its own subtest.
module Runner {
  import opened FiniteSets
  import opened Wrappers
  import opened Conditions
  import opened Filters

  type Groups = map<string, seq<Node>>

  // The callback's argument: the label, the position in the label's group, the node.
  datatype Call = Call(group: string, index: nat, node: Node)

  function ByNodeFilter(): (NodeFilter, Node) -> bool {
    (f: NodeFilter, node: Node) => f.Accepts(node)
  }

  function Required(f: NodeFilter): Node -> bool {
    (node: Node) => f.Accepts(node)
  }

  function GroupsOf(wanted: Condition, required: map<string, NodeFilter>, nodes: seq<Node>): Groups {
    map l | l in required && Check(wanted, l) :: Keep(nodes, Required(required[l]))
  }

  // A nil map when the nodes cannot be listed.
  method MapLabelNodes(wanted: Condition, required: map<string, NodeFilter>, listing: Option<seq<Node>>,
                       filters: seq<NodeFilter>)
    returns (resp: Groups)
    ensures resp ==
      if listing.None? then map[] else GroupsOf(wanted, required, ApplyAll(ByNodeFilter(), filters, listing.value))
  {
    resp := map[];
    if listing.None? { return; }
    var nodes := List(ByNodeFilter(), filters, listing.value);
    var rest := required.Keys;
    while rest != {}
      invariant rest <= required.Keys
      invariant forall l :: l in resp <==> l in required && l !in rest && Check(wanted, l)
      invariant forall l :: l in resp ==> resp[l] == Keep(nodes, Required(required[l]))
    {
      var l :| l in rest;
      rest := rest - {l};
      if !Check(wanted, l) { continue; }
      var group := Apply(Required(required[l]), nodes);
      resp := resp[l := group];
    }
  }

  // A node is in a label's group exactly when it was listed and passes the caller's
  // filters and the label's own.
  lemma {:induction false} GroupMeans(wanted: Condition, required: map<string, NodeFilter>, items: seq<Node>,
                                      filters: seq<NodeFilter>, l: string, node: Node)
    ensures
      var groups := GroupsOf(wanted, required, ApplyAll(ByNodeFilter(), filters, items));
      && (l in groups <==> l in required && Check(wanted, l))
      && (l in groups ==>
            (node in groups[l] <==>
              node in items && (forall f :: f in filters ==> f.Accepts(node)) && required[l].Accepts(node)))
  {
    var nodes := ApplyAll(ByNodeFilter(), filters, items);
    FoldIsConjunction(ByNodeFilter(), filters, items);
    KeepElements(items, Accepted(ByNodeFilter(), filters));
    assert Accepted(ByNodeFilter(), filters)(node) <==> forall f :: f in filters ==> ByNodeFilter()(f, node);
    assert forall f :: ByNodeFilter()(f, node) == f.Accepts(node);
    if l in required && Check(wanted, l) {
      KeepElements(nodes, Required(required[l]));
    }
  }

  // ---- What either runner is to do ----

  ghost function CallsOf(groups: Groups): set<Call> {
    set l, i | l in groups && 0 <= i < |groups[l]| :: Call(l, i, groups[l][i])
  }

  ghost predicate Verdict(groups: Groups, skipOptional: bool, fails: Call -> bool) {
    || (!skipOptional && exists l :: l in groups && groups[l] == [])
    || exists c :: c in CallsOf(groups) && fails(c)
  }

  // ---- The flat runner ----

  // The calls of the labels already done.
  ghost function DoneCalls(groups: Groups, labels: set<string>): set<Call> {
    set l, i | l in groups && l in labels && 0 <= i < |groups[l]| :: Call(l, i, groups[l][i])
  }

  ghost function FirstCalls(groups: Groups, l: string, n: nat): set<Call>
    requires l in groups && n <= |groups[l]|
  {
    set i | 0 <= i < n :: Call(l, i, groups[l][i])
  }

  ghost predicate AnyFails(calls: set<Call>, fails: Call -> bool) {
    exists c :: c in calls && fails(c)
  }

  ghost predicate AnyEmpty(groups: Groups, labels: set<string>) {
    exists l :: l in labels && l in groups && groups[l] == []
  }

  lemma OneLabelMore(groups: Groups, labels: set<string>, l: string)
    requires l in groups && l !in labels
    ensures DoneCalls(groups, labels + {l}) == DoneCalls(groups, labels) + FirstCalls(groups, l, |groups[l]|)
    ensures DoneCalls(groups, labels) !! FirstCalls(groups, l, |groups[l]|)
    ensures AnyEmpty(groups, labels + {l}) <==> AnyEmpty(groups, labels) || groups[l] == []
  {
  }

  lemma AllLabels(groups: Groups)
    ensures DoneCalls(groups, groups.Keys) == CallsOf(groups)
    ensures AnyEmpty(groups, groups.Keys) <==> exists l :: l in groups && groups[l] == []
  {
  }

  ghost predicate NoneAborts(calls: seq<Call>, aborts: Call -> bool) {
    forall i :: 0 <= i < |calls| ==> !aborts(calls[i])
  }

  // The calls up to the first one that aborts.
  ghost predicate CutAt(calls: seq<Call>, aborts: Call -> bool, aborted: bool) {
    if aborted then calls != [] && aborts(calls[|calls| - 1]) && NoneAborts(calls[..|calls| - 1], aborts)
    else NoneAborts(calls, aborts)
  }

  // The first calls of a label's group, and whether one of them failed.
  ghost predicate GroupDone(groups: Groups, l: string, fails: Call -> bool, calls: seq<Call>, failed: bool)
    requires l in groups
  {
    && |calls| <= |groups[l]|
    && (forall i :: 0 <= i < |calls| ==> calls[i] == Call(l, i, groups[l][i]))
    && multiset(calls) == multiset(FirstCalls(groups, l, |calls|))
    && failed == AnyFails(FirstCalls(groups, l, |calls|), fails)
  }

  lemma GroupStep(groups: Groups, l: string, fails: Call -> bool, calls: seq<Call>, failed: bool, aborts: Call -> bool)
    requires l in groups && GroupDone(groups, l, fails, calls, failed) && |calls| < |groups[l]|
    ensures
      var call := Call(l, |calls|, groups[l][|calls|]);
      && GroupDone(groups, l, fails, calls + [call], failed || fails(call))
      && (NoneAborts(calls, aborts) ==> CutAt(calls + [call], aborts, aborts(call)))
  {
    var call := Call(l, |calls|, groups[l][|calls|]);
    assert FirstCalls(groups, l, |calls| + 1) == FirstCalls(groups, l, |calls|) + {call};
    OneMore(FirstCalls(groups, l, |calls|), call);
    assert (calls + [call])[..|calls|] == calls;
  }

  method RunGroup(groups: Groups, l: string, fails: Call -> bool, aborts: Call -> bool)
    returns (calls: seq<Call>, failed: bool, aborted: bool)
    requires l in groups
    ensures GroupDone(groups, l, fails, calls, failed)
    ensures CutAt(calls, aborts, aborted) && (!aborted ==> |calls| == |groups[l]|)
  {
    var nodes := groups[l];
    calls, failed, aborted := [], false, false;
    assert FirstCalls(groups, l, 0) == {};
    for i := 0 to |nodes|
      invariant |calls| == i && GroupDone(groups, l, fails, calls, failed) && NoneAborts(calls, aborts)
    {
      hide GroupDone;
      GroupStep(groups, l, fails, calls, failed, aborts);
      var call := Call(l, i, nodes[i]);
      calls := calls + [call];
      failed := failed || fails(call);
      if aborts(call) { return calls, failed, true; }
    }
  }

  // What the flat runner has done once these labels are done.
  ghost predicate FlatDone(groups: Groups, skipOptional: bool, fails: Call -> bool, labels: set<string>,
                           calls: seq<Call>, failed: bool) {
    && multiset(calls) == multiset(DoneCalls(groups, labels))
    && failed == ((!skipOptional && AnyEmpty(groups, labels)) || AnyFails(DoneCalls(groups, labels), fails))
  }

  lemma FlatStep(groups: Groups, skipOptional: bool, fails: Call -> bool, labels: set<string>, calls: seq<Call>,
                 failed: bool, l: string, ran: seq<Call>, bad: bool)
    requires FlatDone(groups, skipOptional, fails, labels, calls, failed) && l in groups && l !in labels
    requires GroupDone(groups, l, fails, ran, bad) && |ran| == |groups[l]|
    ensures
      var empty := !skipOptional && groups[l] == [];
      FlatDone(groups, skipOptional, fails, labels + {l}, calls + ran, failed || bad || empty)
  {
    OneLabelMore(groups, labels, l);
    hide DoneCalls, FirstCalls, AnyEmpty;
    assert multiset(calls + ran) == multiset(calls) + multiset(ran);
  }

  // A run cut off in a label's group has made some of the calls, and fails only if the
  // whole run would.
  lemma FlatCut(groups: Groups, skipOptional: bool, fails: Call -> bool, labels: set<string>, calls: seq<Call>,
                failed: bool, l: string, ran: seq<Call>, bad: bool)
    requires FlatDone(groups, skipOptional, fails, labels, calls, failed) && l in groups && l !in labels
    requires GroupDone(groups, l, fails, ran, bad)
    ensures multiset(calls + ran) <= multiset(CallsOf(groups))
    ensures failed || bad ==> Verdict(groups, skipOptional, fails)
  {
    var all := DoneCalls(groups, labels) + FirstCalls(groups, l, |ran|);
    assert all <= CallsOf(groups);
    assert multiset(calls + ran) == multiset(calls) + multiset(ran);
    assert DoneCalls(groups, labels) !! FirstCalls(groups, l, |ran|);
    assert multiset(calls + ran) == multiset(all);
  }

  lemma NoneAbortsTwice(calls: seq<Call>, ran: seq<Call>, aborts: Call -> bool, aborted: bool)
    requires NoneAborts(calls, aborts) && CutAt(ran, aborts, aborted)
    ensures CutAt(calls + ran, aborts, aborted)
  {
    if aborted {
      assert (calls + ran)[..|calls + ran| - 1] == calls + ran[..|ran| - 1];
    }
  }

  lemma AbortedWhen(groups: Groups, calls: seq<Call>, aborts: Call -> bool, aborted: bool)
    requires CutAt(calls, aborts, aborted) && multiset(calls) <= multiset(CallsOf(groups))
    requires !aborted ==> multiset(calls) == multiset(CallsOf(groups))
    ensures aborted <==> exists c :: c in CallsOf(groups) && aborts(c)
  {
    if aborted {
      assert calls[|calls| - 1] in multiset(calls);
    } else {
      forall c | c in CallsOf(groups)
        ensures c in calls
      {
        assert c in multiset(CallsOf(groups));
      }
    }
  }

  // Each label's nodes in order, the labels in any order, up to the first callback that
  // aborts the test. It is cut off exactly when some callback of the groups aborts.
  method RunTestGroupNodes(groups: Groups, skipOptional: bool, fails: Call -> bool, aborts: Call -> bool)
    returns (calls: seq<Call>, failed: bool, aborted: bool)
    ensures aborted <==> exists c :: c in CallsOf(groups) && aborts(c)
    ensures CutAt(calls, aborts, aborted)
    ensures !aborted ==> multiset(calls) == multiset(CallsOf(groups)) && failed == Verdict(groups, skipOptional, fails)
    ensures multiset(calls) <= multiset(CallsOf(groups)) && (failed ==> Verdict(groups, skipOptional, fails))
  {
    calls, failed, aborted := [], false, false;
    var rest := groups.Keys;
    assert groups.Keys - rest == {};
    while rest != {}
      invariant rest <= groups.Keys
      invariant FlatDone(groups, skipOptional, fails, groups.Keys - rest, calls, failed)
      invariant NoneAborts(calls, aborts)
    {
      hide FlatDone, GroupDone, NoneAborts, CutAt, CallsOf, Verdict;
      var l :| l in rest;
      ghost var labels := groups.Keys - rest;
      rest := rest - {l};
      assert groups.Keys - rest == labels + {l};
      if |groups[l]| == 0 && !skipOptional {
        EmptyGroup(groups, l, fails);
        FlatStep(groups, skipOptional, fails, labels, calls, failed, l, [], false);
        assert calls + [] == calls;
        failed := true;
        continue;
      }
      var ran, bad, cut := RunGroup(groups, l, fails, aborts);
      NoneAbortsTwice(calls, ran, aborts, cut);
      if cut {
        FlatCut(groups, skipOptional, fails, labels, calls, failed, l, ran, bad);
        AbortedWhen(groups, calls + ran, aborts, true);
        return calls + ran, failed || bad, true;
      }
      FlatStep(groups, skipOptional, fails, labels, calls, failed, l, ran, bad);
      calls, failed := calls + ran, failed || bad;
    }
    AllLabels(groups);
    assert groups.Keys - rest == groups.Keys;
    AbortedWhen(groups, calls, aborts, false);
  }

  lemma EmptyGroup(groups: Groups, l: string, fails: Call -> bool)
    requires l in groups && groups[l] == []
    ensures GroupDone(groups, l, fails, [], false)
  {
    assert FirstCalls(groups, l, 0) == {};
  }

  // ---- The tree runner: a subtest a label, below it a subtest a node ----

  // A callback that aborts ends its own subtest, which ends with the callback anyway.

  // next: the labels whose subtest has started, and how many node subtests each has
  // created; pending: node subtests created and not yet run.
  datatype Tree = Tree(next: map<string, nat>, pending: set<Call>, calls: seq<Call>, failed: bool)

  datatype Step = Start(group: string) | Create(group: string) | Leaf(call: Call)

  const ROOT := Tree(map[], {}, [], false)

  ghost predicate Enabled(groups: Groups, s: Tree, step: Step) {
    match step
    case Start(l) => l in groups && l !in s.next
    case Create(l) => l in groups && l in s.next && s.next[l] < |groups[l]|
    case Leaf(c) => c in s.pending
  }

  function After(groups: Groups, skipOptional: bool, fails: Call -> bool, s: Tree, step: Step): Tree
    requires Enabled(groups, s, step)
  {
    match step
    case Start(l) => s.(next := s.next[l := 0], failed := s.failed || (groups[l] == [] && !skipOptional))
    case Create(l) =>
      var i := s.next[l];
      s.(next := s.next[l := i + 1], pending := s.pending + {Call(l, i, groups[l][i])})
    case Leaf(c) => s.(pending := s.pending - {c}, calls := s.calls + [c], failed := s.failed || fails(c))
  }

  ghost predicate Reaches(groups: Groups, skipOptional: bool, fails: Call -> bool, s: Tree, steps: seq<Step>)
    decreases |steps|
  {
    if steps == [] then s == ROOT else
    var last := steps[|steps| - 1];
    exists before :: Reaches(groups, skipOptional, fails, before, steps[..|steps| - 1])
      && Enabled(groups, before, last) && s == After(groups, skipOptional, fails, before, last)
  }

  ghost predicate Terminal(groups: Groups, s: Tree) {
    forall step :: !Enabled(groups, s, step)
  }

  ghost function Created(groups: Groups, next: map<string, nat>): set<Call> {
    set l, i | l in next && l in groups && 0 <= i < next[l] && i < |groups[l]| :: Call(l, i, groups[l][i])
  }

  ghost predicate Inv(groups: Groups, skipOptional: bool, fails: Call -> bool, s: Tree) {
    && s.next.Keys <= groups.Keys
    && (forall l :: l in s.next ==> s.next[l] <= |groups[l]|)
    && multiset(s.calls) + multiset(s.pending) == multiset(Created(groups, s.next))
    && (s.failed <==>
        (!skipOptional && AnyEmpty(groups, s.next.Keys)) || exists i :: 0 <= i < |s.calls| && fails(s.calls[i]))
  }

  lemma StartOne(groups: Groups, next: map<string, nat>, l: string)
    requires l !in next
    ensures Created(groups, next[l := 0]) == Created(groups, next)
    ensures next[l := 0].Keys == next.Keys + {l} && |next[l := 0]| == |next| + 1
  {
    OneMore(next.Keys, l);
    assert next[l := 0].Keys == next.Keys + {l};
  }

  lemma InvStart(groups: Groups, skipOptional: bool, fails: Call -> bool, s: Tree, l: string)
    requires Inv(groups, skipOptional, fails, s) && Enabled(groups, s, Start(l))
    ensures Inv(groups, skipOptional, fails, After(groups, skipOptional, fails, s, Start(l)))
  {
    StartOne(groups, s.next, l);
    OneLabelMore(groups, s.next.Keys, l);
  }

  lemma CreateOne(groups: Groups, next: map<string, nat>, l: string)
    requires l in groups && l in next && next[l] < |groups[l]|
    ensures
      var call := Call(l, next[l], groups[l][next[l]]);
      && call !in Created(groups, next)
      && Created(groups, next[l := next[l] + 1]) == Created(groups, next) + {call}
      && next[l := next[l] + 1].Keys == next.Keys && |next[l := next[l] + 1]| == |next|
  {
    assert next[l := next[l] + 1].Keys == next.Keys;
  }

  lemma InvCreate(groups: Groups, skipOptional: bool, fails: Call -> bool, s: Tree, l: string)
    requires Inv(groups, skipOptional, fails, s) && Enabled(groups, s, Create(l))
    ensures Inv(groups, skipOptional, fails, After(groups, skipOptional, fails, s, Create(l)))
  {
    hide Created;
    var call := Call(l, s.next[l], groups[l][s.next[l]]);
    CreateOne(groups, s.next, l);
    OneMore(Created(groups, s.next), call);
    assert call !in s.pending by {
      assert multiset(s.pending)[call] <= multiset(Created(groups, s.next))[call];
    }
    OneMore(s.pending, call);
  }

  lemma InvLeaf(groups: Groups, skipOptional: bool, fails: Call -> bool, s: Tree, c: Call)
    requires Inv(groups, skipOptional, fails, s) && Enabled(groups, s, Leaf(c))
    ensures Inv(groups, skipOptional, fails, After(groups, skipOptional, fails, s, Leaf(c)))
  {
    var s' := After(groups, skipOptional, fails, s, Leaf(c));
    assert s.pending == s'.pending + {c};
    assert s'.calls[..|s.calls|] == s.calls && s'.calls[|s.calls|] == c;
  }

  lemma {:induction false} InvHolds(groups: Groups, skipOptional: bool, fails: Call -> bool, s: Tree, steps: seq<Step>)
    requires Reaches(groups, skipOptional, fails, s, steps)
    ensures Inv(groups, skipOptional, fails, s)
    decreases |steps|
  {
    if steps == [] {
      assert Created(groups, s.next) == {};
    } else {
      var last := steps[|steps| - 1];
      var before :| Reaches(groups, skipOptional, fails, before, steps[..|steps| - 1])
        && Enabled(groups, before, last) && s == After(groups, skipOptional, fails, before, last);
      InvHolds(groups, skipOptional, fails, before, steps[..|steps| - 1]);
      match last {
        case Start(l) => InvStart(groups, skipOptional, fails, before, l);
        case Create(l) => InvCreate(groups, skipOptional, fails, before, l);
        case Leaf(c) => InvLeaf(groups, skipOptional, fails, before, c);
      }
    }
  }

  // Whatever the interleaving of parallel subtests, and whatever callbacks abort, a
  // finished tree run has made the calls of the flat run that none aborts, each once, and
  // has its verdict.
  lemma {:induction false} TreeIsFlat(groups: Groups, skipOptional: bool, fails: Call -> bool, s: Tree,
                                      steps: seq<Step>)
    requires Reaches(groups, skipOptional, fails, s, steps) && Terminal(groups, s)
    ensures multiset(s.calls) == multiset(CallsOf(groups))
    ensures s.failed == Verdict(groups, skipOptional, fails)
  {
    InvHolds(groups, skipOptional, fails, s, steps);
    forall l | l in groups
      ensures l in s.next && s.next[l] == |groups[l]|
    {
      assert !Enabled(groups, s, Start(l)) && !Enabled(groups, s, Create(l));
    }
    assert s.next.Keys == groups.Keys;
    assert Created(groups, s.next) == CallsOf(groups);
    if c :| c in s.pending {
      assert Enabled(groups, s, Leaf(c));
    }
    assert AnyEmpty(groups, s.next.Keys) <==> exists l :: l in groups && groups[l] == [];
    CallsAnyFail(s.calls, CallsOf(groups), fails);
  }

  lemma CallsAnyFail(calls: seq<Call>, all: set<Call>, fails: Call -> bool)
    requires multiset(calls) == multiset(all)
    ensures (exists i :: 0 <= i < |calls| && fails(calls[i])) <==> exists c :: c in all && fails(c)
  {
    forall i | 0 <= i < |calls|
      ensures calls[i] in all
    {
      assert calls[i] in multiset(calls);
    }
    forall c | c in all
      ensures c in calls
    {
      assert c in multiset(all);
    }
  }

  // A run has as many steps as it has started labels, created subtests and made calls.
  ghost function Progress(groups: Groups, s: Tree): nat {
    |s.next| + |Created(groups, s.next)| + |s.calls|
  }

  lemma StepGrows(groups: Groups, skipOptional: bool, fails: Call -> bool, s: Tree, step: Step)
    requires Enabled(groups, s, step)
    ensures Progress(groups, After(groups, skipOptional, fails, s, step)) == Progress(groups, s) + 1
  {
    hide Created;
    match step {
      case Start(l) =>
        StartOne(groups, s.next, l);
      case Create(l) =>
        CreateOne(groups, s.next, l);
        OneMore(Created(groups, s.next), Call(l, s.next[l], groups[l][s.next[l]]));
      case Leaf(c) =>
    }
  }

  lemma ProgressBounded(groups: Groups, skipOptional: bool, fails: Call -> bool, s: Tree)
    requires Inv(groups, skipOptional, fails, s)
    ensures Progress(groups, s) <= |groups| + 2 * |CallsOf(groups)|
  {
    Cardinality(s.next.Keys, groups.Keys);
    Cardinality(Created(groups, s.next), CallsOf(groups));
    assert |multiset(s.calls)| + |multiset(s.pending)| == |multiset(Created(groups, s.next))|;
  }

  // A tree run cannot go on for ever.
  lemma {:induction false} TreeEnds(groups: Groups, skipOptional: bool, fails: Call -> bool, s: Tree, steps: seq<Step>)
    requires Reaches(groups, skipOptional, fails, s, steps)
    ensures |steps| == Progress(groups, s) <= |groups| + 2 * |CallsOf(groups)|
    decreases |steps|
  {
    InvHolds(groups, skipOptional, fails, s, steps);
    ProgressBounded(groups, skipOptional, fails, s);
    hide Inv, After, CallsOf;
    if steps == [] {
      assert Created(groups, s.next) == {};
    } else {
      var last := steps[|steps| - 1];
      var before :| Reaches(groups, skipOptional, fails, before, steps[..|steps| - 1])
        && Enabled(groups, before, last) && s == After(groups, skipOptional, fails, before, last);
      TreeEnds(groups, skipOptional, fails, before, steps[..|steps| - 1]);
      StepGrows(groups, skipOptional, fails, before, last);
    }
  }
}
