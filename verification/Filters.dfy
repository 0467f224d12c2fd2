// The listing filters of testkit_v2/util: one record of conditions an object kind,
// an Apply pass for one record, and a fold over a list of records.
module Filters {
  import opened Wrappers
  import opened Conditions

  datatype Ns = Ns(name: string, created: int)
  datatype Node =
    Node(name: string, osImage: string, kernel: string, kubelet: string, conditions: seq<(string, string)>)
  datatype Pod = Pod(name: string, nodeName: string, phase: string)
  datatype Vm = Vm(name: string, namespace: string, phase: string, ip: string)
  datatype Vd = Vd(name: string, namespace: string, phase: string)
  datatype Vmbd = Vmbd(name: string, namespace: string, vmName: string, vdName: string, phase: string)
  datatype BlockDevice = BlockDevice(name: string, nodeName: string, consumable: bool, size: int)
  datatype Lvg = Lvg(name: string, phase: string, nodes: seq<string>)

  datatype NsFilter = NsFilter(name: Condition) {
    predicate Accepts(ns: Ns) { Check(name, ns.name) }
  }

  datatype NodeFilter = NodeFilter(name: Condition, os: Condition, kernel: Condition, kubelet: Condition) {
    predicate Accepts(node: Node) {
      Check(name, node.name) && Check(os, node.osImage) && Check(kernel, node.kernel) && Check(kubelet, node.kubelet)
    }
  }

  datatype PodFilter = PodFilter(name: Condition, node: Condition) {
    predicate Accepts(pod: Pod) { Check(name, pod.name) && Check(node, pod.nodeName) }
  }

  datatype VmFilter = VmFilter(namespace: Condition, name: Condition, phase: Condition) {
    predicate Accepts(vm: Vm) { Check(name, vm.name) && Check(namespace, vm.namespace) && Check(phase, vm.phase) }
  }

  datatype VdFilter = VdFilter(namespace: Condition, name: Condition, phase: Condition) {
    predicate Accepts(vd: Vd) { Check(name, vd.name) && Check(namespace, vd.namespace) && Check(phase, vd.phase) }
  }

  datatype VmbdFilter =
    VmbdFilter(namespace: Condition, name: Condition, vmName: Condition, vdName: Condition, phase: Condition)
  {
    // The namespace field only switches a test on; the test applies the name condition.
    predicate Accepts(b: Vmbd) {
      && Check(name, b.name)
      && (!namespace.Unset? ==> Check(name, b.namespace))
      && AcceptsRest(b)
    }

    predicate AcceptsRest(b: Vmbd) {
      Check(vmName, b.vmName) && Check(vdName, b.vdName) && Check(phase, b.phase)
    }

    // What the field names and the sibling filters lead a caller to expect.
    predicate Expected(b: Vmbd) {
      Check(name, b.name) && Check(namespace, b.namespace) && AcceptsRest(b)
    }

    predicate TextOnly() {
      && (namespace.Unset? || namespace.Text?) && (name.Unset? || name.Text?)
      && (vmName.Unset? || vmName.Text?) && (vdName.Unset? || vdName.Text?) && (phase.Unset? || phase.Text?)
    }
  }

  // Go's conversion to an integer drops the fraction.
  function Whole(x: real): int {
    if x >= 0.0 then x.Floor else -(-x).Floor
  }

  datatype BdFilter = BdFilter(name: Condition, node: Condition, consumable: Condition, sizeGi: real) {
    // Within 10 MiB of the whole GiB asked for; 0 asks for none.
    predicate Accepts(bd: BlockDevice) {
      && Check(name, bd.name)
      && Check(node, bd.nodeName)
      && CheckCondition(consumable, FlagValue(bd.consumable))
      && (sizeGi != 0.0 ==>
        Whole(sizeGi) * 0x4000_0000 - 10 * 0x10_0000 <= bd.size <= Whole(sizeGi) * 0x4000_0000 + 10 * 0x10_0000)
    }
  }

  datatype LvgFilter = LvgFilter(name: Condition, node: Condition, phase: Condition) {
    predicate Accepts(lvg: Lvg) {
      && Check(name, lvg.name)
      && (!node.Unset? ==> lvg.nodes != [] && Check(node, lvg.nodes[0]))
      && Check(phase, lvg.phase)
    }
  }

  // ---- Which condition speaks of which field ----

  lemma NsFilterSays(f: NsFilter, ns: Ns)
    ensures f.Accepts(ns) <==> Says(f.name, ns.name)
  {
    CheckSays(f.name, ns.name);
  }

  lemma NodeFilterSays(f: NodeFilter, node: Node)
    ensures f.Accepts(node) <==>
      && Says(f.name, node.name) && Says(f.os, node.osImage)
      && Says(f.kernel, node.kernel) && Says(f.kubelet, node.kubelet)
  {
    CheckSays(f.name, node.name);
    CheckSays(f.os, node.osImage);
    CheckSays(f.kernel, node.kernel);
    CheckSays(f.kubelet, node.kubelet);
  }

  lemma PodFilterSays(f: PodFilter, pod: Pod)
    ensures f.Accepts(pod) <==> Says(f.name, pod.name) && Says(f.node, pod.nodeName)
  {
    CheckSays(f.name, pod.name);
    CheckSays(f.node, pod.nodeName);
  }

  lemma VmFilterSays(f: VmFilter, vm: Vm)
    ensures f.Accepts(vm) <==> Says(f.namespace, vm.namespace) && Says(f.name, vm.name) && Says(f.phase, vm.phase)
  {
    CheckSays(f.namespace, vm.namespace);
    CheckSays(f.name, vm.name);
    CheckSays(f.phase, vm.phase);
  }

  lemma VdFilterSays(f: VdFilter, vd: Vd)
    ensures f.Accepts(vd) <==> Says(f.namespace, vd.namespace) && Says(f.name, vd.name) && Says(f.phase, vd.phase)
  {
    CheckSays(f.namespace, vd.namespace);
    CheckSays(f.name, vd.name);
    CheckSays(f.phase, vd.phase);
  }

  // Whatever the namespace condition says, the name condition is asked about the namespace.
  lemma VmbdFilterSays(f: VmbdFilter, b: Vmbd)
    ensures f.Accepts(b) <==>
      && Says(f.name, b.name) && (f.namespace != Unset ==> Says(f.name, b.namespace))
      && Says(f.vmName, b.vmName) && Says(f.vdName, b.vdName) && Says(f.phase, b.phase)
    ensures f.Expected(b) <==>
      && Says(f.name, b.name) && Says(f.namespace, b.namespace)
      && Says(f.vmName, b.vmName) && Says(f.vdName, b.vdName) && Says(f.phase, b.phase)
  {
    CheckSays(f.name, b.name);
    CheckSays(f.name, b.namespace);
    CheckSays(f.namespace, b.namespace);
    CheckSays(f.vmName, b.vmName);
    CheckSays(f.vdName, b.vdName);
    CheckSays(f.phase, b.phase);
  }

  // A size counts in whole GiB, the fraction dropped, and may be off by 10 MiB.
  lemma BdFilterSays(f: BdFilter, bd: BlockDevice, gib: int)
    requires f.sizeGi >= 0.0 ==> gib as real <= f.sizeGi < gib as real + 1.0
    requires f.sizeGi < 0.0 ==> gib as real - 1.0 < f.sizeGi <= gib as real
    ensures f.Accepts(bd) <==>
      && Says(f.name, bd.name) && Says(f.node, bd.nodeName)
      && (f.consumable == Unset || f.consumable == Flag(bd.consumable))
      && (f.sizeGi == 0.0 || -10485760 <= bd.size - 1073741824 * gib <= 10485760)
  {
    CheckSays(f.name, bd.name);
    CheckSays(f.node, bd.nodeName);
    TypesMustAgree(f.consumable, "", bd.consumable);
  }

  // A condition on the node asks for a first node.
  lemma LvgFilterSays(f: LvgFilter, lvg: Lvg)
    ensures f.Accepts(lvg) <==>
      && Says(f.name, lvg.name) && Says(f.phase, lvg.phase)
      && (f.node == Unset || (|lvg.nodes| > 0 && Says(f.node, lvg.nodes[0])))
  {
    CheckSays(f.name, lvg.name);
    CheckSays(f.phase, lvg.phase);
    if lvg.nodes != [] { CheckSays(f.node, lvg.nodes[0]); }
  }

  // ---- One pass ----

  function Keep<T>(items: seq<T>, accepts: T -> bool): seq<T> {
    if items == [] then []
    else (if accepts(items[0]) then [items[0]] else []) + Keep(items[1..], accepts)
  }

  lemma {:induction false} KeepAppend<T>(a: seq<T>, b: seq<T>, accepts: T -> bool)
    ensures Keep(a + b, accepts) == Keep(a, accepts) + Keep(b, accepts)
  {
    if a == [] {
      assert a + b == b;
    } else {
      assert (a + b)[0] == a[0] && (a + b)[1..] == a[1..] + b;
      KeepAppend(a[1..], b, accepts);
      var first := if accepts(a[0]) then [a[0]] else [];
      assert Keep(a + b, accepts) == first + Keep((a + b)[1..], accepts);
      assert Keep(a, accepts) == first + Keep(a[1..], accepts);
    }
  }

  method Apply<T>(accepts: T -> bool, items: seq<T>) returns (resp: seq<T>)
    ensures resp == Keep(items, accepts)
  {
    resp := [];
    for i := 0 to |items|
      invariant resp == Keep(items[..i], accepts)
    {
      assert items[..i + 1] == items[..i] + [items[i]];
      KeepAppend(items[..i], [items[i]], accepts);
      if !accepts(items[i]) { continue; }
      resp := resp + [items[i]];
    }
    assert items[..|items|] == items;
  }

  lemma {:induction false} KeepElements<T>(items: seq<T>, accepts: T -> bool)
    ensures forall x :: x in Keep(items, accepts) <==> x in items && accepts(x)
    ensures |Keep(items, accepts)| <= |items|
  {
    if items != [] {
      KeepElements(items[1..], accepts);
    }
  }

  ghost function Positions<T>(items: seq<T>, p: T -> bool): set<int> {
    set i | 0 <= i < |items| && p(items[i])
  }

  // As many are kept as there are positions of accepted items.
  lemma {:induction false} KeepCount<T>(items: seq<T>, p: T -> bool)
    ensures |Keep(items, p)| == |Positions(items, p)|
    decreases |items|
  {
    if items != [] {
      var n := |items| - 1;
      var rest, last := items[..n], items[n];
      KeepCount(rest, p);
      assert items == rest + [last];
      KeepAppend(rest, [last], p);
      assert Positions(items, p) == if p(last) then Positions(rest, p) + {n} else Positions(rest, p);
    }
  }

  // Equal where it matters is equal.
  lemma {:induction false} KeepSame<T>(items: seq<T>, p: T -> bool, q: T -> bool)
    requires forall x :: x in items ==> p(x) == q(x)
    ensures Keep(items, p) == Keep(items, q)
  {
    if items != [] {
      KeepSame(items[1..], p, q);
    }
  }

  function Both<T>(p: T -> bool, q: T -> bool): T -> bool {
    x => p(x) && q(x)
  }

  lemma {:induction false} KeepTwice<T>(items: seq<T>, p: T -> bool, q: T -> bool)
    ensures Keep(Keep(items, p), q) == Keep(items, Both(p, q))
  {
    if items != [] {
      KeepTwice(items[1..], p, q);
      KeepAppend(if p(items[0]) then [items[0]] else [], Keep(items[1..], p), q);
    }
  }

  // ---- A list of filters ----

  function ApplyAll<F, T>(accepts: (F, T) -> bool, filters: seq<F>, items: seq<T>): seq<T> {
    if filters == [] then items
    else ApplyAll(accepts, filters[1..], Keep(items, x => accepts(filters[0], x)))
  }

  ghost predicate AllAccept<F(!new), T>(accepts: (F, T) -> bool, filters: seq<F>, x: T) {
    forall f :: f in filters ==> accepts(f, x)
  }

  ghost function Accepted<F(!new), T>(accepts: (F, T) -> bool, filters: seq<F>): T -> bool {
    x => AllAccept(accepts, filters, x)
  }

  method List<F, T>(accepts: (F, T) -> bool, filters: seq<F>, items: seq<T>) returns (resp: seq<T>)
    ensures resp == ApplyAll(accepts, filters, items)
  {
    resp := items;
    for i := 0 to |filters|
      invariant ApplyAll(accepts, filters[i..], resp) == ApplyAll(accepts, filters, items)
    {
      resp := Apply(x => accepts(filters[i], x), resp);
      assert filters[i..][1..] == filters[i + 1..];
    }
  }

  // The fold is one order-preserving pass that keeps what every filter accepts.
  lemma {:induction false} FoldIsConjunction<F(!new), T>(accepts: (F, T) -> bool, filters: seq<F>, items: seq<T>)
    ensures ApplyAll(accepts, filters, items) == Keep(items, Accepted(accepts, filters))
    decreases |filters|
  {
    if filters == [] {
      KeepAll(items, Accepted(accepts, filters));
    } else {
      var first := (x: T) => accepts(filters[0], x);
      var rest := Accepted(accepts, filters[1..]);
      FoldIsConjunction(accepts, filters[1..], Keep(items, first));
      KeepTwice(items, first, rest);
      forall x | x in items
        ensures Both(first, rest)(x) == Accepted(accepts, filters)(x)
      {
        assert forall f :: f in filters <==> f == filters[0] || f in filters[1..];
      }
      KeepSame(items, Both(first, rest), Accepted(accepts, filters));
    }
  }

  lemma {:induction false} KeepAll<T>(items: seq<T>, p: T -> bool)
    requires forall x :: x in items ==> p(x)
    ensures Keep(items, p) == items
  {
    if items != [] {
      KeepAll(items[1..], p);
    }
  }

  // Neither the order of the filters nor repeating one matters.
  lemma {:induction false} OrderAndRepetition<F(!new), T>(accepts: (F, T) -> bool, a: seq<F>, b: seq<F>, items: seq<T>)
    requires forall f :: f in a <==> f in b
    ensures ApplyAll(accepts, a, items) == ApplyAll(accepts, b, items)
  {
    FoldIsConjunction(accepts, a, items);
    FoldIsConjunction(accepts, b, items);
    KeepSame(items, Accepted(accepts, a), Accepted(accepts, b));
  }

  // ---- Splitting by a condition and its negation ----

  ghost predicate IsSubsequence<T>(part: seq<T>, whole: seq<T>) {
    || part == []
    || (whole != [] && part[0] == whole[0] && IsSubsequence(part[1..], whole[1..]))
    || (whole != [] && IsSubsequence(part, whole[1..]))
  }

  lemma {:induction false} KeepIsSubsequence<T>(items: seq<T>, p: T -> bool)
    ensures IsSubsequence(Keep(items, p), items)
  {
    if items != [] {
      KeepIsSubsequence(items[1..], p);
      if p(items[0]) {
        assert Keep(items, p)[1..] == Keep(items[1..], p);
      } else {
        assert Keep(items, p) == Keep(items[1..], p);
      }
    }
  }

  lemma {:induction false} KeepSplits<T>(items: seq<T>, p: T -> bool, q: T -> bool)
    requires forall x :: x in items ==> p(x) == !q(x)
    ensures multiset(Keep(items, p)) + multiset(Keep(items, q)) == multiset(items)
  {
    if items != [] {
      KeepSplits(items[1..], p, q);
      assert items == [items[0]] + items[1..];
    }
  }

  // Filtering by a string condition and by its "!" form splits a list in two,
  // each part in the list's order, every item in exactly one part.
  lemma NegationSplits<T>(items: seq<T>, w: string, field: T -> string)
    requires w != "" && !NotShaped(w)
    ensures
      var yes := Keep(items, x => Check(Text(w), field(x)));
      var no := Keep(items, x => Check(Text("!" + w), field(x)));
      && multiset(yes) + multiset(no) == multiset(items)
      && IsSubsequence(yes, items) && IsSubsequence(no, items)
  {
    var p := (x: T) => Check(Text(w), field(x));
    var q := (x: T) => Check(Text("!" + w), field(x));
    Negation(w);
    forall x | x in items ensures p(x) == !q(x) {
      assert Check(Text("!" + w), field(x)) == !Check(Text(w), field(x));
    }
    KeepSplits(items, p, q);
    KeepIsSubsequence(items, p);
    KeepIsSubsequence(items, q);
  }

  lemma WhereSplits<T>(items: seq<T>, f: Where, field: T -> string)
    ensures
      var yes := Keep(items, x => Check(Of(f), field(x)));
      var no := Keep(items, x => Check(Of(f.Complement()), field(x)));
      && multiset(yes) + multiset(no) == multiset(items)
      && IsSubsequence(yes, items) && IsSubsequence(no, items)
  {
    var p := (x: T) => Check(Of(f), field(x));
    var q := (x: T) => Check(Of(f.Complement()), field(x));
    forall x | x in items ensures p(x) == !q(x) {
      WhereComplement(f, field(x));
    }
    KeepSplits(items, p, q);
    KeepIsSubsequence(items, p);
    KeepIsSubsequence(items, q);
  }

  // ---- The attachment filter's namespace field ----

  lemma Satisfiable(c: Condition) returns (v: string)
    requires c.Unset? || c.Text?
    ensures Check(c, v)
  {
    v := "";
    if c.Text? {
      var yes, no := NeverTrivial(c.text);
      v := yes;
    }
  }

  // Of filters made of string conditions, those without a namespace condition, and
  // those whose namespace condition repeats the name condition, are exactly the ones
  // that select what their fields say.
  lemma NamespaceFieldMisread(f: VmbdFilter)
    requires f.TextOnly()
    ensures (forall b :: f.Accepts(b) == f.Expected(b)) <==> f.namespace.Unset? || f.namespace == f.name
  {
    if !f.namespace.Unset? && f.namespace != f.name {
      var vm := Satisfiable(f.vmName);
      var vd := Satisfiable(f.vdName);
      var phase := Satisfiable(f.phase);
      var name := Satisfiable(f.name);
      var ns: string;
      if f.name.Unset? {
        var yes, no := NeverTrivial(f.namespace.text);
        ns := no;
      } else {
        SameMeaningSameText(f.name.text, f.namespace.text);
        ns :| Check(f.name, ns) != Check(f.namespace, ns);
      }
      var b := Vmbd(name, ns, vm, vd, phase);
      assert f.Accepts(b) != f.Expected(b);
    }
  }
}
