// DeleteNs and cleanUpNs of testkit_v2/util, on a cluster nobody else changes and that
// removes a deleted namespace at once.
module Namespaces {
  import opened Wrappers
  import opened Conditions
  import opened Filters

  const CLEAN_UP_SECONDS := 30 * 60
  const TMP_PREFIX := "e2e-tmp-"

  function ByFilter(): (NsFilter, Ns) -> bool {
    (f: NsFilter, ns: Ns) => f.Accepts(ns)
  }

  function Selected(nss: seq<Ns>, filters: seq<NsFilter>): seq<Ns> {
    ApplyAll(ByFilter(), filters, nss)
  }

  function NotIn(gone: seq<Ns>): Ns -> bool {
    x => x !in gone
  }

  function Except(gone: Ns): Ns -> bool {
    x => x != gone
  }

  function Without(nss: seq<Ns>, gone: seq<Ns>): seq<Ns> {
    Keep(nss, NotIn(gone))
  }

  // The namespaces left when the first n delete requests of a call go through.
  function AfterDelete(nss: seq<Ns>, filters: seq<NsFilter>, n: nat): seq<Ns> {
    var selected := Selected(nss, filters);
    if |selected| == |nss| || n > |selected| then nss else Without(nss, selected[..n])
  }

  lemma {:induction false} KeepShorter<T>(items: seq<T>, p: T -> bool) returns (x: T)
    requires |Keep(items, p)| < |items|
    ensures x in items && !p(x)
  {
    if p(items[0]) {
      x := KeepShorter(items[1..], p);
    } else {
      x := items[0];
    }
  }

  // A call that deletes something leaves a namespace it did not select.
  lemma SomeoneStays(nss: seq<Ns>, filters: seq<NsFilter>, n: nat) returns (x: Ns)
    requires nss != []
    ensures x in AfterDelete(nss, filters, n)
    ensures AfterDelete(nss, filters, n) != nss ==> x !in Selected(nss, filters)
  {
    var selected := Selected(nss, filters);
    FoldIsConjunction(ByFilter(), filters, nss);
    KeepElements(nss, Accepted(ByFilter(), filters));
    if |selected| == |nss| || n > |selected| {
      x := nss[0];
    } else {
      x := KeepShorter(nss, Accepted(ByFilter(), filters));
      KeepElements(nss, NotIn(selected[..n]));
      assert x !in selected[..n];
    }
  }

  function AfterDeletes(nss: seq<Ns>, calls: seq<(seq<NsFilter>, nat)>): seq<Ns>
    decreases |calls|
  {
    if calls == [] then nss else AfterDeletes(AfterDelete(nss, calls[0].0, calls[0].1), calls[1..])
  }

  // No sequence of calls, complete or cut short, empties a cluster.
  lemma {:induction false} NeverEmptied(nss: seq<Ns>, calls: seq<(seq<NsFilter>, nat)>)
    requires nss != []
    ensures AfterDeletes(nss, calls) != []
    decreases |calls|
  {
    if calls != [] {
      var x := SomeoneStays(nss, calls[0].0, calls[0].1);
      NeverEmptied(AfterDelete(nss, calls[0].0, calls[0].1), calls[1..]);
    }
  }

  // A label of section 2.1 of RFC 1123, in the lower case Kubernetes asks for.
  predicate HostLabel(name: string) {
    && name != "" && name[0] != '-'
    && (forall i :: 0 <= i < |name| ==> 'a' <= name[i] <= 'z' || '0' <= name[i] <= '9' || name[i] == '-')
  }

  // As a condition, a host label selects the namespace of that name.
  lemma PlainName(name: string, v: string)
    requires HostLabel(name)
    ensures Check(Text(name), v) <==> v == name
  {
    NotLikeBytes(name);
    CheckMeansPattern(name, v);
  }

  predicate HasPrefix(s: string, prefix: string) {
    prefix <= s
  }

  predicate Stale(ns: Ns, now: int, testNs: string) {
    ns.name != testNs && HasPrefix(ns.name, TMP_PREFIX) && now - ns.created > CLEAN_UP_SECONDS
  }

  // Half an hour old, a temporary name, and not the run's own.
  lemma StaleMeans(ns: Ns, now: int, testNs: string)
    ensures Stale(ns, now, testNs) <==>
      ns.name != testNs && now > ns.created + 1800 && exists rest :: ns.name == "e2e-tmp-" + rest
  {
    if "e2e-tmp-" <= ns.name {
      assert ns.name == "e2e-tmp-" + ns.name[|"e2e-tmp-"|..];
    }
  }

  ghost predicate WellNamed(nss: seq<Ns>) {
    && (forall ns :: ns in nss ==> HostLabel(ns.name))
    && (forall a, b :: a in nss && b in nss && a.name == b.name ==> a == b)
  }

  // In a well-named cluster a host label selects its namespace alone.
  lemma {:induction false} SelectedByName(whole: seq<Ns>, nss: seq<Ns>, ns: Ns)
    requires WellNamed(whole) && ns in whole && forall x :: x in nss ==> x in whole
    ensures Selected(nss, [NsFilter(Text(ns.name))]) == Keep(nss, x => x == ns)
  {
    var filters := [NsFilter(Text(ns.name))];
    FoldIsConjunction(ByFilter(), filters, nss);
    forall x | x in nss
      ensures Accepted(ByFilter(), filters)(x) == (x == ns)
    {
      PlainName(ns.name, x.name);
      assert forall f :: f in filters <==> f == filters[0];
      assert ByFilter()(filters[0], x) == filters[0].Accepts(x);
    }
    KeepSame(nss, Accepted(ByFilter(), filters), x => x == ns);
  }

  // Deleting by name: any number of granted requests leaves the other namespaces, all of
  // them leave nothing else.
  lemma {:induction false} DeletedByName(whole: seq<Ns>, nss: seq<Ns>, ns: Ns, n: nat)
    requires WellNamed(whole) && ns in whole && forall x :: x in nss ==> x in whole
    ensures
      var filters := [NsFilter(Text(ns.name))];
      && (forall x :: x in nss && x != ns ==> x in AfterDelete(nss, filters, n))
      && (n == |Selected(nss, filters)| < |nss| ==> AfterDelete(nss, filters, n) == Keep(nss, Except(ns)))
  {
    var selected := Selected(nss, [NsFilter(Text(ns.name))]);
    SelectedByName(whole, nss, ns);
    KeepElements(nss, x => x == ns);
    if n <= |selected| {
      KeepElements(nss, NotIn(selected[..n]));
      if n == |selected| {
        assert selected[..n] == selected;
        KeepSame(nss, NotIn(selected[..n]), Except(ns));
      }
    }
  }

  lemma ListedTmp(name: string)
    requires HasPrefix(name, TMP_PREFIX)
    ensures Check(Text("%e2e-tmp-%"), name)
  {
    CheckMeansPattern("%e2e-tmp-%", name);
    assert "%e2e-tmp-%"[1..|"%e2e-tmp-%"| - 1] == TMP_PREFIX;
    ContainsMiddle("", TMP_PREFIX, name[|TMP_PREFIX|..]);
    assert "" + TMP_PREFIX + name[|TMP_PREFIX|..] == name;
  }

  class Cluster {
    var nss: seq<Ns>

    constructor (nss: seq<Ns>)
      ensures this.nss == nss
    {
      this.nss := nss;
    }

    method ListNs(filters: seq<NsFilter>) returns (err: Error, resp: seq<Ns>)
      ensures resp == if err.None? then Selected(nss, filters) else []
    {
      err, resp := *, [];
      if err.None? {
        resp := List(ByFilter(), filters, nss);
      }
    }

    method DeleteNs(filters: seq<NsFilter>) returns (err: Error, ghost n: nat)
      modifies this
      ensures n <= |Selected(old(nss), filters)| && nss == AfterDelete(old(nss), filters, n)
      ensures err.None? ==> n == |Selected(old(nss), filters)| < |old(nss)|
    {
      var selected, all;
      n := 0;
      AllListed(nss);
      err, selected := ListNs(filters);
      if err.Some? { return; }
      err, all := ListNs([]);
      if err.Some? { return; }
      if |selected| == |all| {
        err := Some("can't delete all namespaces");
        return;
      }
      ghost var was := nss;
      AllListed(was);
      FewerSelected(was, filters);
      for i := 0 to |selected|
        invariant n == i && nss == Without(was, selected[..i])
      {
        err := *;
        if err.Some? { return; }
        DropOne(was, selected, i);
        var gone := selected[i];
        nss := Keep(nss, Except(gone));
        n := n + 1;
      }
      err := None;
      assert selected[..|selected|] == selected;
    }

    // Old temporary namespaces are deleted, all of them on a normal return whose listing
    // worked, and nothing else ever.
    method CleanUpNs(now: int, testNs: string) returns (fatal: Error, ghost listed: bool)
      modifies this
      ensures WellNamed(old(nss)) && fatal.None? && listed ==> nss == Keep(old(nss), x => !Stale(x, now, testNs))
      ensures WellNamed(old(nss)) ==> forall x :: x in old(nss) && !Stale(x, now, testNs) ==> x in nss
      ensures !listed ==> nss == old(nss)
    {
      ghost var was := nss;
      var err, found := ListNs([NsFilter(Text("%e2e-tmp-%"))]);
      listed, fatal := err.None?, None;
      ListedStale(was, now, testNs);
      SweptNone(was, now, testNs);
      for i := 0 to |found|
        invariant WellNamed(was) ==> nss == Remaining(was, now, testNs, found[..i])
        invariant !listed ==> found == [] && nss == was
      {
        fatal := CleanUpOne(now, testNs, found, i, was);
        if fatal.Some? { return; }
      }
      fatal := None;
      assert found[..|found|] == found;
      SweptAll(was, now, testNs, found);
    }

    method CleanUpOne(now: int, testNs: string, found: seq<Ns>, i: nat, ghost was: seq<Ns>) returns (fatal: Error)
      requires i < |found| && found[i] in was
      requires WellNamed(was) ==> nss == Remaining(was, now, testNs, found[..i])
      modifies this
      ensures WellNamed(was) && fatal.None? ==> nss == Remaining(was, now, testNs, found[..i + 1])
      ensures WellNamed(was) ==> forall x :: x in was && !Stale(x, now, testNs) ==> x in nss
    {
      var ns := found[i];
      SweepOne(was, now, testNs, found, i);
      hide Remaining, AfterDelete;
      fatal := None;
      if ns.name == testNs || !HasPrefix(ns.name, TMP_PREFIX) { return; }
      if now - ns.created > CLEAN_UP_SECONDS {
        ghost var n;
        fatal, n := DeleteNs([NsFilter(Text(ns.name))]);
        if WellNamed(was) { SweptByName(was, now, testNs, found[..i], ns, n); }
      }
    }
  }

  lemma AllListed(nss: seq<Ns>)
    ensures Selected(nss, []) == nss && Without(nss, []) == nss
  {
    KeepAll(nss, NotIn([]));
  }

  lemma FewerSelected(nss: seq<Ns>, filters: seq<NsFilter>)
    ensures |Selected(nss, filters)| <= |nss|
    ensures forall x :: x in Selected(nss, filters) ==> x in nss
  {
    FoldIsConjunction(ByFilter(), filters, nss);
    KeepElements(nss, Accepted(ByFilter(), filters));
  }

  lemma DropOne(nss: seq<Ns>, selected: seq<Ns>, i: nat)
    requires i < |selected|
    ensures Keep(Without(nss, selected[..i]), Except(selected[i])) == Without(nss, selected[..i + 1])
  {
    var p, q := NotIn(selected[..i]), Except(selected[i]);
    KeepTwice(nss, p, q);
    assert selected[..i + 1] == selected[..i] + [selected[i]];
    KeepSame(nss, Both(p, q), NotIn(selected[..i + 1]));
  }

  // Stale and already dealt with.
  predicate Swept(x: Ns, now: int, testNs: string, found: seq<Ns>) {
    Stale(x, now, testNs) && x in found
  }

  // The listing finds every stale namespace.
  lemma ListedStale(nss: seq<Ns>, now: int, testNs: string)
    ensures forall x :: x in nss && Stale(x, now, testNs) ==> x in Selected(nss, [NsFilter(Text("%e2e-tmp-%"))])
    ensures forall x :: x in Selected(nss, [NsFilter(Text("%e2e-tmp-%"))]) ==> x in nss
  {
    var filters := [NsFilter(Text("%e2e-tmp-%"))];
    FoldIsConjunction(ByFilter(), filters, nss);
    KeepElements(nss, Accepted(ByFilter(), filters));
    forall x | x in nss && Stale(x, now, testNs)
      ensures Accepted(ByFilter(), filters)(x)
    {
      ListedTmp(x.name);
      assert forall f :: f in filters <==> f == filters[0];
    }
  }

  function Remaining(nss: seq<Ns>, now: int, testNs: string, found: seq<Ns>): seq<Ns> {
    Keep(nss, NotSwept(now, testNs, found))
  }

  function NotSwept(now: int, testNs: string, found: seq<Ns>): Ns -> bool {
    x => !Swept(x, now, testNs, found)
  }

  lemma SweptNone(nss: seq<Ns>, now: int, testNs: string)
    ensures forall found: seq<Ns> :: found == [] ==> Remaining(nss, now, testNs, found) == nss
  {
    KeepAll(nss, NotSwept(now, testNs, []));
  }

  lemma SweepOne(nss: seq<Ns>, now: int, testNs: string, found: seq<Ns>, i: nat)
    requires i < |found|
    ensures !Stale(found[i], now, testNs) ==>
      Remaining(nss, now, testNs, found[..i + 1]) == Remaining(nss, now, testNs, found[..i])
    ensures Stale(found[i], now, testNs) ==>
      Remaining(nss, now, testNs, found[..i + 1]) == Keep(Remaining(nss, now, testNs, found[..i]), Except(found[i]))
    ensures forall x :: x in nss && !Stale(x, now, testNs) ==> x in Remaining(nss, now, testNs, found[..i])
  {
    var p, q, r := NotSwept(now, testNs, found[..i]), Except(found[i]), NotSwept(now, testNs, found[..i + 1]);
    assert found[..i + 1] == found[..i] + [found[i]];
    KeepElements(nss, p);
    KeepTwice(nss, p, q);
    if Stale(found[i], now, testNs) {
      KeepSame(nss, Both(p, q), r);
    } else {
      KeepSame(nss, r, p);
    }
  }

  lemma SweptByName(was: seq<Ns>, now: int, testNs: string, before: seq<Ns>, ns: Ns, n: nat)
    requires WellNamed(was) && ns in was && Stale(ns, now, testNs)
    ensures
      var nss := Remaining(was, now, testNs, before);
      var filters := [NsFilter(Text(ns.name))];
      && (forall x :: x in was && !Stale(x, now, testNs) ==> x in AfterDelete(nss, filters, n))
      && (n == |Selected(nss, filters)| < |nss| ==> AfterDelete(nss, filters, n) == Keep(nss, Except(ns)))
  {
    KeepElements(was, NotSwept(now, testNs, before));
    DeletedByName(was, Remaining(was, now, testNs, before), ns, n);
  }

  lemma {:induction false} SweptAll(was: seq<Ns>, now: int, testNs: string, found: seq<Ns>)
    ensures (forall x :: x in was && Stale(x, now, testNs) ==> x in found) ==>
      Remaining(was, now, testNs, found) == Keep(was, x => !Stale(x, now, testNs))
    ensures forall x :: x in was && !Stale(x, now, testNs) ==> x in Remaining(was, now, testNs, found)
  {
    KeepElements(was, NotSwept(now, testNs, found));
    if forall x :: x in was && Stale(x, now, testNs) ==> x in found {
      KeepSame(was, NotSwept(now, testNs, found), x => !Stale(x, now, testNs));
    }
  }
}
