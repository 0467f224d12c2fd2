// AddStaticNodes of testkit_v2/util/kube_node.go and the upserts it is made of.
//
// Every request to the server may fail, without effect; a run cut off after some
// request leaves the store a run with the next request failing leaves.
module StaticNodes {
  import opened FiniteSets
  import opened Wrappers
  import opened MergePatches
  import opened StaticInstances

  datatype CredentialSpec = CredentialSpec(user: string, key: string, others: map<string, string>)

  // What AddStaticNodes is asked for. hash8 is the first eight digits of an address's MD5.
  datatype Order = Order(name: string, user: string, key: string, ips: seq<string>, hash8: string -> string) {
    function CredentialName(): string { name + "rsa" }

    function Role(): string { "vm-" + name + "-worker" }

    function InstanceName(ip: string): string { "si-" + name + "-" + hash8(ip) }

    function Wanted(ip: string): Request { Request(Role(), ip, CredentialName()) }

    function Group(): Json {
      Obj(map["apiVersion" := Str("deckhouse.io/v1"), "kind" := Str("NodeGroup"),
              "metadata" := Obj(map["name" := Str(Role())]),
              "spec" := Obj(map["nodeType" := Str("Static"), "staticInstances" := StaticCount()])])
    }

    function StaticCount(): Json {
      Obj(map["count" := Num(|ips|),
              "labelSelector" := Obj(map["matchLabels" := Obj(map["node-role" := Str(Role())])])])
    }

    ghost predicate CollisionFree() {
      forall i, j :: 0 <= i < |ips| && 0 <= j < |ips| && hash8(ips[i]) == hash8(ips[j]) ==> ips[i] == ips[j]
    }
  }

  function Lookup<V>(m: map<string, V>, k: string): Option<V> {
    if k in m then Some(m[k]) else None
  }

  // The instances after the first n addresses have been ensured one by one.
  function Place(m: map<string, Instance>, v: nat, o: Order, n: nat): (map<string, Instance>, nat)
    requires n <= |o.ips|
  {
    if n == 0 then (m, v) else
    var (a, b) := Place(m, v, o, n - 1);
    EnsureIn(a, b, o.InstanceName(o.ips[n - 1]), o.Wanted(o.ips[n - 1]))
  }

  function EnsureIn(m: map<string, Instance>, v: nat, name: string, r: Request): (map<string, Instance>, nat) {
    var x := Ensured(Lookup(m, name), v, r);
    (m[name := x.value], if x == Lookup(m, name) then v else v + 1)
  }

  lemma EnsureInMatches(m: map<string, Instance>, v: nat, name: string, r: Request)
    ensures Matches(Lookup(EnsureIn(m, v, name, r).0, name), r)
    ensures Matches(Lookup(m, name), r) ==> EnsureIn(m, v, name, r) == (m, v)
    ensures forall k :: k != name ==> Lookup(EnsureIn(m, v, name, r).0, k) == Lookup(m, k)
  {
    if name in m {
      UpdateDue(m[name], r, v);
      assert m[name := m[name]] == m;
    }
  }

  lemma SameName(o: Order, ip: string, other: string)
    ensures o.InstanceName(ip) == o.InstanceName(other) <==> o.hash8(ip) == o.hash8(other)
  {
    var prefix := "si-" + o.name + "-";
    assert o.InstanceName(ip)[|prefix|..] == o.hash8(ip);
    assert o.InstanceName(other)[|prefix|..] == o.hash8(other);
  }

  // The last address of a hash has its instance as requested.
  lemma {:induction false} PlacedMatches(m: map<string, Instance>, v: nat, o: Order, n: nat, i: nat)
    requires i < n <= |o.ips|
    requires forall j :: i < j < n ==> o.hash8(o.ips[j]) != o.hash8(o.ips[i])
    ensures Matches(Lookup(Place(m, v, o, n).0, o.InstanceName(o.ips[i])), o.Wanted(o.ips[i]))
  {
    var (a, b) := Place(m, v, o, n - 1);
    EnsureInMatches(a, b, o.InstanceName(o.ips[n - 1]), o.Wanted(o.ips[n - 1]));
    if i < n - 1 {
      PlacedMatches(m, v, o, n - 1, i);
      SameName(o, o.ips[i], o.ips[n - 1]);
    }
  }

  lemma {:induction false} PlaceFrame(m: map<string, Instance>, v: nat, o: Order, n: nat, k: string)
    requires n <= |o.ips| && forall ip :: ip in o.ips ==> o.InstanceName(ip) != k
    ensures Lookup(Place(m, v, o, n).0, k) == Lookup(m, k)
  {
    if n > 0 {
      PlaceFrame(m, v, o, n - 1, k);
      var (a, b) := Place(m, v, o, n - 1);
      EnsureInMatches(a, b, o.InstanceName(o.ips[n - 1]), o.Wanted(o.ips[n - 1]));
    }
  }

  ghost predicate AllPlaced(m: map<string, Instance>, o: Order) {
    forall ip :: ip in o.ips ==> Matches(Lookup(m, o.InstanceName(ip)), o.Wanted(ip))
  }

  // Ensuring what is there already writes nothing.
  lemma {:induction false} PlaceAgain(m: map<string, Instance>, v: nat, o: Order, n: nat)
    requires n <= |o.ips| && AllPlaced(m, o)
    ensures Place(m, v, o, n) == (m, v)
  {
    if n > 0 {
      PlaceAgain(m, v, o, n - 1);
      EnsureInMatches(m, v, o.InstanceName(o.ips[n - 1]), o.Wanted(o.ips[n - 1]));
    }
  }

  lemma {:induction false} LastOfHash(o: Order, i: nat) returns (j: nat)
    requires i < |o.ips|
    ensures i <= j < |o.ips| && o.hash8(o.ips[j]) == o.hash8(o.ips[i])
    ensures forall k :: j < k < |o.ips| ==> o.hash8(o.ips[k]) != o.hash8(o.ips[j])
    decreases |o.ips| - i
  {
    if k: nat :| i < k < |o.ips| && o.hash8(o.ips[k]) == o.hash8(o.ips[i]) {
      j := LastOfHash(o, k);
    } else {
      j := i;
    }
  }

  // From any instances at all, every address ends up with its own instance exactly when
  // no two different addresses share a truncated hash.
  lemma {:induction false} PlaceReachesAll(m: map<string, Instance>, v: nat, o: Order)
    ensures AllPlaced(Place(m, v, o, |o.ips|).0, o) <==> o.CollisionFree()
  {
    var result := Place(m, v, o, |o.ips|).0;
    if o.CollisionFree() {
      forall ip | ip in o.ips
        ensures Matches(Lookup(result, o.InstanceName(ip)), o.Wanted(ip))
      {
        var i :| 0 <= i < |o.ips| && o.ips[i] == ip;
        var j := LastOfHash(o, i);
        assert o.ips[j] == ip;
        PlacedMatches(m, v, o, |o.ips|, j);
      }
    } else {
      var i, j :| 0 <= i < |o.ips| && 0 <= j < |o.ips|
        && o.hash8(o.ips[i]) == o.hash8(o.ips[j]) && o.ips[i] != o.ips[j];
      SameName(o, o.ips[i], o.ips[j]);
      assert o.ips[i] in o.ips && o.ips[j] in o.ips;
    }
  }

  // Distinct addresses without hash collisions get one instance each.
  lemma {:induction false} OneInstanceEach(o: Order, n: nat)
    requires n <= |o.ips| && o.CollisionFree()
    requires forall i, j :: 0 <= i < j < |o.ips| ==> o.ips[i] != o.ips[j]
    ensures |set i | 0 <= i < n :: o.InstanceName(o.ips[i])| == n
  {
    hide Order.InstanceName;
    var names := set i | 0 <= i < n :: o.InstanceName(o.ips[i]);
    if n > 0 {
      OneInstanceEach(o, n - 1);
      var before := set i | 0 <= i < n - 1 :: o.InstanceName(o.ips[i]);
      var last := o.InstanceName(o.ips[n - 1]);
      forall i | 0 <= i < n - 1
        ensures o.InstanceName(o.ips[i]) != last
      {
        SameName(o, o.ips[i], o.ips[n - 1]);
      }
      assert names == before + {last};
      OneMore(before, last);
    }
  }

  class Server {
    var credentials: map<string, CredentialSpec>
    var instances: map<string, Instance>
    var groups: map<string, Json>
    var next: nat
    var requests: nat
    const fails: nat -> Error

    constructor (credentials: map<string, CredentialSpec>, instances: map<string, Instance>,
                 groups: map<string, Json>, next: nat, fails: nat -> Error)
      ensures this.credentials == credentials && this.instances == instances && this.groups == groups
      ensures this.next == next && requests == 0 && this.fails == fails
    {
      this.credentials, this.instances, this.groups := credentials, instances, groups;
      this.next, this.requests, this.fails := next, 0, fails;
    }

    method Send() returns (fault: Error)
      modifies this`requests
      ensures fault == fails(old(requests)) && requests == old(requests) + 1
    {
      fault := fails(requests);
      requests := requests + 1;
    }

    // The requests made since, up to now: all granted, or the last one refused with this error.
    ghost predicate Answered(since: nat, err: Error)
      reads `requests
    {
      && since <= requests
      && (err.None? ==> forall k :: since <= k < requests ==> fails(k).None?)
      && (err.Some? ==> since < requests && fails(requests - 1) == err)
      && (err.Some? ==> forall k :: since <= k < requests - 1 ==> fails(k).None?)
    }

    // Create, then read back and overwrite the whole spec.
    method CreateOrUpdSSHCredential(name: string, user: string, key: string) returns (err: Error)
      modifies this`credentials, this`requests
      ensures Answered(old(requests), err)
      ensures err.None? ==> credentials == old(credentials)[name := CredentialSpec(user, key, map[])]
      ensures err.Some? && name in old(credentials) ==> credentials == old(credentials)
      ensures err.Some? ==>
        || credentials == old(credentials)
        || credentials == old(credentials)[name := CredentialSpec(user, key, map[])]
    {
      err := Send();
      if err.Some? { return; }
      if name !in credentials {
        credentials := credentials[name := CredentialSpec(user, key, map[])];
      }
      err := Send();
      if err.Some? { return; }
      var spec := credentials[name];
      spec := CredentialSpec(user, key, map[]);
      err := Send();
      if err.Some? { return; }
      credentials := credentials[name := spec];
    }

    method EnsureStaticInstance(name: string, r: Request) returns (err: Error)
      modifies this`instances, this`next, this`requests
      ensures Answered(old(requests), err)
      ensures err.None? ==> (instances, next) == EnsureIn(old(instances), old(next), name, r)
      ensures err.Some? ==> instances == old(instances) && next == old(next)
    {
      err := Send();
      if err.Some? { return; }
      if name !in instances {
        err := Send();
        if err.Some? { return; }
        instances, next := instances[name := Desired(r, next)], next + 1;
        return;
      }
      var existing := instances[name];
      UpdateDue(existing, r, 0);
      UpdateDue(existing, r, next);
      assert instances == instances[name := existing];
      if NeedsUpdate(existing, Desired(r, 0)) {
        existing := existing.(spec := Desired(r, 0).spec, labels := map[]);
        existing := existing.(labels := existing.labels + Desired(r, 0).labels);
        assert existing.labels == Desired(r, 0).labels;
        err := Send();
        if err.Some? { return; }
        instances, next := instances[name := existing.(version := next)], next + 1;
      }
    }

    // A failure leaves the work on a prefix of the addresses.
    method CreateStaticInstances(o: Order) returns (err: Error, ghost n: nat)
      modifies this`instances, this`next, this`requests
      ensures Answered(old(requests), err)
      ensures n <= |o.ips| && (err.None? ==> n == |o.ips|)
      ensures (instances, next) == Place(old(instances), old(next), o, n)
    {
      for i := 0 to |o.ips|
        invariant (instances, next) == Place(old(instances), old(next), o, i)
        invariant Answered(old(requests), None)
      {
        err := EnsureStaticInstance(o.InstanceName(o.ips[i]), o.Wanted(o.ips[i]));
        if err.Some? { return err, i; }
      }
      return None, |o.ips|;
    }

    method CreateNodeGroup(name: string, content: Json) returns (err: Error)
      modifies this`groups, this`requests
      ensures Answered(old(requests), err)
      ensures err.None? ==>
        groups == old(groups)[name := if name in old(groups) then MergePatch(old(groups)[name], content) else content]
      ensures err.Some? ==> groups == old(groups)
    {
      err := Send();
      if err.Some? { return; }
      if name !in groups {
        groups := groups[name := content];
        return;
      }
      err := Send();
      if err.Some? { return; }
      groups := groups[name := MergePatch(groups[name], content)];
    }

    // What a successful call leaves, whatever it found.
    ghost predicate Provisioned(o: Order)
      reads this
    {
      && Lookup(credentials, o.CredentialName()) == Some(CredentialSpec(o.user, o.key, map[]))
      && AllPlaced(instances, o)
      && o.Role() in groups && Covers(groups[o.Role()], o.Group())
    }

    // The same in fields: each address has an instance of its own name, with a credential that
    // exists and holds the user and the key, and with the label the group selects by.
    ghost predicate Furnished(o: Order)
      reads this
    {
      && (forall ip :: ip in o.ips ==> HasInstance(o, ip))
      && HasGroup(o)
    }

    ghost predicate HasInstance(o: Order, ip: string)
      reads this
    {
      var name, group := "si-" + o.name + "-" + o.hash8(ip), "vm-" + o.name + "-worker";
      && name in instances && instances[name].spec.address == ip
      && instances[name].spec.credentials.Some?
      && instances[name].spec.credentials.value in credentials
      && credentials[instances[name].spec.credentials.value] == CredentialSpec(o.user, o.key, map[])
      && "node-role" in instances[name].labels && group in groups
      && At(groups[group], ["spec", "staticInstances", "labelSelector", "matchLabels", "node-role"])
        == Some(Str(instances[name].labels["node-role"]))
    }

    ghost predicate HasGroup(o: Order)
      reads `groups
    {
      var group := "vm-" + o.name + "-worker";
      && group in groups
      && At(groups[group], ["apiVersion"]) == Some(Str("deckhouse.io/v1"))
      && At(groups[group], ["kind"]) == Some(Str("NodeGroup"))
      && At(groups[group], ["metadata", "name"]) == Some(Str(group))
      && At(groups[group], ["spec", "nodeType"]) == Some(Str("Static"))
      && At(groups[group], ["spec", "staticInstances", "count"]) == Some(Num(|o.ips|))
    }

    lemma ProvisionedIsFurnished(o: Order)
      requires Provisioned(o)
      ensures Furnished(o)
    {
      hide Covers;
      var group := "vm-" + o.name + "-worker";
      GroupHolds(groups[group], o);
      forall ip | ip in o.ips
        ensures HasInstance(o, ip)
      {
        assert Matches(Lookup(instances, o.InstanceName(ip)), o.Wanted(ip));
      }
    }

    // Nothing but the order's own objects changes, also in a failing call.
    twostate predicate OnlyOrdered(o: Order)
      reads this
    {
      && (forall k :: k != o.CredentialName() ==> Lookup(credentials, k) == Lookup(old(credentials), k))
      && (forall k :: (forall ip :: ip in o.ips ==> o.InstanceName(ip) != k) ==>
            Lookup(instances, k) == Lookup(old(instances), k))
      && (forall k :: k != o.Role() ==> Lookup(groups, k) == Lookup(old(groups), k))
    }

    method AddStaticNodes(o: Order, keyFile: Error) returns (err: Error)
      modifies this
      ensures err.None? ==> (Provisioned(o) <==> o.CollisionFree())
      ensures err.None? && o.CollisionFree() ==> Furnished(o)
      ensures if keyFile.Some? then err == keyFile && requests == old(requests) else Answered(old(requests), err)
      ensures keyFile.None? && (forall k :: k >= old(requests) ==> fails(k).None?) ==> err.None?
      ensures o.Role() in old(groups) ==> o.Role() in groups && forall path :: Unnamed(o.Group(), path) ==>
        At(groups[o.Role()], path) == At(old(groups)[o.Role()], path)
      ensures old(Provisioned(o)) ==>
        credentials == old(credentials) && instances == old(instances) && groups == old(groups)
      ensures OnlyOrdered(o)
    {
      hide Covers, MergePatch, Place, AllPlaced, Order.CollisionFree, Order.Group, Furnished, At, Unnamed;
      if keyFile.Some? { return keyFile; }
      err := CreateOrUpdSSHCredential(o.CredentialName(), o.user, o.key);
      if err.Some? { return; }
      ghost var n;
      err, n := CreateStaticInstances(o);
      InstancesDone(old(instances), old(next), o, n);
      if err.Some? { return; }
      err := CreateNodeGroup(o.Role(), o.Group());
      GroupDone(old(groups), o);
      if err.None? && o.CollisionFree() {
        ProvisionedIsFurnished(o);
      }
    }
  }

  lemma {:induction false} InstancesDone(m: map<string, Instance>, v: nat, o: Order, n: nat)
    requires n <= |o.ips|
    ensures AllPlaced(m, o) ==> Place(m, v, o, n) == (m, v)
    ensures forall k :: (forall ip :: ip in o.ips ==> o.InstanceName(ip) != k) ==>
      Lookup(Place(m, v, o, n).0, k) == Lookup(m, k)
    ensures n == |o.ips| ==> (AllPlaced(Place(m, v, o, n).0, o) <==> o.CollisionFree())
  {
    if AllPlaced(m, o) { PlaceAgain(m, v, o, n); }
    forall k | forall ip :: ip in o.ips ==> o.InstanceName(ip) != k
      ensures Lookup(Place(m, v, o, n).0, k) == Lookup(m, k)
    {
      PlaceFrame(m, v, o, n, k);
    }
    PlaceReachesAll(m, v, o);
  }

  lemma GroupIsWhole(o: Order)
    ensures Covers(o.Group(), o.Group())
  {
    var selector := o.StaticCount().members["labelSelector"];
    assert Covers(selector.members["matchLabels"], selector.members["matchLabels"]);
    assert Covers(selector, selector);
    assert Covers(o.StaticCount(), o.StaticCount());
    assert Covers(o.Group().members["spec"], o.Group().members["spec"]);
  }

  lemma GroupDone(groups: map<string, Json>, o: Order)
    ensures Covers(o.Group(), o.Group())
    ensures o.Role() in groups ==>
      && Covers(MergePatch(groups[o.Role()], o.Group()), o.Group())
      && (Covers(groups[o.Role()], o.Group()) ==> groups[o.Role() := MergePatch(groups[o.Role()], o.Group())] == groups)
      && (forall path :: Unnamed(o.Group(), path) ==>
            At(MergePatch(groups[o.Role()], o.Group()), path) == At(groups[o.Role()], path))
  {
    GroupIsWhole(o);
    hide Covers, MergePatch, Unnamed, At;
    if o.Role() in groups {
      forall path | Unnamed(o.Group(), path)
        ensures At(MergePatch(groups[o.Role()], o.Group()), path) == At(groups[o.Role()], path)
      {
        PathFrame(groups[o.Role()], o.Group(), path);
      }
      PatchApplies(groups[o.Role()], o.Group());
      PatchIsNoop(groups[o.Role()], o.Group());
    }
  }

  lemma {:induction false} AtOne(j: Json, k: string)
    ensures At(j, [k]) == if j.Obj? && k in j.members then Some(j.members[k]) else None
  {
    assert [k][1..] == [];
  }

  lemma {:induction false} AtMore(j: Json, path: seq<string>, rest: seq<string>)
    requires path != [] && path == [path[0]] + rest
    ensures At(j, path) == if j.Obj? && path[0] in j.members then At(j.members[path[0]], rest) else None
  {
    assert path[1..] == rest;
  }

  // A group that contains the order's content holds these values along these paths.
  lemma {:induction false} GroupHolds(group: Json, o: Order)
    requires Covers(group, o.Group())
    ensures At(group, ["apiVersion"]) == Some(Str("deckhouse.io/v1"))
    ensures At(group, ["kind"]) == Some(Str("NodeGroup"))
    ensures At(group, ["metadata", "name"]) == Some(Str("vm-" + o.name + "-worker"))
    ensures At(group, ["spec", "nodeType"]) == Some(Str("Static"))
    ensures At(group, ["spec", "staticInstances", "count"]) == Some(Num(|o.ips|))
    ensures At(group, ["spec", "staticInstances", "labelSelector", "matchLabels", "node-role"])
      == Some(Str("vm-" + o.name + "-worker"))
  {
    hide Covers, At, Order.Group;
    GroupContent(o);
    GroupCount(o);
    CoversAt(group, o.Group(), ["apiVersion"]);
    CoversAt(group, o.Group(), ["kind"]);
    CoversAt(group, o.Group(), ["metadata", "name"]);
    CoversAt(group, o.Group(), ["spec", "nodeType"]);
    CoversAt(group, o.Group(), ["spec", "staticInstances", "count"]);
    CoversAt(group, o.Group(), ["spec", "staticInstances", "labelSelector", "matchLabels", "node-role"]);
  }

  lemma GroupContent(o: Order)
    ensures At(o.Group(), ["apiVersion"]) == Some(Str("deckhouse.io/v1"))
    ensures At(o.Group(), ["kind"]) == Some(Str("NodeGroup"))
    ensures At(o.Group(), ["metadata", "name"]) == Some(Str("vm-" + o.name + "-worker"))
    ensures At(o.Group(), ["spec", "nodeType"]) == Some(Str("Static"))
  {
    hide At;
    var g := o.Group();
    AtOne(g, "apiVersion");
    AtOne(g, "kind");
    AtMore(g, ["metadata", "name"], ["name"]);
    AtMore(g, ["spec", "nodeType"], ["nodeType"]);
    AtOne(g.members["metadata"], "name");
    AtOne(g.members["spec"], "nodeType");
  }

  lemma GroupCount(o: Order)
    ensures At(o.Group(), ["spec", "staticInstances", "count"]) == Some(Num(|o.ips|))
    ensures At(o.Group(), ["spec", "staticInstances", "labelSelector", "matchLabels", "node-role"])
      == Some(Str("vm-" + o.name + "-worker"))
  {
    hide At;
    var g, count := o.Group(), o.StaticCount();
    AtMore(g, ["spec", "staticInstances", "count"], ["staticInstances", "count"]);
    AtMore(g, ["spec", "staticInstances", "labelSelector", "matchLabels", "node-role"],
           ["staticInstances", "labelSelector", "matchLabels", "node-role"]);
    AtMore(g.members["spec"], ["staticInstances", "count"], ["count"]);
    AtMore(g.members["spec"], ["staticInstances", "labelSelector", "matchLabels", "node-role"],
           ["labelSelector", "matchLabels", "node-role"]);
    AtOne(count, "count");
    AtMore(count, ["labelSelector", "matchLabels", "node-role"], ["matchLabels", "node-role"]);
    AtMore(count.members["labelSelector"], ["matchLabels", "node-role"], ["node-role"]);
    AtOne(count.members["labelSelector"].members["matchLabels"], "node-role");
  }

  // A document that is as the patch asks has the patch's values.
  lemma {:induction false} CoversAt(target: Json, patch: Json, path: seq<string>)
    requires Covers(target, patch) && At(patch, path).Some?
    requires !At(patch, path).value.Obj? && !At(patch, path).value.Null?
    ensures At(target, path) == At(patch, path)
    decreases |path|
  {
    if path != [] {
      CoversAt(target.members[path[0]], patch.members[path[0]], path[1..]);
    }
  }

  // Everything of a group but what the order names is out of its reach.
  lemma OrderNames(o: Order, k: string)
    ensures k !in {"apiVersion", "kind", "metadata", "spec"} ==> Unnamed(o.Group(), [k])
    ensures k != "name" ==> Unnamed(o.Group(), ["metadata", k])
    ensures k !in {"nodeType", "staticInstances"} ==> Unnamed(o.Group(), ["spec", k])
    ensures k !in {"count", "labelSelector"} ==> Unnamed(o.Group(), ["spec", "staticInstances", k])
  {
    assert ["metadata", k][1..] == [k] && ["spec", k][1..] == [k];
    assert ["spec", "staticInstances", k][1..] == ["staticInstances", k] && ["staticInstances", k][1..] == [k];
  }
}
