// The loops of images/sds-lvm-e2e/src/tests/case_600_test.go that wait for every claim
// to be bound and for every pod to succeed: a counter beside a map of flags.
module CountingLoops {
  import opened FiniteSets
  import opened Wrappers

  // Phases by name; None when the listing failed.
  type Listing = Option<map<string, string>>

  // Some of the first n listings has the name in the target phase.
  ghost predicate Seen(listings: seq<Listing>, n: nat, name: string, target: string)
    requires n <= |listings|
  {
    exists k :: 0 <= k < n && SeenIn(listings[k], name, target)
  }

  predicate SeenIn(listing: Listing, name: string, target: string) {
    listing.Some? && name in listing.value && listing.value[name] == target
  }

  ghost predicate AllSeen(listings: seq<Listing>, n: nat, names: set<string>, target: string)
    requires n <= |listings|
  {
    forall name :: name in names ==> Seen(listings, n, name, target)
  }

  ghost function Raised(flags: map<string, bool>): set<string> {
    set name | name in flags && flags[name]
  }

  lemma SeenOneMore(listings: seq<Listing>, n: nat, name: string, target: string)
    requires n < |listings|
    ensures Seen(listings, n + 1, name, target)
      <==> Seen(listings, n, name, target) || SeenIn(listings[n], name, target)
  {
  }

  // The counter is full exactly when every flag is raised.
  lemma FullMeansAll(flags: map<string, bool>)
    ensures |Raised(flags)| <= |flags|
    ensures |Raised(flags)| == |flags| <==> forall name :: name in flags ==> flags[name]
  {
    Cardinality(Raised(flags), flags.Keys);
    if forall name :: name in flags ==> flags[name] {
      assert Raised(flags) == flags.Keys;
    }
    if |Raised(flags)| == |flags| {
      SubsetOfSize(Raised(flags), flags.Keys);
      assert forall name :: name in flags ==> name in Raised(flags);
    }
  }

  // The range over the map, in any order; values change under it, keys do not.
  method MarkListing(flags: map<string, bool>, counter: nat, listing: map<string, string>, target: string)
    returns (flags': map<string, bool>, counter': nat)
    requires counter == |Raised(flags)|
    ensures flags'.Keys == flags.Keys && counter' == |Raised(flags')|
    ensures forall name :: name in flags ==> flags'[name] == (flags[name] || SeenIn(Some(listing), name, target))
  {
    flags', counter' := flags, counter;
    var rest := flags.Keys;
    while rest != {}
      invariant rest <= flags.Keys == flags'.Keys
      invariant counter' == |Raised(flags')|
      invariant forall name :: name in flags ==>
        flags'[name] == (flags[name] || (name !in rest && SeenIn(Some(listing), name, target)))
    {
      var name :| name in rest;
      rest := rest - {name};
      var bound := flags'[name];
      if name in listing && listing[name] == target && !bound {
        assert Raised(flags'[name := true]) == Raised(flags') + {name};
        OneMore(Raised(flags'), name);
        flags', counter' := flags'[name := true], counter' + 1;
      }
    }
  }

  ghost predicate CountInv(listings: seq<Listing>, n: nat, names: set<string>, target: string,
                           flags: map<string, bool>, counter: nat)
    requires n <= |listings|
  {
    && flags.Keys == names
    && counter == |Raised(flags)|
    && (forall name :: name in names ==> (flags[name] <==> Seen(listings, n, name, target)))
  }

  lemma CountStep(listings: seq<Listing>, n: nat, names: set<string>, target: string, flags: map<string, bool>,
                  counter: nat, flags': map<string, bool>, counter': nat)
    requires n < |listings| && CountInv(listings, n, names, target, flags, counter)
    requires flags'.Keys == flags.Keys && counter' == |Raised(flags')|
    requires forall name :: name in flags ==> flags'[name] == (flags[name] || SeenIn(listings[n], name, target))
    ensures CountInv(listings, n + 1, names, target, flags', counter')
  {
    forall name | name in names
      ensures flags'[name] <==> Seen(listings, n + 1, name, target)
    {
      SeenOneMore(listings, n, name, target);
    }
  }

  lemma CountMeans(listings: seq<Listing>, n: nat, names: set<string>, target: string, flags: map<string, bool>,
                   counter: nat)
    requires n <= |listings| && CountInv(listings, n, names, target, flags, counter)
    ensures counter <= |names|
    ensures counter == |names| <==> AllSeen(listings, n, names, target)
  {
    FullMeansAll(flags);
    assert |flags| == |flags.Keys|;
  }

  lemma StaysSeen(listings: seq<Listing>, m: nat, n: nat, names: set<string>, target: string)
    requires m <= n <= |listings| && AllSeen(listings, m, names, target)
    ensures AllSeen(listings, n, names, target)
  {
    forall name | name in names
      ensures Seen(listings, n, name, target)
    {
      assert Seen(listings, m, name, target);
    }
  }

  // The run sees these listings and is cut off if they do not suffice. A flag is raised
  // exactly for the names seen, and the loop ends with the first listing after which
  // every name has been seen.
  method CountLoop(names: set<string>, listings: seq<Listing>, target: string)
    returns (flags: map<string, bool>, counter: nat, used: nat, failed: bool)
    ensures used <= |listings|
    ensures flags.Keys == names && counter == |Raised(flags)| <= |names|
    ensures forall name :: name in names ==> (flags[name] <==> Seen(listings, used, name, target))
    ensures counter == |names| <==> AllSeen(listings, |listings|, names, target)
    ensures counter < |names| ==> used == |listings|
    ensures forall m :: 0 <= m < used ==> !AllSeen(listings, m, names, target)
    ensures failed <==> exists k :: 0 <= k < used && listings[k].None?
  {
    flags := map name | name in names :: false;
    counter, used, failed := 0, 0, false;
    assert Raised(flags) == {};
    CountMeans(listings, used, names, target, flags, counter);
    while counter < |names| && used < |listings|
      invariant used <= |listings| && CountInv(listings, used, names, target, flags, counter)
      invariant counter <= |names| && (counter == |names| <==> AllSeen(listings, used, names, target))
      invariant forall m :: 0 <= m < used ==> !AllSeen(listings, m, names, target)
      invariant failed <==> exists k :: 0 <= k < used && listings[k].None?
      decreases |listings| - used
    {
      var listing := listings[used];
      ghost var flags0, counter0 := flags, counter;
      if listing.None? {
        failed := true;
      } else {
        flags, counter := MarkListing(flags, counter, listing.value, target);
      }
      CountStep(listings, used, names, target, flags0, counter0, flags, counter);
      used := used + 1;
      CountMeans(listings, used, names, target, flags, counter);
    }
    if counter == |names| {
      StaysSeen(listings, used, |listings|, names, target);
    }
  }
}
