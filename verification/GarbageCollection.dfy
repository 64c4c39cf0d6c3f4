/**
 Which VMs garbage collection deletes, from the instance listing to the delete call (pkg/providers/instance/instance.go,
 pkg/cloudprovider/cloudprovider.go, pkg/controllers/nodeclaim/garbagecollection/controller.go).
 */
module GarbageCollection {
  import opened Basics
  import opened Text
  import Labels

  const LOCATION_KEY := "goog-k8s-cluster-location"
  const PREFIX := "gce://"

  const GRACE_PERIOD := 3 * 60 * SECONDS
  const INSTANCE_TTL := 15 * SECONDS

  const TERMINATED := "TERMINATED"
  const STOPPING := "STOPPING"

  // ---------------------------------------------------------------- provider IDs

  datatype Target = Target(project: string, zone: string, name: string)

  predicate PlainTarget(t: Target) {
    '/' !in t.project && '/' !in t.zone && '/' !in t.name
  }

  function ProviderID(t: Target): string {
    PREFIX + (t.project + "/" + (t.zone + "/" + t.name))
  }

  function ParseProviderID(id: string): Option<Target> {
    if !(PREFIX <= id) then None
    else
      var parts := Split(id[|PREFIX|..], '/');
      if |parts| == 3 then Some(Target(parts[0], parts[1], parts[2])) else None
  }

  lemma {:induction false} SplitsMore(s: string, sep: char)
    ensures |Split(s, sep)| == 1 <==> sep !in s
  {
    if s != "" { SplitsMore(s[1..], sep); }
  }

  /** A printed ID names the VM it was printed for; if a part holds a slash, it names none at all. */
  lemma ParsesToItself(t: Target)
    ensures ParseProviderID(ProviderID(t)) == if PlainTarget(t) then Some(t) else None
  {
    var rest := t.project + "/" + (t.zone + "/" + t.name);
    assert ProviderID(t)[|PREFIX|..] == rest;
    SplitConcat(t.project, '/', t.zone + "/" + t.name);
    SplitConcat(t.zone, '/', t.name);
    var a, b, c := Split(t.project, '/'), Split(t.zone, '/'), Split(t.name, '/');
    assert Split(rest, '/') == a + (b + c);
    SplitsMore(t.project, '/');
    SplitsMore(t.zone, '/');
    SplitsMore(t.name, '/');
    if PlainTarget(t) {
      SplitNone(t.project, '/');
      SplitNone(t.zone, '/');
      SplitNone(t.name, '/');
    }
  }

  // ---------------------------------------------------------------- instances

  /** A VM as the API lists it; a creation time that cannot be read is None. */
  datatype VM = VM(name: string, labels: map<string, string>, created: Option<int>, status: string)

  datatype Instance = Instance(target: Target, labels: map<string, string>, created: int, status: string)

  function FromVM(project: string, zone: string, vm: VM, now: int): Instance {
    Instance(Target(project, zone, vm.name), vm.labels, if vm.created.Some? then vm.created.value else now, vm.status)
  }

  /** An instance without a location label may be ours; one with a label must carry this cluster's location. */
  predicate BelongsToCluster(key: string, location: string, i: Instance) {
    key in i.labels ==> i.labels[key] == location
  }

  lemma CleanKey(key: string)
    requires key == LOCATION_KEY
    ensures Labels.Clean(key)
  {
  }

  /** The key under which the label is written and the sanitized key under which it is looked up are the same. */
  lemma LocationKeyIsClean(key: string)
    requires key == LOCATION_KEY
    ensures Labels.Sanitize(key) == key
  {
    CleanKey(key);
    Labels.SanitizeFixesClean(key);
  }

  datatype Entry = Entry(instance: Instance, expiresAt: int)

  type Cache = map<string, Entry>

  function FromPage(project: string, zone: string, page: seq<VM>, now: int): (instances: seq<Instance>)
    ensures |instances| == |page| && forall j | 0 <= j < |page| :: instances[j] == FromVM(project, zone, page[j], now)
  {
    seq(|page|, j requires 0 <= j < |page| => FromVM(project, zone, page[j], now))
  }

  /** The VMs the zones list, in order; a zone that cannot be listed counts as empty. */
  function Listed(project: string, zones: seq<string>, listing: string -> Option<seq<VM>>, now: int): seq<Instance> {
    if zones == [] then []
    else
      var n := |zones| - 1;
      Listed(project, zones[..n], listing, now)
      + (if listing(zones[n]).Some? then FromPage(project, zones[n], listing(zones[n]).value, now) else [])
  }

  /** The instances that may be ours. */
  function Ours(instances: seq<Instance>, key: string, location: string): (ours: seq<Instance>)
    ensures forall i :: i in ours <==> i in instances && BelongsToCluster(key, location, i)
  {
    if instances == [] then []
    else
      var n := |instances| - 1;
      Ours(instances[..n], key, location)
        + (if BelongsToCluster(key, location, instances[n]) then [instances[n]] else [])
  }

  /** Every instance takes its name's place in the cache. */
  function Cached(cache: Cache, instances: seq<Instance>, now: int): Cache {
    if instances == [] then cache
    else
      var n := |instances| - 1;
      Cached(cache, instances[..n], now)[instances[n].target.name := Entry(instances[n], now + INSTANCE_TTL)]
  }

  lemma OursGrows(instances: seq<Instance>, n: nat, key: string, location: string)
    requires n < |instances|
    ensures var before := Ours(instances[..n], key, location);
            Ours(instances[..n + 1], key, location)
            == if BelongsToCluster(key, location, instances[n]) then before + [instances[n]] else before
  {
    assert instances[..n + 1][..n] == instances[..n];
  }

  lemma CachedGrows(cache: Cache, instances: seq<Instance>, i: Instance, now: int)
    ensures Cached(cache, instances + [i], now)
            == Cached(cache, instances, now)[i.target.name := Entry(i, now + INSTANCE_TTL)]
  {
    assert (instances + [i])[..|instances|] == instances;
  }

  ghost predicate LastOfItsName(instances: seq<Instance>, n: nat)
    requires n < |instances|
  {
    forall m | n < m < |instances| :: instances[m].target.name != instances[n].target.name
  }

  /** Of the instances of one name, the last is cached. */
  lemma {:induction false} LastIsCached(cache: Cache, instances: seq<Instance>, now: int, n: nat)
    requires n < |instances| && LastOfItsName(instances, n)
    ensures var after, name := Cached(cache, instances, now), instances[n].target.name;
            name in after && after[name] == Entry(instances[n], now + INSTANCE_TTL)
  {
    var last := |instances| - 1;
    if n < last { LastIsCached(cache, instances[..last], now, n); }
  }

  /** Whatever is cached was cached before, or is one of the instances. */
  lemma {:induction false} CachedIsListed(cache: Cache, instances: seq<Instance>, now: int, name: string)
    requires name in Cached(cache, instances, now)
    ensures var e := Cached(cache, instances, now)[name];
            (name in cache && cache[name] == e) || (e.instance in instances && e.instance.target.name == name)
  {
    if instances != [] && instances[|instances| - 1].target.name != name {
      CachedIsListed(cache, instances[..|instances| - 1], now, name);
    }
  }

  // ---------------------------------------------------------------- what a listing shows

  /** A VM that a zone listed, and when. */
  datatype Sighting = Sighting(zone: string, vm: VM, at: int)

  /** The VMs that the zones list now. */
  ghost function Seen(zones: seq<string>, listing: string -> Option<seq<VM>>, now: int): set<Sighting> {
    set z, vm | z in zones && listing(z).Some? && vm in listing(z).value :: Sighting(z, vm, now)
  }

  /** What a sighting is kept as; a creation time that cannot be read is taken to be the time of the listing. */
  ghost predicate KeptAs(project: string, s: Sighting, i: Instance) {
    && i.target == Target(project, s.zone, s.vm.name) && i.labels == s.vm.labels && i.status == s.vm.status
    && (s.vm.created.Some? ==> i.created == s.vm.created.value) && (s.vm.created.None? ==> i.created == s.at)
  }

  /** Every instance is one of these VMs. */
  ghost predicate Sighted(project: string, instances: set<Instance>, sightings: set<Sighting>) {
    forall i | i in instances :: exists s | s in sightings :: KeptAs(project, s, i)
  }

  lemma FromVMKeeps(project: string, s: Sighting, i: Instance)
    ensures KeptAs(project, s, i) <==> i == FromVM(project, s.zone, s.vm, s.at)
  {
  }

  lemma {:induction false} ListedAreSeen(project: string, zones: seq<string>, listing: string -> Option<seq<VM>>,
                                         now: int, i: Instance)
    ensures i in Listed(project, zones, listing, now) <==>
            exists s | s in Seen(zones, listing, now) :: KeptAs(project, s, i)
  {
    if zones != [] {
      var n := |zones| - 1;
      var z := zones[n];
      ListedAreSeen(project, zones[..n], listing, now, i);
      assert Seen(zones[..n], listing, now) <= Seen(zones, listing, now);
      if listing(z).Some? {
        var page := listing(z).value;
        if i in FromPage(project, z, page, now) {
          var j :| 0 <= j < |page| && i == FromVM(project, z, page[j], now);
          var s := Sighting(z, page[j], now);
          assert KeptAs(project, s, i) && s in Seen(zones, listing, now);
        }
        forall vm | vm in page && KeptAs(project, Sighting(z, vm, now), i)
          ensures i in FromPage(project, z, page, now)
        {
          FromVMKeeps(project, Sighting(z, vm, now), i);
          var j :| 0 <= j < |page| && page[j] == vm;
          assert FromPage(project, z, page, now)[j] == i;
        }
      }
      forall s | s in Seen(zones, listing, now)
        ensures s in Seen(zones[..n], listing, now) || (s.zone == z && listing(z).Some? && s.vm in listing(z).value)
      {
        assert s.zone in zones[..n] || s.zone == z;
      }
    }
  }

  /** Unlabelled VMs may be ours; labelled ones are if the label is this cluster's location. */
  predicate MayBeOurs(key: string, location: string, vm: VM) {
    key !in vm.labels || vm.labels[key] == location
  }

  /** No other VM listed that may be ours has the name of this one. */
  ghost predicate OnlyOfItsName(seen: set<Sighting>, key: string, location: string, s: Sighting) {
    forall s' | s' in seen && s'.vm.name == s.vm.name && MayBeOurs(key, location, s'.vm) :: s' == s
  }

  lemma {:induction false} LastOfName(instances: seq<Instance>, name: string) returns (n: nat)
    requires exists i | i in instances :: i.target.name == name
    ensures n < |instances| && instances[n].target.name == name && LastOfItsName(instances, n)
  {
    var last := |instances| - 1;
    if instances[last].target.name == name {
      n := last;
    } else {
      assert instances == instances[..last] + [instances[last]];
      n := LastOfName(instances[..last], name);
    }
  }

  /** So it is the last of its name among those kept. */
  lemma OnlyIsLast(project: string, zones: seq<string>, listing: string -> Option<seq<VM>>, now: int, key: string,
                   location: string, s: Sighting, ours: seq<Instance>) returns (n: nat)
    requires ours == Ours(Listed(project, zones, listing, now), key, location)
    requires s in Seen(zones, listing, now) && MayBeOurs(key, location, s.vm)
    requires OnlyOfItsName(Seen(zones, listing, now), key, location, s)
    ensures n < |ours| && LastOfItsName(ours, n) && KeptAs(project, s, ours[n])
  {
    var i := FromVM(project, s.zone, s.vm, s.at);
    FromVMKeeps(project, s, i);
    ListedAreSeen(project, zones, listing, now, i);
    n := LastOfName(ours, s.vm.name);
    assert ours[n] in ours;
    ListedAreSeen(project, zones, listing, now, ours[n]);
    var s' :| s' in Seen(zones, listing, now) && KeptAs(project, s', ours[n]);
  }

  method ListInstances(project: string, zones: seq<string>, listing: string -> Option<seq<VM>>, now: int)
    returns (instances: seq<Instance>, ok: bool)
    ensures ok == forall z | z in zones :: listing(z).Some?
    ensures ok ==> instances == Listed(project, zones, listing, now)
  {
    instances := [];
    for n := 0 to |zones|
      invariant forall k | 0 <= k < n :: listing(zones[k]).Some?
      invariant instances == Listed(project, zones[..n], listing, now)
    {
      assert zones[..n + 1][..n] == zones[..n];
      var page := listing(zones[n]);
      if page.None? { return instances, false; }
      ghost var before := instances;
      for j := 0 to |page.value|
        invariant instances == before + FromPage(project, zones[n], page.value, now)[..j]
      {
        instances := instances + [FromVM(project, zones[n], page.value[j], now)];
      }
    }
    assert zones[..|zones|] == zones;
    ok := true;
  }

  class InstanceProvider {
    const project: string
    const clusterLocation: string
    const locationKey: string                   // the sanitized label key
    var instanceCache: Cache
    ghost var listed: set<Instance>             // what any listing has reported
    ghost var sightings: set<Sighting>          // and which VM it was

    ghost predicate Valid()
      reads this
    {
      forall name | name in instanceCache ::
        var i := instanceCache[name].instance;
        i in listed && BelongsToCluster(locationKey, clusterLocation, i) && i.target.name == name
    }

    constructor (project: string, clusterLocation: string)
      ensures Valid() && AllSighted() && instanceCache == map[] && listed == {}
      ensures this.project == project && this.clusterLocation == clusterLocation
              && locationKey == Labels.Sanitize(LOCATION_KEY)
    {
      this.project, this.clusterLocation, locationKey := project, clusterLocation, Labels.Sanitize(LOCATION_KEY);
      instanceCache, listed, sightings := map[], {}, {};
    }

    ghost predicate AllSighted()
      reads this
    {
      Sighted(project, listed, sightings)
    }

    /** Lists the VMs of every zone, and caches those that may be ours; nothing is cached if a zone cannot be listed. */
    method SyncInstances(zones: seq<string>, listing: string -> Option<seq<VM>>, now: int) returns (ok: bool)
      requires Valid() && AllSighted()
      modifies this
      ensures Valid() && AllSighted() && ok == (forall z | z in zones :: listing(z).Some?)
      ensures ok ==> listed == old(listed) + set i | i in Listed(project, zones, listing, now)
      ensures ok ==>
                var ours := Ours(Listed(project, zones, listing, now), locationKey, clusterLocation);
                instanceCache == Cached(old(instanceCache), ours, now)
      ensures ok ==> sightings == old(sightings) + Seen(zones, listing, now)
      ensures ok ==> forall s | s in Seen(zones, listing, now) && MayBeOurs(locationKey, clusterLocation, s.vm)
                                && OnlyOfItsName(Seen(zones, listing, now), locationKey, clusterLocation, s) ::
                s.vm.name in instanceCache && KeptAs(project, s, instanceCache[s.vm.name].instance)
                && instanceCache[s.vm.name].expiresAt == now + 15 * SECONDS
      ensures !ok ==> unchanged(this)
    {
      var instances;
      instances, ok := ListInstances(project, zones, listing, now);
      if ok {
        CacheInstances(instances, now);
        sightings := sightings + Seen(zones, listing, now);
        ghost var ours := Ours(instances, locationKey, clusterLocation);
        forall i | i in listed
          ensures exists s | s in sightings :: KeptAs(project, s, i)
        {
          if i in instances { ListedAreSeen(project, zones, listing, now, i); }
        }
        forall s | s in Seen(zones, listing, now) && MayBeOurs(locationKey, clusterLocation, s.vm)
                   && OnlyOfItsName(Seen(zones, listing, now), locationKey, clusterLocation, s)
          ensures s.vm.name in instanceCache && KeptAs(project, s, instanceCache[s.vm.name].instance)
          ensures instanceCache[s.vm.name].expiresAt == now + 15 * SECONDS
        {
          var n := OnlyIsLast(project, zones, listing, now, locationKey, clusterLocation, s, ours);
          LastIsCached(old(instanceCache), ours, now, n);
        }
      }
    }

    method CacheInstances(instances: seq<Instance>, now: int)
      requires Valid()
      modifies `instanceCache, `listed
      ensures Valid() && listed == old(listed) + set i | i in instances
      ensures instanceCache == Cached(old(instanceCache), Ours(instances, locationKey, clusterLocation), now)
    {
      listed := listed + set i | i in instances;
      ghost var cache := instanceCache;
      for n := 0 to |instances|
        invariant instanceCache == Cached(cache, Ours(instances[..n], locationKey, clusterLocation), now)
        invariant listed == old(listed) + set i | i in instances
      {
        var i := instances[n];
        OursGrows(instances, n, locationKey, clusterLocation);
        if BelongsToCluster(locationKey, clusterLocation, i) {
          CachedGrows(cache, Ours(instances[..n], locationKey, clusterLocation), i, now);
          instanceCache := instanceCache[i.target.name := Entry(i, now + INSTANCE_TTL)];
        }
      }
      assert instances[..|instances|] == instances;
      forall name | name in instanceCache
        ensures var i := instanceCache[name].instance;
                i in listed && BelongsToCluster(locationKey, clusterLocation, i) && i.target.name == name
      {
        CachedIsListed(cache, Ours(instances, locationKey, clusterLocation), now, name);
      }
    }

    /** Everything cached that has not expired. */
    method Items(now: int) returns (items: seq<Instance>)
      requires Valid()
      ensures forall i | i in items :: i in listed && BelongsToCluster(locationKey, clusterLocation, i)
      ensures forall name | name in instanceCache && now <= instanceCache[name].expiresAt ::
              instanceCache[name].instance in items
      ensures forall i | i in items ::
                i.target.name in instanceCache && instanceCache[i.target.name].instance == i
                && now <= instanceCache[i.target.name].expiresAt
    {
      items := [];
      var rest := instanceCache.Keys;
      while rest != {}
        invariant rest <= instanceCache.Keys
        invariant forall i | i in items ::
                    i.target.name in instanceCache && instanceCache[i.target.name].instance == i
                    && now <= instanceCache[i.target.name].expiresAt
        invariant forall name | name in instanceCache && name !in rest && now <= instanceCache[name].expiresAt ::
                    instanceCache[name].instance in items
        decreases |rest|
      {
        var name :| name in rest;
        rest := rest - {name};
        if now <= instanceCache[name].expiresAt { items := items + [instanceCache[name].instance]; }
      }
    }
  }

  // ---------------------------------------------------------------- what is an orphan

  /** An instance as a NodeClaim; the labels of its instance type come first. */
  datatype Claim = Claim(providerID: string, labels: map<string, string>, created: int, deleting: bool)

  function ToClaim(i: Instance, typeLabels: map<string, string>): Claim {
    Claim(ProviderID(i.target),
          if LOCATION_KEY in i.labels then typeLabels[LOCATION_KEY := i.labels[LOCATION_KEY]] else typeLabels,
          i.created, i.status == TERMINATED || i.status == STOPPING)
  }

  predicate IsOrphaned(c: Claim, known: set<string>, now: int) {
    && c.providerID != "" && !c.deleting && c.providerID !in known
    && now - c.created >= GRACE_PERIOD && LOCATION_KEY in c.labels
  }

  // ---------------------------------------------------------------- deleting

  /** What the API says of a VM just before it would be deleted. */
  datatype Recheck = Missing | Failed | Status(status: string)

  /** The delete call a provider ID leads to, if any. */
  function DeleteCall(id: string, recheck: Target -> Recheck): Option<Target> {
    match ParseProviderID(id)
    case None => None
    case Some(t) =>
      match recheck(t)
      case Status(status) => if status == TERMINATED || status == STOPPING then None else Some(t)
      case _ => None
  }

  /** Why a VM may be deleted. */
  predicate Deletable(i: Instance, location: string, known: set<string>, now: int) {
    && LOCATION_KEY in i.labels && i.labels[LOCATION_KEY] == location
    && now - i.created >= GRACE_PERIOD
    && i.status != TERMINATED && i.status != STOPPING
    && ProviderID(i.target) !in known
  }

  predicate StillThere(t: Target, recheck: Target -> Recheck) {
    recheck(t).Status? && recheck(t).status != TERMINATED && recheck(t).status != STOPPING
  }

  lemma OrphanIffDeletable(i: Instance, location: string, typeLabels: map<string, string>, known: set<string>, now: int)
    requires BelongsToCluster(LOCATION_KEY, location, i) && LOCATION_KEY !in typeLabels
    ensures IsOrphaned(ToClaim(i, typeLabels), known, now) <==> Deletable(i, location, known, now)
  {
    assert ProviderID(i.target)[0] == 'g';
  }

  lemma CallNamesTheVM(t: Target, recheck: Target -> Recheck)
    ensures DeleteCall(ProviderID(t), recheck) == if PlainTarget(t) && StillThere(t, recheck) then Some(t) else None
  {
    ParsesToItself(t);
  }

  predicate Doomed(i: Instance, location: string, known: set<string>, now: int, recheck: Target -> Recheck) {
    Deletable(i, location, known, now) && PlainTarget(i.target) && StillThere(i.target, recheck)
  }

  /** The delete call for one listed instance, if it is an orphan. */
  method DeleteOrphan(i: Instance, location: string, typeLabels: map<string, string>, known: set<string>, now: int,
                      recheck: Target -> Recheck) returns (call: Option<Target>)
    requires BelongsToCluster(LOCATION_KEY, location, i) && LOCATION_KEY !in typeLabels
    ensures call == if Doomed(i, location, known, now, recheck) then Some(i.target) else None
  {
    OrphanIffDeletable(i, location, typeLabels, known, now);
    CallNamesTheVM(i.target, recheck);
    var claim := ToClaim(i, typeLabels);
    call := if IsOrphaned(claim, known, now) then DeleteCall(claim.providerID, recheck) else None;
  }

  /** The VMs to delete, one per doomed instance. */
  function DoomedTargets(items: seq<Instance>, location: string, known: set<string>, now: int,
                         recheck: Target -> Recheck)
    : seq<Target>
  {
    if items == [] then []
    else
      var n := |items| - 1;
      DoomedTargets(items[..n], location, known, now, recheck)
      + (if Doomed(items[n], location, known, now, recheck) then [items[n].target] else [])
  }

  lemma {:induction false} DoomedTargetsAre(items: seq<Instance>, location: string, known: set<string>, now: int,
                                            recheck: Target -> Recheck, t: Target)
    ensures t in DoomedTargets(items, location, known, now, recheck) <==>
            exists i | i in items :: i.target == t && Doomed(i, location, known, now, recheck)
  {
    if items != [] {
      var n := |items| - 1;
      DoomedTargetsAre(items[..n], location, known, now, recheck, t);
      assert items == items[..n] + [items[n]];
    }
  }

  /** The provider IDs that NodeClaims already have. */
  function NonEmpty(ids: seq<string>): set<string> {
    set id | id in ids && id != ""
  }

  method KnownIDs(claims: seq<string>) returns (known: set<string>)
    ensures known == NonEmpty(claims)
  {
    known := {};
    for i := 0 to |claims|
      invariant known == NonEmpty(claims[..i])
    {
      assert claims[..i + 1] == claims[..i] + [claims[i]];
      if claims[i] != "" { known := known + {claims[i]}; }
    }
    assert claims[..|claims|] == claims;
  }

  /**
   One pass of garbage collection over the instances listed, with the provider IDs of the NodeClaims read after them.
   The delete calls are for just those of the instances that are deletable, named without slashes, and still there.
   */
  method Collect(location: string, items: seq<Instance>, typeLabels: Instance -> map<string, string>,
                 claims: seq<string>, now: int, recheck: Target -> Recheck) returns (calls: seq<Target>)
    requires forall i | i in items :: BelongsToCluster(LOCATION_KEY, location, i) && LOCATION_KEY !in typeLabels(i)
    ensures calls == DoomedTargets(items, location, NonEmpty(claims), now, recheck)
  {
    var known := KnownIDs(claims);
    calls := [];
    for n := 0 to |items|
      invariant calls == DoomedTargets(items[..n], location, known, now, recheck)
    {
      var i := items[n];
      assert items[..n + 1][..n] == items[..n] && items[..n + 1][n] == i;
      var call := DeleteOrphan(i, location, typeLabels(i), known, now, recheck);
      if call.Some? { calls := calls + [call.value]; }
    }
    assert items[..|items|] == items;
  }

  /** The VM sighted is to be deleted: what the source promises of every VM that garbage collection deletes. */
  ghost predicate Condemned(project: string, s: Sighting, location: string, claims: seq<string>, now: int,
                            recheck: Target -> Recheck) {
    && LOCATION_KEY in s.vm.labels && s.vm.labels[LOCATION_KEY] == location
    && now - (if s.vm.created.Some? then s.vm.created.value else s.at) >= 3 * 60 * SECONDS
    && s.vm.status !in {"TERMINATED", "STOPPING"}
    && "gce://" + (project + "/" + (s.zone + "/" + s.vm.name)) !in claims
    && '/' !in project && '/' !in s.zone && '/' !in s.vm.name
    && match recheck(Target(project, s.zone, s.vm.name))
       case Status(status) => status !in {"TERMINATED", "STOPPING"}
       case _ => false
  }

  lemma DoomedIffCondemned(project: string, s: Sighting, i: Instance, location: string, claims: seq<string>, now: int,
                           recheck: Target -> Recheck)
    requires KeptAs(project, s, i)
    ensures Doomed(i, location, NonEmpty(claims), now, recheck) <==>
            Condemned(project, s, location, claims, now, recheck)
  {
    assert ProviderID(i.target)[0] == 'g';
  }

  lemma OnlyCondemned(project: string, listed: set<Instance>, sightings: set<Sighting>, items: seq<Instance>,
                      location: string, claims: seq<string>, now: int, recheck: Target -> Recheck, t: Target)
    requires Sighted(project, listed, sightings) && forall i | i in items :: i in listed
    requires t in DoomedTargets(items, location, NonEmpty(claims), now, recheck)
    ensures exists s | s in sightings ::
              t == Target(project, s.zone, s.vm.name) && Condemned(project, s, location, claims, now, recheck)
  {
    DoomedTargetsAre(items, location, NonEmpty(claims), now, recheck, t);
    var i :| i in items && i.target == t && Doomed(i, location, NonEmpty(claims), now, recheck);
    var s :| s in sightings && KeptAs(project, s, i);
    DoomedIffCondemned(project, s, i, location, claims, now, recheck);
  }

  lemma CondemnedIsCalled(project: string, s: Sighting, i: Instance, items: seq<Instance>, location: string,
                          claims: seq<string>, now: int, recheck: Target -> Recheck)
    requires KeptAs(project, s, i) && i in items && Condemned(project, s, location, claims, now, recheck)
    ensures Target(project, s.zone, s.vm.name) in DoomedTargets(items, location, NonEmpty(claims), now, recheck)
  {
    DoomedIffCondemned(project, s, i, location, claims, now, recheck);
    DoomedTargetsAre(items, location, NonEmpty(claims), now, recheck, i.target);
  }

  /** The items include the last of every name among those just kept. */
  lemma LastIsListed(cache: Cache, ours: seq<Instance>, cache': Cache, listedAt: int, items: seq<Instance>, n: nat)
    requires cache' == Cached(cache, ours, listedAt) && n < |ours| && LastOfItsName(ours, n)
    requires forall name | name in cache' && listedAt <= cache'[name].expiresAt :: cache'[name].instance in items
    ensures ours[n] in items
  {
    LastIsCached(cache, ours, listedAt, n);
  }

  /** The instances to look at, if every zone can be listed. */
  method ReadInstances(provider: InstanceProvider, zones: seq<string>, listing: string -> Option<seq<VM>>,
                       listedAt: int) returns (items: Option<seq<Instance>>)
    requires provider.Valid() && provider.AllSighted() && provider.locationKey == Labels.Sanitize(LOCATION_KEY)
    modifies provider
    ensures provider.Valid() && provider.AllSighted()
    ensures old(provider.listed) <= provider.listed && old(provider.sightings) <= provider.sightings
    ensures items.Some? <==> forall z | z in zones :: listing(z).Some?
    ensures items.Some? ==>
              forall i | i in items.value ::
                i in provider.listed && BelongsToCluster(LOCATION_KEY, provider.clusterLocation, i)
    ensures items.Some? ==> HoldsLast(provider.project, zones, listing, listedAt, provider.clusterLocation, items.value)
  {
    LocationKeyIsClean(LOCATION_KEY);
    var ok := provider.SyncInstances(zones, listing, listedAt);
    if !ok { return None; }
    var listed := provider.Items(listedAt);
    ghost var ours := Ours(Listed(provider.project, zones, listing, listedAt), LOCATION_KEY, provider.clusterLocation);
    forall n | 0 <= n < |ours| && LastOfItsName(ours, n)
      ensures ours[n] in listed
    {
      LastIsListed(old(provider.instanceCache), ours, provider.instanceCache, listedAt, listed, n);
    }
    items := Some(listed);
  }

  /** The last of every name among those that the zones list now and that may be ours. */
  ghost predicate HoldsLast(project: string, zones: seq<string>, listing: string -> Option<seq<VM>>, listedAt: int,
                            location: string, items: seq<Instance>) {
    var ours := Ours(Listed(project, zones, listing, listedAt), LOCATION_KEY, location);
    forall n | 0 <= n < |ours| && LastOfItsName(ours, n) :: ours[n] in items
  }

  /** Every call is for a VM that was sighted and is condemned. */
  ghost predicate CallsOnlyCondemned(project: string, sightings: set<Sighting>, location: string, claims: seq<string>,
                                     now: int, recheck: Target -> Recheck, calls: seq<Target>) {
    forall t | t in calls ::
      exists s | s in sightings ::
        t == Target(project, s.zone, s.vm.name) && Condemned(project, s, location, claims, now, recheck)
  }

  /** Every condemned VM that the zones list now is called for, if no other that may be ours has its name. */
  ghost predicate CallsCondemned(project: string, seen: set<Sighting>, location: string, claims: seq<string>, now: int,
                                 recheck: Target -> Recheck, calls: seq<Target>) {
    forall s | s in seen && OnlyOfItsName(seen, LOCATION_KEY, location, s)
               && Condemned(project, s, location, claims, now, recheck) ::
      Target(project, s.zone, s.vm.name) in calls
  }

  /** And so is the last of each name, if it is doomed. */
  ghost predicate CallsLastDoomed(ours: seq<Instance>, location: string, claims: seq<string>, now: int,
                                  recheck: Target -> Recheck, calls: seq<Target>) {
    forall n | 0 <= n < |ours| && LastOfItsName(ours, n)
               && Doomed(ours[n], location, NonEmpty(claims), now, recheck) ::
      ours[n].target in calls
  }

  lemma CollectedAreCondemned(project: string, listed: set<Instance>, sightings: set<Sighting>, items: seq<Instance>,
                              location: string, claims: seq<string>, now: int, recheck: Target -> Recheck)
    requires Sighted(project, listed, sightings) && forall i | i in items :: i in listed
    ensures CallsOnlyCondemned(project, sightings, location, claims, now, recheck,
                               DoomedTargets(items, location, NonEmpty(claims), now, recheck))
  {
    forall t | t in DoomedTargets(items, location, NonEmpty(claims), now, recheck)
      ensures exists s | s in sightings ::
                t == Target(project, s.zone, s.vm.name) && Condemned(project, s, location, claims, now, recheck)
    {
      OnlyCondemned(project, listed, sightings, items, location, claims, now, recheck, t);
    }
  }

  lemma CondemnedAreCollected(project: string, zones: seq<string>, listing: string -> Option<seq<VM>>, listedAt: int,
                              items: seq<Instance>, location: string, claims: seq<string>, now: int,
                              recheck: Target -> Recheck)
    requires HoldsLast(project, zones, listing, listedAt, location, items)
    ensures var calls := DoomedTargets(items, location, NonEmpty(claims), now, recheck);
            && CallsCondemned(project, Seen(zones, listing, listedAt), location, claims, now, recheck, calls)
            && CallsLastDoomed(Ours(Listed(project, zones, listing, listedAt), LOCATION_KEY, location), location,
                               claims, now, recheck, calls)
  {
    var ours := Ours(Listed(project, zones, listing, listedAt), LOCATION_KEY, location);
    var seen := Seen(zones, listing, listedAt);
    forall n | 0 <= n < |ours| && LastOfItsName(ours, n)
               && Doomed(ours[n], location, NonEmpty(claims), now, recheck)
      ensures ours[n].target in DoomedTargets(items, location, NonEmpty(claims), now, recheck)
    {
      DoomedTargetsAre(items, location, NonEmpty(claims), now, recheck, ours[n].target);
    }
    forall s | s in seen && OnlyOfItsName(seen, LOCATION_KEY, location, s)
               && Condemned(project, s, location, claims, now, recheck)
      ensures Target(project, s.zone, s.vm.name) in DoomedTargets(items, location, NonEmpty(claims), now, recheck)
    {
      var n := OnlyIsLast(project, zones, listing, listedAt, LOCATION_KEY, location, s, ours);
      CondemnedIsCalled(project, s, ours[n], items, location, claims, now, recheck);
    }
  }

  /**
   From listing to deletion: nothing is deleted if any step of reading fails, and otherwise only what was listed as a
   VM of this cluster, at least three minutes old, neither stopping nor terminated, and unknown to every NodeClaim
   read.  A VM like that is deleted, if it is the last, or the only one, of its name in this listing.
   */
  method Reconcile(provider: InstanceProvider, zones: seq<string>, listing: string -> Option<seq<VM>>, listedAt: int,
                   typesKnown: bool, typeLabels: Instance -> map<string, string>, claims: Option<seq<string>>, now: int,
                   recheck: Target -> Recheck) returns (calls: seq<Target>)
    requires provider.Valid() && provider.AllSighted() && provider.locationKey == Labels.Sanitize(LOCATION_KEY)
    requires forall i :: LOCATION_KEY !in typeLabels(i)
    modifies provider
    ensures provider.Valid() && provider.AllSighted()
    ensures old(provider.listed) <= provider.listed && old(provider.sightings) <= provider.sightings
    ensures calls != [] ==> claims.Some? && forall z | z in zones :: listing(z).Some?
    ensures claims.Some? ==>
              CallsOnlyCondemned(provider.project, provider.sightings, provider.clusterLocation, claims.value, now,
                                 recheck, calls)
    ensures typesKnown && claims.Some? && (forall z | z in zones :: listing(z).Some?) ==>
              var project, location := provider.project, provider.clusterLocation;
              && CallsCondemned(project, Seen(zones, listing, listedAt), location, claims.value, now, recheck, calls)
              && CallsLastDoomed(Ours(Listed(project, zones, listing, listedAt), LOCATION_KEY, location), location,
                                 claims.value, now, recheck, calls)
  {
    var read := ReadInstances(provider, zones, listing, listedAt);
    if read.None? || !typesKnown || claims.None? { return []; }
    calls := Collect(provider.clusterLocation, read.value, typeLabels, claims.value, now, recheck);
    CollectedAreCondemned(provider.project, provider.listed, provider.sightings, read.value, provider.clusterLocation,
                          claims.value, now, recheck);
    CondemnedAreCollected(provider.project, zones, listing, listedAt, read.value, provider.clusterLocation,
                          claims.value, now, recheck);
  }
}
