/** Subnetwork references and the cache of subnetwork snapshots (pkg/providers/subnet/subnet.go). */
module Subnet {
  import opened Basics
  import opened Text

  const CACHE_TTL := 60 * SECONDS
  const FAILURE_TTL := 10 * SECONDS

  // ---------------------------------------------------------------- references

  datatype Ref = Ref(project: string, region: string, name: string)

  /** What the URL parser makes of a reference; one with a query or a fragment counts as malformed. */
  datatype Parsed = Malformed | Path(absolute: bool, path: string)

  function TrimLeft(s: string): string {
    if s != "" && s[0] == '/' then TrimLeft(s[1..]) else s
  }

  function TrimRight(s: string): string {
    if s != "" && s[|s| - 1] == '/' then TrimRight(s[..|s| - 1]) else s
  }

  function FromProjects(parts: seq<string>): Option<seq<string>> {
    if parts == [] then None else if parts[0] == "projects" then Some(parts) else FromProjects(parts[1..])
  }

  function ResourceParts(p: Parsed): Option<seq<string>> {
    if p.Malformed? then None
    else
      var parts := Split(TrimRight(TrimLeft(p.path)), '/');
      if "" in parts then None else if p.absolute then FromProjects(parts) else Some(parts)
  }

  function NetworkProject(network: Parsed): Option<string> {
    match ResourceParts(network)
    case Some(parts) =>
      if |parts| == 5 && parts[0] == "projects" && parts[2] == "global" && parts[3] == "networks"
      then Some(parts[1]) else None
    case None => None
  }

  function ResolveTarget(network: Parsed, subnetwork: Parsed, region: string): Option<Ref> {
    match ResourceParts(subnetwork)
    case None => None
    case Some(parts) =>
      if |parts| == 6 && parts[0] == "projects" && parts[2] == "regions" && parts[4] == "subnetworks" then
        Some(Ref(parts[1], parts[3], parts[5]))
      else match NetworkProject(network)
        case None => None
        case Some(project) =>
          if |parts| == 1 then Some(Ref(project, region, parts[0]))
          else if |parts| == 4 && parts[0] == "regions" && parts[2] == "subnetworks"
          then Some(Ref(project, parts[1], parts[3]))
          else None
  }

  function Segments(r: Ref): seq<string> {
    ["projects", r.project, "regions", r.region, "subnetworks", r.name]
  }

  function Printed(r: Ref): string {
    Join(Segments(r), "/")
  }

  predicate PlainSegment(s: string) {
    s != "" && '/' !in s
  }

  predicate PlainRef(r: Ref) {
    PlainSegment(r.project) && PlainSegment(r.region) && PlainSegment(r.name)
  }

  lemma {:induction false} JoinEnds(parts: seq<string>, sep: string)
    requires parts != [] && forall i | 0 <= i < |parts| :: parts[i] != ""
    ensures Join(parts, sep) != ""
    ensures Join(parts, sep)[0] == parts[0][0]
    ensures var s, last := Join(parts, sep), parts[|parts| - 1]; s[|s| - 1] == last[|last| - 1]
  {
    if |parts| > 1 {
      JoinEnds(parts[1..], sep);
      var rest := Join(parts[1..], sep);
      assert Join(parts, sep) == parts[0] + sep + rest;
    }
  }

  /** Parts that hold no slash and are not empty come back from their path. */
  lemma PartsOfPath(parts: seq<string>)
    requires parts != [] && forall p | p in parts :: PlainSegment(p)
    ensures ResourceParts(Path(false, Join(parts, "/"))) == Some(parts)
  {
    assert forall i | 0 <= i < |parts| :: parts[i] in parts;
    JoinEnds(parts, "/");
    SplitOfJoin(parts, '/');
  }

  /** Whatever the network and the region, a printed reference resolves to itself. */
  lemma PrintedResolvesToItself(r: Ref, network: Parsed, region: string)
    requires PlainRef(r)
    ensures ResolveTarget(network, Path(false, Printed(r)), region) == Some(r)
  {
    assert PlainSegment("projects") && PlainSegment("regions") && PlainSegment("subnetworks");
    PartsOfPath(Segments(r));
  }

  lemma {:induction false} FromProjectsSkips(front: seq<string>, parts: seq<string>)
    requires "projects" !in front && parts != [] && parts[0] == "projects"
    ensures FromProjects(front + parts) == Some(parts)
  {
    if front == [] {
      assert front + parts == parts;
    } else {
      assert (front + parts)[1..] == front[1..] + parts;
      FromProjectsSkips(front[1..], parts);
    }
  }

  /** So does an absolute URL: what precedes the first segment "projects" does not count. */
  lemma AbsoluteResolvesToRef(r: Ref, front: seq<string>, network: Parsed, region: string)
    requires PlainRef(r) && "projects" !in front && forall p | p in front :: PlainSegment(p)
    ensures ResolveTarget(network, Path(true, Join(front + Segments(r), "/")), region) == Some(r)
  {
    var parts := front + Segments(r);
    assert PlainSegment("projects") && PlainSegment("regions") && PlainSegment("subnetworks");
    PartsOfPath(parts);
    FromProjectsSkips(front, Segments(r));
  }

  /** A bare name means the subnetwork of that name in the network's project and the provider's region. */
  lemma BareNameResolves(name: string, project: string, net: string, region: string)
    requires PlainSegment(name) && PlainSegment(project) && PlainSegment(net)
    ensures ResolveTarget(Path(false, Join(["projects", project, "global", "networks", net], "/")), Path(false, name),
                          region)
            == Some(Ref(project, region, name))
  {
    assert PlainSegment("projects") && PlainSegment("global") && PlainSegment("networks");
    PartsOfPath(["projects", project, "global", "networks", net]);
    PartsOfPath([name]);
  }

  /** Slashes at either end of a path do not count. */
  lemma SlashesAround(absolute: bool, path: string)
    ensures ResourceParts(Path(absolute, "/" + path)) == ResourceParts(Path(absolute, path))
    ensures ResourceParts(Path(absolute, path + "/")) == ResourceParts(Path(absolute, path))
  {
    assert ("/" + path)[1..] == path;
    TrimLeftOfEnd(path);
    var s := TrimLeft(path);
    assert (s + "/")[..|s|] == s;
  }

  lemma {:induction false} TrimLeftOfEnd(s: string)
    ensures TrimLeft(s + "/") == if TrimLeft(s) == "" then "" else TrimLeft(s) + "/"
  {
    if s == "" {
      assert s + "/" == "/" && "/"[1..] == "";
    } else if s[0] == '/' {
      assert (s + "/")[1..] == s[1..] + "/";
      TrimLeftOfEnd(s[1..]);
    }
  }

  lemma {:induction false} FromProjectsIsEnd(parts: seq<string>)
    ensures FromProjects(parts).Some? ==>
              FromProjects(parts).value != [] && forall p | p in FromProjects(parts).value :: p in parts
  {
    if parts != [] && parts[0] != "projects" { FromProjectsIsEnd(parts[1..]); }
  }

  /** A path with an empty segment names nothing, nor does text that is no URL: parts always are proper names. */
  lemma PartsArePlain(p: Parsed)
    ensures ResourceParts(p).Some? ==> p.Path? && forall part | part in ResourceParts(p).value :: PlainSegment(part)
  {
    if p.Path? {
      var s := TrimRight(TrimLeft(p.path));
      SplitParts(s, '/');
      FromProjectsIsEnd(Split(s, '/'));
    }
  }

  /** The network is given as the full reference of one in this project. */
  ghost predicate NetworkIn(network: Parsed, project: string) {
    exists name :: ResourceParts(network) == Some(["projects", project, "global", "networks", name])
  }

  lemma NetworkProjectIff(network: Parsed, project: string)
    ensures NetworkProject(network) == Some(project) <==> NetworkIn(network, project)
  {
    if NetworkProject(network) == Some(project) {
      var parts := ResourceParts(network).value;
      assert parts == ["projects", project, "global", "networks", parts[4]];
    }
  }

  /**
   A subnetwork reference means this one exactly if it spells it out in full; or names just the region and itself, or
   only itself in the provider's region, and the network tells the project.
   */
  lemma ResolvesIff(network: Parsed, subnetwork: Parsed, region: string, r: Ref)
    ensures ResolveTarget(network, subnetwork, region) == Some(r) <==>
            || ResourceParts(subnetwork) == Some(["projects", r.project, "regions", r.region, "subnetworks", r.name])
            || (ResourceParts(subnetwork) == Some(["regions", r.region, "subnetworks", r.name])
                && NetworkIn(network, r.project))
            || (ResourceParts(subnetwork) == Some([r.name]) && r.region == region && NetworkIn(network, r.project))
  {
    NetworkProjectIff(network, r.project);
    if ResourceParts(subnetwork).Some? {
      var parts := ResourceParts(subnetwork).value;
      assert |parts| == 6 ==> parts == [parts[0], parts[1], parts[2], parts[3], parts[4], parts[5]];
      assert |parts| == 4 ==> parts == [parts[0], parts[1], parts[2], parts[3]];
      assert |parts| == 1 ==> parts == [parts[0]];
    }
  }

  // ---------------------------------------------------------------- snapshots

  datatype Outcome =
    | Snapshot(counts: map<string, int>, stackType: string, ipv6AccessType: string)
    | Failure(message: string)

  datatype Entry = Entry(outcome: Outcome, expiresAt: int)

  /**
   What happens under the provider's lock: a lookup, with the caller gone or not when it failed; or an invalidation.
   */
  datatype Event =
    | LookedUp(target: Ref, asked: int, answered: int, outcome: Outcome, callerGone: bool)
    | Invalidated(target: Ref)

  function TTL(outcome: Outcome): int {
    if outcome.Failure? then FAILURE_TTL else CACHE_TTL
  }

  /** A failure whose caller is gone is not kept. */
  predicate Kept(e: Event) {
    e.LookedUp? && (e.outcome.Snapshot? || !e.callerGone)
  }

  /** What the events leave in the cache for a target. */
  function EntryOf(log: seq<Event>, target: Ref): Option<Entry> {
    if log == [] then None
    else
      var n := |log| - 1;
      if log[n].target != target then EntryOf(log[..n], target)
      else if Kept(log[n]) then Some(Entry(log[n].outcome, log[n].answered + TTL(log[n].outcome)))
      else None
  }

  predicate Fresh(entry: Option<Entry>, now: int) {
    entry.Some? && now < entry.value.expiresAt
  }

  /** Every lookup was made only because nothing fresh was cached. */
  ghost predicate Necessary(log: seq<Event>) {
    forall k | 0 <= k < |log| && log[k].LookedUp? :: !Fresh(EntryOf(log[..k], log[k].target), log[k].asked)
  }

  /** What is cached is the outcome of the target's last event, a lookup. */
  lemma {:induction false} EntryHasLookup(log: seq<Event>, target: Ref) returns (k: nat)
    requires EntryOf(log, target).Some?
    ensures k < |log| && log[k].target == target && Kept(log[k])
    ensures EntryOf(log, target).value == Entry(log[k].outcome, log[k].answered + TTL(log[k].outcome))
    ensures forall j | k < j < |log| :: log[j].target != target
  {
    var n := |log| - 1;
    if log[n].target == target {
      k := n;
    } else {
      k := EntryHasLookup(log[..n], target);
    }
  }

  lemma {:induction false} EntryStays(log: seq<Event>, k: nat, m: nat)
    requires k < m <= |log| && Kept(log[k]) && forall j | k < j < m :: log[j].target != log[k].target
    ensures EntryOf(log[..m], log[k].target) == Some(Entry(log[k].outcome, log[k].answered + TTL(log[k].outcome)))
  {
    assert log[..m][..m - 1] == log[..m - 1];
    if k < m - 1 { EntryStays(log, k, m - 1); }
  }

  /**
   Two lookups of a target in a row are at least the first one's lifetime apart: a minute after a snapshot, ten seconds
   after a failure.  Only an invalidation between them, or a failure whose caller was gone, makes the second come
   earlier.
   */
  lemma LookupsAreSpaced(log: seq<Event>, k: nat, m: nat)
    requires Necessary(log) && k < m < |log| && log[k].LookedUp? && (log[k].outcome.Failure? ==> !log[k].callerGone)
    requires log[m].LookedUp? && log[m].target == log[k].target
    requires forall j | k < j < m :: log[j].target != log[k].target
    ensures log[m].asked >= log[k].answered + (if log[k].outcome.Failure? then 10 * SECONDS else 60 * SECONDS)
  {
    EntryStays(log, k, m);
  }

  lemma LogLookup(log: seq<Event>, e: Event)
    requires Necessary(log) && (e.LookedUp? ==> !Fresh(EntryOf(log, e.target), e.asked))
    ensures Necessary(log + [e])
    ensures forall t :: EntryOf(log + [e], t) ==
                        if t != e.target then EntryOf(log, t)
                        else if Kept(e) then Some(Entry(e.outcome, e.answered + TTL(e.outcome))) else None
  {
    var log' := log + [e];
    assert log'[..|log|] == log;
    assert forall k | 0 <= k < |log| :: log'[..k] == log[..k];
  }

  method CountFreeIPs(utilization: seq<(string, Option<int>)>) returns (counts: map<string, int>)
    ensures forall name :: name in counts <==>
              name != "" && exists i | 0 <= i < |utilization| :: utilization[i].0 == name && utilization[i].1.Some?
    ensures forall i | 0 <= i < |utilization| && utilization[i].0 != "" && utilization[i].1.Some?
                       && (forall j | i < j < |utilization| && utilization[j].1.Some? ::
                             utilization[j].0 != utilization[i].0) ::
              utilization[i].0 in counts && counts[utilization[i].0] == utilization[i].1.value
  {
    counts := map[];
    for n := 0 to |utilization|
      invariant forall name :: name in counts <==>
                  name != "" && exists i | 0 <= i < n :: utilization[i].0 == name && utilization[i].1.Some?
      invariant forall i | 0 <= i < n && utilization[i].0 != "" && utilization[i].1.Some?
                           && (forall j | i < j < n && utilization[j].1.Some? ::
                                 utilization[j].0 != utilization[i].0) ::
                  utilization[i].0 in counts && counts[utilization[i].0] == utilization[i].1.value
    {
      var (name, free) := utilization[n];
      if name != "" && free.Some? { counts := counts[name := free.value]; }
    }
  }

  /** How a lookup ends: what the API answers, when, and whether the caller is gone by then. */
  datatype Lookup = Lookup(outcome: Outcome, answered: int, callerGone: bool)

  class Provider {
    const region: string
    var cache: map<Ref, Entry>
    ghost var log: seq<Event>

    ghost predicate Valid()
      reads this
    {
      Necessary(log) && forall t :: EntryOf(log, t) == if t in cache then Some(cache[t]) else None
    }

    constructor (region: string)
      ensures Valid() && this.region == region && log == []
    {
      this.region, cache, log := region, map[], [];
    }

    /**
     None when the caller is gone, or the reference does not resolve; otherwise what is cached and fresh, or looked up.
     */
    method GetSnapshot(network: Parsed, subnetwork: Parsed, gone: bool, now: int, lookup: Lookup)
      returns (r: Option<Outcome>)
      requires Valid()
      modifies this
      ensures Valid()
      ensures var target := ResolveTarget(network, subnetwork, region);
              if gone || target.None? then r == None && unchanged(this)
              else if old(target.value in cache && now < cache[target.value].expiresAt) then
                r == Some(old(cache)[target.value].outcome) && unchanged(this)
              else
                && r == Some(lookup.outcome)
                && log == old(log) + [LookedUp(target.value, now, lookup.answered, lookup.outcome, lookup.callerGone)]
                && (target.value in cache <==> lookup.outcome.Snapshot? || !lookup.callerGone)
                && (target.value in cache ==>
                      var lifetime := if lookup.outcome.Snapshot? then 60 * SECONDS else 10 * SECONDS;
                      cache[target.value] == Entry(lookup.outcome, lookup.answered + lifetime))
    {
      if gone { return None; }
      var resolved := ResolveTarget(network, subnetwork, region);
      if resolved.None? { return None; }
      var target := resolved.value;
      if target in cache && now < cache[target].expiresAt { return Some(cache[target].outcome); }
      Record(target, now, lookup);
      return Some(lookup.outcome);
    }

    /** Keeps what a lookup found, unless it failed and its caller is gone. */
    method Record(target: Ref, now: int, lookup: Lookup)
      requires Valid() && (target in cache ==> cache[target].expiresAt <= now)
      modifies this
      ensures Valid()
      ensures log == old(log) + [LookedUp(target, now, lookup.answered, lookup.outcome, lookup.callerGone)]
      ensures cache - {target} == old(cache) - {target}
      ensures target in cache <==> lookup.outcome.Snapshot? || !lookup.callerGone
      ensures target in cache ==>
                var lifetime := if lookup.outcome.Snapshot? then 60 * SECONDS else 10 * SECONDS;
                cache[target] == Entry(lookup.outcome, lookup.answered + lifetime)
    {
      LogLookup(log, LookedUp(target, now, lookup.answered, lookup.outcome, lookup.callerGone));
      log := log + [LookedUp(target, now, lookup.answered, lookup.outcome, lookup.callerGone)];
      cache := cache - {target};
      if lookup.outcome.Snapshot? || !lookup.callerGone {
        cache := cache[target := Entry(lookup.outcome, lookup.answered + TTL(lookup.outcome))];
      }
    }

    method Invalidate(network: Parsed, subnetwork: Parsed)
      requires Valid()
      modifies this
      ensures Valid()
      ensures var target := ResolveTarget(network, subnetwork, region);
              if target.None? then unchanged(this) else log == old(log) + [Invalidated(target.value)]
    {
      var target := ResolveTarget(network, subnetwork, region);
      if target.None? { return; }
      cache := cache - {target.value};
      LogLookup(log, Invalidated(target.value));
      log := log + [Invalidated(target.value)];
    }
  }
}
