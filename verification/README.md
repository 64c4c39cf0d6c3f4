# Verification of karpenter-provider-gcp

A Dafny 4.11 model of the parts of the GCP provider for Karpenter whose correctness spans several functions, a whole
state machine, or all input strings, with proofs about it. `dafny verify dfyconfig.toml` checks everything.

What is modelled, and in what form:

- **The end-to-end lease lock** (`Lease`): a state machine of any number of runners over a compare-and-swap store, with
  writes that stay in flight, are lost or arrive late.
- **Launching a VM** (`Launch`, `Launcher`, `LaunchSafety`, `LaunchDuplicates`, `LaunchDiscipline`, `LaunchFallback`,
  `LaunchEndings`, `LaunchBounds`, `LaunchRanges`, `LaunchMarks`, `LaunchBackoff`, `LaunchRemarks`, `Offerings`,
  `PodRanges`, `LocalSSD`, `SsdVariants`). GCE and GKE answer every call arbitrarily, and others mark offerings at any
  point in between; a launch extends a log of events.
  `Launch` gives the walk as functions, `Launcher` the provider's loops over the cache object, proved to refine them;
  the other modules state what holds over whole launches and runs of launches.
- **Custom machine types** (`Registration`, `Election`): the reconcile of a registration under optimistic locking, and
  the choice among duplicates made in two places.
- **Caches** (`ClusterCache`, `StaticTypes` with `UnorderedHash`, `Subnet`): each against the simple thing it stands
  for.
- **kube-env and kubelet arguments** (`Metadata`, `Taints`): parser, printer and setters.
- **Images** (`ImageScan`, `CosImages`, `UbuntuImages`): the paged scan against the flat catalog.
- **Garbage collection** (`GarbageCollection`, `Labels`) and **reservations** (`Reservation`).

`Basics` and `Text` hold shared datatypes and the string operations of Go's library.

Abstractions that hold throughout: calls to Kubernetes, GCE and GKE, clocks and random choices are parameters, given as
functions of the number of events before them or as arguments; regular expressions are classification functions; URL
parsing starts from the parsed path; Karpenter's requirement sets are predicates on zones and capacity types, and
single-valued requirements are their value; go-cache is a map with expiry times; strings are sequences of code points; a
nil map and an empty map are one; decimal fractions are exact before truncation or rounding. Integers are unbounded
except the cluster generation counter.

Assumptions that some theorems state in their preconditions: runners share a clock and draw fresh tokens; existence
checks are truthful and an inserted VM is visible to the next check; the clock does not run backwards; images are listed
newest first; the two NodeClasses concerned have no hash in common by accident (a list of disks is hashed by exclusive
or of its elements' hashes, so that equal disks cancel, which is modelled as it is); the change monitor misses no
change; machine names and capacity types hold no colon; instance types carry no cluster-location label; machine types
and registrations have distinct names.

## Model

| member | source | states |
|---|---|---|
| `Lease.StepKeepsInv` | hack/e2e-runner/lock.go:66-150 | every step of every runner (look, check, write, deliver, lose, tick) keeps the invariant that ties tokens, in-flight writes and the stored lease together |
| `Lease.OnlyTheHolderWrites` | hack/e2e-runner/lock.go:75-104 | a write that passes the version check while a runner's lease is unexpired is that runner's own |
| `Lease.MutualExclusion` | hack/e2e-runner/lock.go:66-150 | in every interleaving of any number of runners, two unreleased runners whose persisted renewals are under 600 s old are the same runner, and the store carries its token and reads as active |
| `Lease.OustedStaysOusted` | hack/e2e-runner/lock.go:122-150 | a runner whose token is gone never gets it back in one step, and its own late write leaves the store as it was |
| `Lease.TakeoverIsFinal` | hack/e2e-runner/lock.go:122-150 | after a takeover or a release, no pending or later renew or release of the old runner ever changes the store, whatever holder name it uses |
| `Lease.HeldWriteIsCurrent` | hack/e2e-runner/lock.go:122-150 | a renew or release read and delivered while its lease is unexpired never loses the version check to another runner |
| `Lease.BlocksUntil` | hack/e2e-runner/lock.go:105-117 | a lease blocks never, always or up to one moment: never exactly without a holder, always exactly if held with no positive duration or no time, and otherwise a duration from its last renewal |
| `Lease.SoloAcquire` | hack/e2e-runner/lock.go:66-117 | an acquire that nothing comes between takes the lock exactly when the stored lease is not active, and blocks others for 600 s from then; otherwise it stops without a write |
| `Lease.ReleaseUnblocks` | hack/e2e-runner/lock.go:137-150 | a release that arrives in time leaves a lease that is active at no time and carries no token; other annotations stay |
| `Lease.ReleasedCanBeAcquired` | hack/e2e-runner/lock.go:137-150 | from then on, as long as nothing else is written, an acquire that nothing comes between gets the lock |
| `Lease.SoloRenew` | hack/e2e-runner/lock.go:123-135 | a renewal that nothing comes between makes the lease run from now, and changes nothing else in it |
| `Lease.SoloRelease` | hack/e2e-runner/lock.go:137-150 | a holder's release that nothing comes between is applied |
| `Lease.DisownedSendsNothing` | hack/e2e-runner/lock.go:119-145 | a runner whose token the store does not carry sends neither renewal nor release |
| `Metadata.ParseSourceKubeletArgs` | pkg/metadata/kubelet_args.go:33-46 | the parsing loop keeps the words that are not provider-owned flags, in order |
| `Metadata.ParseKubeEnv` | pkg/metadata/compute_metadata.go:217-235 | the loop over lines yields the entries with their continuation lines, and the kubelet arguments apart |
| `Metadata.SplitEntryKey` | pkg/metadata/compute_metadata.go:237-246 | a line that splits is the key, a colon and a space, and the value, with a key no continuation line can be taken for |
| `Metadata.OpensEntryIff` | pkg/metadata/compute_metadata.go:237-246 | a line opens an entry exactly if it holds a colon and a space, though not at its start, and starts with neither space nor tab |
| `Metadata.RenderKubeletArgs` | pkg/metadata/kubelet_args.go:48-60 | rendering prints kept arguments, then max pods, labels and taints |
| `Metadata.PrintKubeEnv` | pkg/metadata/compute_metadata.go:248-263 | printing yields the entries in key order, then the rendered arguments if there are any |
| `Metadata.RoundTrip` | pkg/metadata/compute_metadata.go:217-263 | parsing, printing and parsing again equals parsing once, for every string |
| `Metadata.WellFormedRoundTrip` | pkg/metadata/compute_metadata.go:217-263 | every well-formed model is recovered from its printed text |
| `Metadata.WellFormedIffParsed` | pkg/metadata/compute_metadata.go:217-263 | well-formed models are exactly those that some text parses to |
| `Metadata.ParsedArgsAreKept` | pkg/metadata/kubelet_args.go:33-46 | parsed arguments hold only words, none of them a provider-owned flag |
| `Metadata.RenderedArgsReparse` | pkg/metadata/kubelet_args.go:33-60 | reparsing rendered arguments gives the source tokens in order plus exactly what whitespace in label or taint text lets through; no owned flag survives |
| `Metadata.ArgsSurviveIffNoLeak` | pkg/metadata/kubelet_args.go:33-60 | the source tokens survive exactly when neither the label nor the taint text leaks a word |
| `Metadata.SpaceLeaks` | pkg/metadata/kubelet_args.go:48-60 | a value with a space does leak its second word: the condition is needed |
| `Metadata.SettingsDoNotDisturbSource` | pkg/metadata/kubelet_args.go:62-122 | after any sequence of whitespace-free settings the rendered text reparses to the same source arguments, and to the same model iff no empty KUBELET_ARGS entry is displaced |
| `Metadata.InstanceMetadata.FromSource` | pkg/metadata/compute_metadata.go:71-86 | the model starts as what the source text parses to, without labels or taints of its own |
| `Metadata.InstanceMetadata.SetRegistrationNodeLabels` | pkg/metadata/kubelet_args.go:62-67 | the kubelet is given exactly one label flag, with just these labels (none if there are none); the other flags and the source's words stay, and a model that renders cleanly still does |
| `Metadata.InstanceMetadata.SetRegistrationNodeLabel` | pkg/metadata/kubelet_args.go:69-77 | the label flag carries one label more, or another value for it, and an empty key changes nothing; the other flags and the source's words stay, and a model that renders cleanly still does |
| `Metadata.InstanceMetadata.SetKubeletMaxPods` | pkg/metadata/kubelet_args.go:79-84 | the kubelet is given exactly one pod limit, this one, whatever the source or an earlier call named; the other flags and the source's words stay, and a model that renders cleanly still does |
| `Metadata.InstanceMetadata.SetNodeTaints` | pkg/metadata/kubelet_args.go:88-107 | the kubelet is given exactly one taint flag, with just these taints; the other flags and the source's words stay, and a model that renders cleanly still does |
| `Metadata.InstanceMetadata.AppendNodeTaint` | pkg/metadata/kubelet_args.go:95-114 | the taint flag carries the earlier taints and then this one; the other flags and the source's words stay, and a model that renders cleanly still does |
| `Metadata.InstanceMetadata.Render` | pkg/metadata/compute_metadata.go:248-263 | after any clean settings the printed text reads back to the source's arguments, and to the source's model unless an empty KUBELET_ARGS entry is displaced; the kubelet starts with the source's words and then one flag per thing set |
| `Metadata.GivenAsSet` | pkg/metadata/kubelet_args.go:48-60 | the rendered arguments give the kubelet each provider flag at most once, and as set: none of the source competes with it |
| `Metadata.SettingConcernsOneFlag` | pkg/metadata/kubelet_args.go:62-122 | a setting changes what the kubelet is given for its own flag only |
| `Metadata.LabelsReadBack` | pkg/metadata/kubelet_args.go:48-60 | split at commas, the label flag is a pair for each label and nothing else |
| `Taints.ReadBack` | vendor/k8s.io/api/core/v1/taint.go:28-37 | read with the key up to the first = or : and the effect after the last colon, the text of a taint gives it back, whatever its value, if the key holds no = or : and the effect no colon |
| `Taints.TaintsReadBack` | pkg/metadata/kubelet_args.go:116-122 | split at commas, the taint flag is the taints in the order they were set |
| `Taints.AllReadBack` | pkg/metadata/kubelet_args.go:116-122 | reading the parts gives back the taints, in their order |
| `Metadata.TaintsAsSet` | pkg/metadata/kubelet_args.go:62-122 | a reader of the whole command line finds exactly the taints set, in order, in one flag |
| `Offerings.KeyIsInjective` | pkg/providers/offerings/unavailableofferings/cache.go:96-98 | distinct offerings have distinct cache keys if capacity types and machine names hold no colon |
| `Offerings.ColonsCollide` | pkg/providers/offerings/unavailableofferings/cache.go:96-98 | a colon in a machine name makes two offerings share a key: the condition is needed |
| `Offerings.AvailableStaysAvailable` | pkg/providers/offerings/unavailableofferings/cache.go:65-68 | without a new mark an available offering stays available |
| `Offerings.UnavailableOfferings.constructor` | pkg/providers/offerings/unavailableofferings/cache.go:55-57 | a new cache holds no mark |
| `Offerings.UnavailableOfferings.MarkUnavailableWithTTL` | pkg/providers/offerings/unavailableofferings/cache.go:71-83 | the offering is unavailable until just its lifetime ends, half an hour if that is zero, for ever if negative; all others stay, and one change is counted |
| `Offerings.UnavailableOfferings.OthersMark` | pkg/providers/offerings/unavailableofferings/cache.go:71-88 | several marks by others: each offering among them has its last one, and all the rest stay |
| `Offerings.UnavailableOfferings.IsUnavailable` | pkg/providers/offerings/unavailableofferings/cache.go:65-68 | answers whether the string-keyed entry stands for a mark in force of this very offering |
| `Offerings.UnavailableOfferings.Flush` | pkg/providers/offerings/unavailableofferings/cache.go:90-93 | forgets every mark and counts one change |
| `PodRanges.RankedIsStableSort` | pkg/providers/instance/podrange.go:62-73 | known ranges before unknown, most free first, ties in input order, none lost |
| `PodRanges.StableSortUnique` | pkg/providers/instance/podrange.go:62-73 | these properties determine the ranking |
| `PodRanges.MostFreeFirst` | pkg/providers/instance/podrange.go:62-73 | a range with a known count precedes any other, and one with more free IPs never follows one with fewer |
| `PodRanges.RankPodRangeNames` | pkg/providers/instance/podrange.go:62-73 | sorting a copy of the names gives that ranking |
| `Launch.RefusalIsFirstShortage` | pkg/providers/instance/instance.go:276-301 | a refused insert is classified by its first capacity reason, quota reasons under the quota code |
| `Launch.OperationIsFirstShortage` | pkg/providers/instance/instance.go:244-274 | a failed operation is classified by its first capacity error |
| `Launch.ShortageIffSaid` | pkg/providers/instance/instance.go:244-301 | an insert failed for lack of capacity exactly if a reason of its refusal or an error of its operation says so |
| `Launch.Cheapest` | pkg/providers/instance/instance.go:865-883 | the chosen offering is allowed, in one of the zones, and no allowed one in the zones is cheaper |
| `Launch.CheapestIsFirst` | pkg/providers/instance/instance.go:865-883 | among equally cheap offerings the first decides the zone |
| `Launch.UniqKeepsFirsts` | pkg/providers/instance/instance.go:625-640 | zones are checked once each, the selected one first and the others in the order of their attempts |
| `Launch.Candidates` | pkg/providers/instance/instance.go:769-785 | keeps exactly the types whose SSD count the claim allows and that an image fits |
| `Launcher.Provider.MarkUnavailable` | pkg/providers/instance/instance.go:375-382 | one mark in the cache and in the log |
| `Launcher.Provider.MarkQuotaExceeded` | pkg/providers/instance/instance.go:386-396 | marks the failed zone and then every other named zone that offers the type at the capacity type |
| `Launcher.Provider.Conclude` | pkg/providers/instance/instance.go:669-705 | marks, verdict and retryability of a last failure, for every answer |
| `Launcher.Provider.CreateWithPodRanges` | pkg/providers/instance/instance.go:643-698 | the loop over ranked pod ranges refines the attempt function |
| `Launcher.Provider.GetOrCreateInstance` | pkg/providers/instance/instance.go:623-641 | the existence checks come first, in order and without repetition, and an existing VM is adopted with its zone |
| `Launcher.Provider.CheapestCompatibleZone` | pkg/providers/instance/instance.go:865-883 | the loop yields the zone of the first cheapest offering, or the empty zone |
| `Launcher.Provider.OpenZones` | pkg/providers/instance/instance.go:907-909 | the filter keeps the zones without a mark in force |
| `Launcher.Provider.SelectLaunchZone` | pkg/providers/instance/instance.go:885-922 | zone selection with all its failures refines the selection function |
| `Launcher.Provider.TryCreateInstance` | pkg/providers/instance/instance.go:586-621 | one attempt, with the zone that counts as attempted |
| `Launcher.Provider.CreateWithCapacityType` | pkg/providers/instance/instance.go:536-576 | the loop over types collects errors and attempted zones as the walk function says |
| `Launcher.Provider.LaunchFitting` | pkg/providers/instance/instance.go:492-532 | spot first if available, then on-demand under the fallback condition |
| `Launcher.Provider.LaunchNode` | pkg/providers/instance/instance.go:470-519 | a whole Create, against the cache of unavailable offerings it updates |
| `LaunchSafety.CheckedZonesAreEmpty` | pkg/providers/instance/instance.go:623-637 | zones reported absent one after the other are all without the VM at the end of the checks |
| `LaunchSafety.GetOrCreateSafe` | pkg/providers/instance/instance.go:623-641 | an attempt that starts with the VM only in attempted zones never makes a second one |
| `LaunchSafety.WalkSafe` | pkg/providers/instance/instance.go:536-576 | every zone that may hold the VM stays among the attempted zones through the whole walk |
| `LaunchSafety.NoDuplicateVM` | pkg/providers/instance/instance.go:470-641 | with truthful checks one Create never leaves the VM in two zones, and reports a zone the VM was in, provided the first lookup answers or there is no VM yet |
| `LaunchSafety.SafeIffLookupAnswers` | pkg/providers/instance/instance.go:478-485 | no Create that gets a given first answer ever duplicates the VM, whatever follows, exactly if the lookup answered or there was no VM |
| `LaunchDuplicates.DuplicatesIffInserts` | pkg/providers/instance/instance.go:470-641 | after a failed lookup, a launch whose answers are true of some course of events can have duplicated an overlooked VM exactly if it inserted in a named zone |
| `LaunchDuplicates.LaunchIsSpaced` | pkg/providers/instance/instance.go:623-641 | every insert goes to a zone reported absent before it, and no check directly follows an insert |
| `LaunchSafety.FailedLookupCanDuplicate` | pkg/providers/instance/instance.go:480-485 | after a failed first lookup Create goes on and can duplicate a VM left in another zone |
| `LaunchDiscipline.WalkIsClear` | pkg/providers/instance/instance.go:536-576 | the errors a walk collects are all capacity errors exactly when no call in it failed for another reason |
| `LaunchDiscipline.OnDemandOnlyAfterCapacityFailures` | pkg/providers/instance/instance.go:498-532 | in a launch that works on both, spot comes first, none of its lookups failed, and every spot insert failed for capacity |
| `LaunchFallback.SpotFirstIffOffered` | pkg/providers/instance/instance.go:722-745 | the first call for a type is on spot exactly if the claim allows spot and a type that fits has an available spot offering in an allowed zone, else on demand |
| `LaunchFallback.FallsBackIffSpotRanOut` | pkg/providers/instance/instance.go:498-532 | a launch on spot goes on to on-demand exactly if on-demand is on offer, no spot call failed for another reason than capacity, and nothing ended the launch before |
| `LaunchFallback.ShortageFallsBackIffOffered` | pkg/providers/instance/instance.go:523-532 | in particular, if nothing failed for another reason and nothing ended the launch, on-demand is tried exactly if it is on offer |
| `LaunchEndings.ReportsItsFinalEvent` | pkg/providers/instance/instance.go:536-576 | the call that ends a launch decides the report: the zone where the VM was found or made, the error of a failed check or build, lack of capacity after the last pod range, or a resource not ready |
| `LaunchEndings.ReportsEveryType` | pkg/providers/instance/instance.go:498-519 | a launch that no call ends reports one error per type that fits, and lack of capacity alone exactly if no call failed for another reason |
| `LaunchEndings.ReportsWithoutTrying` | pkg/providers/instance/instance.go:470-496 | no types is an error, a VM to adopt is returned with its zone, and no type that fits is lack of capacity |
| `LaunchEndings.NotReadyIffSaid` | pkg/providers/instance/instance.go:325-332 | the launch gives up for a resource that is not ready exactly if an insert failed with that reason among those given and without counting as lack of capacity |
| `LaunchDiscipline.DisabledQuotaBlocksFallback` | pkg/providers/instance/instance.go:523-532 | with the quota backoff at zero, a quota failure on spot means no on-demand call follows |
| `LaunchDiscipline.FinalEventsEndLaunch` | pkg/providers/instance/instance.go:643-705 | after a VM is found or created, a failed check or build, a resource not ready, or the last range exhausted, only marks follow |
| `LaunchBounds.RangesTriedInRankOrder` | pkg/providers/instance/instance.go:643-677 | the pod ranges tried are a prefix of the ranking |
| `LaunchBounds.OnlyExhaustionTriesNextRange` | pkg/providers/instance/instance.go:643-698 | each range but the last failed by IP exhaustion, a success ends the attempt, and a successful attempt marks nothing |
| `LaunchRanges.InsertsNameConfiguredRanges` | pkg/providers/instance/podrange.go:50-60 | every insert names a range the NodeClass pins, if it pins any, else one of the cluster configuration read last, and leaves it open only if there is none |
| `LaunchBounds.InsertBound` | pkg/providers/instance/instance.go:470-576 | a launch makes at most 2 * types * ranges inserts |
| `LaunchMarks.LaunchIsOrderly` | pkg/providers/instance/instance.go:470-705 | every mark of a launch directly follows the insert that explains it with its lifetime; a mark other than for quota is of the zone just selected; a quota failure marks every zone of the type; selected zones were open |
| `LaunchMarks.ConclusionIsExplained` | pkg/providers/instance/instance.go:375-396 | a mark carries the type and capacity type of the failed insert, the lifetime of its failure, and its zone or, for quota, another that offers the type; without a shortage nothing is marked |
| `LaunchMarks.MarksLastByCode` | pkg/providers/instance/instance.go:334-370 | every mark follows an insert that failed for lack of capacity, and lasts the quota backoff, 30 s for IP space, an hour for an unsupported configuration, else five minutes, as its code and reason say |
| `LaunchMarks.ConclusionCovers` | pkg/providers/instance/instance.go:386-396 | a quota failure marks the failed zone and every named zone offering the type at the capacity type |
| `LaunchMarks.SelectionIsOpen` | pkg/providers/instance/instance.go:885-922 | a zone selected for a compatible offering was not marked then; without one the empty zone is selected |
| `LaunchMarks.EmptyZoneIffNothingOpen` | pkg/providers/instance/instance.go:885-922 | a selection finds a compatible offering exactly if, on demand, any zone or, otherwise, an allowed offering in a kept zone is open; over named cluster zones it yields the empty zone exactly if not |
| `LaunchBackoff.TTLsArePositive` | pkg/providers/instance/instance.go:352-370 | every lifetime passed to the cache is positive |
| `LaunchBackoff.OthersDecide` | pkg/providers/offerings/unavailableofferings/cache.go:65-83 | if others made the last mark of an offering, it is unavailable exactly until that mark ends |
| `LaunchBackoff.StockoutRenewsOnlyOthers` | pkg/providers/instance/instance.go:902-911 | a failure other than quota, of a selection for a compatible offering, marks an offering still marked exactly if others marked it since the selection and that mark is in force |
| `LaunchBackoff.RunsMarkGently` | pkg/providers/instance/instance.go:352-396 | both hold over any run of launches, whatever others mark in between: lifetimes are positive, and a mark other than for quota renews none in force but one by others since the selection, unless nothing compatible was open |
| `LaunchRemarks.StrayRemarks` | pkg/providers/instance/instance.go:865-883 | two launches of a spot type offered only outside the cluster's zones: the second failure renews the first mark, of the empty zone, while it is in force |
| `LaunchRemarks.NeverRemarksIffCompatible` | pkg/providers/instance/instance.go:885-922 | failures of selections with, or without, a compatible offering renew no mark in force but one by others since, in any run: true exactly for those with one |
| `LaunchBackoff.QuotaMarkLasts` | pkg/providers/instance/instance.go:384-396 | whatever the launches do next, a quota mark keeps its offering marked to any moment of its lifetime that no mark by others undercuts |
| `LaunchBackoff.QuotaMarkLastsIff` | pkg/providers/offerings/unavailableofferings/cache.go:71-83 | up to any moment of its lifetime a quota mark keeps the offering marked throughout exactly if nobody else marks it for a time that ends before |
| `LaunchBackoff.QuotaStopsSelection` | pkg/providers/instance/instance.go:384-396 | until the quota backoff is over no launch selects a zone offering that type at that capacity type, unless others, such as a launch running at the same time, marked just that offering for a time that has run out |
| `LaunchBackoff.PreemptionsKeepBackoff` | pkg/controllers/interruption/controller.go:113-129 | marks that last the default lifetime, as those of preemption notices do, never cut short a quota backoff that is not longer: no selection comes before it is over |
| `LocalSSD.FamilyBeforeDash` | pkg/utils/localssd/localssd.go:92-97 | the family is what the name has before the first dash |
| `LocalSSD.LargestBracketCounts` | pkg/utils/localssd/localssd.go:37-90 | in a family with brackets the counts are those of the largest bracket the machine type reaches |
| `LocalSSD.VariantCounts` | pkg/providers/instancetype/instancetype.go:234-250 | a count is a variant exactly if it is zero or allowed where SSDs are chosen, and the bundled count, or zero without a bundle, elsewhere |
| `LocalSSD.PartitionsAddUp` | pkg/utils/localssd/localssd.go:123-133 | partitions add up, but on the three types with a fixed total |
| `LocalSSD.AllowedCountsIncrease` | pkg/utils/localssd/localssd.go:37-90 | no machine shape lists a count twice or zero among the non-zero counts |
| `LocalSSD.VariantsAreDistinct` | pkg/providers/instancetype/instancetype.go:234-248 | the counts of one machine type are distinct |
| `SsdVariants.PinIsItsCount` | pkg/providers/instancetype/types.go:222-228 | the value a variant pins reads back as its count |
| `SsdVariants.AtoiOfItoa` | pkg/providers/instancetype/types.go:222-228 | reading a printed number gives it back, negative or not |
| `SsdVariants.CatalogIsDistinct` | pkg/providers/instancetype/instancetype.go:196-209 | no two catalog entries share name and count |
| `SsdVariants.CatalogEntries` | pkg/providers/instancetype/instancetype.go:196-209 | the catalog has an entry for every machine type and every count it can be launched with, and no other |
| `SsdVariants.MatchVariant` | pkg/cloudprovider/cloudprovider.go:226-246 | the loop finds the place of the first entry with the stamped count, else, or without a stamp, of the first entry of the type |
| `SsdVariants.MatchedIsOfType` | pkg/cloudprovider/cloudprovider.go:226-246 | a match is of the VM's type, has its count if any entry does, and fails only if no entry is of the type |
| `SsdVariants.ResolveCreated` | pkg/cloudprovider/cloudprovider.go:156-174 | candidates, then the catalog, then an error: a stamped VM never resolves to an entry with another count, and resolves to its own if the candidates or, where they offer none, the catalog have it |
| `SsdVariants.BuiltMatchesItsEntry` | pkg/providers/instance/instance.go:1592-1602 | the stamp of a VM built from an entry matches that entry, at the one place the catalog has it |
| `SsdVariants.LaunchedVMMatchesItsVariant` | pkg/providers/instance/instance.go:769-826 | in every launch over catalog entries, the VM an insert builds has the claim's count as scratch disks and stamp, and matches the entry it was launched from, at exactly one place of the catalog |
| `SsdVariants.LaunchesWhatIsAsked` | pkg/providers/instance/instance.go:769-826 | every insert is of a given type with one pinned count, and a configurable one has the count the claim names, or zero when it names none |
| `Registration.ResolveZones` | pkg/controllers/gcecustommachinetype/controller.go:149-179 | the loop yields the confirmed zones, whether any zone is unanswered, and CPU and memory of the last answer that found the machine type, or those seen before while ready |
| `Registration.ResolvedInOrder` | pkg/controllers/gcecustommachinetype/controller.go:149-179 | the zones are listed in the order of the answers |
| `Registration.Object.constructor` | pkg/controllers/gcecustommachinetype/controller.go:85-86 | a registration starts without zones and not ready |
| `Registration.Object.PatchStatus` | pkg/controllers/gcecustommachinetype/controller.go:183-197 | a status is persisted only at the version it was computed from |
| `Registration.Object.Reconcile` | pkg/controllers/gcecustommachinetype/controller.go:85-145 | one reconcile of a possibly stale copy: what is persisted, and whether it is retried |
| `Registration.ReadyIffZones` | pkg/controllers/gcecustommachinetype/controller.go:85-145 | over every run, ready exactly while there are zones |
| `Registration.ZonesAreConfirmed` | pkg/controllers/gcecustommachinetype/controller.go:149-179 | over every run, the zones are exactly those found and not since denied, dropped or superseded |
| `Registration.ZoneLeavesForCause` | pkg/controllers/gcecustommachinetype/controller.go:147-179 | a zone leaves only by supersession, removal from the cluster, or a not-found answer |
| `Registration.SizeIsLastFound` | pkg/controllers/gcecustommachinetype/controller.go:149-165 | over every run CPU and memory are those of an answer that found the machine type with none after it that did, in that round or a later one, or zero while not ready |
| `Registration.FalseIffLastDenied` | pkg/controllers/gcecustommachinetype/controller.go:85-145 | over every run, ready is false exactly if the last round that found the machine type, superseded it, or was told not found everywhere, was not one that found it |
| `Election.IsSupersededDuplicate` | pkg/controllers/gcecustommachinetype/controller.go:205-220 | true exactly if another registration of the machine type was created earlier, or at the same time with a smaller name |
| `Election.UnsupersededIffWins` | pkg/controllers/gcecustommachinetype/controller.go:205-231 | not superseded and first by creation, then by name, are the same |
| `Election.ExactlyOneUnsuperseded` | pkg/controllers/gcecustommachinetype/controller.go:199-231 | per machine type exactly one registration is not superseded: none of the others was created earlier, or at the same time with a smaller name |
| `Election.CustomMachineTypeWinners` | pkg/providers/instancetype/instancetype.go:442-459 | the merged map holds, per machine type with a ready registration, the ready one created first, by name among equals |
| `Election.OrderDoesNotMatter` | pkg/providers/instancetype/instancetype.go:434-459 | listing order does not change the winners |
| `Election.AgreeIffReady` | pkg/providers/instancetype/instancetype.go:488-497 | catalog and controller choose the same registration exactly when the controller's is ready |
| `ClusterCache.StepKeepsInv` | pkg/providers/gke/gke.go:137-164 | every step of every call, and every invalidation or expiry, keeps the cache to fetches sent after the last invalidation |
| `ClusterCache.ReturnsFresh` | pkg/providers/gke/gke.go:137-164 | in every interleaving a call returns a configuration whose fetch was sent after all invalidations before the call |
| `ClusterCache.CachedIffSameGeneration` | pkg/providers/gke/gke.go:150-155 | a fetch is cached exactly if the invalidations during it are a multiple of 2^64 |
| `ClusterCache.WrapServesStale` | pkg/providers/gke/gke.go:150-155 | once the counter has come round, an outdated answer is cached and served |
| `ClusterCache.Provider.constructor` | pkg/providers/gke/gke.go:74-86 | a new provider has an empty cache |
| `ClusterCache.Provider.BeginGetClusterConfig` | pkg/providers/gke/gke.go:138-143 | a hit was fetched after the last invalidation; a miss takes the current generation |
| `ClusterCache.Provider.SendFetch` | pkg/providers/gke/gke.go:144-146 | the request goes out after the generation is read |
| `ClusterCache.Provider.FailFetch` | pkg/providers/gke/gke.go:146-148 | a failed fetch ends the call and leaves the cache |
| `ClusterCache.Provider.ExpireEntry` | pkg/providers/gke/gke.go:82-82 | an entry may end at any time |
| `ClusterCache.Provider.GetClusterConfig` | pkg/providers/gke/gke.go:137-157 | an undisturbed call returns and keeps what is cached or else fetched, sent after every invalidation before it |
| `ClusterCache.Provider.FinishGetClusterConfig` | pkg/providers/gke/gke.go:149-155 | what is returned was sent after the call began, and is kept only under the generation the call read |
| `ClusterCache.Provider.InvalidateClusterConfig` | pkg/providers/gke/gke.go:159-164 | invalidation empties the cache and moves the generation on |
| `StaticTypes.BootDiskGiB` | pkg/providers/instancetype/types.go:306-315 | the size of the first boot disk that has one, or 100 |
| `StaticTypes.RecomputedAreTypes` | pkg/providers/instancetype/instancetype.go:196-209 | the list holds only complete machine types, each with a count it can have, the NodeClass's settings, and half the CPUs on one thread per core |
| `StaticTypes.TypesAreRecomputed` | pkg/providers/instancetype/instancetype.go:196-209 | and every complete machine type with every count it can have |
| `StaticTypes.ListedByName` | pkg/providers/instancetype/instancetype.go:197-197 | machine types are listed in the order of their names |
| `StaticTypes.Compute` | pkg/providers/instancetype/instancetype.go:196-209 | the nested loops list every variant by machine name and count |
| `UnorderedHash.PairCancels` | vendor/github.com/mitchellh/hashstructure/v2/hashstructure.go:386-413 | two equal elements of a list hashed as a set cancel, wherever they stand |
| `UnorderedHash.DigestSeesOddOnly` | vendor/github.com/mitchellh/hashstructure/v2/hashstructure.go:446-448 | whatever the hash of an element, lists in which the same elements occur an odd number of times have the same hash |
| `StaticTypes.KeyIdentifies` | pkg/providers/instancetype/instancetype.go:175-184 | NodeClasses share a key if the same disks occur an odd number of times in both and all else is equal; and only then, if these two have no hash in common by accident |
| `StaticTypes.RepeatedDiskIsOverlooked` | pkg/providers/instancetype/instancetype.go:177-177 | a sized boot disk put twice in front sets the boot size, and the key does not see it |
| `StaticTypes.NoKeyFixesBootSize` | pkg/providers/instancetype/instancetype.go:175-184 | so for every NodeClass, and whatever the hashes, one with the same key has another boot size |
| `StaticTypes.KeyFixesBootSizeIffOne` | pkg/providers/instancetype/types.go:306-315 | among NodeClasses that list no sized boot disk twice, those with one key always share the boot size exactly when the sized boot disks have one size |
| `StaticTypes.Provider.constructor` | pkg/providers/instancetype/instancetype.go:115-137 | a new provider has an empty cache |
| `StaticTypes.Provider.UpdateInstanceTypes` | pkg/providers/instancetype/instancetype.go:355-377 | a changed catalog empties the cache |
| `StaticTypes.Provider.GetStaticInstanceTypes` | pkg/providers/instancetype/instancetype.go:175-214 | the list is the one computed from the current catalog for the first NodeClass with the key, which is alike; it equals recomputing for this NodeClass if the boot sizes are equal, and so whenever neither lists a sized boot disk twice and this one has one boot size |
| `Subnet.PrintedResolvesToItself` | pkg/providers/subnet/subnet.go:148-197 | a printed reference resolves to itself under any network and region |
| `Subnet.AbsoluteResolvesToRef` | pkg/providers/subnet/subnet.go:158-185 | so does its absolute URL, whatever precedes the projects segment |
| `Subnet.BareNameResolves` | pkg/providers/subnet/subnet.go:186-208 | a bare name is taken in the network's project and the provider's region |
| `Subnet.ResolvesIff` | pkg/providers/subnet/subnet.go:177-208 | a reference means a subnetwork exactly if it spells it out, or names its region and itself, or itself in the provider's region, and in both cases the network tells the project |
| `Subnet.SlashesAround` | pkg/providers/subnet/subnet.go:158-176 | slashes at either end of a path do not count |
| `Subnet.PartsArePlain` | pkg/providers/subnet/subnet.go:158-176 | a path with an empty segment names nothing, nor does text that is no URL |
| `Subnet.CountFreeIPs` | pkg/providers/subnet/subnet.go:119-124 | each named range with a count has the last count reported for it |
| `Subnet.EntryHasLookup` | pkg/providers/subnet/subnet.go:87-146 | what is cached is the outcome of the target's last event, a lookup not invalidated since |
| `Subnet.LookupsAreSpaced` | pkg/providers/subnet/subnet.go:97-131 | without invalidation, lookups of a target are a minute apart after a snapshot and ten seconds after a failure, unless the failing caller was gone |
| `Subnet.Provider.GetSnapshot` | pkg/providers/subnet/subnet.go:87-135 | a fresh outcome is served without a lookup, anything else is looked up; a failure whose caller is gone is not kept |
| `Subnet.Provider.Invalidate` | pkg/providers/subnet/subnet.go:138-146 | discards the target's entry only |
| `ImageScan.ScanImages` | pkg/providers/imagefamily/image_list.go:28-51 | page by page, the visitor sees exactly the flat catalog up to where it stops, and a failing page matters only if reached |
| `CosImages.FirstIsFirst` | pkg/providers/imagefamily/containeroptimizedos.go:138-180 | the first good image of a variant has no good one before it |
| `CosImages.FirstIsNewest` | pkg/providers/imagefamily/containeroptimizedos.go:137-160 | in a listing sorted newest first, no good image of a variant is newer than the first |
| `CosImages.ScanIsFirst` | pkg/providers/imagefamily/containeroptimizedos.go:138-160 | the early-stopping scan ends with the first good image per variant, or at the first lookup that fails before its variant is found |
| `CosImages.ResolveLatest` | pkg/providers/imagefamily/containeroptimizedos.go:138-180 | result and every error of the latest resolution, against the flat catalog: only images in scope, ready and not withdrawn, as listed and as re-read, one for each variant that has any; in a listing sorted newest first, the newest of each variant |
| `CosImages.ResolveExactBuild` | pkg/providers/imagefamily/containeroptimizedos.go:115-135 | the first usable amd64 image of the build, or an error, never another build |
| `UbuntuImages.FirstIsFirst` | pkg/providers/imagefamily/ubuntu.go:96-109 | the first match for an architecture has no match before it |
| `UbuntuImages.FirstIsNewest` | pkg/providers/imagefamily/ubuntu.go:95-109 | in a listing sorted newest first, no match is newer than the first |
| `UbuntuImages.ScanIsFirst` | pkg/providers/imagefamily/ubuntu.go:96-109 | the scan ends with the first match for both architectures |
| `UbuntuImages.ListImages` | pkg/providers/imagefamily/ubuntu.go:96-120 | at most one image per architecture, the first match in the flat catalog |
| `UbuntuImages.SelectImage` | pkg/providers/imagefamily/ubuntu.go:125-142 | the newest usable image of the version for the architecture, the earliest listed among equally new ones, and none only if none fits |
| `UbuntuImages.ResolveImages` | pkg/providers/imagefamily/ubuntu.go:65-93 | images for both architectures that are ready, not withdrawn, in scope and of the pinned version, the newest in a listing sorted newest first, or the error that says what is missing |
| `Labels.SanitizedIsClean` | pkg/utils/utils.go:57-63 | a sanitized key is lower-case letters and digits with single dashes between |
| `Labels.SanitizeFixesClean` | pkg/utils/utils.go:57-63 | sanitizing changes nothing exactly on such keys |
| `Labels.SanitizeJoinsWords` | pkg/utils/utils.go:57-63 | sanitizing keeps the runs of letters and digits, in small letters, with one dash between them |
| `GarbageCollection.LocationKeyIsClean` | pkg/providers/instance/instance.go:1638-1641 | the location label is looked up under the key it is written under |
| `GarbageCollection.ParsesToItself` | pkg/providers/instance/instance.go:1816-1831 | a printed provider ID parses to the VM it was printed for, and to none if a part holds a slash |
| `GarbageCollection.InstanceProvider.constructor` | pkg/providers/instance/instance.go:126-151 | a new provider has an empty cache |
| `GarbageCollection.InstanceProvider.SyncInstances` | pkg/providers/instance/instance.go:1840-1892 | exactly the listed VMs that may be ours enter the cache, in listing order, and none if a zone cannot be listed; one that alone has its name is kept for 15 s under its zone, labels, status and creation time |
| `GarbageCollection.ListedAreSeen` | pkg/providers/instance/instance.go:1840-1892 | the instances listed are exactly the VMs of the zones' pages, with their own name, zone, labels, status and creation time, or the time of the listing if that cannot be read |
| `GarbageCollection.LastIsCached` | pkg/providers/instance/instance.go:1886-1890 | of the VMs of one name, the last listed is the one cached |
| `GarbageCollection.InstanceProvider.Items` | pkg/providers/instance/instance.go:1706-1718 | what is listed is cached, unexpired and belongs to the cluster, and nothing unexpired is left out |
| `GarbageCollection.OrphanIffDeletable` | pkg/controllers/nodeclaim/garbagecollection/controller.go:102-120 | orphaned, as the controller decides it, means labelled with this cluster's location, at least 3 minutes old, not stopping or terminated, and unknown to the claims |
| `GarbageCollection.CallNamesTheVM` | pkg/providers/instance/instance.go:1734-1774 | a deletion names exactly the listed VM, and only while it is neither stopping nor terminated |
| `GarbageCollection.DeleteOrphan` | pkg/controllers/nodeclaim/garbagecollection/controller.go:77-86 | an instance is deleted exactly if deletable, named without slashes and still there |
| `GarbageCollection.DoomedTargetsAre` | pkg/controllers/nodeclaim/garbagecollection/controller.go:58-92 | a VM is among the targets exactly if an instance of it is doomed |
| `GarbageCollection.Collect` | pkg/controllers/nodeclaim/garbagecollection/controller.go:58-92 | one pass deletes the doomed instances, all of them and in order |
| `GarbageCollection.DoomedIffCondemned` | pkg/controllers/nodeclaim/garbagecollection/controller.go:77-120 | what is deleted, said of the listed VM itself: labelled with this cluster's location, 3 minutes old, neither stopping nor terminated then and now, and no NodeClaim has the provider ID made of its project, zone and name |
| `GarbageCollection.ReadInstances` | pkg/providers/instance/instance.go:1706-1718 | the instances to look at are there exactly if every zone could be listed, and include the last of every name |
| `GarbageCollection.Reconcile` | pkg/controllers/nodeclaim/garbagecollection/controller.go:58-92 | across sync, listing and deletion, every delete call is for a VM that some zone listed and that meets those conditions; and when every read succeeds, each such VM listed last, or alone, under its name is deleted |
| `Reservation.ResolveReservedMemoryMiB` | pkg/utils/utils.go:72-112 | the running total over the tiers equals the sum of their shares |
| `Reservation.MoreOfMoreMemory` | pkg/utils/utils.go:72-112 | more memory never reserves less, across the 1 GiB step too |
| `Reservation.AtMostAQuarter` | pkg/utils/utils.go:72-112 | above 1 GiB at most a quarter is reserved |
| `Reservation.MemoryIsRateTruncated` | pkg/utils/utils.go:72-112 | above 1 GiB the reservation is below the exact piecewise rate by less than 1.68 MiB |
| `Reservation.ResolveReservedCPUMCore` | pkg/utils/utils.go:114-150 | shared-core types have 1060, all others the exact piecewise rate truncated once |
| `Reservation.MoreOfMoreCpu` | pkg/utils/utils.go:114-150 | for types that are not shared-core, more CPU never reserves less, nor more than there is |
| `Reservation.ResolveReservedEphemeralStorage` | pkg/utils/utils.go:152-188 | threshold and reservation for SSD-backed storage, 50, 75 or 100 GiB by the number of SSDs, and for the boot disk |
| `Reservation.BootReservationIsLargest` | pkg/utils/utils.go:168-188 | of the boot disk, as much is reserved as half of it, 35% and 6 GiB, and 100 GiB all allow, and a tenth is the threshold |
| `Reservation.ReservationFits` | pkg/providers/instancetype/types.go:60-81 | threshold plus reservation fits the advertised storage, except exactly when SSDs count nothing yet have a capacity that a tenth of the boot disk exceeds |

## Left out

- Lease: `withLease`, the renewal ticker of `maintain` and context cancellation; a runner may renew or release at any
  time. The steps are on values rather than objects, since interleaving is the point.
- LaunchBackoff.QuotaStopsSelection: of launches that run at the same time one sequence is followed; what the rest do
  shows as answers of GCE and as marks by others, which come between two events.
- Launcher.Provider.LaunchNode: sorting by price is a parameter that may only return the given types; random zone choice
  is a parameter; caches that a failed pod range invalidates are elsewhere.
- LaunchFallback.FallsBackIffSpotRanOut: for types that each pin one SSD count; one that pins none ends the launch
  without a call.
- Launcher.Provider.SelectLaunchZone: the clock is read once per selection, and the zones let through keep the cluster's
  order where the source sorts them, which matters only to the random choice.
- SsdVariants.ResolveCreated: the value a requirement yields when it pins no single one is a parameter.
- SsdVariants.PinIsItsCount: numbers too large for Go's integers are not modelled.
- StaticTypes.Provider.GetStaticInstanceTypes: a static type is the record of what it is computed from, not the capacity
  and overhead computed; the sequence number does not wrap.
- Registration.Object.Reconcile: conditions keep only their status; a deleted object is not modelled.
- Subnet.Provider.GetSnapshot: the API timeout is one of the failures; the whole call holds the lock, as in the source,
  so calls are atomic.
- GarbageCollection.InstanceProvider.SyncInstances: the sanitized location key is computed once, with the provider.
- Reservation.ReservationFits: for boot disks of zero or more GiB; allocatable capacity after kubelet overrides is not
  modelled.
- ResolveClusterZones, GetServerConfig and their caches: plain time-limited caches.
- Milestone pins and the exact-build variants derived by rewriting names: string templates over regular expressions.
- Building the instance (disks other than scratch, network interfaces, GPU, shielded and confidential settings, service
  accounts, tags): copying of fields.
- Offerings and prices of instance types, node pool templates, NodeClass status and termination, drift, CSR approval,
  metrics and options: one-step or plumbing.
