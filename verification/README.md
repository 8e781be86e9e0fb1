# Site Fabric: a verified model

Site Fabric composes the sealed declarations of many member domains into one
verdict on a site, fences who may change that verdict, and keeps what it
accepted in an append-only store. This project models those components in Dafny
and proves what they promise: for every input, every run and every file.

- **Composition** (`Admission`, `Attribution`, `FailureDomains`, `ForestNodes`,
  `Maintenance`, `Verdicts`, `Membership`, `Decisions`, `Compose`, `SiteVerdict`,
  `Grounds`, `Reports`, over `Capacity`, `Ledger` and `Forest`). The class `Composer`
  fills its fields stage by stage and is proved to return `ComposeSite`, a function of
  the input. About that function: arrival order is irrelevant, what a CURRENT verdict
  guarantees, conservation in the ledger, exact conditions for every lifecycle of a
  member and of the site, for attribution, exclusion, obligations and connectivity,
  exactly which conflicts and deficits are reported, on what every decision rests, and
  what a changed source invalidates.
- **Sealing** (`Seal`, `Sealable`, `SealedSites`, `Contributions`, `Witnesses`).
  Canonicalisation of a declaration by tidying, stable sort and collapse: idempotent,
  independent of order, and exactly what can be sealed, told from the fields of a
  declaration. Sealing, fencing and composition are then put together: an accepted
  publication is CURRENT exactly when the site's own conditions hold, and a CURRENT
  site counts every contribution exactly when no resource is offered on two different
  terms. `Witnesses` holds three small sites that show what the composition does not
  promise.
- **Authority and chain** (`Fencing`, `Authority`, `LeaseRuns`, `Chain`, `Refusals`).
  Registries as state machines: when each call succeeds and why it is refused, and
  properties over all runs: what is accepted next, the order of each domain's accepted
  publications, the dead that never return, revoked leases and lower epochs that never
  return, lease numbers, when a site has one holder at a time, and the order of the
  snapshot chain.
- **Store** (`StoreFormat`, `Compaction`, `LoadOrder`, `Store`, `StoreRuns`,
  `StoreCalls`). The file is a byte sequence; a crash keeps a prefix of it. Any run of
  appends, crashes, reopenings and compactions leaves a list of records within the
  bounds and at most one torn one, and recovery finds exactly that list; which append,
  opening or compaction succeeds next is told from it.
- **Codec and hash** (`Canonical`, `ClaimCodec`, `RecordCodec`, `SnapshotCodec`,
  `KnownBytes`, `Reader`, `Writer`, `Sha256Standard`, `Sha256`, `Sha256Example`).
  Readers and writers are inverse and ignore what follows; all but the snapshot reader
  accept exactly the encodings, and of that one it is shown exactly which bytes it
  accepts besides them. The streaming SHA-256 equals the one of FIPS 180-4, sections
  5.1.1, 5.2.1, 5.3.3 and 6.2.2, for every way of cutting a message, and that one
  gives the published digest of the published example.
- **Controller** (`Controller`, `ControllerRuns`, `Acceptance`, `Restart`,
  `SiteControllerObject`). Hello, publish, retire, revoke, session end, recompose and
  start as atomic steps of an object that owns the registry and the chain, and exactly
  which of them succeed.

`Model` holds the shared values, `Order` byte-wise order and the two sorts,
`SourceSets` the bounded sorted vector of sources, and `SourceBounds` what fits into
it.

## How to read it

Integers carry their width (`u64` and so on are subset types), so a wrap or a
saturation is visible where the code performs it. Strings are byte strings.
Sorted vectors and ordered maps of the source are Dafny maps and sets, visited
in the order of their keys (`Order.Sorted`). Digests are the result of a function
parameter from bytes to 32 bytes, in the composition, the chain and the store;
nothing assumes that it does not collide, except `Seal.DigestIgnoresOrder` and
`Contributions.CountsByItselfIff`, which say so. The clock is a parameter of each call.

The code works in loops and on fields, and so do the methods here; each is proved
equal to a function, and the properties are lemmas about the functions.

## Hypotheses

- Counting the links and gateways that are UP reads the claim behind each
  attributed one in scope of an attributed obligation
  (src/compose/compose.cpp:1273). A link declared only as a capacity pool has
  none, and the code then reads through a null pointer. `Readable` says exactly
  that every such read finds its claim, and is all that `ComposeSite` and
  `Composer.Run` require; `Witnesses.PoolAloneIsNotReadable` is an input that is
  not readable. Inputs are readable when every pool under the key of a link or gateway
  stands beside the claim about it (`Compose.NoPoolAloneIsReadable`). The controller
  composes a publication again and again beside others, so its steps ask this of
  each publication (`Tame`, `TameDeclaration`).
- One domain has no two different records of the same, highest (generation,
  attempt, acceptance sequence), for the independence of arrival order only.
  `Admission.OrderIrrelevantIff` shows that this is exactly what it takes.
- No admission of the domain in question follows one of that domain under
  sequence 2^64 - 1 (`SequencesLeft`), for the order across incarnations only.
  `Fencing.AdmittedSequencesIncreaseIff` shows that this is exactly what it takes,
  `Fencing.TakeOverAdvancesIff` is the local condition and
  `Fencing.ExhaustedSequencesRestart` the run that shows it is needed. Epochs, the
  order within an incarnation and the dead need no such condition
  (`Fencing.PublicationsNeverFallBack`, `Fencing.TheDeadDoNotReturn`).
- Fewer than 2^64 - 1 lease numbers were issued, for a grant to validate at once
  over a run. `Authority.NumberedIff` shows when this fails and
  `Authority.GrantedTokenValidates` what it takes for one grant.
- A token published with a snapshot speaks for it (`Matches`). The chain compares
  only the site; `ControllerRuns.PublishedUnderItsLease` shows that the
  controller establishes the rest.

## Where the code and its comments differ

- src/compose/compose.cpp:389 announces a tie-break by declaration digest; the
  comparison at 402-406 has none, so of two tied records the first to arrive
  wins (`Admission.FirstComeFirstServed`).
- src/compose/compose.cpp:1091-1112 checks that available plus excluded is the
  total, but adds into a vector that starts with every channel unknown, so the
  check never fails (`Ledger.Recombines`). The identity holds all the same
  (`Ledger.LedgerConserves`).
- A channel whose every contributor is under maintenance keeps a ledger from
  closing although available plus excluded is the total
  (`Ledger.FullyExcludedChannelDoesNotClose`).
- CURRENT does not rule out a capacity overflow: the lifecycle tests only for
  CAPACITY_UNKNOWN (`Compose.CurrentFindings`). `Witnesses.CurrentMayOverflow` is
  such a site; a CURRENT site states its whole capacity exactly when no channel is
  given more than the bound (`Contributions.CurrentCountsIff`).
- Nor does CURRENT mean that every contribution is counted. There is one ledger entry
  for each resource (src/compose/compose.cpp:653-706), while a declaration may
  contribute under one key in several scopes, or under the key of a gateway it also
  claims. Only the first claim of a member about a resource is compared
  (src/compose/compose.cpp:231-235) and only the last pool is kept (612-614), so the
  rest is dropped without a conflict: `Witnesses.TwoScopesLoseOne` is such a site.
  Nothing is dropped exactly when no resource is offered on two different terms
  (`Contributions.CurrentCountsIff`), which is a question to each declaration by
  itself (`Contributions.CountsByItselfIff`) unless something is offered under the key
  of a cluster or a pod, where the first claim compared is not the offer.
- An expectation without required members is PARTITIONED even when all of them
  are CURRENT (`Membership.AllOptionalIsPartitioned`).
- tests/test_concurrency.cpp:280 expects one active holder at a time. A recorded
  holder is granted the site again without a look at the present controller
  (src/authority/authority.cpp:178-206), so the tokens of two can be valid at one
  instant (`LeaseRuns.ReturningHolderIsReinstated`). `LeaseRuns.AlwaysSoleIff` is the
  exact condition for the controller's lease to be the only one recorded as active,
  along a whole run; as long as it is, valid tokens on active leases are of one
  holder (`LeaseRuns.OneHolderAtATime`).
- The lease number wraps (src/authority/authority.cpp:164): after 2^64 - 1 numbers
  the next is zero, and a token under it is granted but does not validate
  (`Authority.NumberedIff`, `Authority.GrantedTokenValidates`;
  `LeaseRuns.NumbersRunOut` is the run).
- The chain compares the generations of neighbours only under one boot, so two boots
  that share a sequence number can take turns and repeat a generation
  (`Chain.TakingTurnsRepeatsGenerations`). The order is strict exactly when the
  generation rises wherever another boot takes over (`Chain.StrictOrderIff`).
- The flags and the reserved bytes of the record header and of the file header
  are covered by digests but not required to be zero by the scan. An accepted
  record with anything in them stands for the same entry
  (`StoreFormat.MarksAreAccepted`).
- The snapshot reader inserts sources into a sorted set (src/core/codec.cpp:194-209),
  clears what an absent source carries (src/core/canonical.cpp:269-313) and drops
  surplus factors (src/core/codec.cpp:177-192), so it accepts bytes that nobody
  writes: a snapshot whose sources are out of order or repeated is one
  (`StoreFormat.AnyOrderIsAccepted`). `SnapshotCodec.SnapshotIsRead` says exactly
  which bytes are read as they are written (`PlainSnapshot`).
- What a scan accepts is what the store would write exactly when the bytes of both
  headers that nobody reads are zero and every payload is plain in that sense
  (`StoreFormat.AcceptedAsWrittenIff`, `StoreFormat.ScannedAsWrittenIff`,
  `StoreFormat.ImageAsWrittenIff`).
- An append is accepted whatever its payload holds; one that does not decode
  stops every later scan in front of it (`StoreRuns.AppendScans`). An entry reads back
  exactly when it is good (`StoreRuns.AppendReadsBackIff`); a tombstone above the
  bound on texts is accepted and lost with everything behind it
  (`StoreRuns.LongTombstoneStops`).

## Model

| member | source | states |
|---|---|---|
| Compose.CurrentIsSound | src/compose/compose.cpp:1494-1567 | A site reported CURRENT has a present required member; every listed member's selected record is authoritative, its evidence observed by somebody, not in the future and within its term; every resource has one agreed content and every contribution with a known scope is counted; every link and gateway is attributed and UP; every obligation is kept; no zone is refused or unreported; the forest has no cycle and no dangling parent; whatever the ledger states is the exact sum of its entries, and it states every channel of the total exactly when no sum is above the bound |
| Compose.ArrivalOrderIsIrrelevant | src/compose/compose.cpp:387-419 | Two inputs with the same records, in any order and with any repetition, compose to the same outcome, provided no domain has two different records of the same, highest rank |
| Compose.ProvenanceIsAdmitted | src/compose/compose.cpp:1600-1695 | Every source of every decision, and every attestor of every resource, is the source of an admitted record |
| Compose.OtherSourcesInvalidateNothing | src/compose/compose.cpp:1767-1805 | A source that was not admitted, another generation of the same domain included, invalidates no decision and affects no resource and no member |
| Compose.AdmittedSourceInvalidatesTheVerdict | src/compose/compose.cpp:1767-1805 | Below the decision bound the source of an admitted record always invalidates the decision on the site lifecycle |
| Compose.WithdrawalKeepsOtherOwnership | src/compose/compose.cpp:566-651 | Withdrawing everything a domain published leaves the ownership of every resource its admitted declaration does not mention exactly as it was |
| Compose.AttributedOrDisputed | src/compose/compose.cpp:259-303 | When every admitted member is CURRENT a resource is attributed with one content, or disputed |
| Compose.EverythingAttributed | src/compose/compose.cpp:566-651 | Without ownership conflicts and with only CURRENT members every resource is attributed |
| Compose.CurrentFindings | src/compose/compose.cpp:1494-1567 | The lifecycle is CURRENT exactly when there is no conflict, the required members are present, every listed member counts, and capacity, forest, zones, obligations and links leave nothing unknown, violated, down or degraded; a capacity overflow is not looked at |
| Compose.NoConflictAnywhere | src/compose/compose.cpp:187-200 | The conflict list of a site is empty only when no stage found a conflict |
| Compose.ConnectedWhenCurrent | src/compose/compose.cpp:1143-1219 | A connectivity status other than unknown with nothing down or degraded means every link and gateway is attributed and UP |
| Compose.NoPoolAloneIsReadable | src/compose/compose.cpp:1256-1281 | When every pool under the key of a link or gateway stands beside a claim about that link or gateway in the same declaration, every claim whose state the obligations make the composition read is there, whoever is admitted |
| Compose.Composer.Prepare | src/compose/compose.cpp:344-385 | Header checks and the canonical expectation, with the status that refuses |
| Compose.Composer.AdmitMembers | src/compose/compose.cpp:387-564 | Fills the admissions with one selected, judged record per domain |
| Compose.Composer.Attribute | src/compose/compose.cpp:566-651 | Fills the resources and the ownership conflicts |
| Compose.Composer.BuildForest | src/compose/compose.cpp:708-832 | Fills the forest, its conflicts and its deficits |
| Compose.Composer.BuildMaintenance | src/compose/compose.cpp:892-1141 | Fills the zone effects, the refused zones and the capacity ledger |
| Compose.Composer.Judge | src/compose/compose.cpp:1143-1376 | Fills connectivity and the obligation verdicts |
| Compose.Composer.ConcludeMembership | src/compose/compose.cpp:1378-1492 | Adds the absent members, the membership deficits and the member conflicts |
| Compose.Composer.ConcludeVerdict | src/compose/compose.cpp:1494-1695 | Fills the lifecycle, the status and the decisions with their sources |
| Compose.Composer.Stages | src/compose/compose.cpp:1697-1727 | The stages in order leave every field at the value the specification gives it |
| Compose.Composer.Run | src/compose/compose.cpp:1731-1743 | The whole run returns exactly the composed site of the specification, or the status that refused the input |
| Admission.SelectionIsTheMaximum | src/compose/compose.cpp:387-419 | A domain is selected exactly when it has an eligible record; the selected one is of highest (generation, attempt, acceptance sequence), compared lexicographically, and the first of those to arrive |
| Admission.OrderIrrelevantIff | src/compose/compose.cpp:387-419 | The selection ignores order and repetition exactly when no domain has two different records of the same, highest rank: the digest tie-break announced in the comment is not in the code |
| Admission.FirstComeFirstServed | src/compose/compose.cpp:396-409 | A top record that arrives first is the one selected |
| Admission.SelectionIgnoresOrder | src/compose/compose.cpp:387-419 | Without ties at the top the selection is the same for any order and repetition |
| Admission.CurrentIff | src/compose/compose.cpp:433-541 | A member is CURRENT exactly when its record is unrevoked, unretired, of this site, schema- and epoch-compatible, retained, digest-verified, valid, not reconstructed, on evidence observed by somebody, not in the future and within its term, expected where that is demanded, and matching its pins |
| Admission.CanonicalExpectationIff | src/compose/validate.cpp:670-698 | An expectation is accepted exactly when site, schema and size are sound, every member is named and has, if pinned, a generation and a digest, and no domain is listed twice; the accepted list is a permutation in strict domain order |
| Admission.SelectBest | src/compose/compose.cpp:391-410 | The fold over the publications computes the selection |
| Admission.AdmitOne | src/compose/compose.cpp:433-541 | The chain of checks for one record computes its lifecycle and status |
| Admission.AdmitSelected | src/compose/compose.cpp:421-564 | Every selected record is admitted under its domain |
| Admission.RetiredDomains | src/compose/compose.cpp:412-415 | The set of retired domains collected from the retirements |
| Attribution.AttributedIff | src/compose/compose.cpp:259-303 | Of any admitted declarations: a resource is attributed exactly when every member that mentions it is CURRENT and the first claims of all of them have one digest; it is disputed exactly when two of those first claims differ; otherwise nobody authoritative speaks for it |
| Attribution.VerdictFromVoices | src/compose/compose.cpp:259-303 | The agreement verdict read off what each source says first about a resource |
| Attribution.FirstIsAttested | src/compose/compose.cpp:231-243 | Within the bound on attestors the attestations are exactly the first thing each source said, in the order they were said |
| Attribution.FirstIsClaimed | src/compose/compose.cpp:231-243 | The claim a member is heard by is one of its own, and there is one exactly when it mentions the resource |
| Attribution.AttestorsAreTheMentioners | src/compose/compose.cpp:231-243 | Within the bound on member domains no attestor is dropped: the attestors of a resource are exactly the members that mention it |
| Attribution.NobodyTruncated | src/compose/compose.cpp:231-243 | With no more speakers than the bound on attestors every source is recorded once |
| Attribution.AttestationsWereSaid | src/compose/compose.cpp:231-243 | Every recorded attestation was said by the source it names |
| Attribution.HeardAt | src/compose/compose.cpp:566-651 | What is recorded about a resource depends only on the claims about it |
| Attribution.PointerIsAClaim | src/compose/compose.cpp:587-630 | A pointer of a resource is one of the claims about it, and there is one exactly when such a claim was made |
| Attribution.WithdrawalLeavesTheRest | src/compose/compose.cpp:566-651 | Leaving a member out changes no resource it does not mention |
| Attribution.RecordAttestation | src/compose/compose.cpp:231-243 | Appends an attestation unless its source is recorded already or the bound is reached |
| Attribution.AttestClaim | src/compose/compose.cpp:575-630 | Records one claim: its attestation, and the pointer of its kind |
| Attribution.AttestMember | src/compose/compose.cpp:567-631 | Records every claim of one member in the order of its lists |
| Attribution.AttestAll | src/compose/compose.cpp:566-631 | Records every claim of every member in domain order |
| Attribution.ResolveResource | src/compose/compose.cpp:259-303 | Counts the distinct contents and settles the agreement status |
| Attribution.AttributeResources | src/compose/compose.cpp:566-651 | The resolved resources and the ownership conflicts in key order |
| Ledger.LedgerConserves | src/compose/compose.cpp:1012-1130 | Wherever the total is known, excluded and available are known, each of the three is the exact sum of its own entries, and available plus excluded is the total; where it is not, available is not known either |
| Ledger.ClosesExactlyIff | src/compose/compose.cpp:1076-1130 | The ledger closes exactly when no aggregate overflowed and on each channel the total is known just when the non-excluded sum is |
| Ledger.FullyExcludedChannelDoesNotClose | src/compose/compose.cpp:1113-1129 | A channel whose every contributor is excluded keeps the ledger from closing although available plus excluded is the total |
| Ledger.PartsOverflowWithTheTotal | src/compose/compose.cpp:1012-1048 | The available and the excluded sum overflow only when the total does |
| Ledger.NoUnderflow | src/compose/compose.cpp:1066-1074 | The subtraction of the excluded from the total never underflows |
| Ledger.LedgerAt | src/compose/compose.cpp:1050-1074 | Total, zero-filled excluded and available figure of each channel |
| Ledger.MaintenanceOnlyMovesCapacity | src/compose/compose.cpp:1012-1048 | Excluding more never changes the total and never raises what is available |
| Ledger.PartsSplitTheTotal | src/compose/compose.cpp:1017-1048 | The counted entries split exactly into the available and the excluded |
| Ledger.AddAggregate | src/compose/compose.cpp:245-257 | Adds a build to the channels its mask names |
| Ledger.Account | src/compose/compose.cpp:1017-1048 | Puts one build into the aggregates its disposition names |
| Ledger.FoldLedger | src/compose/compose.cpp:1012-1139 | The pass over the builds and the closing checks compute the ledger |
| Ledger.CloseLedger | src/compose/compose.cpp:1050-1139 | Subtraction, independent recomputation and the closing identity |
| Ledger.ExcludedFigure | src/compose/compose.cpp:1053-1064 | The excluded vector with zero on channels nothing was excluded from |
| Ledger.Recombines | src/compose/compose.cpp:1091-1112 | The recombination starts from an all-unknown vector, so it agrees with every total |
| Capacity.ChannelTotalOfPermutation | src/core/capacity.cpp:144-187 | Known, unknown and overflowed results of an aggregate do not depend on the order of its contributions |
| Capacity.ExactOfPermutation | src/core/capacity.cpp:144-187 | The exact sum does not depend on the order |
| Capacity.AddKnown | src/core/capacity.cpp:15-25 | Adds within the bound, with the wrap of the machine checked; otherwise overflow and the accumulator untouched |
| Capacity.AddValueTo | src/core/capacity.cpp:144-187 | Flags and accumulator keep saying what the values added so far amount to: unknown absorbs, overflow sticks |
| Capacity.CapacityAggregate.AddChannel | src/core/capacity.cpp:144-187 | One more value on one channel, the others untouched |
| Capacity.CapacityAggregate.ChannelKnown | src/core/capacity.cpp:220-231 | Known exactly when the sum of what was received is |
| Capacity.CapacityAggregate.ChannelSeen | src/core/capacity.cpp:233-244 | Seen exactly when something was received |
| Capacity.CapacityAggregate.Total | src/core/capacity.cpp:246-258 | The channel-wise totals of what was received |
| Capacity.CapacityAggregate.GetStatus | src/core/capacity.cpp:260-272 | Overflow, unknown or OK from what was received |
| Capacity.AddCapacity | src/core/capacity.cpp:51-83 | Adds vectors channel by channel; on overflow of any channel the accumulator is untouched |
| Forest.MarkedCyclicIff | src/compose/validate.cpp:242-275 | A domain is marked cyclic exactly when its chain of parents repeats a domain or is longer than the 32-link cut-off |
| Forest.AncestorsAreTheChain | src/compose/validate.cpp:242-275 | The ancestors of an unmarked domain are its whole duplicate-free declared chain, at most 32 of them, and not the domain itself |
| Forest.AncestorsOfAncestor | src/compose/validate.cpp:242-275 | The ancestors of the k-th ancestor are the rest of the list |
| Forest.AncestryIsAStrictOrder | src/compose/validate.cpp:242-275 | Ancestry is irreflexive, asymmetric and transitive |
| Forest.ResolutionIsIdempotent | src/compose/validate.cpp:228-302 | Resolving a resolved forest changes nothing |
| Forest.ChildrenInvertParents | src/compose/validate.cpp:278-298 | One node is a child of another exactly when it names it as its parent |
| Forest.SeparateIff | src/compose/validate.cpp:304-334 | In a forest without cycles or dangling parents two resources are separate exactly when both are placed and no domain is above both at any level |
| Forest.DomainsAreTheUpClosure | src/compose/validate.cpp:304-334 | The domains collected for a resource are everything it shares a fate with |
| Forest.FailureDomainForest.Find | src/compose/validate.cpp:202-209 | The declared node of an identity, or none |
| Forest.FailureDomainForest.ResolveAncestry | src/compose/validate.cpp:228-302 | Every node gets its ancestors, depth and children, and the cyclic ones are collected |
| Forest.FailureDomainForest.AreSeparate | src/compose/validate.cpp:304-334 | True exactly when both sets of domains are non-empty and disjoint |
| Forest.Ancestry | src/compose/validate.cpp:242-275 | Following parents from one node finds its ancestors and whether the chain closes or runs past the cut-off |
| Forest.CollectChildren | src/compose/validate.cpp:278-298 | For every node, the nodes that name it as their parent |
| FailureDomains.NodesAreDistinct | src/compose/compose.cpp:708-781 | Every declared failure domain becomes one node |
| FailureDomains.NodeIds | src/compose/compose.cpp:708-781 | There is a node for an identity exactly when it was declared |
| FailureDomains.NodeDeclared | src/compose/compose.cpp:757-781 | Every node is a declared domain and its parent is declared too unless the node is reported dangling |
| FailureDomains.QuietForest | src/compose/compose.cpp:788-832 | A forest without conflicts whose status is neither dangling nor unsourced has no cycle, no dangling parent and no disputed node |
| FailureDomains.BuildNode | src/compose/compose.cpp:712-780 | One node with the members its attestors declare and its status before ancestry |
| FailureDomains.BuildFailureDomains | src/compose/compose.cpp:708-832 | The forest, its conflicts and the dangling deficits |
| Maintenance.ZoneScopeIff | src/compose/compose.cpp:834-850 | A zone covers exactly the resources it names and the members of every domain it names and of every domain below one |
| Maintenance.ScopeIsDownwardClosed | src/compose/compose.cpp:834-850 | What lies below a covered domain is covered |
| Maintenance.ExcludedIff | src/compose/compose.cpp:892-1010 | A resource is excluded exactly when an attributed zone that is active, or of a state nobody reported, and that no attributed protected obligation opposes, covers it |
| Maintenance.ProtectedIsNeverExcluded | src/compose/compose.cpp:926-952 | The resource of an attributed protected obligation is never excluded, whatever the zones |
| Maintenance.ZoneOverItsDomainIsRefused | src/compose/compose.cpp:852-952 | A zone that names the domain of an attributed protected obligation, declared or not, or a declared domain above it, is refused and excludes nothing |
| Maintenance.BuildsAt | src/compose/compose.cpp:653-706 | There is a ledger build for a resource exactly when it has a contribution, counted when it is attributed and its scope reaches a channel |
| Maintenance.CollectZoneScope | src/compose/compose.cpp:834-850 | Computes the scope of a zone |
| Maintenance.ObligationOverlapsZone | src/compose/compose.cpp:852-890 | Whether a zone reaches the resource or the domain of an obligation |
| Maintenance.FindBlockers | src/compose/compose.cpp:926-942 | The attributed protected obligations in the way of a zone |
| Maintenance.BuildEffect | src/compose/compose.cpp:906-974 | What one zone does, or that it is refused |
| Maintenance.FoldEffects | src/compose/compose.cpp:995-1010 | The excluded resources, unreported zones and refused zones of all effects |
| Maintenance.CollectLedgerBuilds | src/compose/compose.cpp:653-706 | One build per contributing resource, in key order |
| Verdicts.ObligationVerdictIff | src/compose/compose.cpp:1221-1371 | An obligation is kept exactly when its claim is attributed and enough resources are UP, enough populated domains lie in its scope, or the channel is known to carry enough; violated exactly when attributed, not enough and nothing it asks about unknown; otherwise indeterminate |
| Verdicts.ConnectivityOkIff | src/compose/compose.cpp:1143-1219 | Connectivity is OK exactly when the site has a link or gateway and every one is attributed and UP |
| Verdicts.ObservedUpIsTheNumber | src/compose/compose.cpp:1256-1281 | What is counted is the number of attributed UP resources in scope |
| Verdicts.CountInsideIsTheNumber | src/compose/compose.cpp:1282-1329 | What is counted is the number of populated domains in scope |
| Verdicts.PopulatedAt | src/compose/compose.cpp:1222-1230 | A domain is populated exactly when it holds a resource the site knows |
| Verdicts.NumberIsZeroIff | src/compose/compose.cpp:1143-1219 | A tally is zero exactly when no link or gateway is in that state |
| Verdicts.TotalIsTheSum | src/compose/compose.cpp:1143-1219 | The totals are the sums of the tallies |
| Verdicts.BuildConnectivity | src/compose/compose.cpp:1143-1219 | The pass over the resources computes the connectivity summary |
| Verdicts.CountUp | src/compose/compose.cpp:1256-1281 | The loop over the resources computes the observation |
| Verdicts.JudgeObligation | src/compose/compose.cpp:1232-1369 | The verdict on one obligation |
| Verdicts.BuildObligations | src/compose/compose.cpp:1221-1371 | The verdicts on all obligations |
| Membership.MembersOf | src/compose/compose.cpp:1378-1461 | The members of a site are the admitted domains in the state of their admission and every other expected domain as absent |
| Membership.SomeRequired | src/compose/compose.cpp:1494-1528 | A complete membership of CURRENT members that is not partitioned has a present required member |
| Membership.AllOptionalIsPartitioned | src/compose/compose.cpp:1496-1528 | An expectation without a required member is reported partitioned even when all its members are CURRENT |
| Membership.BuildMembership | src/compose/compose.cpp:1378-1461 | Members, completeness, freshness, member conflicts and deficits |
| Membership.CheckExpected | src/compose/compose.cpp:1378-1430 | Adds the absent members and what each expected member falls short of |
| Membership.ScanMembers | src/compose/compose.cpp:1494-1528 | The three membership flags of the lifecycle from the two passes |
| Membership.BuildLifecycle | src/compose/compose.cpp:1494-1598 | Lifecycle and status by the precedence of findings |
| Decisions.InvalidationPartitions | src/compose/compose.cpp:1767-1805 | Invalidated and retained decisions split the decisions of a site, multiplicities included, exactly by whether the changed source is among their sources; the kinds to recompose are those of the invalidated ones |
| Decisions.LifecycleDependsOnAll | src/compose/compose.cpp:1684-1689 | Below the bound the lifecycle decision is recorded and depends on every source of every other decision |
| Decisions.BuildDecisions | src/compose/compose.cpp:1600-1695 | All decisions with their sources, in the order they are made |
| Decisions.DecideOwnership | src/compose/compose.cpp:1618-1639 | One decision per resource, and the sources gathered for the summaries |
| Decisions.Invalidate | src/compose/compose.cpp:1767-1805 | One pass computes the invalidation report |
| SourceSets.InsertionOrderIrrelevantIff | src/core/model.cpp:657-668 | The contents of a source set ignore the order of insertion exactly when everything inserted fits the bound |
| SourceSets.SameContentsSameVector | src/core/model.cpp:657-668 | Two ascending vectors with equal contents are identical |
| SourceSets.VectorIsItselfIff | src/core/model.cpp:657-668 | Sources inserted one after another are the vector they make exactly when they are strictly ascending and fit the bound |
| SourceSets.KeptIff | src/core/model.cpp:657-668 | Everything inserted is kept exactly when it fits the bound; otherwise the set is full |
| SourceBounds.NoSourceIsDropped | src/compose/compose.cpp:215-229 | No decision, ownership or union of decision sources of a composition ever exceeds the bound of a source set |
| SourceSets.SourceSet.LowerBound | src/core/model.cpp:658-658 | Halving finds the first position whose source is not below the given one |
| SourceSets.SourceSet.Insert | src/core/model.cpp:657-668 | Inserts in place; a full set drops what it does not have and counts it |
| SourceSets.SourceSet.InsertAll | src/core/model.cpp:670-678 | Takes over another set, completely when the union fits, and its drop count |
| SourceSets.SourceSet.Contains | src/core/model.cpp:680-682 | Membership |
| SourceSets.SourceSet.ContainsDomain | src/core/model.cpp:684-691 | Whether some source is of the domain |
| SourceSets.SourceSet.IntersectsDifference | src/core/model.cpp:693-700 | Whether some source is missing from another set |
| Seal.SealingIsIdempotent | src/compose/validate.cpp:647-654 | Sealing a sealed declaration yields the same declaration |
| Seal.SealingIgnoresOrder | src/compose/validate.cpp:38-78 | Permuting claim lists and the lists inside claims, or repeating claims within the bounds, does not change whether a declaration can be sealed |
| Seal.DigestIgnoresOrder | src/compose/validate.cpp:647-654 | Nor does it change the sealed content and digest, unless the hash collides on two of the claims |
| Seal.SealedListsAreOrdered | src/compose/validate.cpp:38-78 | Every list of a sealed declaration is in strict order of its key |
| Seal.DisagreementNeverSeals | src/compose/validate.cpp:55-75 | Two contents under one key always keep a declaration from being sealed |
| Seal.SealsIff | src/compose/validate.cpp:345-641 | A declaration seals exactly when its header is sound, it is not too large and each list is accepted |
| Seal.CanonicalListIff | src/compose/validate.cpp:38-78 | A list is accepted exactly when its claims are well formed, it is within its bound and claims under one key agree; what is left is one representative of each key in order |
| Seal.TidyClaims | src/compose/validate.cpp:380-407 | Checks and tidies the claims of a list, with the first refusal |
| Seal.CollapseRuns | src/compose/validate.cpp:52-76 | Collapses runs of equal keys after comparing each claim with the first of its run |
| Seal.CanonicalizeList | src/compose/validate.cpp:38-78 | Bound, stable sort and collapse of one list |
| Seal.SealDeclaration | src/compose/validate.cpp:345-654 | The sealed declaration or the status that refused it |
| SealedSites.AcceptedPublicationCounts | src/controller/controller.cpp:761-852 | After an accepted publication every composition at any instant reports the domain, and reports it CURRENT exactly when it is unrevoked and unretired, the observed epoch is not ahead, the evidence was observed by somebody, is not in the future and within its term, and the configured expectation and pins fit |
| SealedSites.OwnershipIff | src/compose/compose.cpp:259-303 | Of any composed site: a resource is attributed exactly when only CURRENT members mention it and their first claims about it agree, disputed exactly when two first claims differ, and its attestors are exactly its mentioners |
| SealedSites.SealedIsIntact | src/compose/validate.cpp:643-659 | A sealed declaration passes the recomputed digest and the validation of admission |
| SealedSites.SealingSeals | src/compose/validate.cpp:647-654 | What sealing returns is sealed and keeps its lists apart by kind |
| SealedSites.SaysOnce | src/compose/validate.cpp:38-78 | A sealed declaration makes two claims about one resource only when exactly one of them is a capacity contribution or both are, in different scopes |
| SealedSites.RunKeepsKeyed | src/controller/controller.cpp:819-826 | Over every run each registered publication stands under its own domain |
| Contributions.CurrentCountsIff | src/compose/compose.cpp:653-706 | When declarations are validated as they are when sealed, every build of a CURRENT site is in the total, each figure of the total is the exact sum of all builds and is stated for all channels exactly when none is given more than the bound; and every contribution the admitted declarations make is counted with its scope, channels and capacity exactly when no resource is offered on two different terms |
| Contributions.CountsByItselfIff | src/compose/compose.cpp:653-706 | With nothing offered under a cluster's or a pod's key and digests that tell offers of one resource apart, a CURRENT site counts every contribution exactly when no admitted declaration by itself offers a resource on two different terms |
| Contributions.OffersCountIff | src/compose/compose.cpp:653-706 | Of any resources whose builds all count: every contribution is counted exactly when no resource is offered on two different terms |
| SealedSites.ValidatesIff | src/compose/validate.cpp:656-659 | Validation passes exactly the declarations that can be sealed |
| Witnesses.CurrentMayOverflow | src/compose/compose.cpp:1494-1567 | For every hash: a site of one member with two gateways of the largest capacity is CURRENT although the sum of their capacities is above the bound and the total of their channel is not stated |
| Witnesses.TwoScopesLoseOne | src/compose/compose.cpp:612-614 | For every hash: one declaration that offers a pool in two scopes can be sealed, its site is readable and CURRENT, and one of the two contributions is not counted |
| Witnesses.PoolAloneIsNotReadable | src/compose/compose.cpp:1256-1281 | For every hash: a site of one member with a pool alone under the key of a gateway and an obligation to have a gateway UP makes the composition read a claim that is not there |
| Fencing.AcceptedPublicationsAreOrdered | src/authority/authority.cpp:449-517 | Over every run, for each domain of which no admission follows one under sequence 2^64-1, the accepted publications strictly increase in (incarnation sequence, generation, attempt sequence, attempt) |
| Fencing.PublicationsNeverFallBack | src/authority/authority.cpp:449-517 | Over every run, without any condition and per domain: the observed epochs of accepted publications never decrease, those of one incarnation strictly increase in (generation, attempt sequence, attempt), equal generations of one incarnation carry equal digests, and no incarnation is admitted twice |
| Fencing.AdmittedSequencesIncreaseIff | src/authority/authority.cpp:341-410 | Over every run the sequences a domain is admitted under strictly increase exactly when none of its admissions follows one under sequence 2^64-1 |
| Fencing.TheDeadDoNotReturn | src/authority/authority.cpp:412-441 | Once an incarnation is tombstoned it is never live, never admitted and never passes the fence, after any continuation of the run and whatever sequences were used up |
| Fencing.TakeOverAdvancesIff | src/authority/authority.cpp:372-410 | Taking a domain over leaves its counter above the admitted sequence exactly when that is not the largest sequence |
| Fencing.ExhaustedSequencesRestart | src/authority/authority.cpp:372-410 | A run that takes sequence 2^64-1, publishes, retires it, is issued sequence zero and publishes again: its admissions and its accepted publications are out of order |
| Fencing.PrintedIsInjective | src/core/model.cpp:615-620 | Two incarnations that print alike are the same |
| Fencing.AdmitChanges | src/authority/authority.cpp:341-410 | An admitted newcomer is not dead and stands above the live incarnation, or at or above the counter when there is none; it takes the domain over, its predecessor dies, and nothing else changes for the domain |
| Authority.LowerEpochNeverReturns | src/authority/authority.cpp:111-207 | Whatever happens after an epoch was observed, no lower one is granted, renewed or valid |
| Authority.RevokedLeaseNeverReturns | src/authority/authority.cpp:258-277 | Whatever happens after a revocation, the holder is not granted the site again and its token is neither renewed nor valid |
| Authority.GrantedIsRecorded | src/authority/authority.cpp:157-207 | A grant hands out the request's token under the number of its lease, or the next one for a new lease, and records it as the active controller of its epoch; the token is for the holder, site, epoch, incarnation and generation of the request, from its instant on for its term |
| Authority.GrantedTokenValidates | src/authority/authority.cpp:279-319 | A granted token validates at once exactly when its lease number is not zero and its expiry is within the clock; a controller of an older epoch never does |
| Authority.NumberedIff | src/authority/authority.cpp:157-176 | Over every run: no lease carries the number zero and zero is not the next number exactly as long as fewer than 2^64-1 lease numbers were issued |
| Authority.GrantsOfARunValidate | src/authority/authority.cpp:279-319 | Over every run that issued fewer than 2^64-1 lease numbers, whatever is granted next validates at once if its expiry is within the clock |
| LeaseRuns.AlwaysSoleIff | src/authority/authority.cpp:111-277 | Over every run: the lease of the present controller is the only one of its site recorded as active all along exactly when no event is an acquisition that a recorded holder may make while the lease of another, the controller's, is recorded as active, nor a renewal that may be made of a lease that is not the controller's; what may be made is said over the request and the lease table |
| LeaseRuns.StepSoleIff | src/authority/authority.cpp:111-277 | The same for one event: the guard that the code does not test is the exact condition on the request and the lease table |
| LeaseRuns.RetakenIff | src/authority/authority.cpp:111-206 | A recorded holder is granted the site exactly when the request is sound and of no past epoch, the lease is not revoked, its generation is not ahead, and its incarnation is the same or an older one whose term is over |
| LeaseRuns.RenewedIff | src/authority/authority.cpp:209-256 | A lease is renewed exactly when the token is sound and of no past epoch, is the recorded one but for its term, and the recorded one is unrevoked and stands at the instant |
| LeaseRuns.NumbersRunOut | src/authority/authority.cpp:157-176 | A run that takes 2^64-1 sites: the next one is granted under the lease number zero, and the granted token does not validate |
| LeaseRuns.OneHolderAtATime | src/authority/authority.cpp:279-319 | While the controller's lease is the only active one, any two tokens of a site that validate on active leases are of one holder and one lease |
| LeaseRuns.ReturningHolderIsReinstated | src/authority/authority.cpp:178-206 | A holder whose lease ran out and was superseded is granted the site again under its old incarnation, and the tokens of both holders validate at one instant, for all such requests |
| Authority.AuthorityRegistry.AcquireSiteAuthority | src/authority/authority.cpp:111-207 | Grant, refusal and new lease table |
| Authority.AuthorityRegistry.RetakeLease | src/authority/authority.cpp:178-207 | A holder taking its own lease again |
| Authority.AuthorityRegistry.TakeVacantSite | src/authority/authority.cpp:133-176 | A new holder, over the previous controller if that one no longer stands |
| Authority.AuthorityRegistry.RenewLease | src/authority/authority.cpp:209-256 | Renewal, refusal and expiry |
| Authority.AuthorityRegistry.RevokeLease | src/authority/authority.cpp:258-277 | Revocation of a recorded lease |
| Authority.AuthorityRegistry.AdmitMemberIncarnation | src/authority/authority.cpp:341-410 | Admission, takeover or fencing of an incarnation |
| Authority.AuthorityRegistry.RetireMemberIncarnation | src/authority/authority.cpp:412-428 | Tombstone and end of the live incarnation |
| Authority.AuthorityRegistry.MemberIncarnationLive | src/authority/authority.cpp:430-441 | Live exactly when not tombstoned and recorded live |
| Authority.AuthorityRegistry.FencePublication | src/authority/authority.cpp:449-499 | The fence in the order of its checks |
| Authority.AuthorityRegistry.RecordPublication | src/authority/authority.cpp:501-517 | The recorded state of a publication |
| Authority.AuthorityRegistry.PublishOnce | src/authority/authority.cpp:449-517 | Fence and record as one step |
| Chain.RunsAreSound | src/core/snapshot.cpp:75-165 | Over every run the history is the newest part of the log of accepted entries, numbers go up by one, entries never fall back in (epoch, incarnation sequence), and every entry carries the digest of its state |
| Chain.AcceptedNeverFallBack | src/core/snapshot.cpp:75-165 | Of two accepted entries the later never stands lower in (epoch, incarnation sequence), and below exhaustion its number is higher by exactly their distance |
| Chain.NeighboursIncrease | src/core/snapshot.cpp:128-152 | Adjacent entries of one epoch and incarnation have increasing generations |
| Chain.StrictOrderIff | src/core/snapshot.cpp:128-152 | Over every run: (epoch, sequence, generation) increases strictly from every entry to every later one exactly when the generation rises wherever another boot takes over under the same epoch and sequence, which publishing does not test |
| Chain.TakingTurnsRepeatsGenerations | src/core/snapshot.cpp:128-152 | Two boots that share a sequence can take turns and repeat a generation of one incarnation |
| Chain.EntriesMatchTheirState | src/core/snapshot.cpp:75-196 | Every entry of a running chain has the digest of its own state |
| Chain.StepKeepsSound | src/core/snapshot.cpp:75-165 | One publication or limit change keeps all of it, and an append leaves the history within its limit |
| Chain.SnapshotChain.Publish | src/core/snapshot.cpp:75-165 | Verdict, number, history and refusal counts of one publication |
| Chain.SnapshotChain.Screen | src/core/snapshot.cpp:90-116 | The checks before the comparison with the last entry |
| Chain.SnapshotChain.Fence | src/core/snapshot.cpp:126-152 | The comparison with the last entry |
| Chain.SnapshotChain.Restore | src/core/snapshot.cpp:167-196 | Verdict on a recovered snapshot and the history after it |
| Chain.SnapshotChain.SetHistoryLimit | src/core/snapshot.cpp:223-232 | The limit within its bounds |
| StoreRuns.EveryRunRecovers | src/persistence/persistence.cpp:259-291 | After any run of appends, crashes that keep at least the header, reopenings and compactions the file is the header, the encodings of a list and at most one torn record: a scan accepts exactly the list with OK or TRUNCATED, and opening cuts to the last boundary; under a valid configuration the list holds no checkpoint and at most the bound on records, and is what an open store counts; the next accepted append reads back as one more record, with the file and the list within their bounds |
| StoreRuns.StepKeeps | src/persistence/persistence.cpp:512-599 | An accepted append adds its record, a crash only loses records from the end, a reopening or compaction loses none but what a compaction drops, and under a valid configuration the record counter of an open store stays the length of the list |
| StoreRuns.AppendReadsBackIff | src/persistence/persistence.cpp:259-291 | An accepted append reads back as its entry exactly when the entry is good: its texts and numbers within the bounds of reading, and a snapshot under the digest of its site |
| StoreRuns.AppendScans | src/persistence/persistence.cpp:259-291 | Of any payload accepted by an append: one more record is scanned when it decodes; otherwise every scan stops in front of it with the decoding status, whatever is appended later |
| StoreRuns.LongTombstoneStops | src/persistence/persistence.cpp:259-291 | A tombstone longer than a text may be is accepted by every open store with room for it, and no later scan gets past it, whatever is appended behind it |
| StoreRuns.CrashKeeps | src/persistence/persistence.cpp:329-491 | Any kept prefix of at least a header holds a prefix of the list and at most one torn record |
| StoreRuns.ReopeningCuts | src/persistence/persistence.cpp:560-570 | Opening cuts the file to the last record boundary and nothing more |
| StoreRuns.CompactedFileReadsBack | src/persistence/persistence.cpp:664-757 | Of any file: scanning its compacted image is OK, accepts exactly what was kept, keeps the latest snapshot, and compacts to itself |
| StoreFormat.RecoveryIsExact | src/persistence/persistence.cpp:329-491 | A header, encodings of a list and a torn record are scanned to exactly the list |
| StoreFormat.RecoveryStopsAtABoundary | src/persistence/persistence.cpp:329-491 | Of any bytes with a verified header: scanning just the consumed ones again is OK and accepts the same records |
| StoreFormat.RecordIsTaken | src/persistence/persistence.cpp:360-470 | A record followed by anything is taken as written when its payload decodes |
| StoreFormat.CutRecordIsTorn | src/persistence/persistence.cpp:360-410 | A record cut anywhere is a torn tail |
| StoreFormat.ScannedIsStored | src/persistence/persistence.cpp:329-491 | Whatever bytes are scanned, every accepted record is one whose encoding reads back as itself |
| StoreFormat.DecodesWhatWasEncoded | src/persistence/persistence.cpp:213-244 | Each record type decodes what was encoded for it |
| StoreFormat.DecodedIsStored | src/persistence/persistence.cpp:213-244 | Whatever decodes is a good record kept as it stands; its encoding takes no more bytes than the payload it came from, and is that payload exactly when it is plain, which only a snapshot need not be |
| StoreFormat.AcceptedAsWrittenIff | src/persistence/persistence.cpp:358-472 | An accepted record is never shorter than the one the store would write for its entry, and is that record exactly when its flags and its reserved word are zero and its payload is plain |
| StoreFormat.ScannedAsWrittenIff | src/persistence/persistence.cpp:358-472 | What a scan of any bytes got past is the encoding of what it accepted exactly when every accepted record has zero flags, a zero reserved word and a plain payload |
| StoreFormat.ImageAsWrittenIff | src/persistence/persistence.cpp:329-491 | The accepted part of any readable image is the file the store would write exactly when neither the file header nor any accepted record has a reserved byte set and every accepted payload is plain |
| StoreFormat.MarksAreAccepted | src/persistence/persistence.cpp:360-440 | Whatever flags and reserved word a stored entry is given, under a digest that covers them, the record is accepted as that entry; it is the written one only when they are zero |
| StoreFormat.AnyOrderIsAccepted | src/persistence/persistence.cpp:213-244 | A snapshot whose sources are written in any order, with repetitions or one too many, is accepted as the snapshot of the set of them; it is the written record exactly when they were in order |
| Compaction.CompactionPreserves | src/persistence/persistence.cpp:664-757 | Kept plus dropped is what there was; as many snapshots are kept as the limit allows and the latest stays; retirements, tombstones and leases stay in order; compacting again drops nothing |
| Compaction.KeptSnapshotsAreTheHighest | src/persistence/persistence.cpp:675-685 | A dropped snapshot has no higher number than a kept one |
| Compaction.NewestIsMaximal | src/persistence/persistence.cpp:687-695 | No domain is lost and what is kept of it is maximal by (generation, acceptance sequence) |
| Compaction.CompactionOnlyKeeps | src/persistence/persistence.cpp:698-732 | Every record a compaction writes was in the file |
| LoadOrder.LoadOrderIsImmaterial | src/persistence/persistence.cpp:128-134 | The stable sort of the loaded publications by domain and generation changes neither what a compaction keeps nor what a start recovers |
| Store.SiteStore.AppendEncoded | src/persistence/persistence.cpp:699-732 | Appends the records of one kind to the image |
| Store.SiteStore.MakeRecord | src/persistence/persistence.cpp:106-126 | The record built at fixed offsets is the encoding, nothing for a payload that is too large |
| Store.SiteStore.Append | src/persistence/persistence.cpp:259-291 | Appends within both bounds, or refuses and changes nothing |
| Store.SiteStore.ScanRecords | src/persistence/persistence.cpp:358-472 | The loop over the records computes the scan |
| Store.SiteStore.ScanFile | src/persistence/persistence.cpp:329-491 | Header checks and scan of a whole image |
| Store.SiteStore.NewestPublications | src/persistence/persistence.cpp:687-695 | The newest publication of each domain |
| Store.SiteStore.Select | src/persistence/persistence.cpp:675-696 | What a compaction keeps and how many records it drops |
| Store.SiteStore.Rewrite | src/persistence/persistence.cpp:698-732 | The rewritten image, kind by kind |
| Store.SiteStore.CompactNow | src/persistence/persistence.cpp:664-757 | The state after a compaction, or the status that refused it |
| Store.SiteStore.Open | src/persistence/persistence.cpp:512-599 | The state after opening, including the cut and the compaction of a store above its bound |
| RecordCodec.DeclarationsAreLawful | src/core/codec.cpp:515-659 | Declarations read back what was written up to claim digests and the recomputed digest, whatever follows; only encodings are accepted |
| RecordCodec.PublicationsAreLawful | src/core/codec.cpp:732-814 | The same for publication records, whose declaration takes over the digest of the record |
| RecordCodec.RetirementsAreLawful | src/core/codec.cpp:816-847 | The same for retirement records |
| RecordCodec.TokensAreLawful | src/core/codec.cpp:849-895 | The same for authority tokens |
| RecordCodec.ExpectationsAreLawful | src/core/codec.cpp:665-726 | The same for expectations |
| RecordCodec.NoStrictPrefixDecodes | src/core/codec.cpp:519-659 | No strict prefix of an encoding decodes |
| RecordCodec.EncodingsAreInjective | src/core/codec.cpp:515-659 | Two encodings that agree hold the same content and are followed by the same bytes |
| RecordCodec.AcceptsExactlyEncodings | src/core/codec.cpp:519-659 | The bytes a reader accepts are exactly the encodings of good values |
| RecordCodec.LongerDecodes | src/core/codec.cpp:519-659 | What follows something readable is left over |
| RecordCodec.SealingKeepsTheContent | src/core/digest.cpp:177-222 | Claim digests and the digest of the declaration are not part of its content |
| SnapshotCodec.SnapshotReadsBack | src/core/codec.cpp:1769-1837 | A snapshot body that can be written, composed site included, reads back, whatever follows |
| SnapshotCodec.SnapshotIsRead | src/core/codec.cpp:1769-1837 | Whatever snapshot body is accepted can be written; written once more it takes no more bytes, and exactly the bytes it was read from when every set of sources in them is strictly ascending and within its bound, absent sources say nothing, and no factors are surplus |
| SnapshotCodec.ReadsBack | src/core/codec.cpp:898-1767 | Any record of the composed site, as laid out in the source, reads back what was written, whatever follows |
| SnapshotCodec.ReadingIs | src/core/codec.cpp:898-1767 | Whatever is accepted for a layout fits it, and is written again in no more bytes, in the same ones exactly when they are plain |
| SnapshotCodec.RefsReading | src/core/codec.cpp:194-209 | A set of sources is read as the sorted vector of its distinct members; it is written again as it was exactly when it was strictly ascending, within its bound, and said nothing of absent sources |
| SnapshotCodec.FactorsReading | src/core/codec.cpp:177-192 | Factors are read as many as fit, and are written again as they were exactly when none was surplus |
| SnapshotCodec.RefReading | src/core/canonical.cpp:269-313 | A source without a domain is read as the absent one, and is written again as it was exactly when the rest of it was zero |
| SnapshotCodec.AnySourcesAreRead | src/core/codec.cpp:194-209 | A snapshot whose sources are written in any order, with repetitions or one too many, reads as the snapshot of the set of them; its bytes are those it is written as exactly when they were in order |
| ClaimCodec.ReadClaim | src/core/codec.cpp:215-507 | Every kind of claim reads back, without its own digest |
| ClaimCodec.ClaimCanonical | src/core/codec.cpp:215-507 | Whatever a claim reader accepts is the encoding of the claim it returns |
| Canonical.PrimitivesReadBack | src/core/canonical.cpp:101-332 | Every primitive reads back what was written, whatever follows |
| Canonical.Get64 | src/core/canonical.cpp:139-149 | Accepts exactly the eight bytes of the value it returns |
| Canonical.GetText | src/core/canonical.cpp:189-205 | Refuses a length above the bound before it looks at the bytes; otherwise the bytes are the encoding of the text |
| Canonical.AllReadBack | src/core/canonical.cpp:315-326 | A counted run of values reads back when its elements do |
| Reader.CanonicalReader.U32 | src/core/canonical.cpp:129-137 | A 32-bit word: the cursor and the result agree with the reader of the encoding |
| Reader.CanonicalReader.U64 | src/core/canonical.cpp:139-149 | A 64-bit word: the cursor and the result agree with the reader of the encoding |
| Reader.CanonicalReader.I64 | src/core/canonical.cpp:151-159 | A signed word: the cursor and the result agree with the reader of the encoding |
| Reader.CanonicalReader.Flag | src/core/canonical.cpp:161-172 | A flag, refused above one: the cursor and the result agree with the reader of the encoding |
| Reader.CanonicalReader.ReadText | src/core/canonical.cpp:189-205 | A bounded text: the cursor and the result agree with the reader of the encoding |
| Reader.CanonicalReader.Count | src/core/canonical.cpp:315-326 | A bounded count: the cursor and the result agree with the reader of the encoding |
| Reader.CanonicalReader.Names | src/core/codec.cpp:259-292 | A list of identifiers: the cursor and the result agree with the reader of the encoding |
| Reader.CanonicalReader.Cluster | src/core/codec.cpp:259-292 | A cluster claim: the cursor and the result agree with the reader of the encoding |
| Reader.CanonicalReader.Pod | src/core/codec.cpp:235-257 | A pod claim: the cursor and the result agree with the reader of the encoding |
| Reader.CanonicalReader.Rack | src/core/codec.cpp:215-233 | A rack claim: the cursor and the result agree with the reader of the encoding |
| Reader.CanonicalReader.Link | src/core/codec.cpp:294-316 | A shared-link claim: the cursor and the result agree with the reader of the encoding |
| Reader.CanonicalReader.Gateway | src/core/codec.cpp:318-336 | A gateway claim: the cursor and the result agree with the reader of the encoding |
| Reader.CanonicalReader.Pool | src/core/codec.cpp:338-357 | A capacity contribution: the cursor and the result agree with the reader of the encoding |
| Reader.CanonicalReader.FailureDomain | src/core/codec.cpp:359-405 | A failure-domain claim: the cursor and the result agree with the reader of the encoding |
| Reader.CanonicalReader.Zone | src/core/codec.cpp:407-452 | A maintenance zone: the cursor and the result agree with the reader of the encoding |
| Reader.CanonicalReader.Obligation | src/core/codec.cpp:454-507 | An obligation: the cursor and the result agree with the reader of the encoding |
| Reader.CanonicalReader.ReadDeclaration | src/core/codec.cpp:519-659 | A declaration, its digest recomputed: the cursor and the result agree with the reader of the encoding |
| Reader.CanonicalReader.ReadPublication | src/core/codec.cpp:751-814 | A publication record: the cursor and the result agree with the reader of the encoding |
| Reader.CanonicalReader.ReadRetirement | src/core/codec.cpp:825-847 | A retirement record: the cursor and the result agree with the reader of the encoding |
| Reader.CanonicalReader.ReadToken | src/core/codec.cpp:861-895 | An authority token: the cursor and the result agree with the reader of the encoding |
| Reader.CanonicalReader.ReadExpectation | src/core/codec.cpp:680-726 | An expectation: the cursor and the result agree with the reader of the encoding |
| Writer.CanonicalWriter.U64 | src/core/canonical.cpp:38-41 | A 64-bit word: the buffer grows by exactly its encoding |
| Writer.CanonicalWriter.Text | src/core/canonical.cpp:58-61 | A text: the buffer grows by exactly its encoding |
| Writer.CanonicalWriter.Resource | src/core/digest.cpp:15-18 | A resource key: the buffer grows by exactly its encoding |
| Writer.CanonicalWriter.WriteEvidence | src/core/digest.cpp:20-25 | Evidence: the buffer grows by exactly its encoding |
| Writer.CanonicalWriter.Capacity | src/core/digest.cpp:34-43 | A capacity vector: the buffer grows by exactly its encoding |
| Writer.CanonicalWriter.WriteClaim | src/core/digest.cpp:52-160 | A claim of any kind: the buffer grows by exactly its encoding |
| Writer.CanonicalWriter.WriteDeclaration | src/core/digest.cpp:177-222 | A declaration: the buffer grows by exactly its encoding |
| Writer.CanonicalWriter.WritePublication | src/core/codec.cpp:732-749 | A publication record: the buffer grows by exactly its encoding |
| Writer.CanonicalWriter.WriteRetirement | src/core/codec.cpp:816-823 | A retirement record: the buffer grows by exactly its encoding |
| Writer.CanonicalWriter.WriteToken | src/core/codec.cpp:849-859 | An authority token: the buffer grows by exactly its encoding |
| Writer.CanonicalWriter.WriteExpectation | src/core/codec.cpp:665-678 | An expectation: the buffer grows by exactly its encoding |
| Reader.CanonicalReader.ReadRef | src/core/canonical.cpp:269-313 | A source, the absent one cleared: the cursor and the result agree with the reader of the encoding |
| Reader.CanonicalReader.ReadSources | src/core/codec.cpp:194-209 | A set of sources inserted one by one into a bounded sorted vector: the cursor and the result agree with the reader of the encoding |
| Reader.CanonicalReader.ReadFactors | src/core/codec.cpp:177-192 | Factors up to their bound: the cursor and the result agree with the reader of the encoding |
| Writer.ContentDigest | src/core/digest.cpp:224-228 | The digest of a declaration is the hash of the bytes a fresh writer holds |
| Sha256.DigestOfChunks | src/internal/crypto.cpp:115-174 | However a message under 2^61 bytes is cut into updates, the digest is that of FIPS 180-4 |
| Sha256.Hasher.Update | src/internal/crypto.cpp:115-141 | Absorbs any bytes, through the buffer and in whole blocks; after finish it does nothing |
| Sha256.Hasher.Finish | src/internal/crypto.cpp:148-174 | The digest of everything absorbed; a second call gives zeros |
| Sha256.Hasher.PadTo56 | src/internal/crypto.cpp:155-160 | The padding loop ends and leaves exactly the length slot |
| Sha256.Hasher.Compress | src/internal/crypto.cpp:60-113 | One block compressed as in section 6.2.2 of FIPS 180-4 |
| Sha256.Hasher.AbsorbBlocks | src/internal/crypto.cpp:115-141 | Tops the buffer up and takes whole blocks from the data |
| Sha256.Schedule | src/internal/crypto.cpp:61-76 | The 64 words of the message schedule |
| Sha256.LengthBytes | src/internal/crypto.cpp:161-165 | The length as eight octets, most significant first |
| Sha256.SwappedStoreIsBigEndian | src/internal/crypto.cpp:32-35 | Byte-swapping and storing gives the big-endian octets |
| Sha256.HashModuloIsHash | src/internal/crypto.cpp:148-174 | Below 2^61 bytes the length field is that of the standard |
| Sha256Standard.ZeroOctetsIsSmallest | src/internal/crypto.cpp:155-160 | The padding adds the smallest number of zero octets, as section 5.1.1 of FIPS 180-4 asks |
| Sha256Standard.CompressAllSplits | src/internal/crypto.cpp:115-141 | Compressing one run of blocks after another is compressing them together |
| ControllerRuns.NotCurrentUntilItReports | src/controller/controller.cpp:300-335 | From the end of a session until the domain's next admitted hello or accepted publication no composition reports it CURRENT |
| ControllerRuns.DepartureIsForGood | src/controller/controller.cpp:854-926 | After an accepted retirement or a revocation no composition of the rest of the run reports the domain CURRENT |
| ControllerRuns.Departures | src/controller/controller.cpp:854-926 | An accepted retirement and a valid revocation are departures |
| ControllerRuns.RecoveredIsNotCurrent | src/controller/controller.cpp:673-688 | A publication recovered at start is not CURRENT until its domain reports |
| ControllerRuns.RestartFencesItsPredecessor | src/controller/controller.cpp:663-696 | A restarted controller takes an epoch above the recovered snapshot and every recovered controller lease, as long as epochs last |
| ControllerRuns.NumbersIncrease | src/controller/controller.cpp:941-1019 | Acceptance numbers and published generations strictly increase over any run that does not exhaust them |
| ControllerRuns.PublishedUnderItsLease | src/controller/controller.cpp:976-1019 | What goes on the chain is published under a token of its own epoch, incarnation and generation, and the site takes that generation on |
| ControllerRuns.RecoveredAt | src/controller/controller.cpp:673-685 | Exactly the recorded domains are recovered, each with a record of highest generation |
| Controller.SilencedIsNotCurrent | src/compose/compose.cpp:433-512 | No composition reports a reconstructed, revoked or retired domain CURRENT |
| Controller.StepKeepsSilence | src/controller/controller.cpp:387-413 | Silence ends only with an admitted hello or an accepted publication; revocations and retirements are never undone |
| Controller.PublishEffect | src/controller/controller.cpp:761-852 | What a refused and an accepted publication change |
| Controller.RetireEffect | src/controller/controller.cpp:854-910 | What a retirement changes, and when it is accepted |
| Controller.RevokeEffect | src/controller/controller.cpp:912-926 | What a revocation changes |
| Controller.SessionEndEffect | src/controller/controller.cpp:300-335 | What the end of a session changes |
| Controller.RecomposeEffect | src/controller/controller.cpp:941-1036 | A recomposition changes leases, chain and generation only, the generation just when it publishes |
| SiteControllerObject.SiteController.constructor | src/controller/controller.cpp:540-554 | A controller that has not started owns empty registries and an empty chain |
| SiteControllerObject.SiteController.Offer | src/controller/controller.cpp:976-1019 | Lease, chain and generation after offering a composed site |
| SiteControllerObject.SiteController.RecomposeSite | src/controller/controller.cpp:941-1036 | Composition of the registered state and its publication |
| SiteControllerObject.SiteController.RespondHello | src/controller/controller.cpp:358-413 | Admission of a session, and the end of its domain's silence |
| SiteControllerObject.SiteController.EndSession | src/controller/controller.cpp:300-335 | The incarnation dies, the domain is silenced and the site recomposed |
| SiteControllerObject.SiteController.CheckPublication | src/controller/controller.cpp:768-801 | Everything that can refuse a publication, in order |
| SiteControllerObject.SiteController.Publish | src/controller/controller.cpp:761-852 | Fence, registration and recomposition of a publication |
| SiteControllerObject.SiteController.Retire | src/controller/controller.cpp:854-910 | Retirement of a live incarnation |
| SiteControllerObject.SiteController.RevokeDomain | src/controller/controller.cpp:912-926 | Revocation of a domain |
| SiteControllerObject.SiteController.RecoverRegistry | src/controller/controller.cpp:669-688 | The registries recovered from the store |
| SiteControllerObject.SiteController.RaiseEpoch | src/controller/controller.cpp:664-693 | The epoch after the highest among the recovered one and the recovered controller leases |
| SiteControllerObject.SiteController.Register | src/controller/controller.cpp:819-829 | Registration of an accepted publication |
| SiteControllerObject.SiteController.Start | src/controller/controller.cpp:625-728 | Recovery, the next epoch, the lease and the first composition |
| Model.EvidenceStateIff | src/core/evidence.cpp:55-77 | The exact condition of every state evidence can be in at an instant: fresh is observed by somebody, at an instant not beyond the skew, for a positive term within its bound that is not over |
| Model.StandsIff | src/authority/authority.cpp:28-52 | A token is good at an instant exactly when it has all its parts and the instant lies in its term; too early, expired and invalid each have their condition |
| Admission.LifecycleIff | src/compose/compose.cpp:433-541 | For every lifecycle a member can have: the exact condition on the input and the record |
| Admission.StatusIff | src/compose/compose.cpp:433-541 | For every lifecycle the status that goes with it, and which of several it is |
| Admission.TopIffUnbeaten | src/compose/compose.cpp:396-409 | A record is a top record exactly when no eligible record of its domain compares above it |
| SiteVerdict.ComposedIff | src/compose/compose.cpp:344-385 | An input is composed exactly when its header is sound, it is within the bounds, and its expectation is for this site and can be put in order |
| SiteVerdict.SiteLifecycleIff | src/compose/compose.cpp:1494-1598 | Over every readable input: the exact condition of each of the six lifecycles in their order of precedence, told from members, conflicts, capacity, forest, obligations, zones and links; the status that says it, and the flags of the site |
| Reports.ReportsIff | src/compose/compose.cpp:187-213 | Within their bounds, a site reports exactly the conflicts there are (disputed resources, a circle of parents, disputed failure domains, refused zones, members not to be trusted) and exactly what is lacking (missing parents, departures, missing or non-CURRENT expected members and why) |
| Grounds.EveryDecisionIsGrounded | src/compose/compose.cpp:1600-1695 | Every decision of every composed site: its sources are exactly those it rests on by its kind (submitters, attestors of the resource, of racks, of links and gateways, of counted entries, of the zone and what it excludes), its status is what the site says, and there are never more decisions than the bound |
| Grounds.InvalidatedIff | src/compose/compose.cpp:1767-1805 | Below the decision bound a changed source invalidates exactly the decisions that rest on it and retains exactly the others; the resources it affects are exactly those it attests, the members exactly its own |
| ForestNodes.NodeSaysWhatIsClaimed | src/compose/compose.cpp:708-781 | A node takes its class and parent over from a claim about it, and holds exactly what the declarations that mention it place in it, up to the bound |
| ForestNodes.NodeStatusIff | src/compose/compose.cpp:757-800 | The exact condition of every status a node of the forest can have |
| ForestNodes.ForestStatusIff | src/compose/compose.cpp:788-832 | The exact condition of every status the forest can have |
| Maintenance.ContributionIff | src/compose/compose.cpp:653-706 | A resource contributes as the rack, else the link, else the gateway it is claimed to be, and as a pool only when it is claimed as none of them |
| Maintenance.OverlapsIff | src/compose/compose.cpp:852-890 | An obligation is in the way of a zone exactly when the zone covers its resource, names its domain, or names a domain above it |
| Maintenance.ZoneDoes | src/compose/compose.cpp:906-974 | What a zone does while it is not attributed, when it is refused, and what it excludes when it is not |
| Ledger.MaskIff | src/compose/compose.cpp:51-69 | Which scopes reach which channel of the site |
| Ledger.FeedIff | src/compose/compose.cpp:1017-1048 | A channel of the total, available, excluded or indeterminate part receives the capacities of exactly the builds that give to it |
| Ledger.LedgerStatusIff | src/compose/compose.cpp:1132-1138 | The ledger is over its bound exactly when the attributed capacity of some channel is; otherwise it is OK exactly when every channel is supplied by builds that are all known |
| Sealable.SealableClaimIff | src/compose/validate.cpp:345-641 | A claim is tidied exactly when it says what its kind must say of its subject, has a generation, is stated on evidence, and its digest, if it has one, is right |
| Sealable.KeyTextIff | src/compose/validate.cpp:396-641 | Two sound claims of one list have the same sort key exactly when they are about the same thing |
| Sealable.SealableListIff | src/compose/validate.cpp:38-78 | A list is accepted exactly when its claims are sound, it is within its limit, and no two claims about the same thing have different digests |
| Sealable.SealableIff | src/compose/validate.cpp:345-654 | A declaration can be sealed exactly when its header is sound and each of its nine lists is accepted, told from its fields |
| Sealable.SealingRefusedAs | src/compose/validate.cpp:345-641 | Whatever cannot be sealed is refused with one of eight statuses |
| Fencing.FenceIff | src/authority/authority.cpp:449-499 | The fence lets an offer through exactly when it is sound, comes from the incarnation that lives, of no epoch before the one last observed, and goes past what is published: a later generation under no lower attempt sequence, or the same content under a later attempt |
| Fencing.NextPublicationIff | src/authority/authority.cpp:449-499 | After any run of the registry, the next offer is accepted exactly when it is sound, from the live incarnation, and goes past the publications accepted before |
| Fencing.AdmittedIff | src/authority/authority.cpp:341-410 | The exact condition of every answer to an admission, and the sequence it issues |
| Fencing.RetiredIff | src/authority/authority.cpp:412-428 | A retirement succeeds exactly for a named domain and a sound incarnation; then that one is dead and nobody else is affected |
| LeaseRuns.TakenIff | src/authority/authority.cpp:111-176 | A holder without a lease is granted the site exactly when the request is sound and of no past epoch, and the lease of another that controls the site is unrevoked, of a lower incarnation sequence, and not active with an unexpired term |
| LeaseRuns.ValidatesIff | src/authority/authority.cpp:279-319 | A token validates exactly when it is sound, of the epoch observed last, and the lease recorded for its holder has its number and incarnation, no later generation, is neither revoked nor superseded, and stands |
| LeaseRuns.RevokedIff | src/authority/authority.cpp:258-277 | A revocation succeeds exactly for a sound token under the number of the lease recorded for its holder |
| LeaseRuns.RenewalExtends | src/authority/authority.cpp:209-256 | A renewal hands out the recorded token under a new term and touches nothing else |
| LeaseRuns.OthersTouchLeaseIff | src/authority/authority.cpp:111-277 | Of the events that are not for a lease itself, exactly a takeover by a holder without a lease touches it, and only marks it superseded |
| LeaseRuns.TermIsKept | src/authority/authority.cpp:111-277 | After any run, nobody else ends the term of an active lease: as long as its holder is passive and the site is asked for within the term only, the lease stays recorded as it was, whatever else happens |
| Authority.AcquireObserves | src/authority/authority.cpp:111-135 | Granted or not, a sound request makes its epoch the one observed last unless a later one was, and affects no other site |
| Chain.EntitledIff | src/core/snapshot.cpp:90-115 | A snapshot passes the screen exactly when its header is sound, the token is of its site and in its term, what was composed agrees with it, and a digest it states is right |
| Chain.PublishedIff | src/core/snapshot.cpp:75-165 | A snapshot is published exactly when it is entitled and its token goes past the last entry, and is found there already exactly when it is entitled, stands where the last entry does and has the same content; an expired token is refused as expired |
| Chain.NextEntryIff | src/core/snapshot.cpp:75-165 | Over any run: what is offered next becomes an entry exactly when it is entitled and goes past the last one ever accepted |
| Chain.EntriesWereAuthorized | src/core/snapshot.cpp:75-165 | Over any run, every entry but a restored one was published under a token whose term covers the instant of its publication |
| Chain.RestoredIff | src/core/snapshot.cpp:167-196 | A recovered snapshot is taken exactly when its header is sound, its digests are right and its number is above the last |
| StoreCalls.NextCalls | src/persistence/persistence.cpp:259-291 | After any run of a store with a valid configuration: the exact condition for the next append, the next compaction and the next opening, told from the records a scan of the file finds |
| StoreCalls.OpenedIff | src/persistence/persistence.cpp:512-599 | Opening succeeds exactly when the configuration is valid, the file is not beyond every bound, and its records fit the bound on bytes or those do that a compaction keeps; the file is then cut to its records, or compacted |
| StoreCalls.CompactedIff | src/persistence/persistence.cpp:664-757 | A compaction succeeds exactly when the file is not beyond every bound and what it keeps fits the bound on bytes |
| StoreCalls.AppendedIff | src/persistence/persistence.cpp:259-291 | An append succeeds exactly when the store is open, the payload is no larger than a payload may be, and there is room for its bytes and for one more record |
| StoreCalls.TakenIff | src/persistence/persistence.cpp:358-472 | A record is taken exactly when its header is whole, its payload is there, is the one that was digested, and decodes; it reads as torn exactly when the header or the payload is cut off |
| StoreCalls.UsableIff | src/persistence/persistence.cpp:329-357 | An image is usable exactly when it has a whole header of the one format there is; otherwise nothing is accepted of it |
| KnownBytes.ClusterBytes | src/core/digest.cpp:70-82 | The bytes of one cluster claim whose every field has a value of its own: order, width and length fields |
| KnownBytes.PodBytes | src/core/digest.cpp:60-68 | The bytes of one pod claim whose every field has a value of its own: order, width and length fields |
| KnownBytes.RackBytes | src/core/digest.cpp:52-58 | The bytes of one rack claim whose every field has a value of its own: order, width and length fields |
| KnownBytes.LinkBytes | src/core/digest.cpp:84-91 | The bytes of one shared-link claim whose every field has a value of its own: order, width and length fields |
| KnownBytes.GatewayBytes | src/core/digest.cpp:93-99 | The bytes of one gateway claim whose every field has a value of its own: order, width and length fields |
| KnownBytes.PoolBytes | src/core/digest.cpp:101-107 | The bytes of one capacity contribution whose every field has a value of its own: order, width and length fields |
| KnownBytes.FailureDomainBytes | src/core/digest.cpp:109-122 | The bytes of one failure-domain claim whose every field has a value of its own: order, width and length fields |
| KnownBytes.ZoneBytes | src/core/digest.cpp:124-139 | The bytes of one maintenance zone whose every field has a value of its own: order, width and length fields |
| KnownBytes.ObligationBytes | src/core/digest.cpp:141-156 | The bytes of one obligation whose every field has a value of its own: order, width and length fields |
| KnownBytes.DeclarationBytes | src/core/digest.cpp:177-222 | The bytes of one declaration whose every field has a value of its own: order, width and length fields |
| KnownBytes.PublicationBytes | src/core/codec.cpp:732-749 | The bytes of one publication record whose every field has a value of its own: order, width and length fields |
| KnownBytes.RetirementBytes | src/core/codec.cpp:816-823 | The bytes of one retirement record whose every field has a value of its own: order, width and length fields |
| KnownBytes.TokenBytes | src/core/codec.cpp:849-859 | The bytes of one token whose every field has a value of its own: order, width and length fields |
| KnownBytes.ExpectationBytes | src/core/codec.cpp:665-678 | The bytes of one expectation whose every field has a value of its own: order, width and length fields |
| KnownBytes.WordOrder | src/core/canonical.cpp:20-56 | Words are written least significant byte first, negative numbers as their two's complement |
| Sha256Example.DigestOfAbc | src/internal/crypto.cpp:15-113 | The digest of the example message of FIPS 180-4, in which every constant, shift and step takes part |
| Acceptance.HelloIff | src/controller/controller.cpp:358-413 | A hello is answered exactly when it is for this site, has not seen a later epoch, and its incarnation lives already, outranks whoever lives, or reaches the counter when nobody does; what it changes is said |
| Acceptance.SubmittedIff | src/controller/controller.cpp:761-801 | A publication is accepted exactly when it is of this site, can be sealed, states no digest or the one it seals to, and follows what its domain published last; what is refused changes nothing |
| Acceptance.RegisteredAt | src/controller/controller.cpp:803-829 | An accepted publication leaves one record of its domain, of just what was sealed and sent, with the next acceptance number; all other records stay |
| Acceptance.NotAcceptedTwice | src/controller/controller.cpp:790-829 | Once accepted, the same offer is not accepted again |
| Acceptance.OfferedIff | src/controller/controller.cpp:976-1019 | A composed site goes on the chain exactly when the lease of the site is to be had and the token under it is entitled and goes past the last entry; then the history ends in its snapshot |
| Acceptance.SnapshotSays | src/controller/controller.cpp:988-1002 | A snapshot says of its site what was composed, is complete exactly when all required members are there and the site is CURRENT, and has as sources whoever some decision rests on |
| Refusals.PublicationRefused | src/authority/authority.cpp:449-499 | For every answer of the fence other than OK, exactly when it is given |
| Refusals.RequestRefused | src/authority/authority.cpp:111-135 | A request for a site is invalid exactly when a part is missing or wrong, and fenced by its epoch exactly when a later one was observed |
| Refusals.TakingRefused | src/authority/authority.cpp:138-158 | What keeps a holder without a lease from a site that another controls: an unexpired active lease, a revoked one, or one of no lower incarnation sequence, each under its own status |
| Refusals.RetakingRefused | src/authority/authority.cpp:176-206 | What keeps a recorded holder from taking its lease again, each under its own status |
| Refusals.RenewalRefused | src/authority/authority.cpp:209-256 | For every refusal of a renewal, exactly when it is given |
| Refusals.ValidationRefused | src/authority/authority.cpp:279-319 | For every reason a token does not validate, exactly when it is given |
| Refusals.RevocationRefused | src/authority/authority.cpp:258-277 | For every refusal of a revocation, exactly when it is given |
| Refusals.ScreenRefused | src/core/snapshot.cpp:90-115 | For everything the screen of the chain finds wrong with a snapshot or its token, exactly when it is reported |
| Refusals.EntryRefused | src/core/snapshot.cpp:126-152 | For everything that keeps an entitled snapshot from going past the last entry, exactly when it is reported |
| Attribution.PointerIsTheLast | src/compose/compose.cpp:587-630 | A pointer of a resource is the last claim of its kind about it, in the order of the domains and of the lists in their declarations |
| Restart.StartedIff | src/controller/controller.cpp:625-728 | A start succeeds exactly when the latest snapshot, if there is one, can be restored and the controller has a name, a site, a sound incarnation, and a positive clock and term |
| Restart.StartsFrom | src/controller/controller.cpp:652-696 | A started controller has one record of each recorded domain, the first of those with the highest generation, and every such domain silenced; the recorded retirements and nobody revoked; the highest acceptance number; and an epoch just above every epoch there was |
| Acceptance.StandingIsReported | src/controller/controller.cpp:941-970 | A composition of the registered state reports every registered domain by its record: revoked exactly when it was revoked, retired exactly when it retired and was not, never CURRENT while it is silenced |
| Acceptance.SilenceEndsIff | src/controller/controller.cpp:387-413 | Of the events that are no retirement, exactly an answered hello and an accepted publication of a domain end its silence |

## Left out

- Compose.ArrivalOrderIsIrrelevant: requires that no domain has two different records of the same, highest rank, because the code has no tie-break beyond the acceptance sequence, and that the composition of one of the two inputs is readable.
- Compose.CurrentIsSound: one direction; the other fails for an expectation of optional members only, which is reported PARTITIONED. `Compose.CurrentFindings` has the exact condition.
- Compose.AdmittedSourceInvalidatesTheVerdict: below the decision bound only, because a decision beyond it is dropped.
- Grounds.InvalidatedIff: below the decision bound only, for the same reason; `Grounds.EveryDecisionIsGrounded` holds of every site.
- Reports.ReportsIff: of a list that has reached its bound it is only said that everything in it is there rightly, because what comes later is dropped.
- Acceptance.SubmittedIff: for publications without a pool alone under the key of a link or gateway (`TameDeclaration`), as all steps of the controller.
- Seal.DigestIgnoresOrder: requires that the hash does not collide on two of the claims, because of two claims under one key with one digest the code keeps either.
- Fencing.AcceptedPublicationsAreOrdered: for domains that were not admitted again after sequence 2^64 - 1; what holds for the others is `Fencing.PublicationsNeverFallBack`. The administrative reset of a domain (src/authority/authority.cpp:519-522) is not an event of these runs.
- Compose.WithdrawalKeepsOtherOwnership: requires that the composition without the withdrawn domain is readable too, because withdrawing the only claim of a link that others declare as a pool makes the code read a claim that is not there.
- Controller.PublishEffect: for publications without a pool alone under the key of a link or gateway (`Tame`, `TameDeclaration`), a sufficient condition for every later composition to be readable; so are the runs of the controller.
- Chain.AcceptedNeverFallBack: numbers only below exhaustion of 64 bits.
- ControllerRuns.NumbersIncrease: does not cover runs longer than what is left of 64 bits, where the acceptance number wraps and the generation stops.
- SealedSites.AcceptedPublicationCounts: for a controller that retains declarations; one that does not reports the domain as REPORTED.
- SiteControllerObject.SiteController.Start: starts a new controller; starting one again after a stop, with its registries still filled, is not modelled.
- The encoding of a composed site and of the snapshot body (src/core/codec.cpp:898-1837) is read and written by functions over its layout, not by methods on a cursor, except for sources and factors; and the site a stored snapshot holds is the value of that layout, not tied to the composed site in memory.
- Sockets, framing, timeouts, threads and the wire messages; the controller is a machine of atomic steps, and publication in particular is one step although the code fences and records in two calls.
- File-system calls, short writes and failing syncs: a file is a byte sequence and a crash keeps a prefix.
- What the controller appends to the store during its steps, and counters, heartbeats and change queries.
- Texts: factors, diagnostics, rendering, token tables, and the hexadecimal and key parsers.
- The final sorts of conflicts, deficits and decisions, and the digest of each decision.
- The order of snapshots with equal numbers after the unstable sort on load (src/persistence/persistence.cpp:481-484); here equal numbers keep file order.
- The effects of a refused seal on the caller's copy: the code tidies lists in place before it refuses, here a refusal yields a status only.
- Time arithmetic beyond the range of 64-bit signed integers, which the code leaves to the machine; here expiry wraps and evidence is compared without overflow.
- Tombstones surviving a restart of the controller: a start never reads them (src/controller/controller.cpp:652-688).
- LeaseRuns.OneHolderAtATime: of leases recorded as active; a lease recorded as expired validates again for a clock that is set back.
- `invalidate_for_domain`, the capacity maximum, synthetic generators, randomness and logging: easy members only.
