# Egress Guardian: a verified model

Egress Guardian watches the egress flows of Kubernetes workloads, aggregates them into a baseline, scores
every destination, compiles an allowlist (a CiliumNetworkPolicy), and applies it behind a human approval.
This project models that pipeline in Dafny and proves what it promises, from bytes on the wire to the
policy in the cluster. `dafny verify dfyconfig.toml` checks all of it.

| part | modules |
|---|---|
| wire reader | `Varint`, `Loop`, `Wire`, `Hubble` |
| accumulator and its runs | `Trace`, `Accumulator` |
| scoring, sorting, compiling | `Scorer`, `Builder`, `Wildcard`, `Address`, `Rules`, `Sorting`, `Generator`, `Accounting`, `ProfileCounts` |
| flows to allowlist | `EndToEnd` |
| ConfigMap store | `MergePatch`, `Store` |
| controllers | `Cluster`, `Controllers`, `Statuses`, `Convergence`, `Gate`, `GateSafety`, `Atomic` |
| bytes to policy | `Pipeline`, `Joint`, `Completeness` |
| shared | `Base`, `Text` |

Main results:

- **The table is the window.** In every run a key is retained iff its last accepted flow is within the
  window of every tick since (`Trace.RetainedIff`); in ordered runs that is exactly the sliding window
  (`Trace.SlidingWindow`); every counter is the fold of what happened since the key's insertion
  (`Trace.Exact`); and no flow is unaccounted for (`Trace.Conservation`).
- **The compiler is a function of the set of entries.** Its maps, arbitrary iteration orders and sorts
  compute the same rules as a one-triple-at-a-time compiler (`Generator.Generate`), which preserve meaning
  (`Generator.CompileMeaning`) in the one canonical spelling (`Rules.CanonicalUnique`).
- **End to end.** Every allowed triple has a flow behind it (`EndToEnd.Provenance`), a stable named
  destination gets in (`EndToEnd.Inclusion`), and the allowlist shrinks only by purging
  (`EndToEnd.ShrinksOnlyByPurging`).
- **The gate holds under every interleaving** of users and controllers, with stale reads, failed calls and
  aborted reconciles (`GateSafety.NothingWithoutEntitlement`), and every profile converges in any schedule
  of the whole cluster (`Convergence.Converges`).
- **The wire reader inverts the encoder** through three levels of nesting, whichever fields are missing
  (`Hubble.ResponseRecovers`), and its loops are modelled turn by turn in 64-bit arithmetic
  (`Wire.OutcomesExact`).
- **No update of the ConfigMap is lost** as long as each writer's reads show its own writes
  (`Store.Serializable`).
- **From bytes to policy.** In every run of the whole system, whatever an applied policy allows was approved,
  and was seen in a response that this run received (`Joint.WireToPolicy`); and whatever allowable name a
  response can tell of, some run comes to allow (`Completeness.EveryDestinationCanBeAllowed`).

Where a promise turned out false of the code, the model keeps the code and states exactly when the promise
holds:

- `LastSeen` is overwritten, not maximised, so the window needs ordered timestamps (`Trace.OutOfOrderEvicts`).
- Six wildcard patterns are high in one list and unknown to the other, so an enforced policy can name them
  (`Accounting.UnsafeNameIsAllowed`, `Accounting.AllowableNames`).
- `int(length)` can leave the range of int, and a scan then goes back, panics or never ends; the index moves
  forward throughout iff no reached record ends at 2^63 or later (`Wire.ScanStandsStill`,
  `Wire.MovesForwardIff`).
- A merge patch computed from a stale copy can be empty when a change is due (`Store.StaleReadLosesUpdate`,
  `Store.WriteTakesHoldIff`, `Store.AlwaysSerialIff`).
- The profile's High count can fall short of the High exclusions, by wildcards, low scores and addresses in
  172.0.0.0/8 (`ProfileCounts.HighIsMissed`); it is right iff every destination excluded as High is an
  unnamed one outside the profile's five prefixes (`ProfileCounts.ProfileCountsHighIff`), and never too high.
- Two profiles may name their policy alike and then overwrite each other's; a profile converges in every
  schedule that gives it its turns iff it enforces without such a rival or not at all
  (`Convergence.ClashExists`, `Convergence.ConvergesIff`).
- Decoded flows are counted for pods, profiles are registered for whatever kind they target, and the owner
  lookup has no caller: flows off the wire count for a profile iff its target is the pod itself
  (`Pipeline.CountsForIff`), and a policy applied for any other kind allows no
  destination (`Joint.OtherKindsAreDenied`).

Where code and documentation disagree the code is followed: docs/architecture.md calls `*.amazonaws.com`
and `*.cloudfront.net` Medium, the scorer makes them High; it ties the window to `spec.baselineWindow`,
which is not read; its scoring table gives points for a stable name and for having no wildcard, where the
code asks for three snapshots of any destination and for a name without one (`Scorer.ScoreAgainstTable`);
and a non-High entry with neither a name nor a public address is left out of the
excluded list as well as of the policy.

Inputs and conventions: clock readings, iteration orders, failed API calls and the part of isPublicIP that
runs net.ParseIP (`parsesPublic`) are parameters or nondeterministic choices, so the statements hold for all
of them. Strings hold one character per byte. Flow and byte counters wrap at 2^64 and the snapshot counter
at 2^63, as in Go.

## Model

| member | source | states |
|---|---|---|
| `Varint.DecodeVarint` | internal/observer/hubble_grpc.go:280-294 | the shift-and-or loop returns the base-128 number that the bytes up to the first one below 0x80 spell, modulo 2^64, and its size, or size 0 when none of the first ten ends it |
| `Varint.SpanExact` | internal/observer/hubble_grpc.go:283-293 | a varint is read iff one of the first ten bytes is below 0x80, and up to exactly the first such byte |
| `Varint.PlaceGroup` | internal/observer/hubble_grpc.go:287-291 | or-ing a shifted group in 64 bits adds its value modulo 2^64, also for the tenth byte, of which one bit is left |
| `Varint.DecodeEncode` | internal/observer/hubble_grpc.go:280-294 | decoding undoes the standard encoding of every uint64, whatever bytes follow |
| `Wire.ReadHeader` | internal/observer/hubble_grpc.go:201-233 | one turn's reads give the record's number and value or payload position, or stop |
| `Wire.ExtractField` | internal/observer/hubble_grpc.go:198-238 | the loop, with its index in 64-bit arithmetic, has the outcome that iterating its turn function gives: a result, a panic, or no end |
| `Wire.ExtractVarint` | internal/observer/hubble_grpc.go:240-270 | likewise for a varint field |
| `Loop.StopsOrNever` | internal/observer/hubble_grpc.go:198-270 | a loop over an index into n bytes ends within n + 1 turns or never |
| `Wire.OutcomesExact` | internal/observer/hubble_grpc.go:198-270 | the outcome is a value, a panic or endlessness iff the loop, given enough turns, returns that value, panics, or never stops |
| `Wire.AdvancesIffInRange` | internal/observer/hubble_grpc.go:225-232 | one computed end lies at or after the payload, and is the true end, iff the true end is below 2^63 |
| `Wire.MovesForwardIff` | internal/observer/hubble_grpc.go:198-270 | on all data: the loop never comes to a record that throws the index back iff the scan in unbounded arithmetic stays below 2^63 |
| `Wire.ScansAreReturned` | internal/observer/hubble_grpc.go:198-270 | in that case the loop returns what the scan finds |
| `Wire.ScanStandsStill` | internal/observer/hubble_grpc.go:198-270 | eleven bytes on which, for every number of turns, both loops are still at index 0 (a search for field 2 itself panics) |
| `Wire.BoundedReadsReturn` | internal/observer/hubble_grpc.go:198-270 | with data and length prefixes below 2^62 both loops return, and a payload is a slice of the data |
| `Wire.FoundStaysFound` | internal/observer/hubble_grpc.go:198-270 | and what they find is still found when any bytes are appended |
| `Wire.FieldStable` | internal/observer/hubble_grpc.go:198-238 | on arbitrary bytes a found payload is a slice of the data and stays found when bytes are appended |
| `Wire.VarintStable` | internal/observer/hubble_grpc.go:240-270 | a varint found stays found when any bytes are appended |
| `Wire.FieldOfMessage` | internal/observer/hubble_grpc.go:198-238 | on an encoded message the first record numbered k decides: its payload, or failure if it is a varint or there is none |
| `Wire.VarintOfMessage` | internal/observer/hubble_grpc.go:240-270 | on an encoded message the first varint record numbered k, even behind a length-delimited one |
| `Wire.ReadersMatchEncoder` | internal/observer/hubble_grpc.go:198-270 | the loops return exactly that, for every message that fits in memory |
| `Hubble.DecodeFlow` | internal/observer/hubble_grpc.go:128-194 | the fields come from the nested messages in the order of precedence of the code; no flow without a namespace; the first read that panics or does not end decides |
| `Hubble.DecodeGetFlowsResponse` | internal/observer/hubble_grpc.go:117-125 | the flow of field 1, or none |
| `Hubble.ResponseRecovers` | internal/observer/hubble_grpc.go:117-194 | every response built of nested messages, whatever other records they hold and whichever fields or messages they lack, decodes to the flow it tells of; no flow iff it names no source namespace |
| `Hubble.FlowFieldByField` | internal/observer/hubble_grpc.go:128-194 | which record each field of that flow comes from: protocol TCP iff l4 has field 1, UDP iff it has only field 2, the port modulo 2^32, the name from dns before dst, address, namespace, pod, and the four verdict names |
| `Hubble.RoundTrip` | internal/observer/hubble_grpc.go:117-194 | decoding undoes an encoder that leaves out empty and zero fields, for every observation of ordinary size |
| `Hubble.ResponseReturns` | internal/observer/hubble_grpc.go:117-194 | on arbitrary bytes, with data and length prefixes below 2^62, the whole decoder returns |
| `Hubble.RequestIsEncoded` | internal/observer/hubble_grpc.go:103-113 | the hand-written request bytes are the encoding of follow = true with one egress filter |
| `Trace.CapHolds` | internal/observer/accumulator.go:118-150 | never more than 500 entries, each under its own key, in every run |
| `Trace.DroppedIffFull` | internal/observer/accumulator.go:135-137 | a flow is turned away iff its key is new and there are 500 entries |
| `Trace.KeysDiscern` | internal/observer/accumulator.go:118-150 | flows share an entry iff they agree in workload, name, address, port and protocol, which the entry shows |
| `Trace.RetainedIff` | internal/observer/accumulator.go:118-161 | a key is in the table iff its last accepted flow is within the window of every later tick, and that flow's time is LastSeen; no assumption on order |
| `Trace.WindowBound` | internal/observer/accumulator.go:152-161 | whatever the order of timestamps, a tick leaves only keys with a flow inside the window |
| `Trace.SlidingWindow` | internal/observer/accumulator.go:118-161 | in ordered runs a tick leaves exactly the keys with an accepted flow in the window, and without drops exactly those with any flow in it |
| `Trace.OutOfOrderEvicts` | internal/observer/accumulator.go:129-130 | a late old flow evicts a key that has a flow in the window |
| `Trace.Exact` | internal/observer/accumulator.go:129-170 | FirstSeen, FlowCount, Bytes and Snapshots of a retained entry are the fold of flows and ticks since its latest insertion |
| `Trace.Conservation` | internal/observer/accumulator.go:118-172 | retained, purged and dropped flow counts add up to the flows ingested, up to counter wraps, of which there are none below 2^64 flows |
| `Accumulator.RegisteredIff` | internal/observer/accumulator.go:85-90 | the two routing maps hold the latest registration of each workload and nothing else |
| `Accumulator.Accumulator.RegisterWorkload` | internal/observer/accumulator.go:85-90 | records the route, extends the run, leaves entries and store alone |
| `Accumulator.Accumulator.Ingest` | internal/observer/accumulator.go:118-150 | the table becomes what the run extended by the flow prescribes |
| `Accumulator.Accumulator.Purge` | internal/observer/accumulator.go:152-161 | deleting in any order leaves exactly the entries last seen at or after the cutoff |
| `Accumulator.Accumulator.CountAndGroup` | internal/observer/accumulator.go:163-172 | every entry is counted once and listed once under its workload, in any iteration order |
| `Accumulator.Accumulator.SaveOne` | internal/observer/accumulator.go:174-189 | a group is saved unless its workload has no route or the store refuses |
| `Accumulator.Accumulator.SaveAll` | internal/observer/accumulator.go:174-189 | exactly one write per routable workload the store accepts, each listing that workload's entries, in any order |
| `Accumulator.Accumulator.Tick` | internal/observer/accumulator.go:111-113 | purge then flush: the run grows by the tick, the invariant is kept, and exactly the workloads that still have entries, a route and an accepting store are written |
| `Accumulator.Accumulator.GetSnapshot` | internal/observer/accumulator.go:193-210 | lists the workload's entries once each; truncated iff the table has 500 entries |
| `Accumulator.StoredWasWritten` | internal/observer/accumulator.go:180-189 | a ConfigMap holds the snapshot of the last write to it, even when two workloads share it |
| `Scorer.Score` | internal/baseline/scorer.go:13-58 | every score is between 5 and 100 |
| `Scorer.ScoreAgainstTable` | docs/architecture.md:99-111 | against the documented table read to the letter: the code gives its score iff the destination has a name; without one it gives 15 points more from three snapshots on, else 10 fewer |
| `Scorer.ScoreGrows` | internal/baseline/scorer.go:13-75 | for a flushed destination more flows and cycles never lower the score or worsen the risk |
| `Scorer.RiskBands` | internal/baseline/scorer.go:61-75 | High iff ruled out or below 50, Medium iff not ruled out and from 50 to 79, Low iff not ruled out and from 80 on |
| `Scorer.AggregateScore` | internal/baseline/scorer.go:78-87 | the loop computes the truncated mean of the scores, 0 for none |
| `Scorer.MeanBounds` | internal/baseline/scorer.go:78-87 | the mean lies between any bounds on the scores |
| `Scorer.MeanTruncates` | internal/baseline/scorer.go:78-87 | the mean is rounded down |
| `Scorer.MeanZeroIffEmpty` | internal/baseline/scorer.go:78-87 | the mean is 0 iff the snapshot is empty, and otherwise between 5 and 100 |
| `Builder.SortByRisk` | internal/baseline/builder.go:46-54 | the in-place insertion sort yields the Low, then the Medium, then the High entries, each in original order |
| `Builder.GroupedIsTheStableSort` | internal/baseline/builder.go:26-28 | that result is a permutation and the only sequence sorted by risk that keeps each level's order |
| `Builder.Build` | internal/baseline/builder.go:16-29 | the stable sort by risk of the scored destinations |
| `Builder.RiskSummaryFrom` | internal/baseline/builder.go:32-44 | the counts are the sizes of the three groups and add up to the length |
| `Wildcard.PassesBothTests` | internal/cilium/wildcard.go:7-48 | a name passes the scorer's and the generator's wildcard tests iff it is safe or one of six patterns |
| `Address.DirectPublicIsExact` | internal/cilium/wildcard.go:52-69 | on dotted IPv4 the prefix list is exactly the private blocks of section 3 of RFC 1918 and 127.0.0.0/8 |
| `Address.SimpleTestIsExact` | internal/controller/egressprofile_controller.go:218-229 | the profile's test differs from it exactly in 172.0.0.0/8 |
| `Address.LoopbackIsPrivate` | internal/cilium/wildcard.go:52-69 | both tests know the IPv6 loopback address and take other IPv6 addresses for public |
| `Rules.CanonicalUnique` | internal/cilium/policy_generator.go:102-119 | two rule lists with strictly increasing keys and names that allow the same traffic are equal |
| `Generator.Filter` | internal/cilium/policy_generator.go:59-89 | the groups are the triples of the entries let through, the excluded list is in entry order |
| `Generator.GroupByPort` | internal/cilium/policy_generator.go:96-100 | each key lists its names once, in any iteration order |
| `Generator.EmitRules` | internal/cilium/policy_generator.go:91-119 | the emitted rules are canonical and allow exactly the groups, whatever the iteration orders |
| `Generator.CompileMeaning` | internal/cilium/policy_generator.go:51-119 | the rules allow exactly the triples of entries that are named, not High and no pattern under review |
| `Generator.CompileCanonical` | internal/cilium/policy_generator.go:102-119 | one rule per port and protocol, keys and names strictly increasing |
| `Generator.CompileOrderIrrelevant` | internal/cilium/policy_generator.go:102-119 | the rules depend only on which entries there are |
| `Generator.ComputeOverallRisk` | internal/cilium/policy_generator.go:190-207 | High below 50; Low from 80 on when no entry is High; Medium otherwise |
| `Generator.Generate` | internal/cilium/policy_generator.go:26-136 | maps, loops and sorts compute the policy of the simple compiler, the exclusions in sorted order, the mean and the overall risk, under the given or the default name, in the given namespace |
| `Generator.EgressShape` | internal/cilium/policy_generator.go:43-119 | the DNS rule is present iff asked for and only in front; the other rules carry exactly the justified triples |
| `Generator.CompileOrdered` | internal/cilium/policy_generator.go:102-119 | neighbouring rules and names are in order, port by port and, at the first difference, character by character |
| `Text.LessIff` | internal/cilium/policy_generator.go:108-112 | the order of strings is decided at their first difference |
| `Accounting.Fates` | internal/cilium/policy_generator.go:59-89 | when an entry is allowed, excluded as High, excluded as Medium or omitted, and under which host (its address only if it has no name), port and reason |
| `Accounting.ExclusionsExactly` | internal/cilium/policy_generator.go:59-89 | each item is in the excluded list once for every entry excluded as it, with that host, port, risk and reason |
| `Accounting.GenerateAccountsForAll` | internal/cilium/policy_generator.go:59-89 | allowed, excluded and omitted entries add up to the snapshot; one item per excluded entry; the High items are as many as the entries excluded as High |
| `Accounting.GenerateOrderIrrelevant` | internal/cilium/policy_generator.go:26-136 | reordering a snapshot changes neither policy, confidence nor risk, and permutes the exclusions |
| `Accounting.AllowableNames` | internal/cilium/policy_generator.go:63-89 | the names some snapshot can get allowed are exactly the safe ones and the six patterns |
| `Accounting.AllowedNamesAreSafeOrUnscored` | internal/cilium/policy_generator.go:63-89 | no rule names a large wildcard or a pattern under review |
| `Accounting.UnsafeNameIsAllowed` | internal/cilium/wildcard.go:45-48 | a snapshot whose policy names `*.co`, which IsAllowedInEnforce refuses |
| `ProfileCounts.CountRisk` | internal/controller/egressprofile_controller.go:204-216 | the counters are the numbers of unnamed public destinations, of other ones with five flows and two cycles, and of the rest, and add up to the number of destinations |
| `ProfileCounts.LowOnlyGrows` | internal/controller/egressprofile_controller.go:204-216 | while destinations only gain evidence none counted Low is counted otherwise later, and the Medium ones only get fewer |
| `ProfileCounts.SimpleTestImpliesPrefixTest` | internal/controller/egressprofile_controller.go:218-229 | public for the profile implies direct public for the generator, on all strings |
| `ProfileCounts.HighShortfall` | internal/controller/egressprofile_controller.go:204-229 | the High exclusions number the High count of the profile plus the entries it misses, so the count never overstates |
| `ProfileCounts.ProfileCountsHighIff` | internal/controller/egressprofile_controller.go:204-229 | the count is right iff every entry excluded as High is an unnamed one with an address outside the five prefixes |
| `ProfileCounts.MissedIff` | internal/controller/egressprofile_controller.go:204-229 | which entries are missed: direct public ones that the five prefixes take for private, large wildcards, and others below 50 |
| `ProfileCounts.HighIsMissed` | internal/controller/egressprofile_controller.go:204-229 | a wildcard, a public address in 172.0.0.0/8 and a private one seen once, for each of which the profile reports no High destination and the generator excludes one |
| `Accounting.OverallRiskAgrees` | internal/cilium/policy_generator.go:126-127 | overall High iff the mean is below 50, Low iff it is 80 or more and no entry is High; not High without a High entry; Low when all entries are |
| `EndToEnd.Provenance` | internal/observer/accumulator.go:163-190 | every triple of the policy of a written snapshot has a flow of that workload, name, port and protocol, in the window of the writing tick, and the workload was last registered for that ConfigMap |
| `EndToEnd.StoredProvenance` | internal/store/configmap_store.go:89-99 | the same for whatever a ConfigMap holds at the end of a run, with the tick of the last write to it |
| `EndToEnd.Inclusion` | internal/cilium/policy_generator.go:59-89 | a named, wildcard-free destination present through three ticks scores at least 85, is Low, and is allowed |
| `EndToEnd.EvidenceGrows` | internal/observer/accumulator.go:129-170 | while a key stays, its counters only grow from flush to flush |
| `EndToEnd.ShrinksOnlyByPurging` | internal/baseline/scorer.go:13-75 | between two writes of a workload none of whose keys were purged the allowlist only grows |
| `MergePatch.ApplyDiff` | internal/store/configmap_store.go:115-120 | applying the computed patch (section 2 of RFC 7396) to its own base gives the modified document |
| `MergePatch.ApplyMember` | internal/store/configmap_store.go:115-120 | section 2 of RFC 7396 member by member: null removes, anything else merges, what is not named stays |
| `Store.PatchNamesOneKey` | internal/store/configmap_store.go:115-120 | the patch carries the key alone, or nothing if the copy already has the value |
| `Store.PatchEffect` | internal/store/configmap_store.go:110-121 | however old the copy, the patch sets the key and nothing else, or does nothing |
| `Store.WriteTakesHoldIff` | internal/store/configmap_store.go:110-121 | the write takes hold iff the copy differed or the server had the value already |
| `Store.StaleReadLosesUpdate` | internal/store/configmap_store.go:112-120 | a stale copy for which the update is lost |
| `Store.AlwaysSerialIff` | internal/store/configmap_store.go:75-121 | with reads of any age, the server keeps pace with the same writes done atomically iff no patch was hidden by a copy that had the value already |
| `Store.Serializable` | internal/store/configmap_store.go:75-121 | it does in every interleaving of the two writers, and of edits to other keys, in which the reads of each writer show at least its own last write |
| `Store.FreshReadsSuffice` | internal/store/configmap_store.go:112 | reads of the present version do |
| `Store.EachKeyHoldsItsLastValue` | internal/store/configmap_store.go:75-121 | then each key holds the last value of its writer and unwritten keys their own, also from an empty data map |
| `Store.BothKeysHold` | internal/store/configmap_store.go:75-121 | so the last snapshot is under baseline.json and the last policy under policy.yaml |
| `Store.ConfigMapStore.EnsureConfigMap` | internal/store/configmap_store.go:40-72 | creates the object without data unless it exists |
| `Store.ConfigMapStore.PatchData` | internal/store/configmap_store.go:110-121 | fails if the object is missing; otherwise sets the key of that object alone |
| `Cluster.SetCondition` | internal/controller/egressprofile_controller.go:231-239 | replaces the first condition of the kind or appends |
| `Cluster.ConditionPlace` | internal/controller/egressprofile_controller.go:231-239 | it goes to the place of the first one of its kind, or to the end, and all others stay in theirs |
| `Cluster.ConditionKeptOnce` | internal/controller/egressprofile_controller.go:231-239 | no kind gains a second condition, and setting twice is setting once |
| `Controllers.Operator.EnsureProposal` | internal/controller/egressprofile_controller.go:152-202 | returns the proposal, created unapproved if missing |
| `Controllers.Operator.ReconcileProfile` | internal/controller/egressprofile_controller.go:55-149 | the whole effect of a profile reconcile whose calls succeed: the objects it creates, the status it writes, and the registration of the workload of its target with the accumulator |
| `Controllers.Operator.ApplyCnp` | internal/controller/egresspolicyproposal_controller.go:155-203 | creates or replaces that policy alone, or fails and changes nothing |
| `Controllers.Operator.ReconcileProposal` | internal/controller/egresspolicyproposal_controller.go:55-151 | the whole effect of a proposal reconcile, whether or not the policy can be applied; none when an object it needs is missing |
| `Convergence.Converges` | internal/controller/egressprofile_controller.go:91-149 | in any schedule of reconciles of any profiles and proposals that has a profile, then a proposal, then a profile reconcile of the pair, the pair reaches the phases and policy of the table for its initial mode, approval and snapshot, with the rows Failed and Proposed if its policy cannot be applied, and no further reconcile of anything changes the pair while the outcome of applying stays; a pair whose policy is applied must have no clash |
| `Convergence.ConvergesIff` | internal/controller/egresspolicyproposal_controller.go:104-115 | every such schedule, the policy being applied, ends with the table in force iff there is no clash: no other approved, enforcing profile whose policy has the same name |
| `Convergence.ClashExists` | internal/cilium/policy_generator.go:33-36 | two profiles that name their policy alike |
| `Convergence.DefaultNamesNeverClash` | internal/cilium/policy_generator.go:34-36 | profiles that leave the name to the generator never clash |
| `Convergence.ScheduleKeepsSpecs` | internal/controller/egressprofile_controller.go:55-149 | no schedule changes a spec or a stored snapshot, or makes anything approved |
| `Convergence.ReadyKeptOnce` | internal/controller/egressprofile_controller.go:134-140 | no schedule gives any profile or proposal a second Ready condition |
| `Controllers.ProfileKeepsSpecs` | internal/controller/egressprofile_controller.go:55-149 | a profile reconcile changes no spec and no stored snapshot |
| `Controllers.ProposalKeepsSpecs` | internal/controller/egresspolicyproposal_controller.go:55-151 | nor does a proposal reconcile |
| `Statuses.ProfilePhaseTable` | internal/controller/egressprofile_controller.go:91-115 | the whole switch: which phase is written for each mode and each phase of the proposal, Failed, Draft and none included |
| `Statuses.ProfileStatusWritten` | internal/controller/egressprofile_controller.go:117-140 | the counts, flags and references in the status, from the stored snapshot, and a Ready condition that says the phase |
| `Statuses.ProfileCreates` | internal/controller/egressprofile_controller.go:66-70 | the objects created, and nothing else: an empty ConfigMap and, outside mode Observe, an unapproved proposal |
| `Statuses.NotReadyDoesNothing` | internal/controller/egresspolicyproposal_controller.go:58-86 | without its profile or the ConfigMap a proposal reconcile changes nothing |
| `Statuses.ProposalPhaseTable` | internal/controller/egresspolicyproposal_controller.go:101-118 | Applied, Failed and PendingApproval, when each is written, and which policy is applied under which name |
| `Statuses.ProposalStatusWritten` | internal/controller/egresspolicyproposal_controller.go:120-145 | from the stored snapshot: every exclusion, the mean of the scores, the overall risk, the ConfigMap, and a Ready condition that says the phase |
| `Atomic.ProposalIsSteps` | internal/controller/egresspolicyproposal_controller.go:55-151 | the protocol steps of a proposal reconcile, uninterrupted and with fresh reads, have the effect of the whole reconcile |
| `Atomic.ProfileIsSteps` | internal/controller/egressprofile_controller.go:55-149 | likewise for a profile reconcile |
| `GateSafety.RunKeeps` | internal/controller/egresspolicyproposal_controller.go:55-151 | the invariant that ties logs, workers and versions together holds in every run |
| `GateSafety.CnpWritesAreAuthorized` | internal/controller/egresspolicyproposal_controller.go:104-115 | every policy write belongs to a reconcile that read approved = true, then mode = Enforce, and writes the policy generated for that profile from a baseline its ConfigMap held |
| `GateSafety.PhasesFollowWrites` | internal/controller/egressprofile_controller.go:103-105 | Applied is written only after the same reconcile wrote the policy, Enforced only after the same reconcile read Applied |
| `GateSafety.NothingWithoutEntitlement` | internal/controller/egresspolicyproposal_controller.go:104-151 | no policy, no Applied and no Enforced for an object never both approved and, in its profile, in mode Enforce |
| `GateSafety.GateClosed` | internal/controller/egressprofile_controller.go:91-115 | a run never approved, or never in mode Enforce, has no policy write, no Applied and no Enforced in any version |
| `Pipeline.CountsForIff` | internal/observer/hubble_grpc.go:145-148 | a decoded flow counts for a registered target iff the target is the pod of that flow |
| `Pipeline.OnlyPodsAreWritten` | internal/observer/accumulator.go:174-189 | on flows decoded from Hubble no snapshot is ever written for a target of another kind |
| `Joint.RunKeepsAll` | internal/observer/accumulator.go:96-190 | in every run of the whole system, over restarts: each event of the accumulator has its cause among the moves of the run (a flow, the response it was decoded from), each saved snapshot is genuine, and each baseline in each version of the cluster was saved by the accumulator |
| `Joint.WireToPolicy` | internal/controller/egresspolicyproposal_controller.go:104-115 | in every run: a written policy that allows a destination was written after reads of approval and mode Enforce, is the one compiled from a snapshot saved in this run to the ConfigMap of that profile, and a response received in this run decoded to a flow of that workload to that destination, within the window of the tick that made the snapshot |
| `Completeness.EveryDestinationCanBeAllowed` | internal/cilium/policy_generator.go:59-119 | for every allowable name, port and protocol that an ordinary response can tell of, there is a run, from a cluster without baselines or enforcement, in which the operator writes a policy that allows it |
| `Joint.OtherKindsAreNeverSaved` | internal/controller/egressprofile_controller.go:73-83 | in no run is a snapshot saved for a profile whose target is never a pod |
| `Joint.OtherKindsAreDenied` | internal/controller/egresspolicyproposal_controller.go:104-115 | a policy applied for such a profile allows no destination |

## Left out

- gRPC dialling and streaming, the mock flow source, flags and manager wiring: input and output without logic of their own.
- JSON and YAML text: a stored snapshot is its value and policy.yaml is the policy it spells; GeneratedAt and other timestamps are not kept.
- GitOps export, events, logging, leader election, RBAC and CRDs.
- The drift report (internal/baseline/drift.go) and the owner lookup (internal/observer/workload.go): they would only add easy members.
- net.ParseIP and its range tests: an arbitrary address test, over which every statement is quantified.
- Mutexes and the Go memory model: accumulator operations are atomic steps, as its loop serialises them; entries are values, so the sharing of entry pointers between table and groups is not modelled.
- Free-text messages and audit fields: they drive no transition.
- Namespaces in the controllers: one namespace, since a proposal and its profile always share one.
- `Wire.ReadHeader`: the two reads that both scan loops repeat are one helper.
- `Wire.ExtractField`: the loop counts its turns, as the Go loop does not, so that it can report that it would never end; `Wire.ExtractVarint` likewise.
- `Controllers.Operator.ApplyCnp`: nothing comes between its read and its write, so a conflict of resource versions is just one of the faults; in the protocol (`Gate.ApplyPolicy`) the read may be old, and the write is refused if the policy changed since.
- Baselines in the joint system: users do not edit them, none exists at the start, and a save is one step, which may be refused; its own read and merge patch are the subject of the store's theorems.
- The policy text in the ConfigMap is set by one step in the protocol; its own read and merge patch are the subject of the store's theorems.
