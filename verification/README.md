# Verification of the quipucords core

quipucords scans networks and management systems and reports the systems it finds. This project models its
most intricate parts in Dafny and proves what they promise, for every input, run or interleaving.

**Fingerprints** (`Fingerprints`, `MergeLaws`, `MergeTrees`, `MergeEngine`, `Dedup`, `Index`, `MergePass`,
`PassLaws`, `PassFacts`, `ScalarJoin`, `PassOutputs`, `PassOrder`, `MacPasses`, `Processors`, `Pipeline`,
`Derivation`, `PassTraces`, `PipelineLaws`, `Conservation`, `Marks`, `SystemTraces`, `SystemContents`,
`LoneSystems`, `CreationDates`, `SmallReports`, on `OrderedDict` and `Permutations`). The engine that turns the
systems of all sources into one list: field-by-field merge with null and sudo overrides, deduplication, first-wins
indexes, merge passes and the pipeline that strings them together. The loops are methods, each proved equal to a
specification function; the laws are lemmas about those functions, and say what each of them yields without
naming it. What becomes of each single system is read off a second run, on the same report with a source of its
own for every system; the two runs are proved to make the same merges.

**Jobs** (`JobStates`, `ScanJobs`, `Workflow`, `TaskBodies`, `CancelRaces`, `JobRuns`). The status methods of
jobs and tasks as classes that refine a transition function, and a started job as a state machine over inspect
tasks, fingerprint task, finalizer and cancel requests, in which everybody writes back the copy of the row it
read.

**Connections** (`Connections`). The store of remaining hosts, drained credential after credential. How the
runner behaves in each group is an arbitrary function, so the results hold for every behaviour.

**Smaller pieces.** Version deduplication and the presence fold (`JBossEap`, `StringOrder`), canonical sorting
for host ids (`DeepSort`), normalizer declarations and runs (`Normalizer`), publishing (`Publish`), deletion of
shared inspect results (`InspectResults`) and report totals (`Aggregate`).

`dafny verify dfyconfig.toml` checks everything.

## What the code does differently from a natural reading

The model follows the code. Where a property one would expect is false, a lemma shows an input or a run, and
another gives the exact condition.

- Merging is not associative. A null collected with sudo displaces a value collected without it, and is itself
  displaced by the next such value (`MergeNotAssociative`, `PickAssociativeIff`). `GroupingsAgreeIff` says exactly
  when the grouping of merges does not matter.
- The reverse-priority facts of the vcenter merge are given as a tuple while the merge only accepts a set, so
  no priority is ever reversed, although the log message says so (`ReverseKeysHaveNoEffect`, `VcenterWinsIff`,
  `VcenterCpuCountLoses`).
- The passes by MAC address can drop a system and can report one twice (`MacPassCanDrop`, `ReportedTwice`);
  `LostIff` and `ReportedTwiceIff` are the exact conditions for one pass. `OnlyMacPassesDrop` says exactly which
  systems a report loses, and `AloneIsReported` that a system which shares no key is not among them.
- A creation date that cannot be parsed hides a less accurate one that can (`UnparsedDateHides`).
- A canceled job can be reopened or overwritten. The fingerprint task saves the whole row it read earlier, and
  task bodies and the finalizer decide by the copy they hold (`CanceledJobCompletes`, `CanceledJobFails`).
  `CancelLostIff` and `SaveOverwritesIff` say exactly when.
- A completed job can be canceled. A cancel request that read the row before the job ended overwrites COMPLETED
  or FAILED, and detaches a report that was attached since (`CompletedJobCanceled`). `EndStandsIff` says exactly
  when; no task body overwrites them.
- A job ends COMPLETED although its fingerprint task failed if one inspect task completed
  (`CompletedWithoutFingerprint`, `CompletedIff`).
- A credential round that leaves no connected system ends the connection phase; the remaining credentials are
  not tried (`LaterCredentialSkipped`). `NextTriedIff` is the exact condition.
- A normalizer field that is declared again keeps its old position, possibly before its new dependencies
  (`RedeclaredMisses`, `DeclareKeepsOrderIff`). A normalizer whose run was cut short by an error returns the
  partial facts when asked again (`PartialFactsReturned`, `Normalize`).
- Lists are sorted before their elements are, so lists of lists need not have a canonical form
  (`NestedListsNotCanonical`). `NestedIdempotentIff`, `NestedEqualIff` and `CanonicalNestedIff` are the exact
  conditions.
- Two users can both pass the check for a pending publish request (`TwoUsersBothPending`); `ConsistentIff` says
  in which interleavings two requests become pending.
- Deleting results "exclusively related" to a job looks at reports only. Results shared with a task of a job
  that has no report yet are deleted, and so is every empty group (`ResultGoneIff`, `GroupGoneIff`,
  `OtherTasksNotProtected`).
- The report counts distinct VMware clusters as hosts and distinct (cluster, host) pairs as virtual machines
  (`AggregateFromSystemFingerprints`).

## Model

| member | source | states |
|---|---|---|
| `Fingerprints.UniqueEntitlements` | quipucords/fingerprinter/runner.py:867-887 | keeps the first entitlement of every identity string: nothing invented, no string lost, no string twice |
| `Fingerprints.UniqueAreFirsts` | quipucords/fingerprinter/runner.py:873-887 | what is kept is the first entry of every identity, all of them, from left to right |
| `Fingerprints.SameIdentityIff` | quipucords/fingerprinter/runner.py:877-882 | two entitlements are the same iff they agree on name and id, an underscore standing for what is missing, as long as names hold no colon |
| `Fingerprints.FalsyIff` | quipucords/fingerprinter/runner.py:718-734 | the values that do not identify a system: null, the empty string, zero and the empty list |
| `Fingerprints.TupleNeverReverses` | quipucords/fingerprinter/runner.py:813-824 | reverse-priority names given as a tuple change neither whether a merge succeeds nor its result |
| `MergeEngine.CollectKeysToAdd` | quipucords/fingerprinter/runner.py:813-849 | the loop selects exactly the facts that are missing, null, overridden by sudo or reversed |
| `MergeEngine.CopyFacts` | quipucords/fingerprinter/runner.py:851-857 | copies value and metadata together; fails exactly when a selected fact has no metadata on the merged side |
| `MergeEngine.CopySources` | quipucords/fingerprinter/runner.py:859-865 | the sources of both sides, the priority side winning on equal keys |
| `MergeEngine.CombineEntitlements` | quipucords/fingerprinter/runner.py:867-887 | the loop over seen identity strings computes UniqueEntitlements |
| `MergeEngine.CombineProducts` | quipucords/fingerprinter/runner.py:889-912 | name by name overlay; fails exactly when the merged side has a product name the priority side lacks |
| `MergeEngine.MergeFingerprint` | quipucords/fingerprinter/runner.py:793-914 | the whole merge: which of the two lookup errors is raised and when, and otherwise the result is Merge |
| `MergeLaws.MergeFactAt` | quipucords/fingerprinter/runner.py:813-857 | a merge picks for every fact one whole (value, metadata) pair by the null and sudo rules; the fact names are exactly the union |
| `MergeLaws.MergeSourceAt` | quipucords/fingerprinter/runner.py:859-865 | the sources of both sides, each from the priority side if it has the key |
| `MergeLaws.MergeEntitlementKeys` | quipucords/fingerprinter/runner.py:867-887 | the identities of the merged entitlements are exactly those of both sides |
| `MergeLaws.MergeEntitlements` | quipucords/fingerprinter/runner.py:867-887 | the merged list holds, for each identity, the first entry of the priority list followed by the merged one, in this order; nothing changes if the merged side has none |
| `MergeLaws.ProductsAligned` | quipucords/fingerprinter/runner.py:889-912 | fingerprints with the same product names merge position by position |
| `MergeLaws.CompatibleMerges` | quipucords/fingerprinter/runner.py:851-912 | merging fingerprints whose metadata and product names fit raises no lookup error and keeps the shape |
| `MergeLaws.MergeWithSelf` | quipucords/fingerprinter/runner.py:793-914 | merging a fingerprint with itself changes no fact, metadata, source or product |
| `MergeTrees.Provenance` | quipucords/fingerprinter/runner.py:813-857 | for every tree of merges, metadata and facts have the same keys, the facts are exactly those of the inputs, and every pair is one that some input carried |
| `MergeTrees.LeftmostStrongWins` | quipucords/fingerprinter/runner.py:826-849 | for every grouping, the leftmost non-null value collected with sudo is the result |
| `MergeTrees.PickAssociativeIff` | quipucords/fingerprinter/runner.py:840-849 | exactly which triples of pairs break associativity: a plain value and a null with sudo displace each other |
| `MergeTrees.MergeNotAssociative` | quipucords/fingerprinter/runner.py:840-849 | three fingerprints whose two groupings end with different values |
| `MergeTrees.Outcome` | quipucords/fingerprinter/runner.py:826-849 | without a value collected with sudo every grouping yields the pair of some contender |
| `MergeTrees.ContenderReached` | quipucords/fingerprinter/runner.py:826-849 | and every contender is the result of some grouping |
| `MergeTrees.GroupingsAgreeIff` | quipucords/fingerprinter/runner.py:826-849 | the grouping of merges is irrelevant for a fact if and only if a value with sudo is present or all contenders carry the same pair |
| `MergeTrees.BuiltTreesEvaluate` | quipucords/fingerprinter/runner.py:851-912 | fingerprints of one shape can be merged in any tree without a lookup error |
| `MergeTrees.ProductOutcome` | quipucords/fingerprinter/runner.py:896-912 | for every grouping a product ends ABSENT iff it is ABSENT in all inputs, and otherwise is the leftmost entry that is not |
| `Dedup.DedupByKey` | quipucords/fingerprinter/runner.py:718-734 | one pass of the loop over `unique_dict` and the keyless list, proved equal to DedupPass |
| `Dedup.RemoveDuplicates` | quipucords/fingerprinter/runner.py:699-742 | the loop over all keys, proved equal to DedupAll |
| `Dedup.RemoveDuplicateCopies` | quipucords/fingerprinter/runner.py:684-697 | folding copies by global id and dropping the id |
| `Dedup.PassIsGroupBy` | quipucords/fingerprinter/runner.py:718-734 | one pass is a group-by: keyless fingerprints unchanged and in order, then every group folded left to right, in order of first appearance |
| `Dedup.PassMakesUnique` | quipucords/fingerprinter/runner.py:718-734 | after a pass no two results share a truthy key |
| `Dedup.PassKeepsUnique` | quipucords/fingerprinter/runner.py:699-742 | a pass by another key keeps a key unique that was unique before |
| `Dedup.DedupAllUnique` | quipucords/fingerprinter/runner.py:699-742 | after deduplication no two results share a truthy value of any key of the list, earlier keys included |
| `Dedup.UniqueDedupPermutes` | quipucords/fingerprinter/runner.py:699-742 | deduplicating by keys that are already unique only permutes the list |
| `Dedup.DedupTwice` | quipucords/fingerprinter/runner.py:699-742 | a second deduplication only permutes the result of the first |
| `Dedup.DedupAllSources` | quipucords/fingerprinter/runner.py:699-742 | the union of the sources is exactly that of the input |
| `Index.CreateIndex` | quipucords/fingerprinter/runner.py:744-791 | the index loop with exploded list keys and fresh ids, proved equal to IndexScan |
| `Index.ClaimAll` | quipucords/fingerprinter/runner.py:770-781 | claims each key that is still free, so a key keeps its first claimant |
| `Index.ClaimsAre` | quipucords/fingerprinter/runner.py:744-791 | which keys a fact claims: a list its elements, any other value itself, falsy values nothing |
| `Index.Owner` | quipucords/fingerprinter/runner.py:765-783 | the first fingerprint that claims a key |
| `Index.IndexedByOwner` | quipucords/fingerprinter/runner.py:765-783 | the index maps every key to its first claimant, tagged with its id, and to nothing else |
| `Index.SurvivesIffOccurs` | quipucords/fingerprinter/runner.py:744-791 | a fingerprint occurs in index or keyless list iff it has no key or owns one |
| `Index.LostIff` | quipucords/fingerprinter/runner.py:744-791 | a fingerprint is lost if and only if it has keys and earlier fingerprints claim every one of them |
| `MergePass.MatchCandidates` | quipucords/fingerprinter/runner.py:658-682 | the match loop: merges in key order, unmatched candidates, and the base entries left over |
| `MergePass.CollectRemaining` | quipucords/fingerprinter/runner.py:684-686 | the values left in the base dictionary, in order |
| `MergePass.MergeMatching` | quipucords/fingerprinter/runner.py:627-697 | one merge pass, proved equal to Pass; the reported count is the number of shared keys |
| `PassLaws.CopiesFolded` | quipucords/fingerprinter/runner.py:684-697 | folding the copies keeps exactly the ids |
| `PassLaws.OneOutputPerSurvivingBase` | quipucords/fingerprinter/runner.py:627-697 | exactly one base output per base that survives indexing, with its id |
| `PassLaws.CarriedIff` | quipucords/fingerprinter/runner.py:664-682 | a candidate is carried on iff it is keyless or owns a key that no base has |
| `PassLaws.MergedOrCarried` | quipucords/fingerprinter/runner.py:655-682 | a candidate survives iff it is keyless, owns a key that hits, or owns one that misses |
| `PassLaws.PassConservesSources` | quipucords/fingerprinter/runner.py:627-697 | the outputs carry exactly the sources of the survivors of both sides |
| `PassOutputs.BaseOutputIs` | quipucords/fingerprinter/runner.py:627-697 | for any keys, every base output is the left-to-right fold of exactly the copies of its base: one per key it owns, merged with the candidate that owns the key, in key order |
| `PassOutputs.CarriedOutputIs` | quipucords/fingerprinter/runner.py:664-697 | every carried output is the fold of equal copies of its candidate: one per key it owns that no base claims, or one if it has no key |
| `PassOrder.BaseListedAs` | quipucords/fingerprinter/runner.py:627-697 | the order of the base outputs: bases without a key in input order, then the owners of the keys that candidates claim in the order of those claims, then the owners of the other keys in the order of their claims, each once |
| `PassOrder.CandListedAs` | quipucords/fingerprinter/runner.py:664-697 | the order of the carried candidates: those without a key in input order, then the owners of the keys that no base claims in the order of the claims, each once |
| `PassOrder.PassListed` | quipucords/fingerprinter/runner.py:627-697 | both outputs of a pass, entry by entry and in order, for any keys |
| `PassOrder.KeylessLead` | quipucords/fingerprinter/runner.py:684-689 | fingerprints without a key come first and keep their order |
| `PassOutputs.BaseOutputSources` | quipucords/fingerprinter/runner.py:664-697 | a base output carries the sources of its base and of exactly the candidates that own a key which the base owns |
| `PassOutputs.CarriedOutputSources` | quipucords/fingerprinter/runner.py:664-697 | a carried candidate carries its own sources and no others |
| `PassOutputs.MergedIff` | quipucords/fingerprinter/runner.py:664-689 | a candidate is merged into some base iff it owns a key that a base claims |
| `PassOutputs.ReportedTwiceIff` | quipucords/fingerprinter/runner.py:664-697 | a candidate comes out both merged and on its own iff it owns a key that some base claims and a key that none claims |
| `PassFacts.BaseKeepsFact` | quipucords/fingerprinter/runner.py:627-697 | a base output keeps its own (value, metadata) pair for every fact the candidates lack |
| `PassFacts.CarriedKeepsFacts` | quipucords/fingerprinter/runner.py:664-697 | a carried candidate keeps every fact pair |
| `PassFacts.BaseKeepsUnique` | quipucords/fingerprinter/runner.py:627-697 | a key only the base side carries stays unique through a pass |
| `PassFacts.ScalarPassLosesNothing` | quipucords/fingerprinter/runner.py:627-697 | with unique scalar keys every base has its output and no source is lost |
| `ScalarJoin.ScalarPassJoins` | quipucords/fingerprinter/runner.py:627-697 | with unique scalar base keys the pass is a left join: one output per base, equal to that base merged with its unique partner, or to the base itself |
| `ScalarJoin.CarriedExactly` | quipucords/fingerprinter/runner.py:664-697 | what is carried on is, as a multiset, exactly the candidates whose key no base claims, unchanged |
| `ScalarJoin.ScalarPassCounts` | quipucords/fingerprinter/runner.py:627-697 | outputs number bases plus candidates minus merges |
| `MacPasses.MergedAndCarried` | quipucords/fingerprinter/runner.py:664-682 | a candidate with one known and one unknown address is both merged and carried on, each time with its sources |
| `MacPasses.SecondBaseDropped` | quipucords/fingerprinter/runner.py:771-785 | a base whose only address an earlier base claims is dropped with its sources |
| `SmallReports.KeylessMergePass` | quipucords/fingerprinter/runner.py:627-697 | a pass in which nobody has the key leaves both lists as they are, in order |
| `SmallReports.MacPassCanDrop` | quipucords/fingerprinter/runner.py:340-478 | a report of three hosts, run through the whole pipeline, from which one host is missing |
| `SmallReports.ReportedTwice` | quipucords/fingerprinter/runner.py:340-478 | a report of two hosts in which one is merged into the other and reported on its own as well |
| `Processors.ProcessFact` | quipucords/fingerprinter/runner.py:1016-1702 | builds a fingerprint fact by fact with its metadata, products and entitlements, proved equal to Process |
| `Processors.ProcessedFact` | quipucords/fingerprinter/runner.py:916-963 | the value of every fact of the kind, taken from the identity texts or the other values, and all five fields of its metadata |
| `Processors.ProcessedContents` | quipucords/fingerprinter/runner.py:965-1014 | the one source; for network and satellite systems their entitlements and the findings for JBoss EAP, Fuse and Web Server in this order, for the others none |
| `Processors.ProcessedShape` | quipucords/fingerprinter/runner.py:916-976 | every processed fingerprint has metadata for exactly its facts, exactly the facts and product names of its source type, and scalar identity facts |
| `Processors.OnlyNetworkHasBiosUuid` | quipucords/fingerprinter/runner.py:1158-1702 | no processor but the network one sets a BIOS UUID |
| `Pipeline.ProcessSource` | quipucords/fingerprinter/runner.py:548-585 | one fingerprint per raw system, in order; cluster facts of an OpenShift scan make none |
| `Pipeline.HostsAre` | quipucords/fingerprinter/runner.py:548-585 | exactly the facts about a cluster are left out, and only for OpenShift |
| `Pipeline.TypesDeduplicated` | quipucords/fingerprinter/runner.py:371-412 | network systems are deduplicated by subscription manager id and then by BIOS UUID, satellite systems by the former, vcenter systems by VM UUID |
| `Pipeline.TwoDedupPasses` | quipucords/fingerprinter/runner.py:699-742 | deduplication by two keys is a pass by the first and a pass by the second over its result |
| `Pipeline.ProcessType` | quipucords/fingerprinter/runner.py:361-412 | the systems of one source type, deduplicated by its keys |
| `Pipeline.MergeFromSourceTypes` | quipucords/fingerprinter/runner.py:587-625 | one merge pass per key pair, each on what the previous one left; the returned number is the sum of the merges of the passes |
| `Pipeline.MergeSources` | quipucords/fingerprinter/runner.py:361-475 | the pipeline up to the combined list, for any report: every merge in it meets its preconditions, so no metadata or product lookup ever fails |
| `Marks.ListedLast` | quipucords/fingerprinter/runner.py:466-475 | the reported systems are the merged ones followed by those of OpenShift, Ansible and RHACS as they were processed |
| `Conservation.TwoPassesCount` | quipucords/fingerprinter/runner.py:587-625 | the number of merges reported for two source types counts those of both passes |
| `PipelineLaws.ReverseKeysHaveNoEffect` | quipucords/fingerprinter/runner.py:437-461 | the names of the reverse-priority facts have no effect on the pipeline |
| `PipelineLaws.VcenterWinsIff` | quipucords/fingerprinter/runner.py:437-461 | exactly when a vcenter pair replaces the other for a fact both carry: they are equal, the network value is null and the vcenter value is not, or vcenter alone had sudo |
| `SmallReports.VcenterCpuCountLoses` | quipucords/fingerprinter/runner.py:437-461 | a report in which the vcenter cpu count, meant to win, loses to the network value |
| `PipelineLaws.ProcessAlike` | quipucords/fingerprinter/runner.py:371-412 | the source of a system shows only in the sources and in the source fields of the metadata |
| `PipelineLaws.DeduplicatedTwins` | quipucords/fingerprinter/runner.py:371-412 | deduplicating one source type makes the same merges whatever the sources are called, and only between systems that share an identity |
| `Derivation.MergeRooted` | quipucords/fingerprinter/runner.py:793-914 | a merge of the values of two plans is the value of the joined plan |
| `Derivation.AlikeMerge` | quipucords/fingerprinter/runner.py:793-914 | whether a merge succeeds, and its result up to sources, does not depend on the sources |
| `Derivation.RootedProvenance` | quipucords/fingerprinter/runner.py:813-857 | the value of a plan has facts and metadata of equal keys, each pair carried by an input of the plan |
| `Derivation.DedupTwins` | quipucords/fingerprinter/runner.py:699-742 | two runs of deduplication that differ in sources only make the same merges, each between fingerprints that have an input or a key value in common |
| `PassTraces.MergePassTwins` | quipucords/fingerprinter/runner.py:627-697 | two runs of a merge pass that differ in sources only make the same merges, each between fingerprints that have an input or a key value in common |
| `Marks.PlanNames` | quipucords/fingerprinter/runner.py:859-865 | if every input has a source of its own, the sources of a fingerprint name exactly the inputs of its plan |
| `SystemTraces.TypesTwins` | quipucords/fingerprinter/runner.py:587-625 | merging two source types makes the same merges whatever the sources are called |
| `SystemTraces.SystemsMadeOfParts` | quipucords/fingerprinter/runner.py:340-478 | a report in which every system has a source of its own gives the same systems; their marks tell of which systems each is made, and it is the value of merges of exactly those, each between fingerprints that have an input or a key value in common |
| `SystemTraces.OnlyMacPassesDrop` | quipucords/fingerprinter/runner.py:340-478 | per system: it is missing from the reported systems iff, in one of the two MAC passes, every fingerprint it went into has addresses and earlier ones claim them all |
| `SystemTraces.PartsConnected` | quipucords/fingerprinter/runner.py:340-478 | only systems connected by shared key values are reported as one: however its parts are cut in two, both sides share a value of some key pair |
| `LoneSystems.AloneIsReported` | quipucords/fingerprinter/runner.py:340-478 | a system that shares no key value with any other is reported by itself, with the facts, metadata, sources and products its processor gave it |
| `SystemTraces.SystemsProvenance` | quipucords/fingerprinter/runner.py:340-475 | every fact of every combined system is, with its metadata, a fact of one of the systems it is made of |
| `SystemContents.SystemHolds` | quipucords/fingerprinter/runner.py:340-475 | a combined system carries exactly the source keys of the systems it is made of, and exactly the identities of their entitlements |
| `SystemContents.SystemProducts` | quipucords/fingerprinter/runner.py:340-475 | if one of them was examined for products it has the three products, each the entry of one of them, and ABSENT iff ABSENT in all that were examined |
| `CreationDates.ComputeCreationTime` | quipucords/fingerprinter/runner.py:498-529 | the loop over the date keys, proved equal to Dated |
| `CreationDates.DatedFacts` | quipucords/fingerprinter/runner.py:498-529 | facts and metadata stay paired, the raw dates are gone, all other facts keep their pair, and the creation date is what the most accurate date with a value parses to |
| `CreationDates.DecisiveDate` | quipucords/fingerprinter/runner.py:498-529 | which date decides, from creation_timestamp, machine id, registration time and anaconda log down to the file system, its value and its metadata; nothing is added without a date |
| `CreationDates.UnparsedDateHides` | quipucords/fingerprinter/runner.py:510-529 | a more accurate date that cannot be parsed hides one that can |
| `CreationDates.ProcessSources` | quipucords/fingerprinter/runner.py:340-496 | the whole pipeline with the creation dates |
| `CreationDates.ReportedProvenance` | quipucords/fingerprinter/runner.py:340-496 | every fact of every reported system but its creation date is, with its metadata, a fact of one of the systems it is made of |
| `Conservation.ScalarPassKeysUnique` | quipucords/fingerprinter/runner.py:371-465 | when the scalar passes run, subscription manager ids, BIOS UUIDs and VM UUIDs are unique and scalar on both sides |
| `Conservation.SystemsUniqueByBiosUuid` | quipucords/fingerprinter/runner.py:340-478 | no two reported systems share a BIOS UUID |
| `Conservation.PassAccountsForSources` | quipucords/fingerprinter/runner.py:627-697 | outputs and shadowed fingerprints of any pass account for all sources |
| `Conservation.MergedSources` | quipucords/fingerprinter/runner.py:587-625 | merging two source types with unique scalar keys gives exactly the sources that survive its MAC pass, and that pass sees all of them |
| `Conservation.TypesAccountForSources` | quipucords/fingerprinter/runner.py:587-625 | merging two source types loses only what its MAC pass shadows |
| `Conservation.EverySourceAccounted` | quipucords/fingerprinter/runner.py:340-478 | the sources of the reported systems and of those shadowed in a MAC pass are exactly the sources of the report |
| `JobStates.TerminalAbsorbs` | quipucords/api/scanjob/model.py:347-505 | over every history of calls CANCELED, COMPLETED and FAILED are absorbing; tasks change no more either, except that a repeated cancel may still cancel tasks |
| `JobStates.Entering` | quipucords/api/scanjob/model.py:347-505 | which call enters which status and from where: RUNNING only from PENDING, COMPLETED and FAILED only from RUNNING, CREATED never |
| `JobStates.SucceedsIff` | quipucords/api/scanjob/model.py:221-505 | in which statuses each call succeeds; a refused one changes nothing |
| `JobStates.CallEffect` | quipucords/api/scanjob/model.py:347-505 | what each call that succeeds does to the job and to every task |
| `JobStates.QueuedOnly` | quipucords/api/scanjob/model.py:266-345 | the tasks of a queued job: an inspect task for each source and then one fingerprint task, none without a source, the fingerprint task alone for a job that only fingerprints |
| `JobStates.FinishedJobsRan` | quipucords/api/scanjob/model.py:221-505 | every history from CREATED to COMPLETED or FAILED started a pending job and later finished the running one |
| `JobStates.CancelFinishesTasks` | quipucords/api/scanjob/model.py:417-445 | a successful cancel leaves every task terminal, finished ones unchanged |
| `JobStates.PauseThenRestart` | quipucords/api/scanjob/model.py:364-415 | pause and restart put every unfinished task back to PENDING and leave the finished ones alone |
| `ScanJobs.ScanJob.constructor` | quipucords/api/scanjob/model.py:28-61 | a new job is CREATED, without tasks or report |
| `ScanJobs.ScanTask.SetStatus` | quipucords/api/scantask/model.py:312-375 | a task takes any status it is given and changes nothing else |
| `ScanJobs.ScanTask.SetScanned` | quipucords/api/scantask/model.py:239-310 | only the counter changes |
| `ScanJobs.ScanJob.ValidateStatusChange` | quipucords/api/scanjob/model.py:485-505 | refuses unless the status is allowed; asking for the current status is never refused |
| `ScanJobs.ScanJob.CreatePendingTasks` | quipucords/api/scanjob/model.py:266-345 | one pending inspect task per source when inspecting, then one fingerprint task, all new objects |
| `ScanJobs.ScanJob.StatusQueue` | quipucords/api/scanjob/model.py:221-264 | the transition Queue of JobStates |
| `ScanJobs.ScanJob.StatusStart` | quipucords/api/scanjob/model.py:347-362 | the transition Start, and when it is refused |
| `ScanJobs.ScanJob.StatusRestart` | quipucords/api/scanjob/model.py:364-386 | the transition Restart with its loop over paused tasks |
| `ScanJobs.ScanJob.StatusPause` | quipucords/api/scanjob/model.py:388-415 | the transition Pause with its loop over unfinished tasks |
| `ScanJobs.ScanJob.CancelUnfinishedTasks` | quipucords/api/scanjob/model.py:431-439 | the loop cancels exactly the unfinished tasks |
| `ScanJobs.ScanJob.StatusCancel` | quipucords/api/scanjob/model.py:417-445 | the transition Cancel with its loop over unfinished tasks |
| `ScanJobs.ScanJob.StatusComplete` | quipucords/api/scanjob/model.py:447-463 | the transition Complete, and when it is refused |
| `ScanJobs.ScanJob.StatusFail` | quipucords/api/scanjob/model.py:465-483 | the transition Fail, and when it is refused |
| `TaskBodies.StartTask` | quipucords/scanner/job.py:77-84 | the task is RUNNING before its runner is called |
| `TaskBodies.JobCopy.constructor` | quipucords/scanner/tasks.py:173-176 | a body reads the job row when it begins |
| `TaskBodies.JobCopy.Save` | quipucords/scanner/job.py:69-71 | saving a copy writes every column, the status included |
| `TaskBodies.JobCopy.StatusFail` | quipucords/api/scanjob/model.py:465-483 | the copy decides whether failing is refused, and a success writes the row |
| `TaskBodies.JobCopy.StatusComplete` | quipucords/api/scanjob/model.py:447-463 | the copy decides whether completing is refused, and a success writes the row |
| `TaskBodies.JobCopy.StatusCancel` | quipucords/api/scanjob/model.py:417-445 | the copy decides whether canceling is refused; the tasks are fetched anew |
| `TaskBodies.AttachReport` | quipucords/scanner/tasks.py:211-219 | creates a report if there is none and a system was scanned, and saves the copy with it |
| `TaskBodies.EndTask` | quipucords/scanner/job.py:83-124 | the task takes the returned status, FAILED for a status a runner may not return; an exception fails the task, and the job through the copy read when the task began |
| `TaskBodies.SumScanned` | quipucords/scanner/job.py:56-67 | the systems scanned by the inspect tasks |
| `TaskBodies.BeginFingerprint` | quipucords/scanner/tasks.py:193-233 | cancels the job, fails it for want of facts, or saves the copy with the report and starts the task |
| `TaskBodies.FinalizeScan` | quipucords/scanner/tasks.py:241-288 | the finalizer makes, through its copy, the one status call that the tasks and the cancel flag decide |
| `TaskBodies.CancelJob` | quipucords/api/scanjob/view_v1.py:207-224 | the cancel view refuses if the job had ended when it read the row, and otherwise writes CANCELED with its copy, twice |
| `Workflow.RunKeepsInv` | quipucords/scanner/tasks.py:160-288 | the invariant of every interleaving of task bodies and cancel requests, each holding the copy of the job row it read: what each status says about the past, how stale a copy can be, and when a report can exist |
| `Workflow.EndStandsIff` | quipucords/scanner/tasks.py:160-288 | no task body overwrites FAILED or COMPLETED: they stand iff no cancel request writes afterwards, and such a request has read the row before the job ended |
| `Workflow.OnlyCancelsDetach` | quipucords/scanner/tasks.py:203-219 | a report once attached to a job stays attached unless a cancel is written |
| `Workflow.FinalizedJobsEnd` | quipucords/scanner/tasks.py:193-288 | for any number of tasks and any outcomes a started job is terminal after the finalizer; COMPLETED only without an exception, and with at least one scanned system if the fingerprint task ran without an earlier report |
| `Workflow.CompletedIff` | quipucords/scanner/tasks.py:241-288 | the exact condition for COMPLETED: the finalizer read the row RUNNING, the job is not revoked, and a task has completed or there is none |
| `Workflow.FinalDecision` | quipucords/scanner/tasks.py:241-288 | the status the finalizer asks for: CANCELED if revoked or all tasks are, COMPLETED if there is no task or one has completed, else FAILED |
| `Workflow.CopyWrites` | quipucords/api/scanjob/model.py:417-483 | which copies write, and what they write to status, report and tasks |
| `Workflow.BodyEnds` | quipucords/scanner/job.py:77-124 | the status a task ends with, and what an exception does to the job |
| `Workflow.ScannedAddsUp` | quipucords/scanner/job.py:56-67 | the systems scanned are summed over the inspect tasks |
| `Workflow.OpenJobRuns` | quipucords/scanner/tasks.py:160-288 | before the finalizer the row is RUNNING if nothing went wrong and nobody canceled, else FAILED or CANCELED unless a save reopened it |
| `Workflow.WindowEvents` | quipucords/scanner/tasks.py:203-219 | while the fingerprint task holds a copy it may save, only it and cancel requests take steps |
| `CancelRaces.OverwrittenIff` | quipucords/scanner/tasks.py:203-288 | over all runs, a step changes a terminal status iff a body writes a copy that is not CANCELED over CANCELED, or a cancel request writes over FAILED or COMPLETED |
| `CancelRaces.CancelStandsIff` | quipucords/scanner/tasks.py:160-288 | a cancel stands to the end of a run iff no later step is such a write |
| `CancelRaces.CancelLostIff` | quipucords/scanner/tasks.py:160-288 | a cancel is lost iff a body that had read the row before the cancel writes it back afterwards |
| `CancelRaces.SaveOverwritesIff` | quipucords/scanner/tasks.py:203-219 | between the read and a save of the fingerprint task only cancel requests take steps, and the save overwrites a terminal status iff the row was not CANCELED when read and a cancel was written in between |
| `JobRuns.CompletedWithoutFingerprint` | quipucords/scanner/tasks.py:256-288 | a run of a queued and started job that ends COMPLETED although its fingerprint task failed and there is no report |
| `JobRuns.CanceledJobCompletes` | quipucords/scanner/tasks.py:203-288 | a run of a queued and started job that is canceled between the read and the save of its fingerprint task and ends COMPLETED |
| `JobRuns.CanceledJobFails` | quipucords/scanner/job.py:83-104 | a run in which an inspect task that began before the cancel turns CANCELED into FAILED |
| `JobRuns.CompletedJobCanceled` | quipucords/api/scanjob/view_v1.py:207-224 | a run in which a cancel request that read the row early turns COMPLETED into CANCELED and detaches the report |
| `Connections.ConnectResultStore.constructor` | quipucords/scanner/network/inspect.py:489-521 | all hosts that are not excluded remain, nothing is recorded |
| `Connections.ConnectResultStore.Balance` | quipucords/scanner/network/inspect.py:499-553 | at every moment systems_count = scanned + failed + unreachable + remaining |
| `Connections.ConnectResultStore.RecordResult` | quipucords/scanner/network/inspect.py:523-553 | moves one host from the remaining ones to the results and its counter; raises, changing nothing, exactly for a host that is not remaining |
| `Connections.ConnectResultStore.RemainingHosts` | quipucords/scanner/network/inspect.py:555-561 | lists the remaining hosts, each once |
| `Connections.TallyTotal` | quipucords/scanner/network/inspect.py:533-551 | every result is counted under exactly one status |
| `Connections.ConstructInventory` | quipucords/scanner/network/utils.py:75-97 | cuts the hosts into consecutive groups that together are the hosts, in order, each of exactly `forks` hosts but for the last, and as many as that makes |
| `Connections.GroupAt` | quipucords/scanner/network/utils.py:75-97 | member k of group g is host g * forks + k |
| `Connections.GroupsNeeded` | quipucords/scanner/network/utils.py:75-97 | as many groups as needed and no more |
| `Connections.HandleEvent` | quipucords/scanner/network/connect_callback.py:30-109 | event by event, which result is appended, which host leaves the remaining ones, and when it raises |
| `Connections.HandleEvents` | quipucords/scanner/network/connect_callback.py:111-148 | the events of a group in order, until one raises |
| `Connections.EventsSay` | quipucords/scanner/network/connect_callback.py:30-148 | after the events of a group a host has a result iff it had one, or an event said so while it remained and nothing had raised: return code 0 for SUCCESS, unreachable without a refused permission for UNREACHABLE |
| `Connections.PhaseSays` | quipucords/scanner/network/inspect.py:729-793 | the same over all groups and credentials of a phase, and no event makes a host FAILED |
| `Connections.TallyCountsHosts` | quipucords/scanner/network/inspect.py:533-551 | a counter is the number of hosts with that result |
| `Connections.GroupEnds` | quipucords/scanner/network/inspect.py:620-697 | when a round goes on after a group, and when it stops with an error, CANCELED or FAILED |
| `Connections.GoingRoundEnds` | quipucords/scanner/network/inspect.py:695-697 | a round whose groups all go on completes iff a system is connected |
| `Connections.StoppedRoundEnds` | quipucords/scanner/network/inspect.py:620-697 | any other round ends as its first group that does not go on |
| `Connections.Connect` | quipucords/scanner/network/inspect.py:564-697 | one round over all groups: the hosts it records and its outcome, as a function of the behaviour of the runner |
| `Connections.TryCredential` | quipucords/scanner/network/inspect.py:751-782 | a round is offered exactly the remaining hosts, each once, in groups of `forks`; books and outcome as AfterRound says |
| `Connections.RecordFailures` | quipucords/scanner/network/inspect.py:786-791 | every host left is recorded as FAILED, in order, and none remains |
| `Connections.RunWithResultStore` | quipucords/scanner/network/inspect.py:729-793 | for every behaviour of the runner the phase is exactly the fold of its rounds: outcome, hosts offered to each round, results; a COMPLETED phase leaves every host with exactly one result, those left as FAILED |
| `Connections.TriedIff` | quipucords/scanner/network/inspect.py:751-773 | a credential is tried iff every earlier round completed and hosts remain, and is offered exactly these hosts |
| `Connections.NextTriedIff` | quipucords/scanner/network/inspect.py:751-782 | after a round with hosts remaining the next credential is tried iff the round was not stopped and some system is connected by then |
| `Connections.PhaseCompletesIff` | quipucords/scanner/network/inspect.py:751-793 | the phase completes iff every round did |
| `Connections.CompletedConnects` | quipucords/scanner/network/inspect.py:695-697 | a completed phase that tried a credential has connected a system |
| `Connections.OfferedNotRecorded` | quipucords/scanner/network/inspect.py:751-782 | a round is offered no host that an earlier one recorded |
| `Connections.LaterCredentialSkipped` | quipucords/scanner/network/inspect.py:772-773 | a host whose second credential would work ends unrecorded, because the first one opened no system |
| `JBossEap.BetweenExtends` | quipucords/fingerprinter/jboss_eap.py:348-371 | whatever sorts between a string and an extension of it extends it |
| `JBossEap.SortVersions` | quipucords/fingerprinter/jboss_eap.py:357-357 | a sorted permutation |
| `JBossEap.BisectRight` | quipucords/fingerprinter/jboss_eap.py:360-361 | the index after the last element that is not greater |
| `JBossEap.NextDecides` | quipucords/fingerprinter/jboss_eap.py:360-369 | in a sorted list the next larger element alone decides whether any element refines a version |
| `JBossEap.VersionAwareDedup` | quipucords/fingerprinter/jboss_eap.py:348-371 | returns exactly the versions that are not a proper prefix of another one |
| `JBossEap.MostPreciseAntichain` | quipucords/fingerprinter/jboss_eap.py:348-371 | no result is a prefix of another |
| `JBossEap.EveryVersionCovered` | quipucords/fingerprinter/jboss_eap.py:348-371 | every input is a prefix of some result |
| `JBossEap.Strongest` | quipucords/fingerprinter/jboss_eap.py:388-412 | the greatest presence among the evidence found, ABSENT without any |
| `JBossEap.PresenceOrder` | quipucords/fingerprinter/jboss_eap.py:388-412 | the order of presences, from unknown over absent and potential to present |
| `JBossEap.SupportingIff` | quipucords/fingerprinter/jboss_eap.py:388-412 | the supporting facts are the found ones that say just that |
| `JBossEap.SupportingInOrder` | quipucords/fingerprinter/jboss_eap.py:388-412 | in the order in which the facts are examined |
| `JBossEap.VersionsIff` | quipucords/fingerprinter/jboss_eap.py:388-412 | the versions are those listed by found facts |
| `JBossEap.CommunityIff` | quipucords/fingerprinter/jboss_eap.py:374-433 | a community version starts with wildfly or jbossas in whatever case |
| `JBossEap.EnterpriseIff` | quipucords/fingerprinter/jboss_eap.py:374-433 | the enterprise versions are all others |
| `JBossEap.DetectEap` | quipucords/fingerprinter/jboss_eap.py:374-433 | presence, supporting facts and versions of the product, for any evidence |
| `DeepSort.SortEqualIff` | quipucords/utils/misc.py:19-20 | sorting numbers, strings, or lists of such values to any depth forgets exactly their order |
| `DeepSort.SortedUpwards` | quipucords/utils/misc.py:19-20 | numbers and strings are sorted upwards, each as often as before |
| `StringOrder.LexLeIff` | quipucords/utils/misc.py:19-23 | strings are ordered by the first character in which they differ, prefixes first |
| `DeepSort.CanonicalIff` | quipucords/utils/misc.py:8-23 | flat dictionaries have the same canonical form iff they differ only in the order of keys and list elements |
| `DeepSort.DeepIdempotent` | quipucords/utils/misc.py:8-23 | sorting a flat dictionary twice changes nothing |
| `DeepSort.HashInput` | quipucords/api/common/entities.py:70-80 | the value whose JSON text is hashed: dates rendered, then sorted |
| `DeepSort.HashInputStable` | quipucords/api/common/entities.py:70-80 | that value is equal for two hosts iff their rendered facts agree up to order |
| `DeepSort.NestedListsNotCanonical` | quipucords/utils/misc.py:19-20 | a list of lists for which neither order independence nor idempotence holds |
| `DeepSort.NestedIdempotentIff` | quipucords/utils/misc.py:19-20 | for lists of lists: sorting twice changes nothing iff the elements, each sorted and in the order of the first outer sort, are ascending |
| `DeepSort.NestedEqualIff` | quipucords/utils/misc.py:19-20 | two lists of lists have the same form iff their outer sorts put lists with the same items in the same places |
| `DeepSort.CanonicalNestedIff` | quipucords/utils/misc.py:19-20 | the form of a list of lists is the same for every order of the items inside iff elements with different items compare alike in whatever order |
| `Normalizer.EnsureDependenciesExist` | quipucords/scanner/normalizer.py:204-209 | accepts iff every dependency is declared |
| `Normalizer.Declare` | quipucords/scanner/normalizer.py:177-201 | an accepted field is added, or replaced at its old position; a refused one changes nothing |
| `Normalizer.DeclareKeepsOrderIff` | quipucords/scanner/normalizer.py:177-209 | a fresh field keeps the order topological; a redeclared one iff its dependencies stand before its old position |
| `Normalizer.RedeclaredIsAccepted` | quipucords/scanner/normalizer.py:177-209 | three fields of which the second is declared again with a dependency on the third: accepted, and out of order |
| `Normalizer.RedeclaredMisses` | quipucords/scanner/normalizer.py:52-69 | with these fields every run stops at the second one for want of its dependency |
| `Normalizer.PartialFactsReturned` | quipucords/scanner/normalizer.py:52-69 | the first call then fails, and the second returns the partial facts without an error |
| `Normalizer.DeclareKeepsClosed` | quipucords/scanner/normalizer.py:177-209 | accepted declarations never leave a dependency undeclared |
| `Normalizer.FreshDeclarationsOrdered` | quipucords/scanner/normalizer.py:177-209 | every accepted sequence of fresh declarations is a topological order |
| `Normalizer.ApplyMapper` | quipucords/scanner/normalizer.py:71-137 | one field: arguments, exceptions, raw keys and validators |
| `Normalizer.CalledWith` | quipucords/scanner/normalizer.py:80-92 | the arguments of a normalizer function: one raw fact is positional, several or none are named, dependencies are named, and a missing raw fact is absent |
| `Normalizer.UsesKey` | quipucords/scanner/normalizer.py:118-137 | the raw facts a field uses: its own and those of its dependencies |
| `Normalizer.FactOutcome` | quipucords/scanner/normalizer.py:93-116 | the result of a field, by what its function returns or raises and what the validators say |
| `Normalizer.ResultOfField` | quipucords/scanner/normalizer.py:52-116 | in a run without an escaping error the result of each field is computed from the raw facts and the values of the fields before it |
| `Normalizer.RunValidators` | quipucords/scanner/normalizer.py:104-114 | all validators must accept; one that raises rejects |
| `Normalizer.BaseNormalizer.constructor` | quipucords/scanner/normalizer.py:23-33 | starts without values and metadata |
| `Normalizer.BaseNormalizer.Normalize` | quipucords/scanner/normalizer.py:52-69 | the first call runs all fields and tells whether an error escaped; any later call returns what is stored, without an error even after a run that was cut short |
| `Normalizer.BaseNormalizer.RunFields` | quipucords/scanner/normalizer.py:59-69 | the loop over the fields, proved equal to NormalizeFirst: one value and one metadata entry per field until an error escapes |
| `Normalizer.OrderedNeverMisses` | quipucords/scanner/normalizer.py:52-96 | in topological order no dependency is ever missing |
| `Normalizer.CompleteOnlyIfOrdered` | quipucords/scanner/normalizer.py:52-96 | normalization gets through only if every field is grounded in earlier ones |
| `Normalizer.EveryFieldNormalized` | quipucords/scanner/normalizer.py:52-116 | if no error escapes every field has exactly one result, whatever normalizers and validators did |
| `Normalizer.OtherFieldsUnaffected` | quipucords/scanner/normalizer.py:71-116 | changing one field changes no field that does not depend on it |
| `Publish.Latest` | quipucords/api/publish/view.py:113-115 | the most recent request of a report |
| `Publish.PublishStore.constructor` | quipucords/api/publish/model.py:9-39 | no requests |
| `Publish.PublishStore.GetLatest` | quipucords/api/publish/view.py:113-115 | the query for the most recent request |
| `Publish.PublishStore.CreatePublish` | quipucords/api/publish/view.py:128-154 | refuses an unpublishable report, reports a conflict while the latest request is pending, and creates one otherwise |
| `Publish.PublishStore.PublishToIngress` | quipucords/api/publish/tasks.py:103-172 | a worker settles a pending request with its finding and leaves any other alone |
| `Publish.AttemptEnds` | quipucords/api/publish/tasks.py:30-157 | when an attempt succeeds, and which error it ends with otherwise |
| `Publish.SettledAs` | quipucords/api/publish/tasks.py:159-172 | a pending request becomes SENT, or FAILED with the error found; any other stays |
| `Publish.ConsistentIff` | quipucords/api/publish/view.py:128-154 | over all interleavings of checks, creations and repeated workers, only the latest request of a report is pending and a request carries an error code iff it is FAILED, exactly as long as no creation follows a check that another creation, still pending, has overtaken |
| `Publish.AtOnceConsistent` | quipucords/api/publish/view.py:128-154 | a creation right after its check keeps this, whatever the requests |
| `Publish.SettledForever` | quipucords/api/publish/tasks.py:159-172 | a settled request never changes again, so each request changes status at most once |
| `Publish.FirstWorkerDecides` | quipucords/api/publish/tasks.py:103-172 | a pending request is settled by the first worker that handles it, with that worker's finding, whatever others do |
| `Publish.CreationIff` | quipucords/api/publish/view.py:140-150 | a creation keeps this iff no request of the report is pending by then |
| `Publish.TwoUsersBothPending` | quipucords/api/publish/view.py:140-150 | the run in which two users check before either creates: two pending requests |
| `InspectResults.InspectTables.DeleteInspectResults` | quipucords/api/scanjob/model.py:270-286 | deletes the job's results, then the groups without results |
| `InspectResults.ResultGoneIff` | quipucords/api/scanjob/model.py:277-282 | a result goes iff a task of the job filled its group and no other job's report uses the group |
| `InspectResults.OtherReportsUntouched` | quipucords/api/scanjob/model.py:280-286 | results reachable from another job's report stay, and so do their groups |
| `InspectResults.GroupGoneIff` | quipucords/api/scanjob/model.py:283-286 | a group goes iff every result in it goes, so an empty group always does |
| `InspectResults.DeletionsCommute` | quipucords/api/scanjob/model.py:270-286 | the order of two deletions does not matter |
| `InspectResults.DeletionIdempotent` | quipucords/api/scanjob/model.py:270-286 | deleting twice is deleting once |
| `InspectResults.OtherTasksNotProtected` | quipucords/api/scanjob/model.py:270-286 | a result that another job's task also produced is deleted while that job has no report |
| `Aggregate.AggregateReport.CountSystem` | quipucords/api/aggregate_report/model.py:162-222 | adds a system to exactly one class and its sockets, rounded up to pairs |
| `Aggregate.AggregateReport.AggregateFromSystemFingerprints` | quipucords/api/aggregate_report/model.py:127-256 | class counts, twice the socket pairs = sockets + odd counts, one OS cell per label and all cells summing to the number of systems, average date, distinct clusters and (cluster, host) pairs |
| `Aggregate.EverySystemCountedOnce` | quipucords/api/aggregate_report/model.py:144-214 | the five class counts sum to the number of systems, and every system has one OS label |
| `Aggregate.ClassIs` | quipucords/api/aggregate_report/model.py:162-214 | the class of a system: apart if not Red Hat and from neither OpenShift nor Satellite, otherwise by infrastructure |
| `Aggregate.ContributionIs` | quipucords/api/aggregate_report/model.py:144-160 | the OS label with "unknown" for what is missing, and which systems are VMware machines |
| `Aggregate.CountIs` | quipucords/api/aggregate_report/model.py:162-214 | each class count is a number of systems |
| `Aggregate.VmsAre` | quipucords/api/aggregate_report/model.py:224-244 | the counted (cluster, host) pairs are those of the VMware machines |
| `Aggregate.IncrementAddsOne` | quipucords/api/aggregate_report/model.py:152-154 | counting a system adds one to the sum of all OS cells |
| `Aggregate.AverageIsMeanRoundedDown` | quipucords/utils/datetime.py:7-18 | the average computed from the oldest date is the mean rounded down to a day and lies between the dates |
| `Aggregate.DistinctItemsCountPairs` | quipucords/api/aggregate_report/model.py:245-256 | summing the distinct hosts of each cluster counts distinct (cluster, host) pairs |

## Left out

What became a parameter: what the Ansible runner reports (events and endings per group), how task runners end,
cancel flags, raw facts and their formatted values, products detected on a system, tokens, HTTP responses and
dates as day numbers. `uuid4` is a counter that is never reused.

- Clients for Ansible, OpenShift, vCenter, Satellite, RHACS and AAP: network access and foreign libraries.
- Celery internals: inspect tasks precede the fingerprint task, which precedes the finalizer.
- Django models beyond the rows and relations named above, serializers, views, migrations, caching, logging.
- The formatters of the fact lists: identity facts arrive as stripped strings, other facts as arbitrary values.
- The order of the sources of a system.
- Date patterns: how the value of a date key is parsed is a parameter of `CreationDates.ProcessSources`.
- `quipucords/api/scanjob/model.py` 507-560, which copies facts between reports.
- JSON rendering and SHA-512 behind `DeepSort.HashInput`.
- Slices of a report and expansion of host patterns: simple arithmetic and parsing.
- JBoss Fuse and JBoss Web Server detection, and the classifiers behind the EAP evidence: table lookups.
- The aggregate report's raw-fact totals and inspect result counts: plain counters.
- Rounding of the average date by binary floating point; `Aggregate.AverageDate` divides exactly.
- Fingerprints.UniqueEntitlements: identity is the joined string `name:id`, which is not injective, as in the code.
- JobStates.TerminalAbsorbs: does not say that tasks of a canceled job stay as they are, because a repeated cancel may still cancel unfinished ones.
- Connections.ConnectResultStore.RecordResult: does not model that a rolled-back transaction leaves the in-memory counter of the task incremented.
- Connections.HandleEvents: an exception in a callback is taken to end the round; whether the Ansible runner passes it on is not visible in the repository.
- DeepSort.CanonicalIff: is about dictionaries of scalars and flat lists of numbers or of strings, the values a fingerprint holds; lists of lists have lemmas of their own, and mixtures that Python refuses to sort are not modelled.
- Conservation.EverySourceAccounted: is about the names of sources, which systems may share; `SystemTraces.OnlyMacPassesDrop` is about each system.
- Conservation.TypesAccountForSources: is about the names of sources, too.
- Pipeline.ProcessSource: unknown source types, which are logged and skipped before a fingerprint is built, are not among its kinds.
- Pipeline.MergeFromSourceTypes: covers reverse-priority names that have no effect, the only ones the pipeline passes.
- ScanJobs.ScanTask.SetScanned: stands for the counter of connected systems alone; the other three are in `Connections`.
- ScanJobs.ScanJob.StatusQueue: leaves out copying the scan details and deleting the results of an earlier attempt.
- Workflow.RunKeepsInv: times and messages are left out.
- Aggregate.AggregateReport.AggregateFromSystemFingerprints: leaves out core counts and missing-value counters, which are plain counters.
- JBossEap.DetectEap: does not distinguish an absent version entry from an empty one.
- Normalizer.BaseNormalizer.Normalize: keeps raw keys as sets instead of sorted lists, and leaves out server id and source type in the metadata.
- Publish.PublishStore.PublishToIngress: refreshing and saving a request are one step; error messages are left out.
- InspectResults.InspectTables.DeleteInspectResults: row ids are positive, so a given task id is never falsy.
