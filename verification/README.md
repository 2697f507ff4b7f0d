# Secrets Provider for Kubernetes: a verified model

This project models the label-driven synchronisation engine of the CyberArk Secrets Provider
for Kubernetes, in Kubernetes Secrets mode, together with the components it leans on, and proves
what it promises over whole runs. `dafny verify dfyconfig.toml` checks everything.

## What is modelled

**The provider run** (`provider.dfy`, class `K8sProvider`). A run gathers the required or the
labelled Secrets, reads their conjur-maps and group annotations, builds the list of destinations
per Conjur variable with an index beside it, asks Conjur for what is needed, computes the new
data of each Secret, deletes the listed keys, overlays the new data and records a checksum. Go's
map iteration is a loop that picks any remaining key; every Kubernetes call may fail. The
specification the methods are proved against is spread over `destinations.dfy`, `secret_data.dfy`
(one key of one Secret at a time), `gather.dfy`, `commit.dfy` and `run_spec.dfy`.

**Theorems about runs**. `runs.dfy`: what one run means for each key. `quiescence.dfy`: the
second run writes nothing. `refinement.dfy`: when skipping by checksum is invisible, and that all
values arrive. `delivery.dfy`: from a conjur-map entry or a group annotation to the data in the
cluster, on successful runs. `checksum.dfy`: the printed text that is hashed can be read back uniquely.
`monitor.dfy`: nothing crosses from one goroutine's run to another's.

**The informer and its loop**. `informer.dfy` is the filter, `forwarding.dfy` what it lets through
in terms of what a run reads, `removal.dfy` the accumulation of keys to delete, `debounce.dfy` the timed loop with the runs it starts, `batches.dfy` all of them
together, and `self_trigger.dfy` the provider's own writes seen through the filter.

**Other components**. `atomic_writer.dfy`: the file writer over a faulty operating system.
`conjur_retriever.dfy`: paging and variable ids, joined to the provider in `coverage.dfy`.
`retry.dfy`: the bounded retry. `push_to_file.dfy`: fetch, wipe and check in push-to-file mode.
`secrets_list.dfy`: the list parser.

## Assumptions

- YAML parsing, template rendering, base64 decoding and the hash are arbitrary functions (the
  fields of `Libs`). The hash is injective where a lemma says `Injective`.
- Values returned by Conjur are non-nil slices. A Secret's `Data` may be nil, which the informer
  tells apart from an empty map.
- A Kubernetes call fails or takes full effect; nobody else writes to the cluster during a run. The
  classes standing for Kubernetes, the operating system and Conjur's listing keep ghost records of
  the calls that failed, so that contracts can say a failure has a cause (`RunSpec.NoReasonToFail`,
  `AtomicWriter.Explained`).
- In label mode no listed Secret fails half-way: with a malformed conjur-map entry beside a
  well-formed one or beside groups (`FailsHalfWay`, `SafeListing`); its destinations would stay
  without their Secret.
- Whatever a run gathers, the sanitising pass is safe on what it is given (`RunnableOn`). It is safe
  in every order iff each `*` destination's Secret has an entry in the new data or no key to wipe
  (`RunSpec.SafeInEveryOrderIff`); otherwise the Go code writes into a nil map
  (pkg/secrets/k8s_secrets_storage/provide_conjur_secrets.go:719). `RunSpec.RunnableIfPaired` gives
  a condition on the Secrets themselves.
- `Data` emptied by a removal stays an empty map here, while Kubernetes returns it as nil. The
  self-trigger theorem excludes such writes (`SelfTrigger.KeepsData`).
- Data keys are free of colons where the checksum must be exact. Kubernetes accepts no other keys,
  and a checksum is recorded only after it has accepted the write; for keys it rejects the printed
  text need not be unique (`Checksum.TextCollidesWithColon`).
- The backoff library resets the policy, calls the operation, and after a failure asks for the
  next delay, ending on a stop.
- Only the writer touches its temporary file.
- The informer's queue is first in, first out, and the loop sees a Secret's states in the order
  they occurred; a run takes no time in the timed model.

## What turned out false without a premise

- Keys to remove are not removed by a run that has nothing else to do: the retriever refuses an
  empty request, the run fails and changes nothing (`Runs.RemovalNeedsRequest`), and the loop has
  dropped the keys. The request is empty exactly when no gathered Secret has a destination or a
  group (`Runs.NothingToAskIff`).
- The new data of a key depends on Go's map order exactly when no rendered group and, when
  sanitising, no missing variable decides it, and two fetched variables compete for it with
  different values (`SecretData.OrderIrrelevantIffDecided`).
- Normalising a variable id twice is harmless exactly when it has fewer than four colons
  (`ConjurRetriever.NormaliseTwice`). A full answer reaches every destination exactly when every
  requested id has fewer than two (`Coverage.CoveredIffPlain`): a destination asked for as
  `account:variable:path` comes back under `path`.
- If removing the temporary file fails after a failed write, closing replaces the old content by
  an empty file (`AtomicWriter.FailedRemovalLosesContent`), and writing again before closing
  publishes a hole (`AtomicWriter.FailedRemovalPublishesHole`). Over all fault sequences
  `AtomicWriter.PublishesIff` says exactly when the destination holds what it should.
- The list of keys to remove is wrong once the informer drops an update, with the label off, that
  takes a key out of the conjur-map or puts a listed one back: `Removal.ExactIffHarmless` is the
  exact condition, `Removal.UnlabelledGap` and `Removal.LiveKeyStaysListed` are the two ways it
  fails.
- A group annotation that is empty in one state and missing in the other counts as unchanged, so an
  edit that completes a group with an empty template is dropped
  (`Forwarding.EmptyTemplateGoesUnseen`); `Forwarding.DroppedKeepsDeclarationIff` is the exact
  condition.
- Listed keys are not removed from a Secret whose new data has the recorded checksum
  (`Runs.ListedKeysGo`), so skipping by checksum shows exactly when such a Secret holds one
  (`Refinement.SkippingRefinesAlwaysWriting`).
- What push-to-file fetches need not pass its own check: an alias that is empty or `*` and that no
  path stands in for, or a `*` beside other specs unless exactly one secret was fetched
  (`PushToFile.FetchedPasses`, `PushToFile.StarBesideAnother`).

## Where code and comments disagree

The model follows the code.

- The comment on `populateGroupTemplateSecretData` says base64 values are decoded
  (pkg/secrets/k8s_secrets_storage/provide_conjur_secrets.go:841); the values are passed on as
  they are.
- The informer accepts any label value that parses as true
  (pkg/secrets/k8s_informer/secret_informer.go:133-139); the listing selects only `true`
  (pkg/secrets/clients/k8s/k8s_secrets_client.go:64).
- After a denied request the run reports an update together with its error even if the blanking
  itself failed (pkg/secrets/k8s_secrets_storage/provide_conjur_secrets.go:219-229).

## Model

| member | source | states |
|---|---|---|
| Provider.K8sProvider.constructor | pkg/secrets/k8s_secrets_storage/provide_conjur_secrets.go:149-171 | a new provider has no destinations, groups, recorded Secrets or checksums |
| Provider.K8sProvider.ProvideWithCleanup | pkg/secrets/k8s_secrets_storage/provide_conjur_secrets.go:180-243 | every outcome of a run, faults included: it either touches nothing or commits new data computed from the Secrets it gathered and the values Conjur returned for its own request; success means every stale Secret was written, or, in label mode with nothing to remove, that no listed Secret has an entry or a group; with every required Secret acceptable, every request answered and no failed Kubernetes call it succeeds; afterwards lists, index, originals and groups are all empty |
| Provider.K8sProvider.ProvideLocked | pkg/secrets/k8s_secrets_storage/provide_conjur_secrets.go:199-243 | the run proper, under the lock: its four kinds of outcome, that in named mode a success has fetched and written, and that it fails only with a reason |
| Provider.K8sProvider.Provide | pkg/secrets/k8s_secrets_storage/provide_conjur_secrets.go:174-176 | the plain run is the run with no keys to remove, with the same outcomes and the same reasons to fail |
| Provider.K8sProvider.RemoveDeletedSecrets | pkg/secrets/k8s_secrets_storage/provide_conjur_secrets.go:245-260 | after a denied request every requested variable is written as empty and nothing is removed; it fails iff some stale Secret was not written |
| Runs.WrittenSecret | pkg/secrets/k8s_secrets_storage/provide_conjur_secrets.go:585-644 | corollary of the run contract, per key: a written Secret ends as old data minus the listed removals overlaid by its new data, so a live key wrongly listed survives with its current value; identity, labels and annotations stay |
| Runs.ListedKeysGo | pkg/secrets/k8s_secrets_storage/provide_conjur_secrets.go:588-642 | after a completed run every Secret the run looks at that has listed keys, its conjur-map emptied or deleted included, has lost all of them that its new data does not fill, iff it was stale or had none of them |
| Runs.DeletedMapLosesKey | pkg/secrets/k8s_secrets_storage/provide_conjur_secrets.go:588-642 | beside a Secret that gives the run something to ask for, a labelled Secret whose conjur-map was deleted loses the listed key left behind, in a completed run on the answer of a retriever that refuses empty requests |
| Runs.NothingToAskIff | pkg/secrets/k8s_secrets_storage/provide_conjur_secrets.go:507-552 | the request is empty exactly when no gathered Secret has a destination or a group |
| Runs.RemovalNeedsRequest | pkg/secrets/clients/conjur/conjur_secrets_retriever.go:84-86 | as the retriever refuses an empty request, a run with keys to remove fails and changes nothing if no Secret it reads has a destination or a group |
| Runs.UnwrittenSecret | pkg/secrets/k8s_secrets_storage/provide_conjur_secrets.go:600-642 | corollary: every Secret not written keeps its whole content and its recorded checksum |
| Runs.NewKeyOrigin | pkg/secrets/k8s_secrets_storage/provide_conjur_secrets.go:651-736 | no key receives a value except through a destination naming it, a fetched variable under `*`, a wiped existing key of a `*` Secret, or a rendered group |
| Runs.OwnValue | pkg/secrets/k8s_secrets_storage/provide_conjur_secrets.go:651-736 | every destination gets what was fetched for its own variable in every iteration order: the decoded bytes if its content type is base64 and they decode, the bytes as they are otherwise |
| Runs.StarValue | pkg/secrets/k8s_secrets_storage/provide_conjur_secrets.go:657-693 | under `*` a fetched variable fills the key it normalises to, decoded as the `*` destination asks, if no destination names that key and no other fetched variable falls on it |
| Runs.MissingIsBlanked | pkg/secrets/k8s_secrets_storage/provide_conjur_secrets.go:724-731 | a destination whose variable was not fetched is written as empty when sanitising |
| Runs.NobodysKeyIsWiped | pkg/secrets/k8s_secrets_storage/provide_conjur_secrets.go:704-723 | a key that no destination and no fetched variable is for is written as empty iff sanitising, present in a Secret with a `*` destination, and not the conjur-map; otherwise it is no part of the new data |
| Runs.GroupIsRendered | pkg/secrets/k8s_secrets_storage/provide_conjur_secrets.go:843-907 | a Secret with both annotations of a group gets its template rendered over the specs in order, each alias with the fetched value or an empty one, undecoded |
| Runs.OnlyGroupsAreRendered | pkg/secrets/k8s_secrets_storage/provide_conjur_secrets.go:843-907 | nothing is rendered for a name without both annotations |
| Runs.OneSource | pkg/secrets/k8s_secrets_storage/provide_conjur_secrets.go:453-480 | among gathered destinations a key of a Secret is claimed by one variable only |
| Runs.FetchCoverage | pkg/secrets/k8s_secrets_storage/provide_conjur_secrets.go:507-552 | without `*`, if Conjur answers every requested id then every destination is filled with its own value, nothing is blanked and no group spec defaults to empty |
| Runs.DistinctNamesUncontested | pkg/secrets/k8s_secrets_storage/provide_conjur_secrets.go:657-693 | if only `*` keys ask for `*` and fetched ids normalise distinctly, no key is contested, so map order cannot show |
| Quiescence.Quiescent | pkg/secrets/k8s_secrets_storage/provide_conjur_secrets.go:577-736 | after a completed run with nothing named `conjur-map` and every key decided, a second cleanup-free run on unchanged Conjur values has nothing stale and changes neither cluster nor cache, fetch-all with sanitising and rendered groups included |
| Quiescence.SameSlot | pkg/secrets/k8s_secrets_storage/provide_conjur_secrets.go:651-736 | both runs compute the same new value for every key of every Secret, although the first has changed the Secrets the second reads |
| Quiescence.ContributionKept | pkg/secrets/k8s_secrets_storage/provide_conjur_secrets.go:322-351 | a run changes nothing of what a Secret contributes to the next |
| Refinement.SkippingRefinesAlwaysWriting | pkg/secrets/k8s_secrets_storage/provide_conjur_secrets.go:600-642 | over any trace of runs, with or without removals and failing part-way or not, and edits by others: a run of the checksum-skipping provider is one of a provider that always writes, to the same cluster with the same result, always if it fails or removes nothing, and otherwise iff no Secret it skips holds a key it was to lose |
| Refinement.AlwaysCacheSound | pkg/secrets/k8s_secrets_storage/provide_conjur_secrets.go:600-642 | in every state of such a trace a recorded checksum stands for a map the cluster still agrees with on all its keys |
| Refinement.FreshHolds | pkg/utils/checksum.go:21-28 | a Secret judged unchanged already holds its new data |
| Refinement.RunIsMove | pkg/secrets/k8s_secrets_storage/provide_conjur_secrets.go:577-645 | every provider run, with or without removals, whose names are free of colons is a step of such a trace |
| Refinement.DestinationsAreDelivered | pkg/secrets/k8s_secrets_storage/provide_conjur_secrets.go:585-644 | from a sound cache, after a completed run every gathered destination whose variable was fetched holds in the cluster what was fetched, base64-decoded if its content type says so and it decodes, or the rendered group of its name, whether its Secret was written or skipped |
| Refinement.NewDataIsHeld | pkg/secrets/k8s_secrets_storage/provide_conjur_secrets.go:600-644 | from a sound cache, after a completed run the cluster holds all the new data |
| Delivery.SuccessIsWork | pkg/secrets/k8s_secrets_storage/provide_conjur_secrets.go:180-243 | a successful run that takes up a Secret with an entry or a group gathered it, was answered by Conjur and wrote everything stale |
| Delivery.EntryIsDelivered | pkg/secrets/k8s_secrets_storage/provide_conjur_secrets.go:180-243 | from the cluster to the cluster: after a successful run from a sound cache the key of every conjur-map entry but `*` whose variable (not `*`) Conjur returned holds that value, base64-decoded iff the entry says so and it decodes, unless a group of that name is declared |
| Delivery.GroupIsDelivered | pkg/secrets/k8s_secrets_storage/provide_conjur_secrets.go:180-243 | likewise a declared group whose template renders holds the result under its name |
| RunSpec.SafeInEveryOrderIff | pkg/secrets/k8s_secrets_storage/provide_conjur_secrets.go:704-733 | the sanitising pass dereferences nil in no order of the destinations iff each has its Secret recorded and a Secret with a `*` destination has a fetched entry or nothing to wipe |
| RunSpec.RunnableIfPaired | pkg/secrets/k8s_secrets_storage/provide_conjur_secrets.go:704-733 | that is so for whatever a run gathers if the `*` keys it reads ask for `*` and fetching all is not answered by nothing |
| RunSpec.NamedHasSource | pkg/secrets/k8s_secrets_storage/provide_conjur_secrets.go:322-351 | in named mode something is always gathered to ask for, so the early success does not apply |
| Provider.K8sProvider.AppendDestination | pkg/secrets/k8s_secrets_storage/provide_conjur_secrets.go:487-505 | one index lookup has the effect of a linear-search append, and index and list agree afterwards |
| Destinations.ReplayIsFirstWins | pkg/secrets/k8s_secrets_storage/provide_conjur_secrets.go:487-505 | after any sequence of indexed appends and clears the index agrees with the lists, and each list is the first-wins dedupe of what was appended since the last clear, with no (Secret, key) twice |
| Destinations.FastAppendIsLinear | pkg/secrets/k8s_secrets_storage/provide_conjur_secrets.go:487-505 | the indexed append equals the linear-search one and keeps the index in step |
| Monitor.MonitorHolds | pkg/secrets/k8s_secrets_storage/provide_conjur_secrets.go:180-197 | under every interleaving of any number of goroutines nothing is left whenever the mutex is free, and what a run uses stems from Secrets it fetched itself |
| Monitor.RunIsInterleaving | pkg/secrets/k8s_secrets_storage/provide_conjur_secrets.go:180-197 | what the provider methods build up from nothing by allowed actions (part of their contracts) is what a goroutine holds between locking and unlocking in an interleaving |
| Provider.K8sProvider.RetrieveRequiredK8sSecrets | pkg/secrets/k8s_secrets_storage/provide_conjur_secrets.go:264-313 | named mode records exactly the required Secrets; label mode records only labelled ones, and every admissible one, with or without a conjur-map; destinations, index and groups are exactly what they contribute; it fails only on a failed call or, in named mode, a Secret missing or not accepted beside the groups known by then |
| Provider.K8sProvider.RetrieveRequiredK8sSecret | pkg/secrets/k8s_secrets_storage/provide_conjur_secrets.go:322-351 | exactly when a Secret is accepted, what accepting it adds, and that refusing one in label mode leaves nothing behind unless it failed half-way |
| Provider.K8sProvider.ParseConjurSecretsYAML | pkg/secrets/k8s_secrets_storage/provide_conjur_secrets.go:405-446 | exactly when the conjur-map is an error, and which destinations it adds |
| Delivery.AcceptedIff | pkg/secrets/k8s_secrets_storage/provide_conjur_secrets.go:322-351 | in terms of annotations and parsed entries, which Secrets are accepted: all declared groups have specs, all readable entries name a variable, the conjur-map is absent, empty or readable unless some group is known, and one of entries and groups is there where that is asked |
| Provider.K8sProvider.RefreshUpdateDestinations | pkg/secrets/k8s_secrets_storage/provide_conjur_secrets.go:453-480 | succeeds iff every entry is well formed, and then adds exactly the entries' destinations |
| Gather.EntriesAreDestinations | pkg/secrets/k8s_secrets_storage/provide_conjur_secrets.go:453-480 | a plain id is listed as text under that id, a mapping under its `id`, as base64 iff its content type reads exactly that; there are no other destinations |
| Gather.GoodEntriesIff | pkg/secrets/k8s_secrets_storage/provide_conjur_secrets.go:453-480 | the conjur-map is refused iff some entry is neither an id nor a mapping, or a mapping without an id or with an empty one |
| Gather.MapEntriesAreParsed | pkg/secrets/k8s_secrets_storage/provide_conjur_secrets.go:405-446 | the entries are those parsed from the key `conjur-map` when it is there, not empty and readable, and none otherwise |
| Provider.K8sProvider.ProcessSecretGroupAnnotations | pkg/secrets/k8s_secrets_storage/provide_conjur_secrets.go:356-398 | succeeds iff no group annotation is bad, and then records one group for each |
| Provider.K8sProvider.ListConjurSecretsToFetch | pkg/secrets/k8s_secrets_storage/provide_conjur_secrets.go:507-552 | `*` alone, or a duplicate-free enumeration of exactly all destination ids and group paths; an error iff there is nothing to fetch although something is configured |
| Provider.K8sProvider.CreateSecretData | pkg/secrets/k8s_secrets_storage/provide_conjur_secrets.go:651-736 | the loops over fetched secrets and destinations compute, key by key, the declarative result for the order Go happened to take |
| SecretData.WrittenSettles | pkg/secrets/k8s_secrets_storage/provide_conjur_secrets.go:657-693 | whatever the order, a variable naming a key beats any that only normalises to it, and every filled key has one of these values |
| SecretData.OrderIrrelevantIffDecided | pkg/secrets/k8s_secrets_storage/provide_conjur_secrets.go:585-586 | the new data of a key is the same in every order of map iteration if and only if a rendered group or, when sanitising, a missing variable decides it, or no two fetched variables compete for it with different values |
| SecretData.FillOrderIrrelevantIffUncontested | pkg/secrets/k8s_secrets_storage/provide_conjur_secrets.go:655-699 | what the fetched variables write into a key is the same in every order if and only if no two of them compete for it with different values |
| SecretData.BlankedIsCreated | pkg/secrets/k8s_secrets_storage/provide_conjur_secrets.go:695-733 | the sanitising pass in any order: a missing explicit variable blanks its key, an unfilled existing key of a `*` Secret is wiped, everything else stands |
| Provider.K8sProvider.PopulateGroupTemplateSecretData | pkg/secrets/k8s_secrets_storage/provide_conjur_secrets.go:843-907 | a rendered group overrides the key bearing its name; every other key is untouched |
| Provider.K8sProvider.UpdateRequiredK8sSecretsWithCleanup | pkg/secrets/k8s_secrets_storage/provide_conjur_secrets.go:577-645 | new data, overlay, deletion and cache for all Secrets; on failure only part of the stale ones is written and recorded |
| Provider.K8sProvider.WriteStale | pkg/secrets/k8s_secrets_storage/provide_conjur_secrets.go:600-644 | the loop writes exactly the stale Secrets it has passed and records exactly their checksums |
| K8sClient.K8sCluster.UpdateK8sSecret | pkg/secrets/clients/k8s/k8s_secrets_client.go:35-59 | entries are laid over the original's data; a failed update changes nothing, and it fails only if the call does or the Secret is missing |
| K8sClient.K8sCluster.ListLabeledK8sSecrets | pkg/secrets/clients/k8s/k8s_secrets_client.go:61-71 | the Secrets whose label reads exactly "true", each once, unless the call fails |
| Checksum.TextInjective | pkg/secrets/k8s_secrets_storage/provide_conjur_secrets.go:604-615 | equal pre-hash text means equal data whenever no key contains a colon |
| Checksum.TextCollidesWithColon | pkg/secrets/k8s_secrets_storage/provide_conjur_secrets.go:604-615 | with a colon in a key it does not: a family of distinct data that print alike |
| Checksum.ChangeTestExact | pkg/utils/checksum.go:21-28 | a recorded checksum silences new data iff old and new data are equal |
| Checksum.NormalizeFixpoint | pkg/secrets/k8s_secrets_storage/provide_conjur_secrets.go:909-915 | normal forms are exactly the names over the alphabet; normalising is idempotent and never yields a colon |
| Checksum.AlphabetIs | pkg/secrets/k8s_secrets_storage/provide_conjur_secrets.go:909-915 | the alphabet is letters, digits, `_`, `-` and `.` |
| Checksum.NormalizeK8sSecretName | pkg/secrets/k8s_secrets_storage/provide_conjur_secrets.go:909-915 | the result has the input's length, lies in the alphabet, and differs from it only where a character was outside |
| Ordering.SortedSeqUnique | pkg/secrets/k8s_secrets_storage/provide_conjur_secrets.go:604-615 | a set of names has one sorted enumeration only, so the printed text is a function of the data |
| Ordering.SortStrings | pkg/secrets/pushtofile/retrieve_secrets.go:55 | sorting a duplicate-free list yields that enumeration |
| Informer.SecretInformer.OnUpdate | pkg/secrets/k8s_informer/secret_informer.go:247-289 | an update is queued iff the informer has synced, the new Secret is labelled, and map, label or a relevant annotation changed |
| Informer.SecretInformer.OnAdd | pkg/secrets/k8s_informer/secret_informer.go:142-163 | an addition is queued iff the informer has synced and the Secret is labelled |
| Forwarding.EditsAreForwarded | pkg/secrets/k8s_informer/secret_informer.go:166-237 | of a watched Secret a changed conjur-map, changed group specs, a changed template, and a group annotation that comes or goes with text in it are all forwarded |
| Forwarding.OtherEditsAreDropped | pkg/secrets/k8s_informer/secret_informer.go:166-237 | an edit of a watched Secret that keeps label, conjur-map and every annotation of a group is dropped |
| Forwarding.DroppedKeepsDeclarationIff | pkg/secrets/k8s_informer/secret_informer.go:198-237 | an update dropped between watched states keeps the conjur-map entries, and keeps a group's declaration iff neither state completes it with an empty annotation the other lacks |
| Forwarding.EmptyTemplateGoesUnseen | pkg/secrets/k8s_informer/secret_informer.go:230-237 | an empty template added beside group specs completes the group, and the update is dropped |
| Forwarding.DeclaredAreGathered | pkg/secrets/k8s_secrets_storage/provide_conjur_secrets.go:356-398 | the groups a run gathers from a Secret are exactly those declared by both annotations with specs that parse and are not empty |
| Forwarding.ListedIsWatched | pkg/secrets/k8s_informer/secret_informer.go:133-139 | the listing selects the label value `true`, the informer all values that parse as true, so what is listed is watched |
| Removal.DroppedKeepsKeys | pkg/secrets/k8s_informer/secret_informer.go:166-189 | an update the filter drops leaves the conjur-map's keys as they were |
| Removal.AccumulatesExactly | pkg/secrets/provide_conjur_secrets.go:388-406 | over any run of updates to Secrets that stay labelled the pending list of a Secret is duplicate-free and equals the keys held since the last flush minus the current ones, although the filter drops updates |
| Removal.ExactIffHarmless | pkg/secrets/provide_conjur_secrets.go:388-406 | for every run of updates, labelled or not: the list is right at every moment iff every dropped update loses no key of the map and regains none that is listed |
| Removal.LiveKeyStaysListed | pkg/secrets/k8s_informer/secret_informer.go:273-288 | a key dropped under the label and put back without it is live and still listed |
| Removal.UnlabelledGap | pkg/secrets/k8s_informer/secret_informer.go:273-288 | if the label is taken off and put back with the same map, the list stays empty: it is right iff no key went away in between |
| Removal.ForwardedAdjusts | pkg/secrets/k8s_secrets_storage/provide_conjur_secrets.go:749-836 | what one forwarded update does to the list of its Secret |
| Removal.EverHeldIff | pkg/secrets/provide_conjur_secrets.go:388-406 | the keys accounted for since the last flush are those in the parsed conjur-map at some moment since |
| Removal.KeysAreHeld | pkg/secrets/k8s_secrets_storage/provide_conjur_secrets.go:772-785 | the keys compared are all keys of the parsed conjur-map |
| Provider.K8sProvider.GetRemovedKeys | pkg/secrets/k8s_secrets_storage/provide_conjur_secrets.go:749-770 | exactly the keys of the old parsed conjur-map that are none of the new one, plain entries and mappings alike, each once, under the Secret's name; nothing unless sanitising |
| Provider.K8sProvider.MergeReAddedKeys | pkg/secrets/k8s_secrets_storage/provide_conjur_secrets.go:811-824 | keys back in the map leave the list of their Secret, order kept |
| Provider.K8sProvider.RemoveKeys | pkg/secrets/k8s_secrets_storage/provide_conjur_secrets.go:827-836 | the order-preserving filter of the keys not listed |
| Provider.K8sProvider.MapDifference | pkg/secrets/k8s_secrets_storage/provide_conjur_secrets.go:787-807 | the keys of one map absent from another, each once |
| SelfTrigger.SelfTriggersAtMostOnce | pkg/secrets/k8s_informer/secret_informer.go:273-288 | over any number of provider runs without edits that name nothing `conjur-map` and empty no `Data`, the informer sees one event per Secret if it is labelled, had nil `Data` and was written, and none otherwise |
| SelfTrigger.WriteForwarded | pkg/secrets/k8s_informer/secret_informer.go:166-189 | a provider write passes the filter exactly when the Secret is labelled and its `Data` was nil |
| Runs.NamesKeepMaps | pkg/secrets/clients/k8s/k8s_secrets_client.go:39-47 | if no destination, group, normalised id or removal is named `conjur-map`, a run keeps every conjur-map |
| Debounce.InformerLoop.HandleEvent | pkg/secrets/provide_conjur_secrets.go:388-421 | one event: counting, gathering removals, and either an immediate run past the maximum delay, which succeeds unless it has a reason to fail, or a re-armed timer |
| Debounce.InformerLoop.GatherKeys | pkg/secrets/provide_conjur_secrets.go:396-406 | what an update event does to the pending removals |
| Debounce.InformerLoop.RunProvideSecrets | pkg/secrets/provide_conjur_secrets.go:353-379 | a flush runs the provider on the batch, with the outcome the run contract gives and success unless there is a reason to fail, sets readiness, reports an error iff the run or the status write failed, and resets the loop whatever happened |
| Debounce.InformerLoop.HandleTimer | pkg/secrets/provide_conjur_secrets.go:420-424 | the timer runs the provider on what is pending |
| Debounce.ConservesEvents | pkg/secrets/provide_conjur_secrets.go:346-425 | for any arrival pattern: timer armed iff events pending, removals pending only with events, every event answered by one batch or pending, no empty batch |
| Debounce.FlushedInTime | pkg/secrets/provide_conjur_secrets.go:346-425 | nothing stays pending for 10.2 s after the first event of its batch |
| Debounce.FlushedNotEarly | pkg/secrets/provide_conjur_secrets.go:346-425 | the timer flushes exactly 200 ms after the last event, an event only once 10 s have passed since the first |
| Batches.BatchRemovesExactly | pkg/secrets/provide_conjur_secrets.go:346-425 | end to end, for any arrival pattern and whatever the filter drops: the keys of a flushed batch are exactly those in the parsed conjur-map at some moment since the previous batch and not in the current one |
| Batches.DroppedDestinationIsListed | pkg/secrets/provide_conjur_secrets.go:346-425 | the key of a destination the Secret had at any moment since the previous batch, and whose key its conjur-map has no longer, is in the batch |
| Batches.BatchLeavesNoStaleKey | pkg/secrets/provide_conjur_secrets.go:353-366 | after a completed run on the batch no key held since the previous batch and held no longer is left in a Secret that was stale, unless the new data fills it, and no key still mapped is lost |
| Batches.LoopAccumulates | pkg/secrets/provide_conjur_secrets.go:388-406 | the loop's pending removals are at every moment the accumulation of the updates seen so far |
| AtomicWriter.Writer.Write | pkg/atomicwriter/atomic_writer.go:64-84 | a write opens the temporary file if needed, succeeds iff neither opening nor writing failed, and cleans up when it fails |
| AtomicWriter.Writer.Close | pkg/atomicwriter/atomic_writer.go:86-116 | all outcomes of sync, chmod and rename, and of the cleanup after a failure; on a temporary file it succeeds iff neither its sync nor its rename failed |
| AtomicWriter.Writer.Cleanup | pkg/atomicwriter/atomic_writer.go:121-144 | the file is removed, or emptied and retained, or both attempts failed |
| AtomicWriter.DestinationIsActual | pkg/atomicwriter/atomic_writer.go:64-144 | over every sequence of calls and faults the destination and the retained temporary file are exactly what the outcomes of the calls say, holes included |
| AtomicWriter.PublishesIff | pkg/atomicwriter/atomic_writer.go:64-144 | over every sequence of calls and faults the destination holds what it should iff the last close that renamed a file was faithful: non-empty pending writes in a file nothing had gone into, empty ones in an empty file, and with nothing pending a leftover equal to the destination |
| AtomicWriter.PublishesWholeContent | pkg/atomicwriter/atomic_writer.go:64-144 | while no removal call of the operating system fails the destination keeps its old content until a close succeeds and then holds exactly the concatenation of the writes to that file |
| AtomicWriter.FaultFreeIsPublished | pkg/atomicwriter/atomic_writer.go:64-116 | any writes followed by a close, with no failed call, leave the destination holding exactly their concatenation |
| AtomicWriter.CleanFileIsFaithful | pkg/atomicwriter/atomic_writer.go:64-116 | checkable before closing: if the call before the pending writes left no file behind, a successful close publishes exactly those writes |
| AtomicWriter.TruncatedLeftoverErases | pkg/atomicwriter/atomic_writer.go:86-144 | closing right after a failed call whose file was only truncated empties the destination, which is right iff it was to be empty |
| AtomicWriter.FailedRemovalPublishesHole | pkg/atomicwriter/atomic_writer.go:121-144 | a concrete run in which a failed removal, a truncation and a later write publish a content nobody wrote |
| AtomicWriter.FailedRemovalLosesContent | pkg/atomicwriter/atomic_writer.go:121-144 | a concrete run in which closing after a failed write whose file was only truncated replaces the old content by nothing |
| AtomicWriter.OnlyCloseTouchesDestination | pkg/atomicwriter/atomic_writer.go:64-144 | corollary of the call contracts: whatever fails, only a successful close changes the destination |
| AtomicWriter.CloseLeavesNothing | pkg/atomicwriter/atomic_writer.go:86-144 | corollary: after a close the temporary file is renamed, gone, empty, or as it was because neither removal nor truncation worked |
| Retry.RetryableProvider.Provide | pkg/secrets/provide_conjur_secrets.go:104-143 | how many calls are made, that the last result is returned, that each retried failure is reported once, and that a call starts from a reset count |
| Retry.EndsAfter | pkg/utils/limited_backoff.go:30-41 | with limit n the number of calls is exactly the smaller of the first success and n + 1 |
| Retry.UnlimitedEndsOnSuccess | pkg/utils/limited_backoff.go:30-41 | without a limit the retry ends at the first success and nowhere else |
| Retry.LimitedBackOff.NextBackOff | pkg/utils/limited_backoff.go:34-41 | stop once the limit is used up, else one more retry counted |
| ConjurRetriever.ListResourcePaths | pkg/secrets/clients/conjur/conjur_secrets_retriever.go:106-135 | paging collects exactly the first resources in order up to the end of the page that reaches the cap, and terminates; it fails only if a request does |
| ConjurRetriever.CutoffBounds | pkg/secrets/clients/conjur/conjur_secrets_retriever.go:127-135 | for a positive cap whole pages of 100, at least the cap and fewer than cap + 100, and everything when it fits |
| ConjurRetriever.RetrieveConjurSecrets | pkg/secrets/clients/conjur/conjur_secrets_retriever.go:81-101 | for any response, keys are the paths of the successful answers and each value is that of an answer for the path; if only asked ids are answered, exactly the successful answers with their own values |
| ConjurRetriever.AllFoundIffPlain | pkg/secrets/clients/conjur/conjur_secrets_retriever.go:81-101 | a full answer has a value under every id that was asked for iff all of them have fewer than two colons |
| Coverage.CoveredIffPlain | pkg/secrets/k8s_secrets_storage/provide_conjur_secrets.go:554-570 | without `*` a full answer has every variable the destinations and groups want iff every requested id is plain, and then every destination gets its own value, decoded as it asks |
| Coverage.StrippedIdIsBlanked | pkg/secrets/k8s_secrets_storage/provide_conjur_secrets.go:704-731 | a destination asked for by a full id that nothing else is cut to is blanked when sanitising |
| ConjurRetriever.RetrieveBatchSecretsV2 | pkg/secrets/clients/conjur/conjur_client_wrapper.go:42-95 | ids are stripped for the request; answers are filed under the id they were asked by, or their own if nobody asked; no success is an error |
| ConjurRetriever.FiledIsValues | pkg/secrets/clients/conjur/conjur_client_wrapper.go:67-75 | when only asked ids are answered filing loses nothing: values sit under the ids they were asked by and under no others |
| ConjurRetriever.NormaliseTwice | pkg/secrets/clients/conjur/conjur_secrets_retriever.go:162-169 | an id is its own normal form iff it has fewer than two colons, and normalising twice is harmless iff it has fewer than four |
| ConjurRetriever.FullIdToPath | pkg/secrets/clients/conjur/conjur_client_wrapper.go:128-137 | a full `account:kind:path` id is cut to its path, colons in the path included |
| PushToFile.FetchSecretsForGroups | pkg/secrets/pushtofile/retrieve_secrets.go:19-73 | one request for the right paths; failure iff it fails or the path of some spec other than `*` is not answered; otherwise each group name gets its list; every buffer Conjur handed out is zero on every return |
| PushToFile.GetAllPaths | pkg/secrets/pushtofile/retrieve_secrets.go:128-147 | `*` alone as soon as one spec asks for it, else every path once |
| PushToFile.GetSecretValueByID | pkg/secrets/pushtofile/retrieve_secrets.go:75-118 | missing path, alias fallback, and base64 decoding with the raw value on failure, on the fields of the spec |
| PushToFile.OwnList | pkg/secrets/pushtofile/retrieve_secrets.go:41-70 | a group alone under its name gets exactly its own specs' secrets |
| PushToFile.ExpandedAt | pkg/secrets/pushtofile/retrieve_secrets.go:42-68 | without `*` the list is the specs one for one, in order: the alias, or the path for an empty or `*` alias, and the fetched value, decoded if the spec says base64 |
| PushToFile.StarListed | pkg/secrets/pushtofile/retrieve_secrets.go:45-56 | a lone `*` lists every fetched secret once, in path order, each with its own value |
| PushToFile.ExpandedConcat | pkg/secrets/pushtofile/retrieve_secrets.go:41-70 | the specs of a group are expanded one after the other, `*` among others included |
| PushToFile.ListForConcat | pkg/secrets/pushtofile/retrieve_secrets.go:41-70 | groups of one name share a list in the order of the groups |
| PushToFile.FetchedPasses | pkg/secrets/pushtofile/secret_group.go:219-258 | what the fetch returns passes the check iff the group is a lone `*`, or every spec stands for one secret (no `*`, or one secret fetched) and every alias that is empty or `*` is the path some such spec reads |
| PushToFile.StarBesideAnother | pkg/secrets/pushtofile/secret_group.go:224-251 | with one secret fetched `*` beside another spec passes under an alias of its own and fails under the alias `*` |
| PushToFile.ValidateSecretsAgainstSpecs | pkg/secrets/pushtofile/secret_group.go:219-258 | the loops accept exactly a lone `*` spec or equal counts with every spec's alias present |
| SecretsList.Compact | pkg/secrets/config/config.go:497-505 | the in-place compaction is the order-preserving filter of non-empty items |
| SecretsList.ParseK8sSecretsList | pkg/secrets/config/config.go:484-507 | annotation before setting, split, and filtered |
| SecretsList.CommaListRoundTrip | pkg/secrets/config/config.go:484-507 | comma-joined names without commas and spaces are read back |
| SecretsList.SpacedListRoundTrip | pkg/secrets/config/config.go:484-507 | so are names joined by a comma and a space |
| SecretsList.YamlListRoundTrip | pkg/secrets/config/config.go:484-507 | a list of `- name` lines, names without spaces and newlines, is read back |

## Left out

- Kubernetes and Conjur transport, authentication, HTTP probes, tracing, logging, status files, Helm: input and output around unseen libraries.
- The insides of YAML parsing, `text/template`, base64, SHA-256 and the workqueue: library code, taken as functions or as a queue.
- The fallback from the V2 batch API to V1 and the flag that remembers it (pkg/secrets/clients/conjur/conjur_client_wrapper.go:23-40): one branch over calls that are not modelled.
- The goroutines' tickers and channels and what standalone mode does after an error: the monitor covers any interleaving of runs instead.
- Provider.K8sProvider.ProvideWithCleanup: promises nothing about a listed Secret that fails half-way, and no retry of removals after an error: the loop has dropped its keys by then.
- Debounce.InformerLoop.RunProvideSecrets: the plain run is one attempt here; the source wraps it in the retry that Retry.RetryableProvider.Provide models.
- Runs.OwnValue: a group rendered under the same name overrides the value, which Provider.K8sProvider.PopulateGroupTemplateSecretData states.
- Batches.BatchRemovesExactly: follows the Secrets present at the start; updates to Secrets created later are not part of the statement.
- Debounce.FlushedInTime: runs take no time, so delays caused by a slow run are not captured.
- Retry.RetryableProvider.Provide: waiting between attempts is not modelled, and without a limit a success must exist for the loop to end.
- Push-to-file rendering, file paths, permissions, and the agreement between its recorded checksums and the files: the checksum is recorded before the file is closed, so no such agreement is claimed.
- Wiping of the buffers held by the Kubernetes Secrets provider: its values are immutable sequences here, so update in place and aliasing between the fetched slices and the Secrets' data are not captured; only push-to-file's buffers are arrays.
- Annotation and alias validation, mode resolution and error texts: single-branch checks that would only add easy members.
