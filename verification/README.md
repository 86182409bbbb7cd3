# PowerScale exporter: a verified model

The exporter polls Dell PowerScale (OneFS) clusters, turns what they report into labelled samples, and offers the
samples to Prometheus and to an OTLP collector. A separate tool extracts from the vendor's OpenAPI document the list of
fields each endpoint documents, and a guard holds recorded fixtures against that list. This project models four parts of
the system and proves what each promises.

**Schema extraction and fixture guard** (`SchemaTrails`, `SchemaFlattener`, `SchemaGeneration`, `SchemaGuard`,
`SchemaAsWritten`, `Paths`).
A *trail* is a sequence of single moves through a schema document: follow a reference, enter array items, enter a member
of allOf/anyOf/oneOf, enter a property. A path is documented when some trail that repeats no reference string and stays
within the nesting bound leads to it. `Walk` is proved to terminate on every document, cyclic ones included, and to add
exactly the documented paths. The depth bound plays no part in termination: the measure is the set of reference
strings not yet followed, then the schema node. `seen` holds whole reference strings while resolution uses only the
last segment, and keywords beside a `$ref` are ignored, as in the program. What the guard reports is characterised
exactly, and so is when passing the guard means being documented. `SchemaAsWritten` says on the keywords of the document
what is derived and where a reference leads.

**Configuration** (`EnvReferences`, `EnvExpansion`, `ReferencesAsWritten`, `Configuration`, `ReloadAgreement`,
`ConfigurationAsWritten`). The reading of a string as
references and plain characters is given declaratively and proved unique; a hand-written scanner that stands for the
regular expression is proved to compute it. Startup resolves a configuration twice and reload once. They agree exactly
when no resolved field would expand further; a condition on the written fields, the variables and the password files
ensures it, and two concrete configurations show that it can fail. What startup and reload let run is settled field by
field, and which texts are references character by character.

**Collection, publication and reload** (`Collection`, `ServerProtocol`, `Staleness`, `StaleRun`, `LazyClients`). The
server is a labelled transition system that carries the whole configuration: one program counter a cluster task, one
loop a generation of clients, one reload at a time, with every interleaving allowed. Startup and reload are steps that
load a file through the proved pipelines. Stopping a loop does not wait for the cycle it is in, so an old generation can
overwrite the new one's snapshot. `StaleRun` gives a run from the start of the server in which it does, and `Staleness`
says from exactly which states it cannot.

**Samples, index and export** (`Metrics`, `MetricNames`, `NamedSchema`, `StatKeys`, `Inventory`, `Derivations`,
`SampleSchema`, `SamplesAsWritten`, `ReportAsWritten`, `NamesAsWritten`, `NodeHardware`, `MissingHardware`,
`HardwareLog`, `Snapshots`, `Signatures`, `Exporters`, `Exposition`, `PushExport`, `SampleBlocks`, `FreeTexts`,
`RivalReports`, `LostQuota`, `EndToEnd`, `LiveScrape`). Every sample builder is modelled, one label schema per metric
is proved for all of them together, and that schema is carried through the by-name index to what both exporters emit,
as a function of the exported name. Metrics and label names are constructors whose exported texts are proved distinct.
Which samples a report becomes, with their names, labels and values, is characterised row by row and field by field.
What deduplication loses is settled exactly: by the families whose labels put two texts side by side that a cluster may
report freely. `LiveScrape` joins this part to the protocol: a scrape of the running server, at any moment, is faithful
to the answers of one cycle.

`Strings`, `TextAsWritten`, `Counting`, `Paths`, `Json` and `Wrappers` hold what the parts share. The modules named
`..AsWritten` state their results on the program's own words, constants and fields, independently of the functions that
methods and specifications share.

Where the code changes state in place, so does the model: the field set, the visited references, the configuration,
the swapped configuration reference, the snapshot store, the lazy client and the OTLP exporter are classes; loops over
maps pick the keys in an arbitrary order, so what is proved holds for every iteration order.

Where the program's comments and tests promise more than the code keeps, the model follows the code:

- A literal credential passes through expansion untouched (`ExpandWithoutReference`), but the outcome of an expansion is
  not safe from being expanded again, and startup expands every field twice (`StartupAndReloadAgreeExactly`,
  `NestedReferenceInVariable`, `NestedReferenceInFile`).
- A value the guard passes has only key paths whose dotted texts are documented. A key that itself holds a dot can pass
  without being documented (`DottedKeyIsNotCaught`).
- Only duplicate label tuples are meant to be skipped, and nothing checks label values for NUL. Among the samples built
  for a cluster whose name and id hold no NUL, those of a family with at most one free text (events, drive states,
  sensors, policies, license expiry and all without any) are never skipped for another series. Those of the others
  (quotas, protocols and their stages, hardware info, license status, pools, drives, clients, workloads) can be exactly
  when one of their texts holds a NUL (`LostExactlyWhereUnsafe`); a scrape then loses a quota (`QuotaWithNulIsLost`).
- A reload is meant to leave the new client pool in charge. A loop it cancels can still publish (`StoreCanGoBack`).

## Model

| member | source | states |
|---|---|---|
| SchemaFlattener.FieldSet.constructor | tools/extract-schemas/main.go:139-141 | a new field set is empty, its list and visited map agree |
| SchemaFlattener.FieldSet.Add | tools/extract-schemas/main.go:143-148 | a path is appended once and only if new; list and visited map go on holding the same paths without duplicates |
| SchemaFlattener.RefSet.constructor | tools/extract-schemas/main.go:153 | a walk starts with no reference seen |
| SchemaFlattener.RefSet.Contains | tools/extract-schemas/main.go:165 | whether this whole reference string was followed |
| SchemaFlattener.RefSet.Add | tools/extract-schemas/main.go:169 | one more reference, none lost |
| SchemaFlattener.RefSet.Copy | tools/extract-schemas/main.go:201-207 | a fresh set with the same references, for any iteration order; the caller's is untouched |
| SchemaFlattener.Walk | tools/extract-schemas/main.go:160-199 | adds exactly the paths derived by reference-non-repeating trails within the depth bound, keeps what was there as a prefix, changes nothing but the field set, and terminates on cyclic documents |
| SchemaFlattener.WalkMembers | tools/extract-schemas/main.go:178-186 | the allOf/anyOf/oneOf loop adds exactly what trails through a member derive |
| SchemaFlattener.WalkProperties | tools/extract-schemas/main.go:187-198 | the properties loop adds exactly what trails through a property derive, in any order of the properties |
| SchemaFlattener.NothingDerived | tools/extract-schemas/main.go:161-167 | the early returns lose nothing: below the bound, at a non-object and at a reference already seen no path is derived |
| SchemaFlattener.SchemaFields | tools/extract-schemas/main.go:151-155 | exactly the documented paths, each once |
| SchemaTrails.LastSegment | tools/extract-schemas/main.go:125 | the name a reference resolves by is what follows its last slash |
| SchemaTrails.DerivesExactlyByAStep | tools/extract-schemas/main.go:160-199 | the trail definition agrees with the recursive step-by-step one, in both directions |
| SchemaAsWritten.ReferenceLeadsTo | tools/extract-schemas/main.go:124-130 | for every slash-free name, a reference that is the name or ends in a slash and the name leads to the component of that name if it is an object, and else to nothing |
| SchemaAsWritten.BareReferenceDocuments | tools/extract-schemas/main.go:164-173 | a schema that is only a reference documents exactly what the named component does once the reference counts as seen |
| SchemaAsWritten.DerivesByReference | tools/extract-schemas/main.go:164-173 | the same below any prefix, at any depth and after any references; keywords beside the reference play no part |
| SchemaAsWritten.DerivesByKeywords | tools/extract-schemas/main.go:174-198 | without a reference a path is derived exactly through items, a member of allOf, anyOf or oneOf, or down to depth 8 a property, joined by a dot unless it comes first |
| SchemaAsWritten.ResponseSchemaAsWritten | tools/extract-schemas/main.go:107-122 | the schema of an endpoint stands under paths, the endpoint, get, responses, 200, content, at application/json where that has one and else at any content type |
| SchemaAsWritten.ComponentsAsWritten | tools/extract-schemas/main.go:59-79 | components stand under components, schemas; a missing level reads as empty |
| SchemaAsWritten.BeforeAsWritten | tools/extract-schemas/main.go:70-71 | lists are sorted character by character, a path before its continuations |
| SchemaGeneration.Dig | tools/extract-schemas/main.go:95-105 | the nested map under a key path, or nothing as soon as one step is no map |
| SchemaGeneration.ResponseSchema | tools/extract-schemas/main.go:107-122 | a schema of the application/json entry, else of some content type, and none exactly when there is none |
| SchemaGeneration.Generate | tools/extract-schemas/main.go:59-79 | one strictly increasing list of exactly the documented paths for each endpoint; fails only on an endpoint without a schema |
| SchemaGeneration.GenerationIsReproducible | tools/extract-schemas/main.go:59-79 | two runs with whatever map orders write the same lists when fixtures are distinct and no endpoint leaves a choice of schema |
| SchemaGeneration.JsonSchemaIsUnambiguous | tools/extract-schemas/main.go:112-121 | an application/json schema leaves no choice |
| SchemaGuard.UndocumentedFields | internal/powerscale/schema_guard_test.go:43-64 | reports one text for each way to a topmost undocumented key, through array elements too, and none twice, in any key order |
| SchemaGuard.FlaggedExactlyByARoute | internal/powerscale/schema_guard_test.go:43-64 | so the texts reported are exactly the topmost undocumented key paths, arrays transparent |
| SchemaGuard.GuardPassesExactlyWhenAllDocumented | internal/powerscale/schema_guard_test.go:15-64 | nothing is reported exactly when every key path's text is documented, although the guard does not look below an undocumented parent |
| SchemaGuard.DocumentedValueIsNeverFlagged | internal/powerscale/schema_guard_test.go:15-64 | a value whose key paths all have a bounded, reference-non-repeating derivation is never flagged, whatever its names |
| SchemaGuard.GuardAgreesWithSchema | internal/powerscale/schema_guard_test.go:15-64 | for a schema of plain names, a value has only documented name sequences exactly when the guard passes it and none of its keys is empty or dotted |
| SchemaGuard.DottedKeyIsNotCaught | internal/powerscale/schema_guard_test.go:48-55 | a value whose dotted key passes undocumented, so the condition on keys is needed |
| Paths.PathTextIsInjective | tools/extract-schemas/main.go:190-193 | dotted texts tell plain name sequences apart |
| Paths.Sorted | tools/extract-schemas/main.go:71 | a strictly increasing list of the same elements |
| Paths.IncreasingListIsUnique | tools/extract-schemas/main.go:70-71 | two strictly increasing lists of the same elements are the same list |
| EnvReferences.MatchIsExact | internal/utils/env.go:12 | the matcher accepts at a position exactly the reference that starts there, so there is at most one |
| EnvReferences.TokensAreATokenisation | internal/utils/env.go:26-37 | the reading prints back to the input and no reference starts at a plain character |
| EnvReferences.TokenisationIsUnique | internal/utils/env.go:26-37 | every string has exactly one leftmost, non-overlapping reading |
| EnvReferences.ReferenceOccursExactlyInTokens | internal/utils/env.go:56-58 | the pattern matches somewhere in a string exactly when its reading holds a reference |
| ReferencesAsWritten.ReferenceAsWritten | internal/utils/env.go:12 | with the character ranges written out: a reference is a dollar sign and, in braces, a name, or a name, :- and a default without closing brace |
| EnvExpansion.ScanReference | internal/utils/env.go:12 | the scanner finds the reference at a position, and its end |
| EnvExpansion.Replace | internal/utils/env.go:26-37 | a set, non-empty variable wins, then the default; an unset one without default is noted as missing, an empty one is not |
| EnvExpansion.MatchesSomewhere | internal/utils/env.go:64 | whether a reference starts anywhere in the string |
| EnvExpansion.ReplaceNext | internal/utils/env.go:26-37 | one token is read, replaced by its value or noted as missing, and passed over whole |
| EnvExpansion.ExpandEnv | internal/utils/env.go:24-45 | the single pass computes the meaning of the unique reading; substituted text is not rescanned |
| EnvExpansion.ExpandFollowsTheReading | internal/utils/env.go:24-45 | for any reading that meets the declarative grammar: the substituted text, or the missing names in order |
| EnvExpansion.ExpandFailsExactlyOnUnset | internal/utils/env.go:28-43 | fails exactly when some reference without default names an unset variable |
| EnvExpansion.ExpandWithoutReference | internal/utils/env.go:14-24 | a string without references expands to itself |
| EnvExpansion.ExpandTwiceWithoutDollars | internal/utils/env.go:24-45 | expansion is idempotent where literals, values and defaults hold no dollar sign |
| EnvExpansion.ExpandLoneReference | internal/utils/env.go:24-45 | a reference to a set, non-empty variable expands to its value, even when that is itself a reference |
| ReferencesAsWritten.ExpandName | internal/utils/env.go:26-44 | a name in braces becomes the variable's value, also an empty one, and is an error that names the variable exactly when it is unset |
| ReferencesAsWritten.ExpandNameWithDefault | internal/utils/env.go:26-44 | with a default, the value where it is set and not empty, and else the default |
| ReferencesAsWritten.BracesStayLiteral | internal/utils/env.go:12-45 | any other text in braces stays as it is |
| ReferencesAsWritten.NoNameStart | internal/utils/env.go:12-45 | so one that is empty or starts with no letter or underscore, a digit included |
| ReferencesAsWritten.OtherCharacter | internal/utils/env.go:12-45 | so one that holds a character no name may hold, before any :- |
| EnvExpansion.ExpandEnvSecret | internal/utils/env.go:55-69 | the expansion, or an error for an unset variable or a reference that came out empty |
| EnvExpansion.SecretIsEmptyExactlyWhenWrittenEmpty | internal/utils/env.go:47-69 | succeeds with the empty text exactly when the field was written empty |
| Configuration.ResolveFlag | internal/models/config.go:60-79 | the flag read from the expanded raw text; an empty raw text keeps the value, an unparsable one fails |
| Configuration.ResolveOne | internal/utils/env.go:75-106 | one cluster is resolved in place field by field up to the first failure, no other cluster changes |
| Configuration.ResolveSecrets | internal/utils/env.go:73-109 | all clusters up to the first failing one are resolved, its name and field reported, later ones untouched |
| Configuration.SetDefaults | internal/models/config.go:128-152 | host 0.0.0.0, port 9444, URI /metrics, interval 10s, timeout 8s and cluster port 8080 where left empty or zero, the metrics interval the collection interval in force; every written setting and all else as before |
| Configuration.ValidateClusters | internal/models/config.go:197-224 | the first problem of the first faulty cluster |
| Configuration.ValidationAcceptsExactly | internal/models/config.go:197-224 | accepted exactly when there are clusters, all complete with ports in range, and no name occurs twice |
| ConfigurationAsWritten.ProblemAsWritten | internal/models/config.go:197-224 | which problem is reported, and of which cluster: the first check, in the order of the source, that the first faulty cluster fails |
| Configuration.Validate | internal/models/config.go:156-172 | defaults are set whatever the outcome; server, clusters and telemetry are checked in this order |
| Configuration.LoadConfig | internal/models/safe_config.go:42-64 | decode, resolve, default, validate, on a new object |
| Configuration.StartConfig | main.go:421-430 | startup loads a configuration and resolves it once more |
| Configuration.SafeConfig.constructor | internal/models/safe_config.go:27-29 | holds the given configuration |
| Configuration.SafeConfig.ReloadConfig | internal/models/safe_config.go:42-78 | an invalid file changes nothing; a valid one is swapped in whole, the old object unwritten, with the comparison of old and new clusters as outcome |
| ReloadAgreement.ResolveTwice | internal/utils/env.go:73-109 | a second resolution keeps a cluster exactly when its expanded fields expand to themselves; the default port, password files and the flag's raw text do no harm |
| ReloadAgreement.StartupAndReloadAgreeExactly | internal/models/safe_config.go:53-70 | after a start, reloading the unchanged file succeeds with the same settings, and the same clusters exactly when every resolved field expands to itself |
| ReloadAgreement.NoReferenceNoRebuild | internal/models/safe_config.go:53-70 | when no resolved field holds a reference, reloading an unchanged file reports no changed clusters |
| ReloadAgreement.NoDollarNoRebuild | internal/utils/env.go:73-109 | the same where no dollar sign is left by the written fields, the variables they name, the defaults and the password files |
| ReloadAgreement.RunningConfigIsAcceptable | main.go:421-430 | the configuration that runs is complete with distinct names, although startup resolves once more after validation |
| ReloadAgreement.NestedReferenceRebuilds | main.go:421-430 | where a password resolves to a text that expands further, startup runs with what it leads to and the first reload with the text |
| ReloadAgreement.NestedReferenceInVariable | main.go:421-430 | with a password taken from a variable that names another one, startup and an immediate reload both succeed with different clusters |
| ReloadAgreement.NestedReferenceInFile | internal/utils/env.go:88-94 | and so with a password file that holds a reference |
| ReloadAgreement.WitnessIsAcceptable | internal/models/config.go:197-224 | such clusters pass validation |
| ConfigurationAsWritten.ClusterAsWritten | internal/utils/env.go:73-109 | resolving a cluster succeeds exactly when its flag, endpoint, username and password can be read, gives their values, and changes nothing else; a flag reads as one of the texts of true or false |
| ConfigurationAsWritten.FailedFieldAsWritten | internal/utils/env.go:75-106 | the field reported is the first that cannot be read |
| ConfigurationAsWritten.ReloadAsWritten | internal/models/safe_config.go:42-64 | a reload loads a configuration exactly when it is the file's with every cluster resolved, every empty setting and port filled in, and the outcome passes the checks |
| ConfigurationAsWritten.StartupAsWritten | main.go:421-430 | startup runs exactly what a reload would load, with every cluster resolved once more |
| ConfigurationAsWritten.RunningDefaults | internal/models/config.go:128-152 | in what runs after startup or a reload, a metrics interval left empty is the collection interval in force, every other setting is the written one or its default, and so is every port |
| Collection.Entry | internal/powerscale/collector.go:80-106 | an entry carries its cluster's name, time and API version (0 if not answered), is up exactly when both polls answered, without scrape error if up and without samples and with the first failed poll's error if down |
| Collection.CollectCluster | internal/powerscale/collector.go:80-106 | the entry of a cluster polled on its own |
| Collection.StepKeepsInv | internal/powerscale/collector.go:69-75 | a task step keeps every task where its own answers alone have brought it and the group uncancelled |
| Collection.EveryInterleavingCollectsAlike | internal/powerscale/collector.go:63-78 | every interleaving of the tasks gives the entries of polling the clusters one after another |
| Collection.EntriesAreIndependent | internal/powerscale/collector.go:63-106 | an entry depends on its own client's answers only, whatever the other clusters answer and whenever |
| Collection.EveryCycleEnds | internal/powerscale/collector.go:63-78 | a cycle takes at most four steps a cluster and, unfinished, can always go on |
| ServerProtocol.BuildClients | main.go:208-226 | one client a cluster, in the configured order, reachable or not |
| ServerProtocol.NextKeepsInv | main.go:159-299 | every step of startup, reload, loops and tasks keeps the invariant of the server, if what is loaded passed validation |
| ServerProtocol.RunKeepsInv | main.go:159-299 | the invariant holds in every reachable state |
| ServerProtocol.OneLoopWhenIdle | main.go:159-299 | with no reload under way exactly one loop is not cancelled, the stored cancel function is its own, and its clients are the running configuration's clusters in order |
| ServerProtocol.TruthfulIsSound | main.go:421-430 | what the startup and reload pipelines load passed validation |
| ServerProtocol.QuietReloadsKeepTheLoops | main.go:252-264 | over any stretch of a run whose reloads fail or find the clusters as they are, the set of loops, which are cancelled, the stored cancel function, the clients and the clusters stay; if all fail, so does the whole configuration |
| ServerProtocol.RunningConfigIsLastLoaded | internal/models/safe_config.go:42-78 | the running configuration is the last one loaded from a valid file, whether or not its clusters differ |
| ServerProtocol.GenerationsStayDistinct | internal/models/config.go:201-209 | the cluster names of every generation are distinct |
| ServerProtocol.RunKeepsHistory | internal/powerscale/collector.go:43-78 | in every reachable state each cycle under way was begun by an earlier step of its generation, and each snapshot on its way or in the store is of one such cycle |
| ServerProtocol.EveryVisibleSnapshotIsWhole | internal/powerscale/collector.go:43-106 | a visible snapshot is the whole result of the answers of one cycle, begun at an earlier step of the run for the generation that published: its keys are exactly that generation's names, down clusters included, a down entry has no samples, an up one no error |
| ServerProtocol.AlwaysPublishedAfterStart | main.go:159-185 | once startup is over the store always holds a published snapshot |
| ServerProtocol.CyclesNeverOverlap | internal/powerscale/collector.go:50-61 | no generation has two cycles under way at once |
| Staleness.QuietRunStaysSettled | main.go:281-299 | once the newest loop published last and all older ones have exited, this stays so until the clusters change |
| Staleness.LiveLoopCanPublish | internal/powerscale/collector.go:50-61 | any loop that has not exited can still publish, cancelled or not |
| Staleness.StoreStaysCurrentExactly | main.go:281-299 | in every state reachable while the clusters stay, the last publisher is the newest loop, exactly when it is now and every older loop has exited |
| Staleness.StoreShowsRunningClustersExactly | main.go:281-299 | in all those states a reader of the store finds exactly the running clusters, if and only if that is so now and every loop that has not exited, cancelled or not, polls clusters of the same names |
| StaleRun.ReloadCanLeaveALoopBehind | main.go:281-299 | from any start and any reload of a valid file with other clusters there is a run that ends idle with the old loop cancelled but waiting, and from there one in which it publishes and a reader finds the old clusters |
| StaleRun.StoreCanGoBack | main.go:281-299 | a concrete run: a server started with cluster a and reloaded to cluster b shows cluster a again |
| LazyClients.LazyClient.constructor | internal/powerscale/lazy.go:23-25 | no inner client and no attempt yet |
| LazyClients.LazyClient.Get | internal/powerscale/lazy.go:27-39 | creates only while there is no inner client, keeps the first success, and returns the error otherwise |
| LazyClients.RunKeepsInv | internal/powerscale/lazy.go:27-69 | in every run of concurrent calls, an inner client held by a call is the one stored |
| LazyClients.OneSuccessAtMost | internal/powerscale/lazy.go:27-39 | attempts are failures, plus one exactly if there is an inner client |
| LazyClients.AfterTheFirstSuccess | internal/powerscale/lazy.go:27-69 | from the first success on the inner client stays, no creation is attempted and none fails, and every call that has not failed before answers as that client does |
| Metrics.BaseLabels | internal/powerscale/metrics.go:18-23 | the labels of a cluster-wide metric, cluster and cluster id first, each name with its value in order; NUL-free where its arguments are |
| Metrics.NodeLabels | internal/powerscale/metrics.go:26-30 | the label schema of a per-node metric, each name with its value in order; NUL-free where its arguments are |
| Metrics.HardwareInfoLabels | internal/powerscale/metrics.go:33-42 | the label schema of the hardware info metric, each name with its value in order; NUL-free where its arguments are |
| Metrics.QuotaLabels | internal/powerscale/metrics.go:45-51 | the label schema of the quota metrics, each name with its value in order; NUL-free where its arguments are |
| Metrics.ProtocolLabels | internal/powerscale/metrics.go:54-60 | the label schema of the protocol metrics without stage, each name with its value in order; NUL-free where its arguments are |
| Metrics.DriveLabels | internal/powerscale/metrics.go:63-68 | the label schema of the drive count metric, each name with its value in order; NUL-free where its arguments are |
| Metrics.PolicyLabels | internal/powerscale/metrics.go:71-73 | the label schema of the sync policy metrics, each name with its value in order; NUL-free where its arguments are |
| Metrics.SeverityLabels | internal/powerscale/metrics.go:76-78 | the label schema of the event count metric, each name with its value in order; NUL-free where its arguments are |
| Metrics.LicenseLabels | internal/powerscale/metrics.go:81-83 | the label schema of the license expiry metric, each name with its value in order; NUL-free where its arguments are |
| Metrics.LicenseActiveLabels | internal/powerscale/metrics.go:87-92 | the label schema of the license status metric, each name with its value in order; NUL-free where its arguments are |
| Metrics.StoragePoolLabels | internal/powerscale/metrics.go:95-101 | the label schema of the storage pool metrics, each name with its value in order; NUL-free where its arguments are |
| Metrics.WorkloadLabels | internal/powerscale/metrics.go:105-114 | the label schema of the workload metrics, each name with its value in order; NUL-free where its arguments are |
| Metrics.DriveStatLabels | internal/powerscale/metrics.go:117-123 | the label schema of the drive performance metrics, each name with its value in order; NUL-free where its arguments are |
| Metrics.ClientLabels | internal/powerscale/metrics.go:126-132 | the label schema of the client metrics, each name with its value in order; NUL-free where its arguments are |
| Metrics.SensorLabels | internal/powerscale/metrics.go:135-140 | the label schema of the sensor metrics, each name with its value in order; NUL-free where its arguments are |
| Metrics.LabelNamesAreDistinct | internal/powerscale/metrics.go:17-140 | no metric repeats a label name, so no descriptor is refused for that |
| MetricNames.LabelTextIsInjective | internal/powerscale/metrics.go:17-140 | the exported label names are distinct |
| MetricNames.TextIsInjective | internal/powerscale/derivations.go:11-367 | the exported metric names, of the builders and of the statistics table, are distinct |
| NamedSchema.SchemaOfName | internal/powerscale/prometheus.go:71-72 | an exported metric name fixes the exported label names, which are distinct and start with cluster and cluster_id |
| Metrics.Scale | internal/powerscale/statkeys.go:36-41 | a divisor divides exactly, a zero one leaves the value |
| StatKeys.LastRowWins | internal/powerscale/statkeys.go:48-55 | the last row of a key is the one indexed |
| StatKeys.IndexKeys | internal/powerscale/statkeys.go:48-55 | indexes the last row of every key and nothing else |
| StatKeys.QueryKeys | internal/powerscale/statkeys.go:58-69 | every key of a row once, in the order of the first rows they appear in |
| StatKeys.EmbeddedKeysAreWellScoped | internal/powerscale/statisticsKeys.json:1-24 | every embedded statistic's scope fits its metric's label schema |
| StatKeys.TableIsWellScoped | internal/powerscale/statkeys.go:48-55 | so does every entry of a table indexed from such specs |
| StatKeys.EmbeddedTableIsWellScoped | internal/powerscale/statkeys.go:43-55 | so the table the program runs with fits the label schema throughout |
| Derivations.AppendRows | internal/powerscale/derivations.go:85-108 | the loop of a builder appends the samples of each row in order |
| Derivations.AppendByKey | internal/powerscale/derivations.go:261-271 | the loop over a map appends the samples of every key once, in some order |
| Derivations.NodeHealthSamples | internal/powerscale/derivations.go:112-130 | health, read-only and drive samples of every node, each drive state once in whatever map order |
| Derivations.BuildSamples | internal/powerscale/derivations.go:11-40 | nothing without an inventory; else the samples of all builders in order, for some order of the maps |
| ReportAsWritten.SamplesAreTheReport | internal/powerscale/derivations.go:11-367 | for every inventory, statistics, table and map order, a sample is built exactly if a single value or a row of the report says so, with these labels and this value |
| ReportAsWritten.ExportsAreTheReport | internal/powerscale/derivations.go:11-367 | the same by exported metric name, label names and values, and nothing is exported under any other name |
| SamplesAsWritten.StatisticAsWritten | internal/powerscale/derivations.go:49-79 | a reading of a known key under its metric, divided by the key's divisor if it has one; node-scoped ones carry the logical number of the last node with the device id and are dropped without one |
| SamplesAsWritten.QuotaAsWritten | internal/powerscale/derivations.go:85-108 | usage and application usage of a quota always, the five others exactly where positive |
| SamplesAsWritten.SinglesAsWritten | internal/powerscale/derivations.go:185-343 | counts, snapshot usage and deduplication savings, each once, zero included |
| SamplesAsWritten.ProtocolAsWritten | internal/powerscale/derivations.go:345-367 | rate, latency in seconds, and the latency in seconds of each of the seven known stages the row reports |
| SamplesAsWritten.HealthAsWritten | internal/powerscale/derivations.go:112-130 | read-only and smartfail as 1 or 0, and the count of each drive state, in any map order |
| SamplesAsWritten.HardwareAsWritten | internal/powerscale/derivations.go:135-182 | the identity with value 1 unless all of it is empty, power supplies and failures where there are supplies, each temperature and fan |
| SamplesAsWritten.PolicyAsWritten | internal/powerscale/derivations.go:194-207 | enabled, and last run failed for the states failed, needs_attention and unknown, as 1 or 0 |
| SamplesAsWritten.EventAsWritten | internal/powerscale/derivations.go:261-271 | the count of each severity |
| SamplesAsWritten.LicenseAsWritten | internal/powerscale/derivations.go:213-258 | expiry, and 1 exactly where the trimmed status is licensed, activated or evaluation in whatever case, character by character |
| SamplesAsWritten.PoolAsWritten | internal/powerscale/derivations.go:229-246 | the nine capacities of a pool, each under its own name |
| SamplesAsWritten.DriveAsWritten | internal/powerscale/derivations.go:284-297 | operations and busy share of a drive |
| SamplesAsWritten.ClientAsWritten | internal/powerscale/derivations.go:300-314 | operations, bytes in and bytes out of a client row |
| SamplesAsWritten.WorkloadAsWritten | internal/powerscale/derivations.go:319-334 | the rates of a workload, processor time in seconds |
| TextAsWritten.ItoaAsWritten | internal/powerscale/derivations.go:116-117 | node numbers are written in decimal, without leading zeros, with a minus sign where negative |
| SamplesAsWritten.UsableIsActive | internal/powerscale/derivations.go:251-258 | which license statuses are usable, character by character |
| TextAsWritten.LowerAsWritten | internal/powerscale/derivations.go:252 | a text is a small word in lower case exactly when each character is that letter in some case |
| TextAsWritten.FoldAsWritten | internal/models/onefs.go:117 | and so up to case folding |
| TextAsWritten.HasInfixAsWritten | internal/models/onefs.go:118 | a word occurs in the lower case of a text exactly when it stands somewhere in it in some case |
| TextAsWritten.TrimSpaceAsWritten | internal/powerscale/derivations.go:252 | trimming takes the white space, by code point, off both ends and nothing else |
| NamesAsWritten.LabelNamesAsWritten | internal/powerscale/metrics.go:17-140 | the exported label names |
| NamesAsWritten.ClusterCountNames | internal/powerscale/derivations.go:185-343 | the exported names of counts, snapshot usage and deduplication |
| NamesAsWritten.ClusterCpuNames | internal/powerscale/statisticsKeys.json:2-4 | of the processor load of the cluster |
| NamesAsWritten.ClusterTrafficNames | internal/powerscale/statisticsKeys.json:9-11 | of its disk and network load |
| NamesAsWritten.ClusterCapacityNames | internal/powerscale/statisticsKeys.json:5-8 | of the cluster's capacities |
| NamesAsWritten.NodeStateNames | internal/powerscale/derivations.go:118-146 | of a node's states and power supplies |
| NamesAsWritten.SensorNames | internal/powerscale/derivations.go:151-163 | of temperatures and fans |
| NamesAsWritten.NodeLoadNames | internal/powerscale/statisticsKeys.json:12-17 | of a node's load and usage |
| NamesAsWritten.NodeCacheNames | internal/powerscale/statisticsKeys.json:18-23 | of a node's caches |
| NamesAsWritten.QuotaNames | internal/powerscale/derivations.go:89-105 | of the quota metrics |
| NamesAsWritten.PoolNames | internal/powerscale/derivations.go:234-236 | of a pool's capacities |
| NamesAsWritten.PoolSsdNames | internal/powerscale/derivations.go:237-239 | of its SSD capacities |
| NamesAsWritten.PoolHddNames | internal/powerscale/derivations.go:240-242 | of its HDD capacities |
| NamesAsWritten.ProtocolNames | internal/powerscale/derivations.go:353-354 | of rate and latency of a protocol |
| NamesAsWritten.PolicyNames | internal/powerscale/derivations.go:202-203 | of the replication metrics |
| NamesAsWritten.DriveNames | internal/powerscale/derivations.go:292-293 | of the drive metrics |
| NamesAsWritten.ClientNames | internal/powerscale/derivations.go:308-310 | of the client metrics |
| NamesAsWritten.WorkloadNames | internal/powerscale/derivations.go:327-330 | of the workload metrics |
| NamesAsWritten.SingleNames | internal/powerscale/derivations.go:123-359 | of hardware info, drive counts, stage latency, events and licenses |
| NamesAsWritten.RowIsHeld | internal/powerscale/statkeys.go:48-55 | each row of the embedded table is the one found under its key |
| NamesAsWritten.ClusterCpuKeys | internal/powerscale/statisticsKeys.json:2-4 | key, metric, scope and divisor of the rows in these lines |
| NamesAsWritten.ClusterSizeKeys | internal/powerscale/statisticsKeys.json:5-6 | the same |
| NamesAsWritten.ClusterSpaceKeys | internal/powerscale/statisticsKeys.json:7-8 | the same |
| NamesAsWritten.ClusterTrafficKeys | internal/powerscale/statisticsKeys.json:9-11 | the same |
| NamesAsWritten.NodeCpuKeys | internal/powerscale/statisticsKeys.json:12-14 | the same |
| NamesAsWritten.NodeUsageKeys | internal/powerscale/statisticsKeys.json:15-17 | the same |
| NamesAsWritten.NodeCacheKeys | internal/powerscale/statisticsKeys.json:18-23 | the same |
| SampleSchema.OneSchemaPerMetric | internal/powerscale/derivations.go:11-367 | every sample of every builder, for any inventory, statistics and map order, carries exactly the label names of its metric, starting with the cluster and its id, under a statistics table whose scopes fit |
| SampleSchema.AllSamplesKeep | internal/powerscale/derivations.go:11-367 | the schema, NUL-freedom of label values where the reported texts are NUL-free, and drive counts from the node health builder only, for all builders together |
| SampleSchema.NulFreeReportsGiveNulFreeLabels | internal/powerscale/derivations.go:11-367 | a cluster whose name and reported texts hold no NUL gives no label value with one |
| Inventory.CountDrives | internal/models/onefs.go:316-329 | for every state the number of listed drives in it that are not marked absent, an empty state counted as UNKNOWN, and no other state |
| NodeHardware.PresentDrivesAsWritten | internal/models/onefs.go:316-329 | the present drives are those not marked absent |
| NodeHardware.DrivesAreConserved | internal/powerscale/derivations.go:112-130 | the drive samples of a node have distinct states and their values add up to the listed drives not marked absent |
| NodeHardware.ClusterDrivesAreConserved | internal/powerscale/derivations.go:11-40 | among all samples of a cluster, whatever else it reports and in whatever map order, the drive counts add up to the listed drives of its nodes that are not marked absent |
| NodeHardware.ReportsExactlyWhenEmitting | internal/models/onefs.go:121-126 | a node reports sensors exactly when the hardware builder emits a power-supply, temperature or fan sample for it |
| MissingHardware.ExplainMissingHardware | internal/powerscale/collector.go:134-161 | nothing exactly when every node has a reading; virtual exactly when some node has none and each such node's series is virtual_series or its generation holds vmware, in whatever case, character by character, with their number and the first one's identity; else their logical numbers in order |
| MissingHardware.VirtualAsWritten | internal/models/onefs.go:116-119 | which nodes are virtual, character by character |
| HardwareLog.Explainer.constructor | internal/powerscale/collector.go:17-29 | nothing explained yet |
| HardwareLog.Explainer.ExplainOnce | internal/powerscale/collector.go:115-127 | logs the explanation unless there is none or this very message was logged for the cluster |
| HardwareLog.EachMessageOnce | internal/powerscale/collector.go:108-127 | over any run of reports each message is logged once for its cluster and none is left out, so a change of hardware is explained anew |
| HardwareLog.CallFollowsTheLog | internal/powerscale/collector.go:115-127 | each call adds to the log what the reports up to it say should be added |
| MissingHardware.ExplanationTellsTheTruth | internal/powerscale/collector.go:129-161 | the silent nodes are exactly those for which no reading is emitted |
| Snapshots.BuildSnapshot | internal/powerscale/snapshot.go:27-46 | for each name the order-preserving filter of the concatenated samples, the occurring names without duplicates, and the entries by cluster |
| Snapshots.IndexSamples | internal/powerscale/snapshot.go:37-39 | appending samples one by one keeps the index the filter by name of all samples so far |
| Snapshots.NamesOf | internal/powerscale/snapshot.go:41-44 | the names of the index, each once, in some order |
| Snapshots.IndexLosesNothing | internal/powerscale/snapshot.go:27-52 | the index lengths over the names add up to the number of samples |
| Snapshots.PerClusterHas | internal/powerscale/snapshot.go:33-36 | the keys are exactly the names of the entries present |
| Snapshots.PerClusterIsAnEntry | internal/powerscale/snapshot.go:33-36 | what is found under a name is the last entry of that name |
| Snapshots.PerClusterFinds | internal/powerscale/snapshot.go:33-37 | with distinct cluster names every entry is found under its own name |
| Snapshots.SnapshotStore.constructor | internal/powerscale/snapshot.go:62-64 | the store starts with an empty snapshot |
| Snapshots.SnapshotStore.Store | internal/powerscale/snapshot.go:74-78 | the given snapshot replaces the current one whole |
| Snapshots.SnapshotStore.Load | internal/powerscale/snapshot.go:67-71 | the current snapshot |
| Signatures.JoinTellsExactly | internal/powerscale/prometheus.go:77 | joining tells a tuple of label values from every other of its length exactly when it has one part or holds no NUL |
| Signatures.FreeLastTellsTuples | internal/powerscale/prometheus.go:77 | tuples whose last part alone may hold NUL are told apart |
| Exporters.CollectMetric | internal/powerscale/prometheus.go:67-90 | the first sample of each signature, under the label names of the first sample, those with another number of values skipped |
| Exporters.CollectHealth | internal/powerscale/prometheus.go:51-64 | the health series of exactly the clusters in the snapshot, each once, in any order of the clusters |
| Exporters.Collect | internal/powerscale/prometheus.go:48-91 | the offers of all names of one snapshot, and the health of exactly the clusters in it, each series once |
| Exposition.HealthTellsTheEntries | internal/powerscale/prometheus.go:51-64 | a health series is offered exactly if it is the state of an entry: up or not for every cluster, the last scrape where up, the version where known |
| Exposition.HealthNamesAsWritten | internal/powerscale/prometheus.go:24-38 | the exported names of the three health series |
| Exposition.HealthIsNoMetric | internal/powerscale/prometheus.go:24-38 | the three health names are none of the sample names |
| Exposition.NothingIsOfferedTwice | internal/powerscale/prometheus.go:48-91 | no exported name and label values occur twice in a scrape, health and samples together, whatever the samples hold |
| Exporters.SeenExactlyWhenRepeated | internal/powerscale/prometheus.go:74-81 | a NUL-free sample is skipped exactly when an earlier one has the same metric and label values, whatever texts the others hold |
| Exporters.CollectOffersExactlyTheFirsts | internal/powerscale/prometheus.go:66-91 | with NUL-free values Prometheus is offered exactly the first sample of every series, under its metric's label names |
| Exporters.FirstsCoverAndDiffer | internal/powerscale/prometheus.go:74-81 | every series is kept once |
| Exporters.EveryKeptSampleIsOffered | internal/powerscale/prometheus.go:66-90 | the descriptor made from the first sample is right for all: every sample kept is offered, in order, under its metric's label names, and none is refused, whatever texts they hold |
| Exporters.KeptCoversSignatures | internal/powerscale/prometheus.go:74-81 | every signature is kept by a sample that has it, and only samples are |
| Exporters.LostAfter | internal/powerscale/prometheus.go:74-81 | a series that comes after another one of its signature is lost |
| FreeTexts.OneFreeTextTells | internal/powerscale/prometheus.go:74-81 | built samples of one signature whose family has at most one free text are of one series, whatever that text holds, if cluster name and id hold no NUL |
| RivalReports.LostExactlyWhereUnsafe | internal/powerscale/prometheus.go:74-81 | a built sample of a cluster with NUL-free name and id can occur in a report and be lost exactly when its family has two or more free texts and one of them holds a NUL; the report has two rows of one builder |
| LostQuota.FirstQuotaHides | internal/powerscale/prometheus.go:74-81 | no usage sample of the first quota's signature but of another series is offered, whatever else the clusters report and in any map order |
| LostQuota.QuotaWithNulIsLost | internal/powerscale/prometheus.go:74-81 | where a cluster's first quota has id a, NUL, b and path p, the usage of another with id a and path b, NUL, p and the same type is never offered, whatever else the clusters report |
| Exporters.NoSeriesIsOfferedTwice | internal/powerscale/prometheus.go:66-91 | no pair of metric and label values is offered twice among the samples, whatever they hold |
| Exporters.ClustersNeverCollide | internal/powerscale/prometheus.go:74-81 | samples of differently named clusters are of different series, and of different signatures where the names are NUL-free |
| EndToEnd.EntriesOwnTheirSamples | internal/powerscale/collector.go:80-106 | the samples of every entry carry its own cluster name under the label schema |
| PushExport.OTLPExporter.constructor | internal/powerscale/otlp.go:51-75 | nothing registered yet |
| PushExport.OTLPExporter.EnsureInstruments | internal/powerscale/otlp.go:79-103 | registers in order up to the first refusal, exactly the names before it and all of them on success; earlier instruments stay and none is created twice, so a later call resumes |
| PushExport.OTLPExporter.Export | internal/powerscale/otlp.go:90-95 | each instrument observes exactly the samples of its name |
| PushExport.ExportersAgree | internal/powerscale/otlp.go:79-103 | with every name registered, each series offered to Prometheus is pushed, with its value; each series pushed is offered if its label values hold no NUL, and otherwise one of its signature is |
| PushExport.ValuesAgreeWithoutRepeats | internal/powerscale/otlp.go:90-95 | where no series is repeated the values agree one by one |
| PushExport.PushAndScrape | internal/powerscale/otlp.go:79-103 | so it is after registration, a push and a scrape of one snapshot, unless an instrument is refused |
| EndToEnd.CycleIsExportedFaithfully | internal/powerscale/prometheus.go:48-91 | in a scrape of one cycle, whatever the clusters report, no exported name and label values occur twice, the name fixes the label names, every kept sample is offered, every cluster is up or down, and nothing else is offered; where names and reports hold no NUL, every collected series is offered |
| EndToEnd.EmbeddedTableExportsFaithfully | internal/powerscale/statkeys.go:43-55 | this holds with the statistics table the program runs with |
| LiveScrape.StoreIsExportedFaithfully | internal/powerscale/prometheus.go:48-91 | in every reachable state of the server whose store was published to, a scrape is faithful to the answers of one cycle begun at an earlier step, and complete where names and reports hold no NUL |
| EndToEnd.ClustersNeverShareASignature | internal/powerscale/prometheus.go:76-81 | samples of two clusters never share a signature if the cluster names differ and hold no NUL, whatever the clusters report |

## Left out

- HTTP, gopowerscale sessions, response dumps, tracing, the HTTP server, signals, file watching, logging setup: input and output.
- JSON and YAML decoding and the `Parse*` functions that copy fields: the model starts from decoded values. Of `ParseNodes` the drive loop is modelled, the split of sensor groups is not.
- Configuration.Validate: server, collection and telemetry validation (`validateServer`, `validateCollection`, `validateOTel`): address and duration parsing is a parameter, standing for the outcome.
- One-shot mode, `Shutdown`, timeouts, panics, wall-clock time.
- The Prometheus registry and the OpenTelemetry SDK: what they are handed is modelled, not what they do with it; a refusal by the Prometheus library is modelled for a wrong number of values and for repeated label names, not for invalid UTF-8.
- Collection.CollectCluster: the client's answers and the samples built from them are parameters; `EndToEnd` ties the samples to `Samples`, and the hardware explanation is modelled beside it, in `HardwareLog`.
- Collection.EveryInterleavingCollectsAlike: the tasks are steps of a transition system over values, so memory-model effects of Go are not captured.
- ServerProtocol.NextKeepsInv: stepping, locks and channels are atomic actions; closing the old clients shows only as arbitrary answers to the loop that still uses them, and the interval of a loop plays no part.
- ReportAsWritten.SamplesAreTheReport: says which samples there are; that rows follow one another in order, each once, is in the definition of `FlatMap`, which `AppendRows` is proved to compute.
- Derivations.BuildSamples: the row loops of the builders share one loop, `AppendRows`; values are reals, so the rounding of the microsecond conversion is not modelled.
- SchemaGeneration.GenerationIsReproducible: where an endpoint has no application/json entry and several content types carry a schema, the program's choice depends on map order, and nothing is claimed.
- Metrics.Scale: divides reals, so float rounding is not modelled.
- SchemaGuard.GuardAgreesWithSchema: a schema with empty or dotted property names makes texts ambiguous on the schema's side; the guard is then characterised by texts only.
- Exporters.CollectOffersExactlyTheFirsts: assumes NUL-free label values; `LostExactlyWhereUnsafe` says what is lost without, and `EveryKeptSampleIsOffered` and `NothingIsOfferedTwice` hold regardless.
- PushExport.ExportersAgree: one export is related to one snapshot; the program's callbacks load the store one by one, so an export that straddles a publication is not covered.
- Configuration.ResolveSecrets: error messages are reduced to the cluster and field they name; which of two reasons made an expansion fail is kept by `ExpandSecret` only.
- HardwareLog.Explainer.ExplainOnce: the key is the pair of cluster and message; the program joins the two by NUL, which tells them apart as long as cluster names hold no NUL.
- `EnvBool.UnmarshalYAML`, getters and URL building: would only add easy members.
