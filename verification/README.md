# container-platform-tools, modelled in Dafny

The system audits Kubernetes workloads for CPU/OS platform mismatches. For every pod a
workload would run, it compares two sets of platforms:

- the node platforms the pod's node selector and required node affinity admit;
- the platforms every container image of the pod is built for, read from the image
  manifests in the registry.

Image lookups go through a two-layer cache: a snapshot read from a YAML file and a buffer of
this run's writes. Failed lookups are cached as negative entries. The objects are ordered by
their ownership graph before they are evaluated.

The model is organised as one module per concern:

| module | file | models |
|---|---|---|
| `Wrappers`, `Text`, `Sorting` | `wrappers.dfy`, `text.dfy`, `sorting.dfy` | Option/Result/Error, Go's `strings` helpers and string order, and a sort specified by a total order |
| `Platform` | `platform.dfy` | `DockerPlatform`: text form, parsing, `Cmp`, `Variantless`, the named platforms |
| `PlatformList` | `platform_list.dfy` | `DockerPlatformList`: text form, parsing, `Normalized`, `Variantless`, `Includes`, `Intersection` |
| `Cache` | `cache.dfy` | the no-op cache and the YAML cache as one class, with the cache file as a map |
| `ManifestAnalysis` | `manifest_analysis.dfy` | `AnalyzeManifest` over an abstract manifest retriever |
| `Inspect` | `inspect.dfy` | `PlatformInspector.GetPlatforms`, i.e. cache first, then analyse and record |
| `K8sTypes` | `k8s_types.dfy` | the Kubernetes and Argo object shapes the core reads |
| `Affinity` | `affinity.dfy` | the node-selector and required-affinity evaluator |
| `Workflows`, `Kinds` | `workflows.dfy`, `kinds.dfy` | the kind processors as a closed datatype, and the Argo workflow pod collector |
| `ObjectKeys`, `ObjectSort` | `object_keys.dfy`, `object_sort.dfy` | object keys, their order and owner edges; the ownership-graph sort as a class |
| `Evaluate` | `evaluate.dfy` | `EvaluateObjects` and `evaluateVirtualPod`, which produce the report rows |

Methods model the code that updates state step by step (loops, the cache, the graph, the
inspector). Each one is proved equal to a specification function, or characterised by a
specification predicate (the owner edges, the component walk, the components and the sorted
objects), and the properties are proved about that specification.

### Where the model follows the code rather than the description of the system

- **Cutoff test.** The cutoff test in `EvaluateObjects` does not depend on the processor. An
  object created after the cutoff therefore takes the virtual pods of the *first* processor,
  whatever the object's kind. With the pod processor first, as the command line configures it,
  a Deployment created after the cutoff yields no rows. `Evaluate.NewObjectPods` states this,
  and `Evaluate.OldObjectPods` states the rule for older objects.
- **Order of sorted objects.** The ownership sort emits components in the order of their first
  key in the input, and owners before the objects they own within each component. The
  expectation at `k8splatforms/sort_test.go:202-216` is a roots-first pre-order starting at
  `d1`. That is not what `sort.go` computes: for that input, `pod1`'s component comes first.

## Model

| member | source | states |
|---|---|---|
| Wrappers.Wrap | dockerplatforms/inspect.go:27 | a wrapped error message ends with the wrapped message and is longer than it |
| Text.TrimSpace | dockerplatforms/platform_list.go:27-34 | the result is the input with a white-space prefix and a white-space suffix removed, and it neither starts nor ends with white space |
| Text.TrimSpaceEmpty | dockerplatforms/platform_list.go:27-30 | a string trims to "" exactly when it is all white space |
| Text.SplitJoin | dockerplatforms/platform_list.go:18-42 | splitting at a separator undoes joining pieces that do not contain it |
| Text.Compare | k8splatforms/sort.go:140-168 | the three-way string comparison is -1, 0 or 1 exactly as `<`, `==` or `>` holds |
| Text.LessTransitive | dockerplatforms/platform.go:128-145 | Go's string order is transitive; with LessIrreflexive and LessTrichotomy it is a strict total order |
| Sorting.SortBySpec | dockerplatforms/platform_list.go:95-97 | sorting by a strict total order gives a sorted permutation |
| Sorting.SortedUnique | dockerplatforms/platform_list.go:95-97 | two sorted permutations of one multiset are equal, so the sort is canonical |
| Platform.ToStringFields | dockerplatforms/platform.go:64-69 | the text form is "os/arch", or "os/arch/variant" with a variant, and splits back into those fields |
| Platform.ParseShape | dockerplatforms/platform.go:71-88 | parsing succeeds exactly for two or three '/'-separated parts; the variant is the third part or "" |
| Platform.ParseToString | dockerplatforms/platform.go:64-88 | round trip: parsing the text form of a platform with no '/' in its fields gives the platform back |
| Platform.ToStringParse | dockerplatforms/platform.go:64-88 | printing a parsed platform restores the text except for an empty third part |
| Platform.Cmp | dockerplatforms/platform.go:128-145 | -1/0/1, 0 exactly for equal platforms, -1 exactly when lexicographically smaller on (OS, architecture, variant) |
| Platform.CmpAntisymmetric | dockerplatforms/platform.go:128-145 | `Cmp(a, b) == -Cmp(b, a)` |
| Platform.LessIsStrictTotalOrder | dockerplatforms/platform.go:128-145 | the order `Cmp` induces is a strict total order |
| Platform.Variantless | dockerplatforms/platform.go:147-150 | keeps OS and architecture and clears the variant |
| Platform.VariantlessIdempotent | dockerplatforms/platform.go:147-150 | clearing twice is clearing once; it changes only platforms with a variant |
| Platform.NamedPlatformsParse | dockerplatforms/platform.go:160-179 | each of the 18 named platforms is what its text form parses to |
| PlatformList.String | dockerplatforms/platform_list.go:18-24 | the loop computes the element texts joined with ", " |
| PlatformList.ListToStringEmpty | dockerplatforms/platform_list.go:18-24 | the text is "" exactly for the empty list |
| PlatformList.ParseDockerPlatformList | dockerplatforms/platform_list.go:26-42 | the loop computes the list parse: blank gives the empty list, otherwise split at ',', trim, parse |
| PlatformList.ParseAll | dockerplatforms/platform_list.go:31-41 | on success, one platform per piece, each the parse of its piece (trimmed, with `ParsePiece`) |
| PlatformList.ParsePieces | dockerplatforms/platform_list.go:32-41 | the loop over the pieces, filling a list of the pieces' length, computes the piece-by-piece parse and returns at the first failure |
| PlatformList.ParseAllFailure | dockerplatforms/platform_list.go:31-41 | the parse fails exactly when some piece fails |
| PlatformList.ParseAllFirstError | dockerplatforms/platform_list.go:35-38 | a failed parse carries the error of the first failing piece, every earlier piece having parsed |
| PlatformList.ParseAllSuccess | dockerplatforms/platform_list.go:33-41 | pieces that each parse give exactly the list of their platforms, in order |
| PlatformList.ParseListBlank | dockerplatforms/platform_list.go:27-30 | an empty or white-space string parses to the empty list |
| PlatformList.ParseListString | dockerplatforms/platform_list.go:18-42 | round trip: a list whose fields hold no '/', ',' or white space parses back from its text |
| PlatformList.Dedup | dockerplatforms/platform_list.go:86-94 | the first-occurrence pass keeps the element set and leaves no repeats |
| PlatformList.NormalizeSpec | dockerplatforms/platform_list.go:82-99 | `Normalized` is strictly increasing by `Cmp`, keeps the element set, never grows, maps empty to empty |
| PlatformList.NormalizeUnique | dockerplatforms/platform_list.go:82-99 | any strictly sorted list with the same elements is the normalized list |
| PlatformList.NormalizeIdempotent | dockerplatforms/platform_list.go:82-99 | normalizing twice is normalizing once |
| PlatformList.Normalized | dockerplatforms/platform_list.go:82-99 | the seen-map loop and sort compute the normalized list |
| PlatformList.ClearVariants | dockerplatforms/platform_list.go:101-106 | element-wise `Variantless` |
| PlatformList.Variantless | dockerplatforms/platform_list.go:101-107 | the loop computes the variantless list |
| PlatformList.VariantlessSpec | dockerplatforms/platform_list.go:101-107 | every element has an empty variant; the elements are exactly the inputs' variantless forms; normalized; never longer |
| PlatformList.VariantlessIdempotent | dockerplatforms/platform_list.go:101-107 | applying it twice is applying it once |
| PlatformList.Includes | dockerplatforms/platform_list.go:109-120 | true exactly when every element of `other` occurs in `p` |
| PlatformList.IncludesNormalize | dockerplatforms/platform_list.go:109-120 | order and repeats are irrelevant; the empty list is always included |
| PlatformList.Filter | dockerplatforms/platform_list.go:122-134 | the subsequence of `p` in `other`: membership exactly in both, never longer than `p` |
| PlatformList.Intersection | dockerplatforms/platform_list.go:122-134 | the map-and-loop computes that subsequence, keeping `p`'s order and repeats |
| PlatformList.IntersectionIncludes | dockerplatforms/platform_list.go:109-134 | the intersection includes a list exactly when both operands do |
| PlatformList.FilterAll | dockerplatforms/platform_list.go:122-134 | intersecting with a list that includes `p` leaves `p` unchanged |
| Cache.EntryLookup | dockerplatforms/cache.go:153-157 | an entry with an error is a miss failing with exactly that message; otherwise a hit with its platforms |
| Cache.Consult | dockerplatforms/cache.go:144-158 | the buffer is consulted before the snapshot; a key in neither is a miss with no error; never both hit and error |
| Cache.PlatformCache.Nop | dockerplatforms/cache.go:25-27 | the no-op cache holds nothing |
| Cache.PlatformCache.Open | dockerplatforms/cache.go:47-91 | the snapshot is the file's content and the buffer is empty |
| Cache.PlatformCache.Get | dockerplatforms/cache.go:144-158 | the no-op cache always misses without error; the YAML cache answers as `Consult` |
| Cache.PlatformCache.Set | dockerplatforms/cache.go:160-165 | buffers a positive entry; that key then hits with those platforms; no other key changes |
| Cache.PlatformCache.SetErrorCache | dockerplatforms/cache.go:174-178 | buffers a negative entry; that key then fails with the error's message; no other key changes |
| Cache.PlatformCache.Clear | dockerplatforms/cache.go:168-171 | drops only the buffered entry, so a snapshot entry shows again; no other key changes |
| Cache.Overlay | dockerplatforms/cache.go:118-120 | the copy loop yields the snapshot with every buffered entry written over it: keys of both, buffered values win, other values kept |
| Cache.PlatformCache.WriteBack | dockerplatforms/cache.go:92-142 | an empty buffer changes and writes nothing; otherwise snapshot := old ⊕ file ⊕ buffer, buffer emptied, snapshot written, keys written this run answer as before |
| Cache.NopNeverFinds | dockerplatforms/cache.go:31-44 | the no-op cache misses without error whatever happened before |
| Cache.BufferFirst | dockerplatforms/cache.go:146-151 | a buffered key's answer does not depend on the snapshot |
| Cache.GrownTransitive | dockerplatforms/cache.go:144-178 | a cache that grew twice grew once: snapshot untouched, buffered entries kept, new entries only for keys unanswered at the start |
| Cache.GrownKeeps | dockerplatforms/cache.go:144-178 | once the cache answers for a key, growing it never changes that answer |
| Cache.RemembersKept | dockerplatforms/cache.go:144-178 | what the cache remembers for a key (cached platforms equal to an answer, or a cached error for a failed one) survives its growth |
| Cache.WriteBackLookup | dockerplatforms/cache.go:109-121 | after the merge, run-written keys answer as before and other keys as the file over the old snapshot |
| ManifestAnalysis.RefString | dockerplatforms/manifest_analysis.go:11 | the reference text starts with the repository name |
| ManifestAnalysis.KnownPlatforms | dockerplatforms/manifest_analysis.go:26-40 | each listed digest is read from the first instance carrying it, as `list.Instance` does; no kept platform is `unknown/unknown`; never more than the instances |
| ManifestAnalysis.AnalyzeManifest | dockerplatforms/manifest_analysis.go:10-75 | the branching computes `Analysis`, the instance loop through `ListPlatforms` |
| ManifestAnalysis.FirstIndex | dockerplatforms/manifest_analysis.go:27-28 | `list.Instance(digest)`: the position of an instance with that digest, no earlier instance carrying it |
| ManifestAnalysis.Resolved | dockerplatforms/manifest_analysis.go:26-28 | one resolved instance per listed digest, in list order, each with that digest |
| ManifestAnalysis.ListPlatforms | dockerplatforms/manifest_analysis.go:26-40 | the instance loop, with its digest lookups, computes `KnownPlatforms` |
| ManifestAnalysis.ResolvedFirst | dockerplatforms/manifest_analysis.go:26-28 | a listed digest resolves to the first instance carrying it, never later than any instance with that digest |
| ManifestAnalysis.DistinctDigests | dockerplatforms/manifest_analysis.go:26-40 | with distinct digests every instance resolves to itself, so the result is the known instance platforms in list order |
| ManifestAnalysis.RepeatedDigest | dockerplatforms/manifest_analysis.go:26-40 | a digest listed twice yields the platform of its first instance twice |
| ManifestAnalysis.RetrievalFailure | dockerplatforms/manifest_analysis.go:11-14 | a failed manifest fetch is an error carrying the retriever's message |
| ManifestAnalysis.FilteredAppend | dockerplatforms/manifest_analysis.go:26-40 | the unknown-platform filter distributes over concatenation, keeping order and repeats |
| ManifestAnalysis.FilteredOne | dockerplatforms/manifest_analysis.go:32-34 | an instance is dropped exactly when both OS and architecture are "unknown" |
| ManifestAnalysis.FilteredAllKnown | dockerplatforms/manifest_analysis.go:26-40 | with no unknown instance, the filter keeps every instance platform in order, repeats included |
| ManifestAnalysis.ManifestListAnalysis | dockerplatforms/manifest_analysis.go:21-41 | a manifest list yields its known instance platforms, at most one per instance |
| ManifestAnalysis.SingleImageAnalysis | dockerplatforms/manifest_analysis.go:42-74 | a single manifest makes a second fetch at `name@configDigest`; failure is an error; success yields exactly the config's platform |
| ManifestAnalysis.SelfDescribedAnalysis | dockerplatforms/manifest_analysis.go:42-74 | a schema-1 manifest, which carries its own platform, yields exactly that platform and needs no fetch beyond the manifest itself |
| Inspect.NormalizeRef | dockerplatforms/inspect.go:29-42 | the key reference keeps name and digest, has exactly one of tag and digest, and defaults the tag to "latest" |
| Inspect.NormalizeRefIdempotent | dockerplatforms/inspect.go:29-42 | a normalized reference normalizes to itself |
| Inspect.AnalysisErrorNonEmpty | dockerplatforms/inspect.go:52-57 | every analysis error has a non-empty message, so it is cached as a negative entry |
| Inspect.FillsTransitive | dockerplatforms/inspect.go:44-62 | a cache filled twice with analysis outcomes was filled once |
| Inspect.ProvidedFrom | dockerplatforms/inspect.go:44-62 | an answer given later in a run is, for the run's start state, the replayed answer of a key the cache answered at the start, or else the analysis of the normalized reference or the replay of an earlier analysis of a reference with the same key |
| Inspect.PlatformInspector.constructor | dockerplatforms/inspect.go:16-21 | the inspector holds the retriever and cache and has analysed nothing |
| Inspect.PlatformInspector.GetPlatforms | dockerplatforms/inspect.go:24-63 | a parse failure touches neither cache nor analyser; a hit returns the cached list and a cached error fails, both without analysing; a miss analyses once and buffers a positive or negative entry under the normalized key; in every case the cache only grows (snapshot untouched, earlier buffered entries kept, new entries only for keys it did not answer for), and afterwards a YAML cache remembers the key with the returned answer; every buffered entry holds the outcome of analysing a normalized reference with that key (`Fills`), and the answer is `Served` by the cache state before the call |
| Inspect.PlatformInspector.GetPlatformsTwice | dockerplatforms/inspect.go:44-57 | with the YAML cache, two lookups of images with the same cache key: the second analyses no manifest, and succeeds with the same platforms exactly when the first does |
| Affinity.GetLabel | k8splatforms/affinity.go:104-115 | only the architecture and OS keys, current and beta forms, are known |
| Affinity.Admitted | k8splatforms/affinity.go:10-18 | the admitted platforms are exactly the node platforms the pod's affinity accepts, in order |
| Affinity.PodPlatforms | k8splatforms/affinity.go:10-18 | the loop computes the admitted subsequence |
| Affinity.AdmittedAppend | k8splatforms/affinity.go:10-18 | filtering keeps order: it distributes over concatenation |
| Affinity.MatchExpressionSemantics | k8splatforms/affinity.go:82-102 | unknown key matches; In, NotIn, Exists, DoesNotExist as named; unknown operator matches |
| Affinity.LabelSelectorSemantics | k8splatforms/affinity.go:34-45 | the label selector fails exactly when an arch/OS key (beta forms included) expects another value |
| Affinity.NoConstraintsAdmitAll | k8splatforms/affinity.go:20-28 | no affinity, node affinity or required selector, and no node selector, admits every platform |
| Affinity.SelectorEdgeCases | k8splatforms/affinity.go:55-80 | a selector with no terms admits nothing; a term with no expressions admits all |
| Affinity.AffinityIgnoresVariant | k8splatforms/affinity.go:104-115 | the variant never changes the verdict |
| Workflows.CollectWorkflowPods | k8splatforms/workflows.go:53-59 | the loop over top-level templates computes `WorkflowPods` |
| Workflows.CollectWorkflowPodsImpl | k8splatforms/workflows.go:60-127 | the recursion appends exactly the template's pods to the shared list |
| Workflows.TemplatesPodsAppend | k8splatforms/workflows.go:53-59 | top-level templates contribute in order |
| Workflows.BuildTemplatePod | k8splatforms/workflows.go:63-112 | the pod branch of the walk builds exactly the pod the container or script template specifies: copied containers, sidecars and init containers, and the template-or-spec scheduling fields |
| Workflows.ContainerTemplatePod | k8splatforms/workflows.go:63-112 | a container or script template yields one pod: Container, else ContainerSet, else Script, then sidecars; node selector, affinity and tolerations from the template when set, else from the spec |
| Workflows.EmptyTemplateNoPods | k8splatforms/workflows.go:63-127 | a template with none of container, script, steps or DAG yields no pod |
| Workflows.ReferencedStepsNoPods | k8splatforms/workflows.go:113-120 | steps that only reference templates yield nothing |
| Kinds.CollectVirtualPods | k8splatforms/workflows.go:46-51 | computes `VirtualPods`, walking workflow kinds with the imperative collector |
| Kinds.OwnKindOnly | k8splatforms/deployments.go:33-48 | a processor never calls another kind active and never gives it pods |
| Kinds.ProcessorsDisjoint | k8splatforms/kinds.go:12-16 | at most one processor handles an object |
| Kinds.TemplateKinds | k8splatforms/deployments.go:33-48 | each non-workflow kind gives exactly one pod; deployments, stateful sets, daemon sets and cron jobs are always active |
| Kinds.PodActivity | k8splatforms/pods.go:32-54 | a pod is active exactly when neither Succeeded nor Failed nor being deleted; its one virtual pod carries its metadata and spec |
| Kinds.ReplicaSetActivity | k8splatforms/replicasets.go:32-44 | replicas default to 1; a replica set is active exactly when replicas > 0 |
| Kinds.JobFinishedSetSemantics | k8splatforms/jobs.go:40-47 | whether a job finished depends only on the set of its conditions |
| Kinds.JobFinishedAppend | k8splatforms/jobs.go:40-47 | finished after a list of conditions exactly when finished after one of its parts |
| Kinds.CronWorkflowAsWorkflow | k8splatforms/cronworkflows.go:46-51 | a cron workflow gives the pods of a workflow with the same spec |
| ObjectKeys.KeyCmp | k8splatforms/sort.go:140-168 | -1/0/1, 0 exactly for equal keys, -1 exactly when lexicographically smaller on (namespace, group version, kind, name) |
| ObjectKeys.ObjectCmp | k8splatforms/sort.go:140-168 | objects compare equal exactly when their keys are equal |
| ObjectKeys.KeyCmpAntisymmetric | k8splatforms/sort.go:140-168 | swapping the arguments negates the comparison |
| ObjectKeys.KeyLessIsStrictTotalOrder | k8splatforms/sort.go:140-168 | the key order is a strict total order |
| ObjectKeys.SortKeys | k8splatforms/sort.go:67-69 | sorting keys gives a sorted permutation |
| ObjectKeys.SortKeysCanonical | k8splatforms/sort.go:67-69 | the sorted form depends only on the multiset of keys |
| ObjectKeys.Keys | k8splatforms/sort.go:170-173 | one key per object, in order |
| ObjectKeys.Index | k8splatforms/sort.go:30-34 | the index holds exactly the input keys, each mapped to an object with that key |
| ObjectKeys.IndexLastWins | k8splatforms/sort.go:30-34 | for duplicate keys the last object is indexed |
| ObjectKeys.EdgesMeaning | k8splatforms/sort.go:35-54 | an owner edge exists exactly when an owner reference, keyed in the child's namespace, names a listed object |
| ObjectSort.ObjectGraph.Build | k8splatforms/sort.go:25-61 | the graph indexes the objects, lists their keys in order, and has exactly the owner edges; owned and owner maps are inverse |
| ObjectSort.IndexObjects | k8splatforms/sort.go:26-34 | the index loop maps every key to its object, a later object replacing an earlier one with the same key, and lists the keys in input order |
| ObjectSort.OwnerEdges | k8splatforms/sort.go:35-54 | the edge loop records every owner edge in both directions and no other |
| ObjectSort.ObjectGraph.ReachPrepend | k8splatforms/sort.go:89-104 | a key reaches everything its owned and owner neighbours reach (reachability is along trails of owned or owner edges) |
| ObjectSort.ObjectGraph.ClosedReach | k8splatforms/sort.go:89-104 | a set of keys closed under owned and owner edges holds everything its members reach |
| ObjectSort.ObjectGraph.FindCC | k8splatforms/sort.go:89-104 | appends the start key and then fresh keys only, each once; what it appends is closed under owned and owner edges and is all reachable from the start key |
| ObjectSort.ObjectGraph.ConnectedComponents | k8splatforms/sort.go:76-88 | components partition the keys without repeats; each starts at its first key in name order, roots increase, and a key is in component `i` exactly when the component's first key reaches it |
| ObjectSort.ObjectGraph.ComponentsReach | k8splatforms/sort.go:76-104 | a component closed under adjacency whose keys its first key reaches is exactly the set of keys that first key reaches |
| ObjectSort.ObjectGraph.SortedOwners | k8splatforms/sort.go:119-122 | exactly the owners, sorted by key |
| ObjectSort.ObjectGraph.Visit | k8splatforms/sort.go:117-130 | the output and visited set are those of `DfsVisit`: the unvisited owners in key order, each visited depth first, then the key itself; fresh keys only, each once; owners first when a ranking climbs the owner edges |
| ObjectSort.ObjectGraph.TopologicalSort | k8splatforms/sort.go:106-116 | the output is `DfsOrder` of the input: each unvisited key in input order visited depth first; every key once and nothing else; owners first when ownership is acyclic |
| ObjectSort.ObjectGraph.SortComponent | k8splatforms/sort.go:66-72 | the result is `ComponentOrder` of the component (its keys sorted, then visited depth first): its keys once each, owners first when acyclic |
| ObjectSort.ObjectGraph.SortedNames | k8splatforms/sort.go:63-74 | the connected components one after another in first-appearance order, each listed in the `ComponentOrder` of its own keys: every key once, owners first when acyclic |
| ObjectSort.ObjectGraph.OrderOfMembers | k8splatforms/sort.go:66-70 | a part listed in the `ComponentOrder` of a component with the same keys is listed in its own `ComponentOrder` |
| ObjectSort.ObjectGraph.SortComponents | k8splatforms/sort.go:65-72 | the loop over the components appends each one as `ComponentOrder` gives it: each component's keys once, all keys of the graph once, owners first when acyclic |
| ObjectSort.ObjectGraph.SortNames | k8splatforms/sort.go:63-74 | replaces the names by that arrangement of the old names and leaves the rest of the graph unchanged |
| ObjectSort.ObjectGraph.Objects | k8splatforms/sort.go:132-138 | the indexed object of every name, in order |
| ObjectSort.SortObjects | k8splatforms/sort.go:10-16 | each distinct key once, with the last input object of that key; the components in first-appearance order, each exactly the keys connected to its first input object by owner edges in either direction; owners before owned when acyclic |
| ObjectSort.ReachableConnected | k8splatforms/sort.go:35-54 | on the graph built from the objects, reaching along owned and owner edges is being connected by the objects' owner references |
| ObjectSort.ComponentsConnected | k8splatforms/sort.go:76-104 | the graph's components are the connected components of the input objects' ownership graph |
| ObjectSort.ComponentOrderCanonical | k8splatforms/sort.go:67-69 | the key-sorted input of a component depends only on its members, not their input order |
| Evaluate.NodeIndex | k8splatforms/evaluate.go:42-45 | the node index holds exactly the node names, each mapped to a node of that name |
| Evaluate.NodeIndexLastWins | k8splatforms/evaluate.go:42-45 | for repeated node names the last node is kept |
| Evaluate.ScheduledPlatform | k8splatforms/evaluate.go:86-95 | set exactly for pods bound to a known node, from its OS and arch labels, with no variant |
| Evaluate.EvaluateVirtualPod | k8splatforms/evaluate.go:77-152 | the row and the wrapped errors are those the inspector's answers give, one answer per container image in order; an unparsable image reference is answered with its wrapped parse error, and with the no-op cache every answer is the manifest analysis of the normalized reference; every answer is `Provided` for the cache state at the start: replayed for keys that cache answered, else the analysis of the normalized reference or the replay of an earlier analysis with the same key; the cache has only filled with analysis outcomes, and a YAML cache remembers every parsable image under its key with the answer given for it |
| Evaluate.InspectImage | dockerplatforms/inspect.go:24-62 | one inspector call: an unparsable reference is answered with its wrapped parse error; with the no-op cache the answer is the manifest analysis of the normalized reference; with either cache the answer is `Served` by the cache state before the call (a hit or cached error replayed, else the analysis of the normalized reference); the cache has only filled with analysis outcomes, and a YAML cache remembers the image under its key with the answer given |
| Evaluate.InspectContainers | k8splatforms/evaluate.go:115-132 | one inspector answer per container image, in order, each as `InspectImage` states; the loop leaves the details, the running intersection (and whether any image was inspected) and the error list those answers specify; every answer is `Provided` for the cache state at the start: replayed for keys that cache answered, else the analysis of the normalized reference or the replay of an earlier analysis with the same key; the cache has only filled with analysis outcomes, and a YAML cache remembers every parsable image under its key with the answer given for it |
| Evaluate.ChooseVirtualPods | k8splatforms/evaluate.go:54-60 | the processor loop takes the first processor whose condition holds |
| Evaluate.EvaluateObjects | k8splatforms/evaluate.go:31-75 | one row per (object, virtual pod) pair in order, declared platforms against the variantless node platforms, each row built from the inspector's answers for its pod's images as `InspectImage` states; aggregate present exactly when some inspection failed, listing every failure; every answer is `Provided` for the cache state at the start: replayed for keys that cache answered, else the analysis of the normalized reference or the replay of an earlier analysis with the same key; the cache has only filled with analysis outcomes, and a YAML cache remembers every parsable image under its key with the answer given for it |
| Evaluate.EvaluatePods | k8splatforms/evaluate.go:61-70 | one row per virtual pod of an object in order, from the inspector's answers for its images; the errors are every inspection error wrapped once more; every answer is `Provided` for the cache state at the start: replayed for keys that cache answered, else the analysis of the normalized reference or the replay of an earlier analysis with the same key; the cache has only filled with analysis outcomes, and a YAML cache remembers every parsable image under its key with the answer given for it |
| Evaluate.ImagePlatformsMeaning | k8splatforms/evaluate.go:115-132 | no inspected image gives the node platforms; otherwise exactly the platforms every inspected image supports |
| Evaluate.RowViolation | k8splatforms/evaluate.go:107-143 | a violation exactly when an admitted node platform is missing from some inspected image; none when nothing could be inspected |
| Evaluate.RowError | k8splatforms/evaluate.go:114-151 | the row error is "" exactly when all inspections succeed, else the first failure wrapped |
| Evaluate.FirstInspectionError | k8splatforms/evaluate.go:114-120 | the first collected inspection error is empty exactly when every inspection succeeded, and otherwise carries the first failure wrapped with "inspecting image platforms" |
| Evaluate.AggregateMeaning | k8splatforms/evaluate.go:61-74 | the aggregate is non-empty exactly when some row has an error |
| Evaluate.DetailsKeys | k8splatforms/evaluate.go:115-122 | the details have entries exactly for the containers that could be inspected |
| Evaluate.DetailsValue | k8splatforms/evaluate.go:121-122 | an entry holds the variantless platforms of the last inspected container of that name |
| Evaluate.OldObjectPods | k8splatforms/evaluate.go:55-60 | an object created before the cutoff takes the pods of its active processor, none if no processor calls it active |
| Evaluate.NewObjectPods | k8splatforms/evaluate.go:55-60 | an object created after the cutoff takes the first processor's pods, so with the pod processor first a new controller yields none |
| Evaluate.PairsAppend | k8splatforms/evaluate.go:53-70 | the pairs of a list of objects are each object's pairs in turn |

## Left out

- Kubernetes and Argo API listing (`Retrieve`, `Collect`), the command-line programs, their
  CSV output and statistics: network I/O and presentation.
- The older duplicates `k8splatforms/collect.go` (graph code) and
  `dockerplatforms/platforms.go`.
- `dockerplatforms/manifest_retriever.go`, which shells out to `docker buildx imagetools`.
  The retriever is a function parameter. It returns an already parsed blob, so MIME sniffing
  and JSON decoding of manifests are not modelled.
- Image-reference parsing (`ParseNormalizedNamed`) is a function parameter. A reference is a
  name with an optional tag and digest. Errors from `WithName`/`WithDigest` are not modelled.
  The texts of library errors are placeholders.
- Cache file handling (`flock`, open, seek, write, truncate) and YAML and JSON marshalling. The
  file is a map read and written whole; lock races between processes are not modelled.
- Context cancellation, and nil versus empty slices and maps.
- The CPU and memory usage sums and the pod metrics input: floating point.
- The `errorutil.Aggregate` type is modelled as the list of its errors.
- `apiVersion` normalisation through `ParseGroupVersion` is taken as the identity.
- Replica counts are unbounded integers rather than int32.
- The node index takes `&node` with per-iteration loop variables, as in Go 1.22 and later.
  With the older shared loop variable every entry would alias the last node.
- The object key is a tuple, not the concatenated string, so collisions between different keys
  that concatenate to the same text are not modelled.
- Evaluate.EvaluateVirtualPod: for a key the cache did not answer at the start, the answer is
  either the analysis of the normalized reference or the replay of an earlier analysis of a
  reference with the same key; which one (it depends on whether an earlier image had that key)
  and which earlier reference are not stated. The key text does not determine the reference in
  this model, so the earlier analysis is identified only by its key.
- Evaluate.InspectContainers: the same choice between a fresh and a replayed analysis is left open.
- Evaluate.EvaluatePods: the same choice between a fresh and a replayed analysis is left open.
- Evaluate.EvaluateObjects: the same choice between a fresh and a replayed analysis is left open.
- ManifestAnalysis.AnalyzeManifest: the "getting instance" error is not modelled. Every digest
  the loop looks up comes from the list itself, so the lookup always finds an instance.
- ObjectSort.SortObjects: owners-before-owned is stated under the existence of a ranking that
  every owner edge climbs. The equivalence of such a ranking with acyclicity is not proved.
- ObjectSort.SortObjects: the order within a component is stated on the graph, by
  ObjectSort.ObjectGraph.SortNames (each component listed in its `ComponentOrder`). It is not
  restated over the input objects.
- ObjectSort.ObjectGraph.FindCC: the order in which the walk lists a component is not stated,
  only which keys it holds. `sortObjects` sorts each component by key before using it, so
  that order never reaches the output (ObjectSort.ComponentOrderCanonical).
