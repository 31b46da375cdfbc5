# airshipctl, modelled and proved in Dafny

This project models seven parts of airshipctl and proves what they keep, over
every input, every run and every answer of the outside world.

- **Cluster map and kubeconfig builder** (`Chains`, `ClusterMaps`,
  `Kubeconfigs`, `BuilderSpec`, `BuilderClients`, `BuilderProofs`,
  `BuilderTheorems`, `BuilderSources`, `BuilderOrder`, `BuilderFirst`,
  `BuilderDepth`, `BuilderLimits`, `KubeconfigBuilder`). The builder is a memoised recursive
  search over the parent links that merges into one shared kubeconfig. `BuilderSpec` gives it as transitions on its two
  mutable fields,
  `KubeconfigBuilder.Builder` is the object that takes them, and the theorems
  compare both with `BuilderProofs.Resolve`, which knows neither cache nor
  shared state. The program starts every build without a client and makes one
  from the first parent it reaches; the theorems cover that, and builds that
  are given one.
- **JSONPath evaluation, legacy paths and replacements** (`YamlNodes`,
  `Comparisons`, `JsonPaths`, `JsonPositions`, `JsonMeaning`, `JsonSlices`,
  `JsonEvaluation`, `JsonPathFilter`, `LegacyPaths`, `LegacyQueries`,
  `FieldPaths`, `Replacements`, `ReplacementRuns`). A query denotes a set of positions in a tree (`JsonPositions.Denotes`); evaluation
  is proved to yield exactly those. The path translation is compared with a
  reader of JSONPath text, and replacements obey the laws of reading and
  writing.
- **Distinguished names** (`DistinguishedNames`, `SubjectNames`, `NameMeanings`). The
  character machine of the parser and an escaping printer undo each other.
  The code's grammar is a slash-separated subset of RFC 2253: neither an
  escaped backslash nor a hex pair (sections 2.4 and 3 there) is accepted.
- **Redfish remote direct** (`RedfishTraces`, `RedfishClient`). The controller
  is any function of the requests so far. Each event records how the client
  screens the answer. Each call returns, as a ghost, the events it has added;
  its contract says which order they keep and how many they are.
- **Configuration commands** (`ConfigModel`, `ConfigResults`, `ConfigCommands`). set-context,
  set-management-config, set-manifest and use-context are steps on the stored
  file, with every outside step free to fail.
- **Phase plans** (`PlanRunner`) and **function order** (`FunctionOrder`,
  `FunctionScopes`).
  `GoStrings` and `Wrappers` hold what several modules use.

Methods and classes follow the loops and mutable objects of the code and are
proved against functions; lemmas then say what the functions mean.

## What the proofs show about the code

- A fresh build ends exactly when the chain of parents it asks for ends
  (`BuilderDepth.FreshBuildEnds`). `ValidateClusterMap` rules endless chains
  out, but no command calls it, so the theorems assume only that the asked
  chains end.
- The cache test asks for the context of the cluster's own name. For a cluster
  named `""` it succeeds exactly when the site has one context, whichever it is
  (`BuilderProofs.AlreadyBuiltIffContext`), so the theorems about cached
  contexts assume that `""` is not a cluster name.
- The first parent reached decides the client for good. If every reading of a
  first-reached parent makes a client, the contexts of a site-wide build depend
  on the order of `AllClusters` exactly when two clients that can come first
  resolve different contexts (`BuilderFirst.ContextsIndependentIff`;
  `BuilderLimits.OrderShowsWithoutClient`). A parent that makes none lets the
  order show even with a single client (`BuilderLimits.OrderShowsWhenUnmade`).
- Users and endpoints depend on the order where clusters share a name and
  disagree; `BuilderOrder.OrderIndependentIff` gives the exact condition.
- A complete run searches for a disc device twice, with another lookup of the
  manager in between. Equal answers lead both searches to the same device
  (`RedfishTraces.SameAnswersSameDisc`); a controller whose answers change can
  get the image into a device that nobody searched (`OtherManagerGetsImage`) or
  be told to boot from the type of another (`BootTypeExact`, `OtherTypeBoots`).
- An empty slice ends the loop over the nodes and can lose later ones
  (`JsonSlices.SliceLosesRow`); `JsonMeaning.QueryExact` says exactly when a
  whole query does.
- A dotted index right before a bracket, as in `a.0[1]`, is translated as a
  field name, and apart from dots nothing is quoted, so that a filter value
  with an apostrophe ends early (`LegacyQueries.ConversionFaithful` with the
  exact condition). A path that starts with an index or a filter bracket
  crashes the translation (`LegacyPaths.ConversionFailures`).
- use-context checks only that the context exists. It can store a file that
  each of the four commands, use-context included, then refuses
  (`ConfigModel.CommandsKeepComplete`).
- A repository that has a branch can never be given a tag or a commit hash by
  set-manifest (`ConfigModel.CheckoutKindIsFixed`).
- The function comparison is not a weak order when one file of a directory has
  two functions and another file has one; a correct sort may then run the first
  file backwards (`FunctionOrder.MixedSortMisleads`).
- `nameFromString` crashes exactly on the empty string
  (`SubjectNames.NameFromString`).

## Model

Sources are paths in the airshipctl repository.

| member | source | states |
|---|---|---|
| `ClusterMaps.ValidateClusterMap` | pkg/cluster/clustermap/map.go:71-95 | for any order in which the map is ranged over, the validation ends and accepts exactly the maps whose named parents are all clusters and whose parent links have no cycle; a circular verdict names a cluster whose chain never ends |
| `ClusterMaps.ValidateChain` | pkg/cluster/clustermap/map.go:73-91 | the inner loop ends on every map; it accepts a child exactly when its parent chain ends inside the map |
| `ClusterMaps.AllClusters` | pkg/cluster/clustermap/map.go:98-104 | every cluster is listed once, in an order left open |
| `Chains.AcyclicIffAllEnd` | pkg/cluster/clustermap/map.go:71-95 | parent links are acyclic exactly when every chain of parents ends: why finding no repeated parent proves there is no cycle |
| `Chains.HeightBound` | pkg/cluster/clustermap/map.go:71-95 | a chain that stays among known names is no longer than their number, because it never repeats a name |
| `Kubeconfigs.MergeContextAPI` | pkg/k8s/kubeconfig/builder.go:265-308 | the merge of one context under its new name, with the context chosen by name or as the only one, and the half-written destination it leaves behind on a missing user or cluster |
| `Kubeconfigs.Extract` | pkg/k8s/kubeconfig/builder.go:255-262 | a sub-configuration is extracted exactly when the context is selected and its user and cluster are present, and then holds that one context, user and cluster only |
| `Kubeconfigs.ExtractExact` | pkg/k8s/kubeconfig/builder.go:255-308 | what is extracted is exactly the context that the given name selects, or without a name the only one, under the new name, with its own user and endpoint entries |
| `Kubeconfigs.MergeSingle` | pkg/k8s/kubeconfig/builder.go:157-162 | merging an extracted context into the site kubeconfig never fails and puts exactly its entries over the old ones |
| `Kubeconfigs.OverlaySingle` | pkg/k8s/kubeconfig/builder.go:287-305 | such a merge keeps every context resolvable to a present user and cluster, and touches one context entry |
| `BuilderProofs.AlreadyBuiltIffContext` | pkg/k8s/kubeconfig/builder.go:238-253 | the cache test recognises exactly the contexts of a closed site kubeconfig, and for the empty name exactly a site with one context |
| `BuilderProofs.BuildOneKeepsClosed` | pkg/k8s/kubeconfig/builder.go:136-173 | whatever the client is, one build keeps the site closed, never fails in its merge, never changes an entry merged before or the current context, and reports an unknown cluster exactly for names outside the map |
| `BuilderProofs.BuildAllKeepsClosed` | pkg/k8s/kubeconfig/builder.go:116-134 | over a whole build the site stays closed, contexts are never replaced, the current context is unset or present, and an error comes out exactly when a requested name is not in the map; failures of parents and sources never do |
| `BuilderClients.BuildOneSame` | pkg/k8s/kubeconfig/builder.go:136-236 | where each reading of an asked parent makes a client, a build without one is, in site, outcome and every merge, the build with the client that it makes, given from the start; if it makes none, it is the build with any client |
| `BuilderClients.BuildAllSame` | pkg/k8s/kubeconfig/builder.go:116-134 | the same for builds of any list of clusters, errors included |
| `BuilderClients.ClientStays` | pkg/k8s/kubeconfig/builder.go:220-226 | a client once there is never replaced |
| `BuilderProofs.BuildOneCorrect` | pkg/k8s/kubeconfig/builder.go:136-173 | once the client is settled (given, or the only one that can be made) a memoised build of one cluster succeeds exactly when the memo-free recursive meaning resolves it, and merges exactly the clusters on its chain of asked parents that resolve and were not merged before, parents first |
| `BuilderProofs.TrySourcesCorrect` | pkg/k8s/kubeconfig/builder.go:154-172 | the loop over the sources agrees with the memo-free meaning from any source on, whether or not the parent was built meanwhile |
| `BuilderProofs.TrySourceCorrect` | pkg/k8s/kubeconfig/builder.go:175-236 | one source offers what it offers without shared state, although asking the parent may merge contexts and make the client on the way |
| `BuilderProofs.NewLogOnce` | pkg/k8s/kubeconfig/builder.go:142-147 | building a cluster a second time merges nothing |
| `BuilderDepth.ValidatedDepth` | pkg/k8s/kubeconfig/builder.go:199-210 | on a map that the validation accepts, every build ends within as many nested calls of buildOne as there are clusters |
| `BuilderDepth.HeightSuffices` | pkg/k8s/kubeconfig/builder.go:136-236 | as many nested calls as the chain of asked parents is long give the build, from any state |
| `BuilderDepth.FreshBuildEnds` | pkg/k8s/kubeconfig/builder.go:136-236 | a fresh build ends exactly when the chain of parents that it asks for ends; otherwise no number of nested calls suffices |
| `BuilderTheorems.ValidatedMapBuilds` | pkg/cluster/clustermap/map.go:71-95 | on such a map every chain of asked parents ends, and is no longer than the number of clusters |
| `BuilderTheorems.BuildAllCorrect` | pkg/k8s/kubeconfig/builder.go:116-134 | a whole build of known names merges the clusters of the predicted log, in its order, and returns no error |
| `BuilderTheorems.BuildYieldsMeaning` | pkg/k8s/kubeconfig/builder.go:116-173 | the contexts of a build are exactly the resolvable clusters among the requested ones and the parents they ask for, each with the entry of its own kubeconfig |
| `BuilderTheorems.SiteWideYieldsResolvable` | pkg/k8s/kubeconfig/builder.go:116-134 | a site-wide build with its client settled holds exactly the resolvable clusters, whatever order AllClusters returns |
| `BuilderTheorems.SiteWideOrderIndependent` | pkg/k8s/kubeconfig/builder.go:116-134 | its contexts are the same, entries included, for any two orders of AllClusters |
| `BuilderSources.ContextSupplied` | pkg/k8s/kubeconfig/builder.go:116-236 | with its client settled, a build holds the context of a cluster that it gets to exactly if one of its sources supplies it, told from the files, the bundle and the secrets alone (a cluster API counts if the parent is held too), and the context is then the entry that the first such source selects |
| `BuilderSources.EntriesSupplied` | pkg/k8s/kubeconfig/builder.go:264-308 | every user and endpoint of the site is the entry that comes with one of its contexts, and each context brings its own |
| `BuilderSources.StaticSupplies` | pkg/k8s/kubeconfig/builder.go:175-197 | a file or the bundle offers exactly the context that the source names; a missing file, bundle or context offers nothing |
| `BuilderSources.SingleCurrent` | pkg/k8s/kubeconfig/builder.go:121-124 | a fresh build of one name makes its context the current one exactly if it is held |
| `BuilderSources.StopsAtUnknown` | pkg/k8s/kubeconfig/builder.go:125-131 | a build of several names ends at the first one that is not in the map and keeps what it has built |
| `BuilderOrder.OrderIndependentIff` | pkg/k8s/kubeconfig/builder.go:264-308 | with its client settled, the whole site-wide kubeconfig, users and endpoints included, is the same for all orders exactly when the clusters that can be the last to write a shared user or endpoint name agree on its entry |
| `BuilderOrder.RunLogOrdered` | pkg/k8s/kubeconfig/builder.go:136-173 | a build merges no cluster twice, and each one after every resolvable parent that it is built through |
| `BuilderOrder.TopMergedLast` | pkg/k8s/kubeconfig/builder.go:289-305 | any cluster that is not overruled by one built through it has an order of AllClusters in which its own entry of a shared name survives |
| `BuilderFirst.ContextsIndependentIff` | pkg/k8s/kubeconfig/builder.go:116-134 | without a given client, the contexts of a site-wide build are the same for all orders exactly when all clients that can be the first resolve the same clusters to the same contexts |
| `BuilderFirst.UngivenBuild` | pkg/k8s/kubeconfig/builder.go:220-226 | where each reading makes a client, each site-wide build without a given one ends with a possible first one, or none, and is the build with that client |
| `BuilderFirst.RunRealises` | pkg/k8s/kubeconfig/builder.go:220-226 | each possible first client is the one that some order ends with: that of the first parent reached, as it reads after any of the clusters built without a client |
| `BuilderFirst.MakesFirst` | pkg/k8s/kubeconfig/builder.go:199-236 | building a cluster makes the client of the first parent up its chain that files or the bundle give, as that parent then reads |
| `BuilderLimits.OrderShowsWithoutClient` | pkg/k8s/kubeconfig/builder.go:220-226 | where two parents make different clients, two orders of the same two clusters give different contexts: the first parent reached decides the client for good |
| `BuilderLimits.OrderShowsWhenUnmade` | pkg/k8s/kubeconfig/builder.go:220-226 | the order also shows where one client can be made but one parent makes none: its child is lost if named first |
| `KubeconfigBuilder.Builder.BuildKubeconfig` | pkg/k8s/kubeconfig/builder.go:116-134 | the loop of the builder object takes the specified transition; a site-wide build returns no error, a named one exactly for unknown names, and a fresh site-wide build with its client settled holds exactly the resolvable clusters |
| `KubeconfigBuilder.Builder.BuildInTurn` | pkg/k8s/kubeconfig/builder.go:118-132 | the loop over the names builds each in turn, sets the current context where one name was asked for, and stops only at an unknown name |
| `KubeconfigBuilder.Builder.BuildOne` | pkg/k8s/kubeconfig/builder.go:136-173 | recursion, cache test and source loop of the object take the specified transition and end |
| `KubeconfigBuilder.Builder.TrySource` | pkg/k8s/kubeconfig/builder.go:175-197 | the switch over the source types changes site and client only as specified; for a file or the bundle it changes nothing and returns exactly what the source supplies |
| `KubeconfigBuilder.Builder.FromClusterAPI` | pkg/k8s/kubeconfig/builder.go:199-236 | the parent is built first and the client is made at most once, from the first parent reached; without a parent nothing changes |
| `DistinguishedNames.DnParser.Parse` | pkg/document/plugin/templater/extlib/crypto.go:112-144 | Parse accepts exactly the text that escaping prints for a non-empty list of backslash-free pairs joined by / or +, and leaves precisely their key=value texts |
| `DistinguishedNames.DnParser.ParseParam` | pkg/document/plugin/templater/extlib/crypto.go:57-72 | one character of a key, on the fields of the parser object |
| `DistinguishedNames.DnParser.ParseValue` | pkg/document/plugin/templater/extlib/crypto.go:74-88 | one character of a value, a separator closing the pair |
| `DistinguishedNames.DnParser.ParseEscape` | pkg/document/plugin/templater/extlib/crypto.go:90-110 | the character after a backslash is taken only if it is one of the eight special ones |
| `DistinguishedNames.ParsePrinted` | pkg/document/plugin/templater/extlib/crypto.go:112-144 | printed pairs parse back to themselves, in order |
| `DistinguishedNames.RecoverKey` | pkg/document/plugin/templater/extlib/crypto.go:57-110 | whatever the scanner accepts, it was printed: the pairs can be read off |
| `DistinguishedNames.ParseAccepts` | pkg/document/plugin/templater/extlib/crypto.go:112-144 | both directions together, for every string |
| `SubjectNames.NameFromString` | pkg/document/plugin/templater/extlib/crypto.go:152-173 | the dispatch on the first character; it crashes exactly on the empty string |
| `NameMeanings.NameAccepts` | pkg/document/plugin/templater/extlib/crypto.go:152-214 | which strings are accepted, and as which name: text without a leading slash as a common name, a lone slash as no name, and else exactly the printed lists of pairs with known keys and values without an equals sign that set CN and SERIALNUMBER once; the other attributes keep all their values in order |
| `NameMeanings.PairFails` | pkg/document/plugin/templater/extlib/crypto.go:175-214 | why one pair is refused: not one equals sign, an unknown key, or a single value that is set already |
| `SubjectNames.NameFromDn` | pkg/document/plugin/templater/extlib/crypto.go:175-214 | the loop over the pairs fills the name attribute by attribute and stops at the first bad pair |
| `SubjectNames.EntriesRebuild` | pkg/document/plugin/templater/extlib/crypto.go:175-214 | adding the printed entries of any name to an empty one gives the name back |
| `SubjectNames.BackslashFails` | pkg/document/plugin/templater/extlib/crypto.go:90-110 | a value with a backslash always makes the parser fail once it has been escaped, because no escaped backslash is accepted |
| `SubjectNames.NameRoundTrip` | pkg/document/plugin/templater/extlib/crypto.go:152-214 | reading a printed name gives the same name exactly when no value holds a backslash or an equals sign; every other name is refused |
| `YamlNodes.AtoiItoa` | pkg/document/plugin/kyamlutils/jsonpathfilter.go:99-106 | integers printed for literals read back as themselves within 64 bits, and not outside |
| `YamlNodes.AtoiMeans` | pkg/document/plugin/kyamlutils/jsonpathfilter.go:491-492 | which texts count as integers: digits with an optional sign, within 64 bits |
| `JsonPaths.IntegersCompare` | pkg/document/plugin/kyamlutils/jsonpathfilter.go:356-423 | the six operators compare a node that reads as an integer with an integer literal as the integers compare |
| `JsonPaths.LiteralsCompare` | pkg/document/plugin/kyamlutils/jsonpathfilter.go:107-122 | float, text and truth literals compare by value and by text |
| `Comparisons.DeepEqSymmetric` | pkg/document/plugin/kyamlutils/jsonpathfilter.go:425-442 | equality of trees does not depend on the order of its arguments, in its answer or in its failure |
| `Comparisons.ScalarsOrdered` | pkg/document/plugin/kyamlutils/jsonpathfilter.go:291-315 | on scalars the six operators fail together; <=, >= and != agree with <, == and >, and exactly one of these three holds unless a NaN is involved, when none does |
| `Comparisons.CompareFails` | pkg/document/plugin/kyamlutils/jsonpathfilter.go:291-315 | when a comparison fails: other operators than == on nodes that are neither scalar nor null, unknown operators, and scalars that do not read as the numbers they are tagged as |
| `Comparisons.TreesCompare` | pkg/document/plugin/kyamlutils/jsonpathfilter.go:425-442 | trees are equal exactly if they have as many children and these are equal in pairs; otherwise the first pair decides |
| `Comparisons.FloatsCompare` | pkg/document/plugin/kyamlutils/jsonpathfilter.go:342-389 | finite floats compare as real numbers, between the infinities |
| `Comparisons.TextsCompare` | pkg/document/plugin/kyamlutils/jsonpathfilter.go:342-423 | untagged scalars compare by their text, in the order of code points |
| `JsonPaths.SliceBounds` | pkg/document/plugin/kyamlutils/jsonpathfilter.go:194-235 | accepted bounds satisfy 0 <= min < length, min <= max <= length and step >= 1 |
| `JsonPaths.SliceMeaning` | pkg/document/plugin/kyamlutils/jsonpathfilter.go:194-235 | the bounds of a written slice: negative ends count from the end, missing parts mean everything, and ends outside the array are refused instead of clamped |
| `JsonPaths.IndexBounds` | pkg/document/plugin/kyamlutils/jsonpathfilter.go:194-235 | an index selects exactly one element for -length <= i < length, and fails otherwise |
| `JsonPositions.StepsMeaning` | pkg/document/plugin/kyamlutils/jsonpathfilter.go:187-189 | the slice loop visits exactly min, min+step, ... below max, in increasing order |
| `JsonPositions.FieldValuesMeaning` | pkg/document/plugin/kyamlutils/jsonpathfilter.go:323-336 | on a mapping with distinct keys, a wildcard visits exactly the values, in document order |
| `JsonMeaning.PassesMeans` | pkg/document/plugin/kyamlutils/jsonpathfilter.go:249-286 | an item passes a filter exactly when both sides denote a node there and the two compare |
| `JsonEvaluation.FilterEvaluates` | pkg/document/plugin/kyamlutils/jsonpathfilter.go:249-286 | a filter fails at an item exactly if a side fails or gives more than one node, or both give one and these do not compare; an item at which a side gives nothing is skipped |
| `JsonEvaluation.SelectEvaluates` | pkg/document/plugin/kyamlutils/jsonpathfilter.go:147-340 | when one segment applies to one node: kinds, bounds, and all items of a filter |
| `JsonEvaluation.QueryEvaluates` | pkg/document/plugin/kyamlutils/jsonpathfilter.go:85-94 | a query evaluates exactly if at every segment all nodes that the loop takes fit it |
| `JsonEvaluation.TameQueryEvaluates` | pkg/document/plugin/kyamlutils/jsonpathfilter.go:85-340 | a query whose slices are reached by fields and indexes only evaluates exactly if each segment applies to all nodes that the query before it denotes |
| `JsonMeaning.GatherLocates` | pkg/document/plugin/kyamlutils/jsonpathfilter.go:147-192 | one segment at many nodes, at none of which an empty slice ends the loop, yields exactly the selected children, in document order |
| `JsonMeaning.WalkLocates` | pkg/document/plugin/kyamlutils/jsonpathfilter.go:85-94 | from any starting positions, a query that evaluates yields nodes at denoted positions, in document order, and all of them exactly when no loop leaves out a node from which the rest of the query denotes another; filters are assumed to lose nothing on their sides |
| `JsonMeaning.QueryYieldsDenoted` | pkg/document/plugin/kyamlutils/jsonpathfilter.go:85-340 | a query of fields, indexes, slices, wildcards and filters that evaluates yields exactly the nodes at the positions it denotes, in document order, if neither its slices nor those of its filters leave out a node that leads to a denoted one |
| `JsonMeaning.QueryExact` | pkg/document/plugin/kyamlutils/jsonpathfilter.go:85-340 | and if its filters lose nothing, the result is the denoted nodes in document order exactly when its own slices leave out no node that leads to a denoted one by the rest of the query |
| `JsonSlices.SliceLoopExact` | pkg/document/plugin/kyamlutils/jsonpathfilter.go:170-192 | the slice loop returns all selected nodes exactly when no node with an empty slice comes before one with something to select |
| `JsonSlices.TameLosesNothing` | pkg/document/plugin/kyamlutils/jsonpathfilter.go:170-192 | queries whose slices are reached by fields and indexes only never lose a node, whatever the document |
| `JsonSlices.TameQueryYieldsDenoted` | pkg/document/plugin/kyamlutils/jsonpathfilter.go:85-340 | so such queries yield exactly the denoted nodes on every document with distinct keys |
| `JsonSlices.SliceLosesRow` | pkg/document/plugin/kyamlutils/jsonpathfilter.go:183-185 | [*][1:-1] on rows of two and three items yields nothing although it denotes an item of the second row |
| `JsonPathFilter.WalkNodes` | pkg/document/plugin/kyamlutils/jsonpathfilter.go:85-94 | the loop over the segments computes the specified evaluation |
| `JsonPathFilter.GetByField` | pkg/document/plugin/kyamlutils/jsonpathfilter.go:96-145 | the dispatch on the segment type, with Create off |
| `JsonPathFilter.DoField` | pkg/document/plugin/kyamlutils/jsonpathfilter.go:147-168 | the loop over the nodes collects the named fields, and fails on a node of another kind |
| `JsonPathFilter.DoArray` | pkg/document/plugin/kyamlutils/jsonpathfilter.go:170-192 | the slice loop with its early return |
| `JsonPathFilter.TakeSteps` | pkg/document/plugin/kyamlutils/jsonpathfilter.go:187-189 | the inner loop ends and takes exactly the stepped items |
| `JsonPathFilter.DoFilter` | pkg/document/plugin/kyamlutils/jsonpathfilter.go:237-289 | the loop over the nodes of a filter |
| `JsonPathFilter.FilterItems` | pkg/document/plugin/kyamlutils/jsonpathfilter.go:249-286 | the loop over the items of one node stops at the first item that fails to evaluate |
| `JsonPathFilter.ItemPasses` | pkg/document/plugin/kyamlutils/jsonpathfilter.go:253-285 | both sides are evaluated at the item, in this order, each giving one node, none or an error |
| `JsonPathFilter.DoWildcard` | pkg/document/plugin/kyamlutils/jsonpathfilter.go:317-340 | the wildcard loop over sequences and mappings |
| `LegacyPaths.ConvertFromLegacyQuery` | pkg/document/plugin/kyamlutils/jsonpathfilter.go:444-488 | the character loop with its start index takes the specified translation |
| `LegacyPaths.QueryKinds` | pkg/document/plugin/kyamlutils/jsonpathfilter.go:444-448 | a query in braces is left as it is but for the white space around it, any other one is a legacy path without that white space |
| `LegacyPaths.ConversionFailures` | pkg/document/plugin/kyamlutils/jsonpathfilter.go:444-510 | the translation crashes exactly on paths that, after dots, start with an index or filter bracket; any other path fails exactly at a [ inside brackets or a ] outside them |
| `LegacyPaths.ConversionRenders` | pkg/document/plugin/kyamlutils/jsonpathfilter.go:444-528 | a well-formed path that starts with a field is translated part by part into known text |
| `LegacyQueries.ConversionFaithful` | pkg/document/plugin/kyamlutils/jsonpathfilter.go:444-528 | that text reads as exactly the segments the path stands for if and only if no dotted index stands right before a bracket, no empty key before a name, no index has a plus sign, and nothing but dots needs quoting |
| `LegacyQueries.ReadKeyValue` | pkg/document/plugin/kyamlutils/jsonpathfilter.go:497-501 | [k=v] becomes a filter text that reads as comparing field k with text v exactly when neither holds a character with a meaning of its own; otherwise it reads as something else or not at all |
| `LegacyQueries.ApostropheFails` | pkg/document/plugin/kyamlutils/jsonpathfilter.go:497-501 | a[b='] becomes a filter whose text ends too early |
| `LegacyQueries.DottedIndexFails` | pkg/document/plugin/kyamlutils/jsonpathfilter.go:512-528 | a.0[1] becomes a query for a field named 0 |
| `LegacyQueries.LegacyQueryConverts` | pkg/document/plugin/kyamlutils/jsonpathfilter.go:444-488 | the same for queries with white space around the path |
| `FieldPaths.LookIsWalk` | pkg/document/plugin/kyamlutils/jsonpathfilter.go:85-192 | reading a field/index path is evaluating its query: it finds one node, none, or fails, in the same cases |
| `FieldPaths.PutGet` | pkg/document/plugin/kyamlutils/jsonpathfilter.go:124-131 | a path written in Create mode reads back the written value |
| `FieldPaths.PutGetOther` | pkg/document/plugin/kyamlutils/jsonpathfilter.go:124-131 | every path that neither leads through the written one nor through which it leads is left as it was, created fields included |
| `FieldPaths.PutPut` | pkg/document/plugin/kyamlutils/jsonpathfilter.go:124-131 | only the last of two writes to a path shows |
| `FieldPaths.PutSucceeds` | pkg/document/plugin/kyamlutils/jsonpathfilter.go:124-131 | a path can be written exactly if it exists, or if from some reference on it names fields that are missing in a mapping that exists |
| `FieldPaths.PutCreates` | pkg/document/plugin/kyamlutils/jsonpathfilter.go:124-131 | a missing field goes behind the entries that are there, and leads to the written value |
| `FieldPaths.PutOther` | pkg/document/plugin/kyamlutils/jsonpathfilter.go:124-131 | whether a path can be written does not depend on a write to another that parts ways with it |
| `FieldPaths.DivergeNoOverlap` | pkg/document/plugin/kyamlutils/jsonpathfilter.go:124-131 | paths that part ways at a field name, or at indexes counted from the same end, never overlap in any document |
| `FieldPaths.PutInPlace` | pkg/document/plugin/kyamlutils/jsonpathfilter.go:85-131 | the walk in Create mode, which makes each missing field before it goes on, and then the mutation, write exactly what one write specifies |
| `Replacements.Transformer.Filter` | pkg/document/plugin/replacement/transformer.go:75-94 | the loops over replacements and targets overwrite the document list as specified |
| `Replacements.Transformer.Replace` | pkg/document/plugin/replacement/transformer.go:144-182 | all selected documents of a target are written, or the target is reported as not found |
| `Replacements.Transformer.ReplaceFields` | pkg/document/plugin/replacement/transformer.go:154-181 | the inner loop over the field references, which encodes the value where asked to, and stops at the first failure |
| `Replacements.SourceIsUnique` | pkg/document/plugin/replacement/transformer.go:96-133 | a source that reads a field reads it in the only selected document, decoded where asked to |
| `Replacements.OneTargetSpreads` | pkg/document/plugin/replacement/transformer.go:75-182 | a replacement with one target field: every selected document reads the source value there, in base64 if asked for, and no other document changes |
| `Replacements.TransformIsWrites` | pkg/document/plugin/replacement/transformer.go:75-94 | a successful run is the run of a list of writes, each to the path of some target field |
| `Replacements.TransformFrames` | pkg/document/plugin/replacement/transformer.go:75-94 | a successful run keeps number and order of the documents and every path that parts ways with all target paths |
| `Replacements.TransformReadsBack` | pkg/document/plugin/replacement/transformer.go:75-94 | after a successful run every write reads back at its path, if all later writes to its document part ways with it: its value, or without a value what was there before, or an empty mapping |
| `Replacements.LogReadsBack` | pkg/document/plugin/replacement/transformer.go:135-142 | the same for any list of writes |
| `ReplacementRuns.SourceExact` | pkg/document/plugin/replacement/transformer.go:96-133 | what a source stands for: its literal text, or the field of the only selected document, decoded where asked to; and when none or several are selected |
| `ReplacementRuns.TargetWritesAt` | pkg/document/plugin/replacement/transformer.go:154-181 | a target writes every field in every selected document, document by document and field by field |
| `ReplacementRuns.TargetMeans` | pkg/document/plugin/replacement/transformer.go:144-182 | a target succeeds exactly if it selects a document and all its fields can be written in each; each selected document gets all fields, the others stay |
| `ReplacementRuns.FieldsMean` | pkg/document/plugin/replacement/transformer.go:154-181 | fields that part ways can be written exactly if each of them can, and then all read what was written |
| `ReplacementRuns.LogComplete` | pkg/document/plugin/replacement/transformer.go:75-94 | the log of a successful run is complete: each target of each replacement adds, in the order of the loops, all its writes in the documents that it selects at its turn, with the value of the source |
| `ReplacementRuns.RunSucceeds` | pkg/document/plugin/replacement/transformer.go:75-94 | a run succeeds exactly if each source has a value when its replacement begins and each target fits at its turn |
| `ReplacementRuns.RunSpreads` | pkg/document/plugin/replacement/transformer.go:75-182 | after a successful run every field of a target reads the (encoded) value in every document that the target selected, if the fields of the target and all later ones part ways with it |
| `ReplacementRuns.UnselectedStay` | pkg/document/plugin/replacement/transformer.go:75-182 | a document that no target selects is left as it is |
| `RedfishTraces.BootstrapOrder` | pkg/remote/redfish/client.go:321-361 | in a complete run, in this order: the host is known to be off, a manager lists its devices and each is seen empty, a device is seen that offers a disc type, the image goes into the device of that id under the manager looked up last, a device is seen once more that offers a disc type, an allowed boot target that matches that type is set, the host is switched on, and it is observed on |
| `RedfishTraces.BootTypeExact` | pkg/remote/redfish/client.go:169-206 | in such a run the boot target matches the type of the device searched for the image exactly when the second search ended at the same type |
| `RedfishTraces.SameAnswersSameDisc` | pkg/remote/redfish/utils.go:153-186 | two searches that get the same answers, as far as both go, end at the same device with the same type |
| `RedfishTraces.OtherTypeBoots` | pkg/remote/redfish/client.go:169-206 | a controller whose second list of devices has another one first: a complete run whose answers all pass inserts the image into a device seen as CD and boots from DVD |
| `RedfishTraces.ImageIntoSeenDevice` | pkg/remote/redfish/client.go:217-237 | the image goes into the very device that was seen exactly when the lookup before the insert names the manager of the search |
| `RedfishTraces.ImageIntoEmptiedDevice` | pkg/remote/redfish/client.go:213-237 | that device was seen empty exactly when the lookup names the manager whose devices were emptied and its list held the device |
| `RedfishTraces.OtherManagerGetsImage` | pkg/remote/redfish/client.go:223-235 | a controller that names another manager at the last lookup gets the image into a device that was neither searched nor emptied |
| `RedfishClient.Client.RemoteDirect` | pkg/remote/redfish/client.go:321-361 | against any controller: success only on a complete run with a non-empty image; on every run, however it ends, nothing is sent after an answer that fails its screening, each insert, boot target and reset comes after all that it needs, and at most 15 + 2 retries + d (retries + 4) requests are sent, where no answer lists more than d devices; if it fails although all answers pass, then for a stated reason: a power state or an eject that never shows, no image, no disc device, or no allowed boot target of its type |
| `RedfishClient.Client.EjectVirtualMedia` | pkg/remote/redfish/client.go:73-130 | success means that each device that the manager lists was last seen empty; on every run a device is ejected only right after it was read as holding something; it fails on passing answers only if a listed device never shows empty |
| `RedfishClient.Client.WaitForEject` | pkg/remote/redfish/client.go:75-90 | at most retries polls, and success only on a poll that shows the device empty; it fails on passing answers only after all polls have shown it inserted |
| `RedfishClient.Client.EjectDevice` | pkg/remote/redfish/client.go:104-127 | a device is ejected only right after it was read as holding something, and is seen empty at the end of a success; it fails on passing answers only if all polls after the eject show it inserted |
| `RedfishClient.Client.SetVirtualMedia` | pkg/remote/redfish/client.go:210-243 | on every run the image is inserted only after all devices of a manager are seen empty, a disc device is found and the manager is looked up once more; success means that the insert was accepted; it fails on passing answers only if a device never shows empty or none offers a disc type |
| `RedfishClient.Client.SetBootSourceByType` | pkg/remote/redfish/client.go:169-206 | on every run a boot target is set only if it is one of the allowed ones and matches, ignoring case, the type of the disc device just found, and is the first such; it fails on passing answers only if no device offers a disc type or no allowed target matches its type |
| `RedfishClient.Client.RebootSystem` | pkg/remote/redfish/client.go:133-165 | the host is switched on only right after it was observed off, within a bounded number of requests; it fails on passing answers only if all polls for off, or then for on, miss it |
| `RedfishClient.Client.SystemPowerOff` | pkg/remote/redfish/client.go:246-264 | success means observed off after the reset, or a refusal with 409; it fails on passing answers only if all polls miss off |
| `RedfishClient.Client.SystemPowerOn` | pkg/remote/redfish/client.go:267-283 | success means an accepted reset and the host observed on; it fails on passing answers only if all polls miss on |
| `RedfishClient.Client.SystemPowerStatus` | pkg/remote/redfish/client.go:286-313 | one read, and the state it shows |
| `RedfishClient.Client.WaitForPowerState` | pkg/remote/redfish/utils.go:279-301 | at most retries + 1 polls, each a read, and success exactly on passing polls the last of which shows the state; on passing answers it fails only after retries + 1 polls that do not |
| `RedfishClient.Client.GetVirtualMediaID` | pkg/remote/redfish/utils.go:153-186 | the devices of the manager are read in the order of the list up to the first that offers CD or DVD; without a failed answer the search fails only if none does |
| `RedfishClient.Client.DiscOf` | pkg/remote/redfish/utils.go:168-181 | one screened read of the device: it fails exactly when the answer is not a success, crashes exactly where an accepted answer has no media types, and else gives the first disc type |
| `RedfishClient.Client.ScreenedManagerID` | pkg/remote/redfish/utils.go:115-124 | one screened read of the system: it fails exactly when the answer is not a success, crashes exactly on a missing pointer, and else returns the manager shown |
| `RedfishClient.Client.ManagerID` | pkg/remote/redfish/utils.go:254-262 | the same, but it fails exactly on a client error, whatever the status is |
| `ConfigModel.CommandsKeepComplete` | pkg/config/config.go:141-174 | from a complete file every command leads to a complete one, except exactly a stored use-context of "" or of a context without a manifest |
| `ConfigModel.FailedCommandsChangeNothing` | pkg/config/config.go:185-221 | given that a failed write leaves the old file, a failed command leaves the file as it was, unless only the change of its permission failed |
| `ConfigModel.RunsKeepInvariants` | pkg/config/config_helper.go:50-213 | over every run, at most one of commit hash, branch and tag stays set in each repository, and completeness stays if use-context gets usable names |
| `ConfigModel.CommandsKeepExclusive` | pkg/config/config.go:405-493 | no command stores a repository with two checkout kinds, although adding a manifest swallows its error |
| `ConfigModel.IncompleteIsStuck` | pkg/config/config.go:141-174 | once the stored file is incomplete none of the four commands can change it any more |
| `ConfigModel.SetContextStores` | pkg/config/config_helper.go:50-86 | a set-context that succeeds stores the last of the options for each field in the one context, and changes nothing else |
| `ConfigModel.SetManifestStores` | pkg/config/config.go:416-493 | a set-manifest that succeeds on a repository of a known manifest stores what was given, leaves exactly one checkout kind, and changes no other repository, manifest or context |
| `ConfigModel.CheckoutKindIsFixed` | pkg/config/config.go:462-493 | a stored checkout of one kind cannot be given another one: the command is refused and the file stays |
| `ConfigResults.SetContextSucceeds` | pkg/config/config_helper.go:50-86 | set-context succeeds exactly if the file is complete, the context has a name, the current context keeps a known manifest, and output and file can be written |
| `ConfigResults.UseContextSucceeds` | pkg/config/config_helper.go:169-181 | use-context succeeds exactly if the file is complete and the context known, and the file can be written unless it is current already; only the current context changes |
| `ConfigResults.SetManagementStores` | pkg/config/config_helper.go:134-166 | when set-management-config succeeds; of several options for a field the last counts, fields without an option keep their value or the default, and nothing else changes |
| `ConfigResults.KnownManifestStores` | pkg/config/config_helper.go:184-213 | on a known manifest set-manifest succeeds exactly if the options are valid, a repository for phases is known or has a url, and with what is stored there is exactly one kind of checkout; every field is then as given or as before |
| `ConfigResults.NewManifestStores` | pkg/config/config_helper.go:184-213 | on a new manifest it succeeds whether or not the change fits, and what it stores in either case |
| `ConfigResults.ValidateFails` | pkg/config/options.go:148-166 | which set-manifest options are refused before anything else, and why |
| `ConfigResults.KnownManifestFails` | pkg/config/config.go:416-493 | why a set-manifest with valid options is refused on a known manifest: no such repository for phases, too many kinds of checkout or none, or a missing pointer |
| `ConfigResults.PermissionComesLast` | pkg/config/config.go:185-221 | where only the permission step fails, the file is written as if it had not |
| `ConfigResults.OutsideFails` | pkg/config/config.go:185-221 | a command that could succeed fails exactly at the first step outside the program that does: output, directory, write, permission |
| `ConfigCommands.Storage.ExecuteCommand` | pkg/config/config_helper.go:50-213 | the commands on the loaded object end with the specified file and error, and keep both invariants |
| `ConfigCommands.Storage.PersistConfig` | pkg/config/config.go:185-221 | the file is replaced once directory and write succeed, even if the permission change then fails |
| `ConfigCommands.Storage.SetContextIn` | pkg/config/config_helper.go:50-86 | add or modify, check, report, persist, in this order |
| `ConfigCommands.Storage.SetManagementIn` | pkg/config/config_helper.go:134-166 | the same for management configurations |
| `ConfigCommands.Storage.UseContextIn` | pkg/config/config_helper.go:169-181 | the name must be a context, but the result is not checked for completeness |
| `ConfigCommands.Storage.SetManifestIn` | pkg/config/config_helper.go:184-213 | a new manifest is stored even if filling it in fails; a known one only if it succeeds |
| `ConfigCommands.ConfigObject.EnsureComplete` | pkg/config/config.go:141-174 | the checks in order amount to completeness |
| `ConfigCommands.ConfigObject.AddContext` | pkg/config/config.go:286-295 | the new context and the options applied to it |
| `ConfigCommands.ConfigObject.ModifyContextEntry` | pkg/config/config.go:298-302 | the options applied in turn to one context, the others unchanged |
| `ConfigCommands.ConfigObject.AddManagementConfig` | pkg/config/config.go:532-540 | the default management configuration and the options applied to it |
| `ConfigCommands.ConfigObject.ModifyManagementConfig` | pkg/config/config.go:543-547 | the options applied in turn to one management configuration |
| `ConfigCommands.ConfigObject.AddManifest` | pkg/config/config.go:405-413 | the default manifest, changed as far as the change got, with its error dropped |
| `ConfigCommands.ConfigObject.ModifyStoredManifest` | pkg/config/config.go:416-448 | fields are kept even if the repository step fails afterwards |
| `ConfigCommands.ConfigObject.AddRepository` | pkg/config/config.go:451-459 | a fresh repository is entered before it is filled in |
| `ConfigCommands.ConfigObject.ModifyStoredRepository` | pkg/config/config.go:462-493 | changes stay in the object although two kinds, or none, are reported |
| `PlanRunner.Plan.Run` | pkg/phase/client.go:266-288 | a run attempts a prefix of the phases from the resume point (all of them without a resume name, or with one that no phase has), in order, stops at the first failure, and succeeds exactly if all are done |
| `PlanRunner.Plan.ResumeAt` | pkg/phase/client.go:267-274 | the phase list is cut off before the first phase of the resume name, and stays whole if there is no name or no such phase |
| `PlanRunner.FromMeans` | pkg/phase/client.go:267-274 | what is left to run is determined by that |
| `PlanRunner.CompletedPrefix` | pkg/phase/client.go:276-287 | what a run completes is a prefix of its phases: all of them, or all before the failed one |
| `PlanRunner.ResumeCompletes` | pkg/phase/client.go:266-288 | a failed run and a successful one resumed at the failed phase complete every phase exactly once and in order, exactly when no earlier phase has the name of the failed one and that name is not empty unless it is the first phase |
| `FunctionOrder.FunctionsSortable` | pkg/container/runfn/runfn.go:345-402 | what the comparison reads off any list of functions with integer indexes is consistent: the path decides the scope and the scope its depth |
| `FunctionOrder.LessIsStrict` | pkg/container/runfn/runfn.go:345-409 | the comparison is irreflexive and transitive on functions with integer indexes |
| `FunctionOrder.TiedAcrossFiles` | pkg/container/runfn/runfn.go:373-408 | functions of different files are tied exactly when their files have the same scope |
| `FunctionOrder.WeakOrderIffUnmixed` | pkg/container/runfn/runfn.go:345-409 | it is a weak order on a list exactly when no scope holds two files one of which contributes two different indexes |
| `FunctionOrder.UnmixedSortRunsInOrder` | pkg/container/runfn/runfn.go:340-412 | on such lists, sorted neighbours mean that no later function comes before an earlier one |
| `FunctionOrder.RunsInOrderMeans` | pkg/container/runfn/runfn.go:340-412 | that is: deeper directories first, and index order within a file |
| `FunctionScopes.ScopeMeans` | pkg/container/runfn/runfn.go:373-398 | for paths whose elements cleaning keeps, the scope is the directory of the file, or the one above if that is named functions, and the depth is the number of its directories |
| `FunctionScopes.RunsInOrderIff` | pkg/container/runfn/runfn.go:345-409 | running in order means exactly: within a file by index, otherwise deeper scopes first and equally deep ones in the order of their names |
| `FunctionScopes.DeeperFirst` | pkg/container/runfn/runfn.go:340-412 | so functions of deeper directories run first |
| `FunctionOrder.MixedSortMisleads` | pkg/container/runfn/runfn.go:345-409 | any three functions that break the condition have an order with sorted neighbours that runs one file backwards |

## Left out

- Kubeconfig text: `clientcmd.Write` and `Load` are the identity, and files, bundle, secrets and new clients are fixed maps.
- Waiting for a secret to appear, time limits, and the temporary file of a parent kubeconfig beyond one flag that says whether it can be written.
- BuilderFirst.ContextsIndependentIff: assumes that each reading of a first-reached parent makes a client. Where one makes none, a cluster that failed before the client came is lost or not depending on what is named later, and no condition on the clients alone decides it (BuilderLimits.OrderShowsWhenUnmade); closure and errors are proved there as well.
- JsonMeaning.QueryExact: the exact condition is for the loops of the query itself; that its filters lose nothing on their sides is a sufficient condition, because a filter that loses a node may still decide as it should.
- BuilderOrder.OrderIndependentIff: without a given client it covers maps where only one client can be made; for several, only the contexts have their exact condition.
- Nil entries in a cluster map, nil YAML nodes and YAML aliases.
- The JSONPath text parser, beyond what LegacyQueries.ReadQuery reads: queries are given as parsed segments, and mappings are assumed to have distinct keys where a query's meaning is stated.
- Reading floating-point text is a parameter; comparisons treat NaN and the infinities as Go does.
- FieldPaths.PutInPlace: target paths of fields and indexes only; wildcards and filters in Create mode, which may create fields while they evaluate, and empty field names are not modelled.
- FieldPaths.PutGet: a null node on the way of a write ends in an error of its own, because what happens there is up to the YAML library.
- Replacements.Transformer.Filter: the value is taken by copy at the start of a replacement, so sharing of mappings and sequences between documents, and a source that is itself re-encoded as a target, are not modelled.
- Replacements.TransformReadsBack: writes from a source field that is missing are modelled as creating the target and leaving an existing value alone, which is up to the YAML library.
- Substring patterns in replacements, which need regular expressions.
- LegacyQueries.ConversionFaithful: covers paths that start with a field and filters with a single equals sign; any other path only has its failures described. The JSONPath parser of the Kubernetes client library is not part of this model: LegacyQueries.ReadQuery follows its grammar for names, indexes and filters that compare a field with a text, and reads nothing else. It also refuses every filter whose field name holds a quote or a parenthesis.
- Text is a sequence of characters; invalid UTF-8 is not modelled.
- Redfish messages: decoding of extended errors, authentication, sleeping, and device addresses that are missing or do not parse.
- The Dell variant of the client, ephemeral bootstrap and the status poller.
- ConfigModel.FailedCommandsChangeNothing: a write that fails half-way, and so leaves a truncated file, is not modelled.
- ConfigModel.IncompleteIsStuck: says nothing of config init, which replaces the file.
- The YAML form of the configuration file and its reload, the validation of command-line flags, and set-manifest without writing to storage.
- Plan validation and status, and what a phase executor does.
- FunctionScopes.ScopeMeans: relative paths without empty elements, dots and double dots; what cleaning makes of these is modelled but not described.
- The sorting algorithm behind sortFns and its remembered error: what is proved holds for every result with sorted neighbours.
- Certificate and key generation, templates, Docker, git and kustomize calls, and the command-line layer.
