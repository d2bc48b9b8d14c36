# ProjectInsight core, modelled in Dafny

ProjectInsight analyses a Python code base and draws its architecture. It
parses every source file of a project, lifts the function-level call graph to
components (classes and public module-level functions), discovers semantic
links between components (registration, inheritance, decoration, werkzeug
proxies), traces concept flow and producer/consumer behaviour, and renders
the results as Graphviz diagrams. An incremental cache keeps per-file
results between runs. An interactive wizard asks the user to narrow the
analysis of a large project.

This project models the logic around the foreign parsers and renderers, one
Dafny module per source file:

- the cache state machine (`CacheManagement`, a class with `load`, `get`,
  `update`, `prune` and `save`);
- the five graph builders (`ComponentBuilder`, `FlowBuilder`,
  `DependencyBuilder`, `ConceptFlowBuilder`, `DynamicBehaviorBuilder`);
- the analysers over abstract syntax trees whose resolved names are given
  (`SemanticLinkAnalyzer`, `DynamicBehaviorAnalyzer`, `ConceptFlowAnalyzer`,
  `SeedDiscoverer`, `ComponentParser`);
- scoring and recommendation (`HeuristicsScorer`, `EcosystemAnalyzer`,
  `InteractiveWizard`);
- configuration and orchestration (`ConfigLoader`, `ProjectProcessor`);
- utilities and the pure parts of the renderers (`ParserUtils`,
  `FileSystemUtils`, `ComponentRenderer`, `Renderer`).

Shared modules hold the vocabulary:

- `Wrappers` has Option and Result.
- `Strings` models the Python `str` operations used: `split`, `join`,
  `find`, `replace`, `lower`, `strip`, `removesuffix`, and code-point order.
- `Sorting` models `sorted` on sets and on lists.
- `Fqn` implements the longest-proper-dotted-prefix search that the builders
  and the semantic analyser share.
- `Graphs` defines edges and the node set derived from edges.

Code that mutates state in loops is modelled as methods with loop
invariants. Each such method is proved against a specification function, and
the properties the source promises are proved about that function as lemmas.
Read-only searches and expressions are modelled as functions.

Notes on what the code does, which the model follows:

- Cache keys are `str(path.relative_to(root))` with the operating system's
  separator, given as a parameter. They are not normalised to `/`.
- The builders take no focus, filter or semantic-edge arguments, because
  `build_component_graph_data` accepts none.
- The wizard's framework score is weighted by the entry-point weight, as the
  code is written.

## Model

| member | source | states |
|---|---|---|
| CacheManagement.RelativeKey | src/projectinsight/core/cache_manager.py:100-103 | a file has a cache key exactly when it lies under the project root |
| CacheManagement.LoadedEntries | src/projectinsight/core/cache_manager.py:59-87 | a missing or unreadable cache file, a wrong version or another configuration fingerprint all load no entries |
| CacheManagement.SaveLoadRoundTrip | src/projectinsight/core/cache_manager.py:164-169 | what a save writes loads back, under the same fingerprint, into exactly the saved entries |
| CacheManagement.OtherConfigLoadsEmpty | src/projectinsight/core/cache_manager.py:74-77 | a cache saved under another configuration fingerprint loads empty |
| CacheManagement.CacheManager.constructor | src/projectinsight/core/cache_manager.py:36-50 | a new manager keeps its root and fingerprint, has no entries and is not dirty |
| CacheManagement.CacheManager.Load | src/projectinsight/core/cache_manager.py:54-87 | loading replaces the entries with those the cache file validly holds for this configuration and leaves `dirty` alone |
| CacheManagement.CacheManager.Get | src/projectinsight/core/cache_manager.py:89-113 | a hit happens exactly for a file under the root whose entry's digest equals the file's current digest, and returns that entry's data |
| CacheManagement.CacheManager.Update | src/projectinsight/core/cache_manager.py:115-133 | a file under the root gets an entry with its current digest and the data, and the cache becomes dirty; other files change nothing |
| CacheManagement.CacheManager.RelativeKeys | src/projectinsight/core/cache_manager.py:142-146 | the keys of the current files, or failure exactly when one of them lies outside the root |
| CacheManagement.CacheManager.Prune | src/projectinsight/core/cache_manager.py:135-153 | the entries shrink to those of current files and the cache becomes dirty exactly when some entry went; nothing changes when a current file lies outside the root |
| CacheManagement.CacheManager.Save | src/projectinsight/core/cache_manager.py:155-184 | a dirty cache writes its version, fingerprint and entries and a successful write clears `dirty`; a clean cache writes nothing; a failed write keeps `dirty` |
| CacheManagement.Restrict | src/projectinsight/core/cache_manager.py:148-151 | the restriction holds exactly the keys in both the entries and the kept set, with their values |
| CacheManagement.PruneKeepsCurrent | src/projectinsight/core/cache_manager.py:148-151 | after pruning every entry belongs to a current file, and every current file's entry keeps its value |
| CacheManagement.UpdateThenGet | src/projectinsight/core/cache_manager.py:109-133 | after an update of a file under the root, a lookup with its content unchanged returns the new data |
| CacheManagement.SaveThenLoad | src/projectinsight/core/cache_manager.py:164-179 | a dirty cache saved successfully reloads, in a new manager with the same fingerprint, into exactly its entries |
| Fqn.LongestProperPrefixIn | src/projectinsight/builders/component_builder.py:22-26 | the search over ever shorter dotted prefixes finds a prefix exactly when one exists, and the one it finds is the longest proper dotted prefix in the set |
| Fqn.LongestProperPrefixUnique | src/projectinsight/builders/flow_builder.py:17-21 | the longest proper dotted prefix in a set is unique, so the backwards search has only one possible answer |
| Fqn.PrefixOfJoin | src/projectinsight/builders/flow_builder.py:17-19 | the first k dot-joined parts, a dot, and the rest joined back give the original dotted name |
| Graphs.CollectEndpoints | src/projectinsight/builders/flow_builder.py:46-49 | the node set collected from a set of edges is exactly the set of their endpoints |
| Graphs.CollectEndpointsOfList | src/projectinsight/builders/concept_flow_builder.py:27-31 | the node set collected from an edge list is exactly the set of endpoints of its edges |
| ComponentBuilder.ComponentForPath | src/projectinsight/builders/component_builder.py:17-33 | a name belongs to the longest enclosing known component when there is one; otherwise to itself when it is a top-level definition; otherwise to nothing |
| ComponentBuilder.Lift | src/projectinsight/builders/component_builder.py:49-54 | a lifted edge joins two non-empty, distinct components |
| ComponentBuilder.LiftEdges | src/projectinsight/builders/component_builder.py:46-54 | the loop over the call graph yields exactly the set of lifted edges |
| ComponentBuilder.CrossModuleEdges | src/projectinsight/builders/component_builder.py:57-64 | the internal-call filter keeps exactly the edges whose endpoints lie in different modules, a node's module being its mapped module or its name without the last segment |
| ComponentBuilder.GroupNodes | src/projectinsight/builders/component_builder.py:71-75 | the walk over the sorted nodes builds the grouping of nodes under their non-empty mapped module |
| ComponentBuilder.GroupByModuleMember | src/projectinsight/builders/component_builder.py:71-75 | a node is listed under a module if and only if it is one of the nodes and its mapped module is that module |
| ComponentBuilder.GroupByModuleKey | src/projectinsight/builders/component_builder.py:71-75 | no module is listed with an empty group |
| ComponentBuilder.GroupByModuleSorted | src/projectinsight/builders/component_builder.py:72-75 | walking the nodes in sorted order leaves every group sorted |
| ComponentBuilder.BuildComponentGraphData | src/projectinsight/builders/component_builder.py:36-82 | the edges are exactly the lifted (and, when internal calls are hidden, cross-module) edges, strictly sorted; the nodes are exactly their endpoints, strictly sorted; the grouping is by mapped module with sorted groups; docstrings pass through |
| ComponentBuilder.KeptEdgesWellFormed | src/projectinsight/builders/component_builder.py:49-64 | every kept edge joins two distinct non-empty names, each a known component or a known definition |
| ComponentBuilder.HiddenInternalCallsCrossModules | src/projectinsight/builders/component_builder.py:57-64 | with internal calls hidden, every kept edge crosses modules |
| FlowBuilder.ModulePathFromFuncPath | src/projectinsight/builders/flow_builder.py:15-22 | a function's module is the longest proper dotted prefix that is a known module, or the empty string when there is none |
| FlowBuilder.KeepCrossModule | src/projectinsight/builders/flow_builder.py:38-44 | the filter keeps exactly the call edges whose two endpoints have non-empty, different modules |
| FlowBuilder.BuildFlowGraphData | src/projectinsight/builders/flow_builder.py:25-54 | the edges are exactly the kept call edges, strictly sorted, and the nodes exactly their endpoints, strictly sorted |
| FlowBuilder.ShowInternalKeepsAll | src/projectinsight/builders/flow_builder.py:36-37 | showing internal calls keeps the call graph unchanged |
| FlowBuilder.FilteredEdgeModules | src/projectinsight/builders/flow_builder.py:38-44 | every edge kept by the filter comes from the call graph and its endpoints have distinct longest module prefixes |
| FlowBuilder.NoModulesNoEdges | src/projectinsight/builders/flow_builder.py:33-44 | hiding internal calls with no module list (an empty set) keeps no edge |
| DependencyBuilder.EdgesOfAdd | src/projectinsight/builders/dependency_builder.py:32-38 | visiting one more module adds exactly its internal dependencies as edges |
| DependencyBuilder.ParentDir | src/projectinsight/builders/dependency_builder.py:42-44 | a module's directory is its dotted parent, or the root package when it has none |
| DependencyBuilder.EdgesFrom | src/projectinsight/builders/dependency_builder.py:33-38 | the inner loop yields exactly the edges from the module to its internal dependencies |
| DependencyBuilder.GroupsByDirAdd | src/projectinsight/builders/dependency_builder.py:41-45 | appending a new node to its directory's list keeps every list duplicate-free and each node listed exactly under its own directory |
| DependencyBuilder.GroupByDir | src/projectinsight/builders/dependency_builder.py:40-45 | every node with an edge is listed once, under its parent directory, and nothing else is listed |
| DependencyBuilder.BuildGraphData | src/projectinsight/builders/dependency_builder.py:11-52 | the edges are exactly the internal-to-internal dependencies, strictly sorted, and the directory grouping holds exactly their endpoints (isolated modules are dropped) |
| DependencyBuilder.SelfDependencyKept | src/projectinsight/builders/dependency_builder.py:28-38 | an internal module that depends on itself keeps its self-edge |
| DependencyBuilder.EdgesAreInternal | src/projectinsight/builders/dependency_builder.py:28-38 | every node of the graph is a parsed module whose name starts with the root package |
| ConceptFlowBuilder.BuildConceptFlowGraphData | src/projectinsight/builders/concept_flow_builder.py:16-36 | the nodes are exactly the endpoints of the edges, strictly sorted; the edges are a sorted permutation of the input (a missing list counts as empty) |
| ConceptFlowBuilder.SortedEdgesSameMembers | src/projectinsight/builders/concept_flow_builder.py:35 | sorting keeps exactly the same edges |
| DynamicBehaviorBuilder.Writes | src/projectinsight/builders/dynamic_behavior_builder.py:29-34 | each link writes two node entries |
| DynamicBehaviorBuilder.BuildDynamicBehaviorGraphData | src/projectinsight/builders/dynamic_behavior_builder.py:16-41 | the nodes are the map produced by the writes in order; the edges are a permutation of the links sorted by (source, target) |
| DynamicBehaviorBuilder.AssignKeys | src/projectinsight/builders/dynamic_behavior_builder.py:33-34 | a caller is a node key if and only if some write uses it |
| DynamicBehaviorBuilder.AssignLastWriteWins | src/projectinsight/builders/dynamic_behavior_builder.py:33-34 | a caller's node entry is the last one written for it |
| DynamicBehaviorBuilder.NodesAreCallers | src/projectinsight/builders/dynamic_behavior_builder.py:29-34 | the node keys are exactly the producer and consumer callers of the links |
| DynamicBehaviorBuilder.WritesMembers | src/projectinsight/builders/dynamic_behavior_builder.py:29-34 | the writes are exactly the producer and consumer infos of the links |
| DynamicBehaviorBuilder.ConsumerWrittenAfterProducer | src/projectinsight/builders/dynamic_behavior_builder.py:33-34 | within a link the producer info is written first and the consumer info second |
| Fqn.LongestPrefixIndex | src/projectinsight/builders/flow_builder.py:18-22 | the index found is the largest one up to the bound whose dotted prefix is in the set, and 0 means no prefix up to the bound is |
| ParserUtils.IsNoise | src/projectinsight/utils/parser_utils.py:87-95 | a name is noise if and only if it is empty, starts with a global ignore prefix, or starts with one of the extra prefixes |
| ParserUtils.NoiseExtends | src/projectinsight/utils/parser_utils.py:87-95 | every name that extends a non-empty noisy name is noise too |
| ParserUtils.MoreExtraPrefixes | src/projectinsight/utils/parser_utils.py:92-95 | noise under some extra prefixes stays noise under any superset of them |
| ParserUtils.GlobalPrefixesLong | src/projectinsight/utils/parser_utils.py:10-74 | every global ignore prefix has at least three characters |
| ParserUtils.OsNotGlobal | src/projectinsight/utils/parser_utils.py:10-74 | the bare name `os` starts with no global ignore prefix |
| ParserUtils.RawPrefixes | src/projectinsight/utils/parser_utils.py:57-74 | the prefixes are raw string prefixes: `os.path.join` is noise, `os` alone is not, and `libcst.matchers` matches the module itself |
| FileSystemUtils.Keep | src/projectinsight/utils/file_system_utils.py:59 | the kept entries are exactly the non-excluded children of the wanted kind |
| FileSystemUtils.Arrange | src/projectinsight/utils/file_system_utils.py:54-59 | a directory's listing holds exactly its children whose names match no exclusion pattern, with every directory before every file |
| FileSystemUtils.KeepOrder | src/projectinsight/utils/file_system_utils.py:59 | filtering keeps the listing order: of two kept entries, the earlier one comes first |
| FileSystemUtils.ArrangeStable | src/projectinsight/utils/file_system_utils.py:59 | the sort by `is_file` is stable: two visible directories, or two visible files, keep their listing order |
| FileSystemUtils.GenerateTreeStructure | src/projectinsight/utils/file_system_utils.py:31-71 | the lines are the tree listing of the start entry, the first line being its name and a slash |
| FileSystemUtils.Recurse | src/projectinsight/utils/file_system_utils.py:51-68 | the recursive walk appends exactly the listing of the directory under the given prefix to the lines so far |
| FileSystemUtils.ItemsStep | src/projectinsight/utils/file_system_utils.py:63-68 | each listed item adds its own line with a tee or, when last, an elbow, followed by its sub-listing under the extended prefix when it is a directory |
| FileSystemUtils.KeepWeights | src/projectinsight/utils/file_system_utils.py:59 | splitting the children into directories and files loses no listed line |
| FileSystemUtils.ListingCount | src/projectinsight/utils/file_system_utils.py:51-68 | a listing has one line per non-excluded entry below the directory that can be reached through readable directories |
| FileSystemUtils.ListingPrefixed | src/projectinsight/utils/file_system_utils.py:63-68 | every line of a listing starts with the listing's prefix |
| FileSystemUtils.LastEntryElbow | src/projectinsight/utils/file_system_utils.py:63-65 | the line for the last item of a directory uses the elbow pointer, every other item's line the tee |
| FileSystemUtils.TreeSize | src/projectinsight/utils/file_system_utils.py:46-71 | the tree has one header line plus one line per reachable entry; a file or an unreadable directory gives the header line alone |
| ComponentRenderer.FirstLayerColor | src/projectinsight/renderers/component_renderer.py:26-31 | no colour exactly when no non-root layer from that position on holds the node; otherwise the colour of the first layer, in order, that holds it |
| ComponentRenderer.RootLayerColor | src/projectinsight/renderers/component_renderer.py:33-34 | the `(root)` layer's colour exactly when there is such a layer |
| ComponentRenderer.NodeColor | src/projectinsight/renderers/component_renderer.py:22-36 | a node's colour is the default or the colour of one of the layers |
| ComponentRenderer.LayerColorWins | src/projectinsight/renderers/component_renderer.py:22-31 | a node inside a layer gets the colour of the first layer, in order, that holds it (the default when that layer has no colour) |
| ComponentRenderer.OutsideLayersColor | src/projectinsight/renderers/component_renderer.py:33-36 | a node in no layer gets the `(root)` layer's colour when there is one, and `#E6F7FF` otherwise |
| ComponentRenderer.RootLayerNeverMatches | src/projectinsight/renderers/component_renderer.py:26-28 | the `(root)` entry is never matched as a prefix layer, even for names under `root.(root).` |
| ComponentRenderer.StripRootRoundTrip | src/projectinsight/renderers/component_renderer.py:56-57 | stripping the root package undoes prefixing it, and a name outside the root package is left whole |
| ComponentRenderer.StripRootPackage | src/projectinsight/renderers/component_renderer.py:56-57 | the result is never longer than the name, and a name under the root package is the root package, a dot and the result |
| ComponentRenderer.LastDot | src/projectinsight/renderers/component_renderer.py:59-60 | the position found holds the last dot of the name, and none is found exactly when the name has no dot |
| ComponentRenderer.SplitTitle | src/projectinsight/renderers/component_renderer.py:59-63 | the two parts concatenate back to the name; the main part has no dot; the path part is empty exactly when the name has no dot, and otherwise ends with the dot |
| ComponentRenderer.SplitTitleRoundTrip | src/projectinsight/renderers/component_renderer.py:59-61 | a dot-free name placed under a dotted path splits back into that path (with its dot) and that name |
| ComponentRenderer.BorderWidth | src/projectinsight/renderers/component_renderer.py:91-96 | the table border is non-zero exactly for entrypoints |
| ComponentRenderer.BreakCount | src/projectinsight/renderers/component_renderer.py:80 | the number of line breaks is the floor of spacing over four, and none for spacing below four |
| ComponentRenderer.FinalRankingGroups | src/projectinsight/renderers/component_renderer.py:200-206 | the user's groups when given; otherwise, with the `dot` engine, one singleton group per module, each module once, in strictly increasing order; otherwise no groups |
| Renderer.ItemRows | src/projectinsight/renderers/renderer.py:34-43 | one item row per class and per function |
| Renderer.CreateModuleLabel | src/projectinsight/renderers/renderer.py:27-48 | the classes and functions are the given lists sorted (same elements, with multiplicity), and the rows are the label's rows for them |
| Renderer.EmitRows | src/projectinsight/renderers/renderer.py:28-47 | the loops with the shown-items counter and `break` emit exactly the label's rows |
| Renderer.LabelAccounting | src/projectinsight/renderers/renderer.py:10-45 | the label shows the smaller of the total and 15 items, and shown plus reported-hidden items equal the total |
| Renderer.LabelMarkers | src/projectinsight/renderers/renderer.py:28-47 | the header is always the first row; the empty placeholder row appears exactly when there are no items; an overflow row appears exactly when there are more than 15 |
| Renderer.ClassesFirst | src/projectinsight/renderers/renderer.py:34-43 | every class row comes before every function row, right after the header |
| Renderer.Dedup | src/projectinsight/renderers/renderer.py:17-19 | the layer names in first-appearance order: the same names, each once |
| Renderer.IndexOf | src/projectinsight/renderers/renderer.py:18 | the position found holds the layer name, and none is found exactly when no group has that name |
| Renderer.PackagesAbsent | src/projectinsight/renderers/renderer.py:17-18 | a name no layer uses has no packages |
| Renderer.GroupsByFirstAppearance | src/projectinsight/renderers/renderer.py:16-18 | the groups are the distinct layer names in first-appearance order, each with its packages in order |
| Renderer.PackageInItsLayer | src/projectinsight/renderers/renderer.py:17-18 | every package is listed under its own layer's name |
| Renderer.PackagesAreKeys | src/projectinsight/renderers/renderer.py:17-18 | every listed package is a key whose layer has that name |
| Renderer.PackageListed | src/projectinsight/renderers/renderer.py:16-19 | every package appears in the group of its layer's name |
| Renderer.SettingsOf | src/projectinsight/renderers/renderer.py:22 | the settings found belong to the package's entry, and none is found exactly when the package is no key |
| Renderer.PackageLines | src/projectinsight/renderers/renderer.py:21-22 | one line per package |
| Renderer.GroupLines | src/projectinsight/renderers/renderer.py:19-22 | one line per layer plus one per package |
| Renderer.GroupsTotal | src/projectinsight/renderers/renderer.py:16-18 | the groups hold every package exactly as many times as there are entries |
| Renderer.CommentLineCount | src/projectinsight/renderers/renderer.py:13-24 | the comment has the two header lines, one line per distinct layer name, one per package, and the footer last |
| Renderer.GenerateLlmComment | src/projectinsight/renderers/renderer.py:13-24 | fails (a `KeyError` in the source) exactly when some entry lacks `name` or `color`; otherwise yields the header, the layer and package lines by first appearance, and the footer |
| Renderer.GroupByLayer | src/projectinsight/renderers/renderer.py:16-18 | fails exactly when some entry lacks `name`; otherwise builds the first-appearance grouping |
| Renderer.WriteComment | src/projectinsight/renderers/renderer.py:19-23 | fails exactly when some entry lacks `color`; otherwise writes the whole comment |
| Renderer.WriteLayer | src/projectinsight/renderers/renderer.py:20-22 | fails exactly when a package of the layer lacks `color`; otherwise appends the layer line and its package lines |
| Renderer.AppendPackages | src/projectinsight/renderers/renderer.py:21-22 | fails exactly when some package lacks `color`; otherwise appends one line per package |
| Renderer.EveryEntryColored | src/projectinsight/renderers/renderer.py:19-22 | when every grouped package has a colour, every entry has one |
| SemanticLinkAnalyzer.ResolveToPublicComponent | src/projectinsight/semantics/semantic_link_analyzer.py:54-66 | no component for a missing or empty name; only the part before the first `.<locals>.` counts; that part itself when it is a component, else its longest proper dotted prefix that is one, else none; any result is a known component |
| SemanticLinkAnalyzer.ResolvedIsPrefix | src/projectinsight/semantics/semantic_link_analyzer.py:54-66 | a resolved component is a string prefix of the name it was resolved from |
| SemanticLinkAnalyzer.RegistreeEdge | src/projectinsight/semantics/semantic_link_analyzer.py:109-121 | an element yields an edge exactly when its name is non-empty, starts with the root package, resolves to a component, and that component differs from the registrar; the edge is registrar, registree, `registers` |
| SemanticLinkAnalyzer.RegistreeEdges | src/projectinsight/semantics/semantic_link_analyzer.py:109-121 | every edge of a collection starts at the registrar, is no self-loop, ends at a known component and is labelled `registers` |
| SemanticLinkAnalyzer.RegistreeEdgesMembers | src/projectinsight/semantics/semantic_link_analyzer.py:109-121 | an edge comes from a collection if and only if some element of it yields that edge |
| SemanticLinkAnalyzer.CollectionEdges | src/projectinsight/semantics/semantic_link_analyzer.py:96-121 | an assignment outside any resolvable class gives no edge; every edge starts at the enclosing class's component, joins two distinct known components, and is labelled `registers` |
| SemanticLinkAnalyzer.BaseEdge | src/projectinsight/semantics/semantic_link_analyzer.py:184-196 | a base yields an edge exactly when it resolves to a component other than the child's; the edge is child, parent, `inherits_from` |
| SemanticLinkAnalyzer.BaseEdges | src/projectinsight/semantics/semantic_link_analyzer.py:184-196 | every edge of a base that yields one is among the child's edges, and every edge starts at the child, is no self-loop, ends at a known component and is labelled `inherits_from` |
| SemanticLinkAnalyzer.BaseEdgesMembers | src/projectinsight/semantics/semantic_link_analyzer.py:184-196 | an edge is among a child's base edges if and only if one of its bases yields it |
| SemanticLinkAnalyzer.InheritanceEdges | src/projectinsight/semantics/semantic_link_analyzer.py:173-196 | a class gives edges only when its name starts with the root package; a class that resolves to a component under the root package gives exactly the edges of its bases; every edge starts at the child's component, joins two distinct known components and is labelled `inherits_from` |
| SemanticLinkAnalyzer.DecoratorEdge | src/projectinsight/semantics/semantic_link_analyzer.py:250-295 | an edge is emitted exactly when the decorator sits on a function or class that resolves to a component under the root package or `builtins`, the decorator has a name, the decorating object resolves to a component, and the two components differ; the edge runs from the decorating object's component to the definition's, labelled `decorates` |
| SemanticLinkAnalyzer.DecoratingFqn | src/projectinsight/semantics/semantic_link_analyzer.py:270-285 | the decorating object is the receiver of a registration-method call or attribute on a call or attribute shape, and the decorator itself otherwise |
| SemanticLinkAnalyzer.DecoratorSourceIsDecorator | src/projectinsight/semantics/semantic_link_analyzer.py:271-284 | the decorator side of an edge is the decorator's own component or, for the route-like shapes, the component of the object it is called on |
| SemanticLinkAnalyzer.DecoratorEdges | src/projectinsight/semantics/semantic_link_analyzer.py:250-295 | every decorator edge joins two distinct known components and is labelled `decorates` |
| SemanticLinkAnalyzer.Reverse | src/projectinsight/semantics/semantic_link_analyzer.py:396 | the reversed parts are the same parts read back to front |
| SemanticLinkAnalyzer.RebuildModuleName | src/projectinsight/semantics/semantic_link_analyzer.py:385-396 | the loop over the attribute chain rebuilds the imported module's dotted name in source order |
| SemanticLinkAnalyzer.WerkzeugLocalRebuilt | src/projectinsight/semantics/semantic_link_analyzer.py:387-400 | the chain for `werkzeug.local` rebuilds to that name, and the swapped chain does not |
| SemanticLinkAnalyzer.IsProxyCall | src/projectinsight/semantics/semantic_link_analyzer.py:349-409 | the scan of the scope's assignments decides that the call is a `LocalProxy` or `LocalStack` imported from `werkzeug.local` |
| SemanticLinkAnalyzer.ProxyTarget | src/projectinsight/semantics/semantic_link_analyzer.py:495-509 | the resolved component when there is one; otherwise `flask.globals.AppContextProxy` for a name ending in `_cv_app`, the name itself for any other non-empty name, and nothing for a missing one |
| SemanticLinkAnalyzer.ProxyTargetFallback | src/projectinsight/semantics/semantic_link_analyzer.py:499-509 | the target is missing exactly when its name is; an unresolvable `_cv_app` name maps to the Flask application-context proxy |
| SemanticLinkAnalyzer.ProxySource | src/projectinsight/semantics/semantic_link_analyzer.py:445-457 | an unresolvable non-empty proxy name stands for itself, and a missing one gives no proxy |
| SemanticLinkAnalyzer.ProxyEdge | src/projectinsight/semantics/semantic_link_analyzer.py:443-517 | a proxy edge runs from the resolved proxy to the resolved target of the lambda body, called function or name given as first argument, is labelled `proxies` and has non-empty ends; with both ends present it is dropped exactly when they are equal |
| SemanticLinkAnalyzer.ProxyEdges | src/projectinsight/semantics/semantic_link_analyzer.py:439-441 | an assignment yields proxy edges only when its call is a `werkzeug.local` proxy call |
| SemanticLinkAnalyzer.SemanticLinkVisitor.constructor | src/projectinsight/semantics/semantic_link_analyzer.py:46-51 | a new visitor keeps the root package and the components and has no edges |
| SemanticLinkAnalyzer.SemanticLinkVisitor.VisitCollectionAssign | src/projectinsight/semantics/semantic_link_analyzer.py:96-121 | the visitor's edges grow by exactly the collection's edges |
| SemanticLinkAnalyzer.SemanticLinkVisitor.VisitClassDef | src/projectinsight/semantics/semantic_link_analyzer.py:173-196 | the visitor's edges grow by exactly the class's inheritance edges |
| SemanticLinkAnalyzer.SemanticLinkVisitor.VisitDecorator | src/projectinsight/semantics/semantic_link_analyzer.py:250-295 | the visitor's edges grow by exactly the decorator's edge, if any |
| SemanticLinkAnalyzer.SemanticLinkVisitor.VisitProxyAssignment | src/projectinsight/semantics/semantic_link_analyzer.py:416-517 | the visitor's edges grow by exactly the assignment's proxy edge, if any |
| SemanticLinkAnalyzer.CollectionsEdges | src/projectinsight/semantics/semantic_link_analyzer.py:96-121 | the collection pass only emits `registers` edges between distinct known components |
| SemanticLinkAnalyzer.ClassDefsEdges | src/projectinsight/semantics/semantic_link_analyzer.py:173-196 | the inheritance pass only emits `inherits_from` edges between distinct known components |
| SemanticLinkAnalyzer.DecoratorsEdges | src/projectinsight/semantics/semantic_link_analyzer.py:250-295 | the decorator pass only emits `decorates` edges between distinct known components |
| SemanticLinkAnalyzer.ProxiesEdges | src/projectinsight/semantics/semantic_link_analyzer.py:416-517 | the proxy pass only emits `proxies` edges that are no self-loops |
| SemanticLinkAnalyzer.VisitCollections | src/projectinsight/semantics/semantic_link_analyzer.py:556-560 | walking the assignments adds exactly the collection pass's edges |
| SemanticLinkAnalyzer.VisitClassDefs | src/projectinsight/semantics/semantic_link_analyzer.py:562-565 | walking the classes adds exactly the inheritance pass's edges |
| SemanticLinkAnalyzer.VisitDecorators | src/projectinsight/semantics/semantic_link_analyzer.py:567-570 | walking the decorators adds exactly the decorator pass's edges |
| SemanticLinkAnalyzer.VisitProxies | src/projectinsight/semantics/semantic_link_analyzer.py:572-575 | walking the assignments adds exactly the proxy pass's edges |
| SemanticLinkAnalyzer.FileEdges | src/projectinsight/semantics/semantic_link_analyzer.py:552-575 | a file's edges are never self-loops and carry one of the four labels; all but proxy edges join known components |
| SemanticLinkAnalyzer.AnalyzeFile | src/projectinsight/semantics/semantic_link_analyzer.py:552-575 | running the four passes over a file yields exactly the file's edges |
| SemanticLinkAnalyzer.AllSemanticEdges | src/projectinsight/semantics/semantic_link_analyzer.py:531-582 | no semantic edge is a self-loop, each carries one of the four labels, and all but proxy edges join known components |
| SemanticLinkAnalyzer.AnalyzeSemanticLinks | src/projectinsight/semantics/semantic_link_analyzer.py:531-582 | the orchestrator's union over the files (skipping a file that fails) is exactly the set of all semantic edges |
| DynamicBehaviorAnalyzer.BuildMatcher | src/projectinsight/semantics/dynamic_behavior_analyzer.py:106-146 | a matcher is built exactly for `dict_creation` with a non-empty `key_argument` or for `function_entry` with a non-empty `method_fqn`; a dict matcher keeps the key and checks a value only when one is configured, and a function matcher matches the method's last segment |
| DynamicBehaviorAnalyzer.MatchersOfExact | src/projectinsight/semantics/dynamic_behavior_analyzer.py:36-44 | a (rule, part, matcher) entry is registered if and only if the rule has type `producer_consumer`, the part is its producer or consumer, and the part's matcher builds |
| DynamicBehaviorAnalyzer.EnclosingFqnFirstDecides | src/projectinsight/semantics/dynamic_behavior_analyzer.py:53-68 | the caller is `global.scope` when no ancestor decides; otherwise the first deciding ancestor's name, or `unknown.scope.resolution.error` when its lookup fails |
| DynamicBehaviorAnalyzer.EnclosingFunctionFqn | src/projectinsight/semantics/dynamic_behavior_analyzer.py:53-68 | the upward walk over the ancestors returns the enclosing-scope name the rule above defines |
| DynamicBehaviorAnalyzer.FindingFor | src/projectinsight/semantics/dynamic_behavior_analyzer.py:70-100 | a match yields a finding exactly when its part has a non-empty `role`; the finding carries the role, correlation key, rule name, line and match target; its caller is the configured method (or `function_entry`) for function-entry matches and the enclosing scope otherwise |
| DynamicBehaviorAnalyzer.Record | src/projectinsight/semantics/dynamic_behavior_analyzer.py:101-102 | recording keeps the earlier findings in order as a prefix, adds at most one, leaves a duplicate-free list duplicate-free, and the finding is present afterwards |
| DynamicBehaviorAnalyzer.AfterVisit | src/projectinsight/semantics/dynamic_behavior_analyzer.py:46-51 | visiting a node only appends to the findings and keeps them duplicate-free |
| DynamicBehaviorAnalyzer.DynamicBehaviorVisitor.constructor | src/projectinsight/semantics/dynamic_behavior_analyzer.py:30-44 | a new visitor has no findings and exactly the matchers the rules select |
| DynamicBehaviorAnalyzer.DynamicBehaviorVisitor.HandleMatch | src/projectinsight/semantics/dynamic_behavior_analyzer.py:70-102 | the findings become the old ones with this match's finding recorded once; the matchers do not change |
| DynamicBehaviorAnalyzer.DynamicBehaviorVisitor.OnVisit | src/projectinsight/semantics/dynamic_behavior_analyzer.py:46-51 | every matching matcher, in order, records its finding; the matchers do not change |
| DynamicBehaviorAnalyzer.IndexOfKey | src/projectinsight/semantics/dynamic_behavior_analyzer.py:183-185 | the position found is the first group with that key, or the end when there is none |
| DynamicBehaviorAnalyzer.IndexOfKeyFirst | src/projectinsight/semantics/dynamic_behavior_analyzer.py:183-185 | the first position holding a key is the one the search finds |
| DynamicBehaviorAnalyzer.PairsMembers | src/projectinsight/semantics/dynamic_behavior_analyzer.py:188-191 | a link comes from a group if and only if it joins one of its producers with one of its consumers |
| DynamicBehaviorAnalyzer.PairsCount | src/projectinsight/semantics/dynamic_behavior_analyzer.py:189-191 | a group yields producers times consumers links |
| DynamicBehaviorAnalyzer.LinksOfCount | src/projectinsight/semantics/dynamic_behavior_analyzer.py:188-191 | the number of links is the sum over the groups of producers times consumers |
| DynamicBehaviorAnalyzer.LinksOfMembers | src/projectinsight/semantics/dynamic_behavior_analyzer.py:188-191 | a link is produced if and only if it joins a producer and a consumer of the same group |
| DynamicBehaviorAnalyzer.AddFindingExact | src/projectinsight/semantics/dynamic_behavior_analyzer.py:182-186 | adding a producer or consumer finding keeps each group holding exactly the findings of its rule and key, by role, in order |
| DynamicBehaviorAnalyzer.GroupFindingsExact | src/projectinsight/semantics/dynamic_behavior_analyzer.py:182-186 | grouping fails (a `KeyError` in the source) exactly when some finding's role is neither `producer` nor `consumer`; otherwise each group holds exactly its findings by role |
| DynamicBehaviorAnalyzer.GroupFailurePersists | src/projectinsight/semantics/dynamic_behavior_analyzer.py:182-186 | once grouping has failed on a prefix, the whole grouping fails the same way |
| DynamicBehaviorAnalyzer.JoinFindingsCorrect | src/projectinsight/semantics/dynamic_behavior_analyzer.py:180-196 | the join fails exactly on a finding with an unknown role; otherwise a link exists exactly for each producer and consumer sharing rule name and correlation key, and the link count is the sum of products |
| DynamicBehaviorAnalyzer.GroupByRuleKey | src/projectinsight/semantics/dynamic_behavior_analyzer.py:180-186 | the grouping loop computes the grouping (or its failure) of the findings |
| DynamicBehaviorAnalyzer.BuildLinks | src/projectinsight/semantics/dynamic_behavior_analyzer.py:188-191 | the nested loops emit exactly the links of the groups, in order |
| DynamicBehaviorAnalyzer.AppendPairs | src/projectinsight/semantics/dynamic_behavior_analyzer.py:189-191 | one producer loop appends all of a group's pairs |
| DynamicBehaviorAnalyzer.AppendConsumers | src/projectinsight/semantics/dynamic_behavior_analyzer.py:190-191 | the consumer loop appends one link per consumer, from the given producer |
| DynamicBehaviorAnalyzer.AfterVisitMembers | src/projectinsight/semantics/dynamic_behavior_analyzer.py:46-51 | after visiting a node, a finding is held exactly when it was held before or some matcher firing on the node yields it |
| DynamicBehaviorAnalyzer.FileFindings | src/projectinsight/semantics/dynamic_behavior_analyzer.py:171-176 | one file's findings list no finding twice |
| DynamicBehaviorAnalyzer.FileFindingsMembers | src/projectinsight/semantics/dynamic_behavior_analyzer.py:171-176 | a file's findings are exactly those some matcher firing on some visited node yields |
| DynamicBehaviorAnalyzer.AnalyzeFile | src/projectinsight/semantics/dynamic_behavior_analyzer.py:173-176 | a fresh visitor run over the file's nodes in order holds exactly the file's findings |
| DynamicBehaviorAnalyzer.AnalyzeDynamicBehavior | src/projectinsight/semantics/dynamic_behavior_analyzer.py:150-196 | no rules give no links; a failed repository setup gives the empty result; otherwise each file that does not raise is visited by a fresh visitor, and the result is the join of those files' findings in file order |
| Strings.ReplaceAllIdentity | src/projectinsight/parsers/concept_flow_analyzer.py:44 | removing a substring that does not occur leaves the name unchanged |
| Strings.ReplaceAllShrinks | src/projectinsight/parsers/concept_flow_analyzer.py:44 | removing every occurrence of a substring never lengthens the name |
| ConceptFlowAnalyzer.NormalizeKeepsRootTail | src/projectinsight/parsers/concept_flow_analyzer.py:40-44 | a name containing the root package is cut to start at the first occurrence of it |
| ConceptFlowAnalyzer.Normalize | src/projectinsight/parsers/concept_flow_analyzer.py:40-44 | a normalised name is never longer than the name, and a name without the root package only loses its `.<locals>` parts |
| ConceptFlowAnalyzer.FindConceptInChain | src/projectinsight/parsers/concept_flow_analyzer.py:62-79 | a concept found in a chain is always a known concept |
| ConceptFlowAnalyzer.FirstKnownIsFirst | src/projectinsight/parsers/concept_flow_analyzer.py:62-79 | the lookup finds nothing exactly when no name along the chain normalises to a known concept, and otherwise the first such one, walking leftwards |
| ConceptFlowAnalyzer.FindConceptIsFirstKnown | src/projectinsight/parsers/concept_flow_analyzer.py:62-79 | the recursive walk through attribute values and call functions is the first-known search over the chain's resolved names |
| ConceptFlowAnalyzer.UsageEdges | src/projectinsight/parsers/concept_flow_analyzer.py:81-92 | a usage adds at most one edge, from a known concept to a different name, and adds one exactly when the source chain holds a known concept, the target resolves, and the two differ |
| ConceptFlowAnalyzer.UsageDiscoveries | src/projectinsight/parsers/concept_flow_analyzer.py:94-98 | a usage discovers only names not yet known, and only from a `Name` or `Attribute` target whose source chain holds a known concept |
| ConceptFlowAnalyzer.UsageFound | src/projectinsight/parsers/concept_flow_analyzer.py:81-98 | once both ends resolve, the edge is added exactly when the two differ, and the target is discovered exactly when it is a `Name` or `Attribute` not yet known |
| ConceptFlowAnalyzer.TargetsEdges | src/projectinsight/parsers/concept_flow_analyzer.py:103-105 | the edges of an assignment's targets start at known concepts and are no self-loops |
| ConceptFlowAnalyzer.TargetsDiscoveries | src/projectinsight/parsers/concept_flow_analyzer.py:103-105 | an assignment's targets discover only names not yet known |
| ConceptFlowAnalyzer.StatementEdges | src/projectinsight/parsers/concept_flow_analyzer.py:103-109 | a statement's edges start at known concepts and are no self-loops |
| ConceptFlowAnalyzer.StatementDiscoveries | src/projectinsight/parsers/concept_flow_analyzer.py:103-109 | a statement discovers only names not yet known |
| ConceptFlowAnalyzer.FileEdges | src/projectinsight/parsers/concept_flow_analyzer.py:153-156 | a file's edges start at known concepts and are no self-loops |
| ConceptFlowAnalyzer.FileDiscoveries | src/projectinsight/parsers/concept_flow_analyzer.py:153-157 | a file discovers only names not yet known |
| ConceptFlowAnalyzer.RoundEdges | src/projectinsight/parsers/concept_flow_analyzer.py:150-159 | a round's edges start at known concepts and are no self-loops |
| ConceptFlowAnalyzer.RoundDiscoveries | src/projectinsight/parsers/concept_flow_analyzer.py:148-161 | a round discovers only names not yet known |
| ConceptFlowAnalyzer.ConceptVisitor.constructor | src/projectinsight/parsers/concept_flow_analyzer.py:54-60 | a new visitor keeps the known concepts and the root package and has no edges and no discoveries |
| ConceptFlowAnalyzer.ConceptVisitor.ProcessUsage | src/projectinsight/parsers/concept_flow_analyzer.py:81-101 | the visitor's edges and discoveries grow by exactly the usage's edges and discoveries |
| ConceptFlowAnalyzer.ConceptVisitor.RecordUsage | src/projectinsight/parsers/concept_flow_analyzer.py:89-98 | the edge is added unless it is a self-loop, and the usage is discovered when it is a `Name` or `Attribute` not yet known |
| ConceptFlowAnalyzer.ConceptVisitor.VisitTargets | src/projectinsight/parsers/concept_flow_analyzer.py:103-105 | every target of an assignment is processed against its value |
| ConceptFlowAnalyzer.ConceptVisitor.VisitStatement | src/projectinsight/parsers/concept_flow_analyzer.py:103-109 | an assignment processes each target, and an annotated assignment its target only when it has a value |
| ConceptFlowAnalyzer.ConceptVisitor.VisitFile | src/projectinsight/parsers/concept_flow_analyzer.py:154 | visiting a file adds exactly the file's edges and discoveries |
| ConceptFlowAnalyzer.Flow | src/projectinsight/parsers/concept_flow_analyzer.py:141-167 | the known concepts only grow, at most the allowed number of rounds run, and every edge is no self-loop and starts at a known concept |
| ConceptFlowAnalyzer.FlowUnfold | src/projectinsight/parsers/concept_flow_analyzer.py:144-167 | a round that discovers nothing new ends the analysis with its own edges; otherwise its edges join those of the rounds that follow with the new concepts known |
| ConceptFlowAnalyzer.FlowStopsAtFixpoint | src/projectinsight/parsers/concept_flow_analyzer.py:161-164 | when the analysis stops before the round limit, the last known set discovers nothing new |
| ConceptFlowAnalyzer.FlowKnownFromDiscoveries | src/projectinsight/parsers/concept_flow_analyzer.py:161-167 | every concept known at the end was known at the start or was discovered by a round over known concepts in between |
| ConceptFlowAnalyzer.InitialConcepts | src/projectinsight/parsers/concept_flow_analyzer.py:139 | the starting concepts are exactly the normalised `from_object` values |
| ConceptFlowAnalyzer.RunRound | src/projectinsight/parsers/concept_flow_analyzer.py:148-159 | a round over the files (skipping a file that fails) gathers exactly the round's edges and discoveries |
| ConceptFlowAnalyzer.ListOf | src/projectinsight/parsers/concept_flow_analyzer.py:171 | turning the edge set into a list keeps exactly its edges, each once |
| ConceptFlowAnalyzer.AnalyzeConceptFlow | src/projectinsight/parsers/concept_flow_analyzer.py:112-171 | a failed repository setup gives the empty result; otherwise no nodes and exactly the edges of at most ten rounds of the fixpoint, each once |
| SeedDiscoverer.TargetSeedsMembers | src/projectinsight/parsers/seed_discoverer.py:47-53 | a seed comes from an assignment's targets if and only if it is the normalised name of a target that resolves |
| SeedDiscoverer.TargetSeeds | src/projectinsight/parsers/seed_discoverer.py:47-53 | every target with a name contributes its normalised name, and there are no more seeds than targets |
| SeedDiscoverer.AssignSeeds | src/projectinsight/parsers/seed_discoverer.py:41-46 | an assignment outside the global scope, or whose value is not a call, yields no seed |
| SeedDiscoverer.SeedsAreNormalized | src/projectinsight/parsers/seed_discoverer.py:51-53 | every discovered seed is the normalised form of some name |
| SeedDiscoverer.FileSeedNormalized | src/projectinsight/parsers/seed_discoverer.py:51-53 | every seed of a file is the normalised form of some name |
| SeedDiscoverer.SeedDiscoveryVisitor.constructor | src/projectinsight/parsers/seed_discoverer.py:35-39 | a new visitor keeps the root package and has no seeds |
| SeedDiscoverer.SeedDiscoveryVisitor.VisitAssign | src/projectinsight/parsers/seed_discoverer.py:41-55 | the visitor's seeds grow by exactly the assignment's seeds |
| SeedDiscoverer.SeedDiscoveryVisitor.VisitFile | src/projectinsight/parsers/seed_discoverer.py:86 | visiting a file adds exactly the file's seeds |
| SeedDiscoverer.IsExcluded | src/projectinsight/parsers/seed_discoverer.py:95-99 | the pattern loop with `break` decides whether the name matches at least one exclude pattern |
| SeedDiscoverer.FilterSeeds | src/projectinsight/parsers/seed_discoverer.py:93-101 | a seed is kept exactly when it matches no exclude pattern |
| SeedDiscoverer.TrackGroups | src/projectinsight/parsers/seed_discoverer.py:105 | one track group per name, in order, whose `from_object` is the name and whose `group_name` is its last dotted segment |
| SeedDiscoverer.DiscoverSeeds | src/projectinsight/parsers/seed_discoverer.py:58-106 | a failed repository setup gives no groups; otherwise exactly one group per distinct surviving seed, in strictly increasing order, each named by its last segment |
| ComponentParser.CodeVisitor.constructor | src/projectinsight/parsers/component_parser.py:22-28 | a new visitor's scope is the module path alone, and it has no calls, definitions, imports or components |
| ComponentParser.CodeVisitor.Visit | src/projectinsight/parsers/component_parser.py:30-57 | visiting a node appends exactly the node's records and restores the scope stack afterwards |
| ComponentParser.CodeVisitor.VisitAll | src/projectinsight/parsers/component_parser.py:30-57 | visiting the children in order appends exactly their records and restores the scope stack |
| ComponentParser.ComponentsAreDefinitions | src/projectinsight/parsers/component_parser.py:46-49 | every component found under a node is also one of its definitions |
| ComponentParser.VisitNode | src/projectinsight/parsers/component_parser.py:30-57 | a class is recorded as a definition and a component under its dotted scope path, a function as a definition; an import records no call, definition or component; a call is recorded first with the enclosing scope's path |
| ComponentParser.ComponentsAreDefinitionsAll | src/projectinsight/parsers/component_parser.py:46-49 | every component found under a list of nodes is also one of their definitions |
| ComponentParser.CallersAreScopes | src/projectinsight/parsers/component_parser.py:39-57 | every call is recorded with the dotted path of the enclosing scope, which is the outer scope or a definition found on the way |
| ComponentParser.CallersAreScopesAll | src/projectinsight/parsers/component_parser.py:39-57 | the same holds for every call under a list of nodes |
| ComponentParser.NoFutureImports | src/projectinsight/parsers/component_parser.py:34-37 | no `from __future__` import is recorded |
| ComponentParser.NoFutureImportsAll | src/projectinsight/parsers/component_parser.py:34-37 | no `from __future__` import is recorded under a list of nodes |
| ComponentParser.MethodsNotListed | src/projectinsight/parsers/component_parser.py:114-120 | a definition inside an uppercase-initial class is a method and is not listed |
| ComponentParser.Classify | src/projectinsight/parsers/component_parser.py:112-124 | a definition is listed as a class only under its uppercase-initial last segment and as a function only under a non-empty last segment that is neither uppercase- nor underscore-initial; a single-segment path is not listed |
| ComponentParser.TopLevelListed | src/projectinsight/parsers/component_parser.py:114-124 | in a module whose name is undotted or whose last segment is lowercase-initial, a public top-level definition is listed as a class when uppercase-initial and as a function otherwise |
| ComponentParser.UppercaseModuleNotListed | src/projectinsight/parsers/component_parser.py:114-120 | in a dotted module whose last segment is uppercase-initial (such as `pkg.Models`), every top-level definition passes the method test and is not listed |
| ComponentParser.ClassifyDefinitions | src/projectinsight/parsers/component_parser.py:112-124 | the classification loop computes the class and function names, or fails (an `IndexError` that skips the file) on an empty segment |
| ComponentParser.CallEdge | src/projectinsight/parsers/component_parser.py:130-136 | a resolved definition yields an edge only for a function or class under the root package, from a recorded definition to a different callee, the callee of a class being its `__init__` |
| ComponentParser.ResolveCalls | src/projectinsight/parsers/component_parser.py:130-136 | the loops over the calls and their resolutions gather exactly the module's call edges |
| ComponentParser.ModuleLevelCallsDropped | src/projectinsight/parsers/component_parser.py:135 | a call made from module level, whose caller is no definition, yields no edge |
| ComponentParser.AnalyzeFile | src/projectinsight/parsers/component_parser.py:101-139 | an `__init__.py` or unparsable file contributes nothing; otherwise its classes and, when classified, its sorted module details and its call edges |
| ComponentParser.AnalyzeCode | src/projectinsight/parsers/component_parser.py:93-142 | the components and call graph are the union over the analysed files; the details hold exactly the detailed modules, each with the details of its last file |
| ComponentParser.DetailedModulesStep | src/projectinsight/parsers/component_parser.py:126 | each detailed file adds its module to the details' keys |
| ComponentParser.LastDetailsStep | src/projectinsight/parsers/component_parser.py:126 | writing a file's details keeps every module's entry equal to that of its last detailed file |
| HeuristicsScorer.ModuleScores | src/projectinsight/intelligence/heuristics_scorer.py:75-83 | a module scores exactly its own definitions |
| HeuristicsScorer.MatchingSumNoMatch | src/projectinsight/intelligence/heuristics_scorer.py:64-67 | a name that matches no rule's pattern scores zero |
| HeuristicsScorer.MatchingSumAppend | src/projectinsight/intelligence/heuristics_scorer.py:65-67 | the sum over two rule lists is the sum of their sums, so each matching rule counts once |
| HeuristicsScorer.MatchingSumNonNegative | src/projectinsight/intelligence/heuristics_scorer.py:65-67 | with non-negative rule scores the sum is non-negative |
| HeuristicsScorer.ScoresKeys | src/projectinsight/intelligence/heuristics_scorer.py:60-83 | a name gets a score if and only if it is a definition of some scanned module |
| HeuristicsScorer.ScoresLastWins | src/projectinsight/intelligence/heuristics_scorer.py:60-83 | a definition's score is path score plus feature score plus name score from the last module that defines it |
| HeuristicsScorer.Scores | src/projectinsight/intelligence/heuristics_scorer.py:60-83 | the last module's definitions carry that module's scores, and every name scored before it stays scored |
| HeuristicsScorer.HeuristicsScorer.constructor | src/projectinsight/intelligence/heuristics_scorer.py:24-25 | the scorer holds the loaded rules, or none when loading failed |
| HeuristicsScorer.HeuristicsScorer.Score | src/projectinsight/intelligence/heuristics_scorer.py:40-86 | without rules the result is empty; otherwise it is the scores of all definitions of all modules, later modules overwriting |
| HeuristicsScorer.ScoreModule | src/projectinsight/intelligence/heuristics_scorer.py:61-83 | scoring one module overwrites exactly its definitions' entries with their scores |
| HeuristicsScorer.ScoreDefinitions | src/projectinsight/intelligence/heuristics_scorer.py:75-83 | the loop over a module's definitions writes each one's score and leaves other entries unchanged |
| HeuristicsScorer.SumMatching | src/projectinsight/intelligence/heuristics_scorer.py:64-67 | the loop sums the scores of exactly the rules whose pattern matches the name |
| HeuristicsScorer.SumMainBlock | src/projectinsight/intelligence/heuristics_scorer.py:71-73 | the loop sums the scores of exactly the `has___main__block` feature rules |
| EcosystemAnalyzer.FirstIndexOf | src/projectinsight/intelligence/ecosystem_analyzer.py:102 | the position found holds the first occurrence of the character |
| EcosystemAnalyzer.SplitOnce | src/projectinsight/intelligence/ecosystem_analyzer.py:102 | the split is at the first colon: the module part has none, and module, colon and object part give back the string |
| EcosystemAnalyzer.BeforeFirstChar | src/projectinsight/intelligence/ecosystem_analyzer.py:103 | cutting at the first parenthesis leaves no parenthesis |
| EcosystemAnalyzer.ObjectPart | src/projectinsight/intelligence/ecosystem_analyzer.py:103 | the object part has no parenthesis and neither starts nor ends with whitespace |
| EcosystemAnalyzer.EntrypointFqn | src/projectinsight/intelligence/ecosystem_analyzer.py:101-105 | a string without a colon names nothing; otherwise the name is the module part, followed by a dot and the object part when that is non-empty |
| EcosystemAnalyzer.AddName | src/projectinsight/intelligence/ecosystem_analyzer.py:107-108 | a new name is added with 1.0 and an existing one is never overwritten |
| EcosystemAnalyzer.AddEntrypoint | src/projectinsight/intelligence/ecosystem_analyzer.py:99-101 | an entry string without a colon leaves the map unchanged |
| EcosystemAnalyzer.CollectMembers | src/projectinsight/intelligence/ecosystem_analyzer.py:83-92 | a name is collected if and only if some entry yields it |
| EcosystemAnalyzer.AddAllDeclares | src/projectinsight/intelligence/ecosystem_analyzer.py:73-92 | starting from an empty map, the entrypoints are exactly the names the entry strings yield, each with 1.0 |
| EcosystemAnalyzer.DeclaredMembers | src/projectinsight/intelligence/ecosystem_analyzer.py:73-92 | a name is an entrypoint if and only if some entry string yields it |
| EcosystemAnalyzer.AddAllAppend | src/projectinsight/intelligence/ecosystem_analyzer.py:83-92 | parsing two lists of entry strings one after the other is parsing their concatenation |
| EcosystemAnalyzer.ParseEntries | src/projectinsight/intelligence/ecosystem_analyzer.py:83-92 | the loop parses every entry string into the map, in order |
| EcosystemAnalyzer.GetStandardEntrypoints | src/projectinsight/intelligence/ecosystem_analyzer.py:67-96 | no project table gives no entrypoints; otherwise the scripts followed by every entry-point group's entries, parsed in order |
| EcosystemAnalyzer.IdentifyFramework | src/projectinsight/intelligence/ecosystem_analyzer.py:35-55 | the first framework, in rule order, whose project name equals the project's ignoring case; failing that, the first whose lowercased project name is the top-level segment of some import; otherwise none |
| EcosystemAnalyzer.RulesOf | src/projectinsight/intelligence/ecosystem_analyzer.py:61 | the rules found are the identified framework's, and none are found exactly when it has no entry |
| EcosystemAnalyzer.BonusTableLastWins | src/projectinsight/intelligence/ecosystem_analyzer.py:63 | a pattern's bonus is the score of its last rule |
| EcosystemAnalyzer.BonusTableKeys | src/projectinsight/intelligence/ecosystem_analyzer.py:63 | the bonus table's patterns are exactly the rules' patterns |
| EcosystemAnalyzer.FrameworkBonusScores | src/projectinsight/intelligence/ecosystem_analyzer.py:57-65 | no framework, or one without rules, gives an empty table; otherwise the table of its bonus rules |
| InteractiveWizard.ModuleOf | src/projectinsight/core/interactive_wizard.py:57-59 | a candidate's module is its mapped module, or the candidate itself when it has none and is a module of the import graph |
| InteractiveWizard.FrameworkSumNoMatch | src/projectinsight/core/interactive_wizard.py:65-68 | a candidate that matches no bonus pattern gets no framework score |
| InteractiveWizard.FrameworkScore | src/projectinsight/core/interactive_wizard.py:65-68 | the loop sums the bonuses of exactly the patterns the candidate matches |
| InteractiveWizard.ScoreCandidate | src/projectinsight/core/interactive_wizard.py:55-79 | a candidate's total is heuristic times its weight plus hub times its weight plus framework and entry-point scores both times the entry-point weight |
| InteractiveWizard.CombinedScore | src/projectinsight/core/interactive_wizard.py:53-79 | with all weights absent every part counts once, as an absent weight is `1.0`; with all weights zero the score is zero |
| InteractiveWizard.CombineScores | src/projectinsight/core/interactive_wizard.py:51-80 | every candidate (a heuristic-score key or a standard entrypoint) is scored exactly once with its combined score, and nothing else is |
| InteractiveWizard.ListedAppend | src/projectinsight/core/interactive_wizard.py:80 | after appending a scored candidate the listed names are the old ones plus it |
| InteractiveWizard.ScoreGePreorder | src/projectinsight/core/interactive_wizard.py:82 | ordering by score, highest first, is a total preorder |
| InteractiveWizard.Take | src/projectinsight/core/interactive_wizard.py:103-104 | taking at most n keeps a prefix of at most n elements, and all of a short list |
| InteractiveWizard.PicksPrefix | src/projectinsight/core/interactive_wizard.py:87-102 | picking from a prefix of the candidates picks a prefix of what picking from all of them does |
| InteractiveWizard.Picks | src/projectinsight/core/interactive_wizard.py:84-102 | there are never more picks than candidates, and every pick is eligible |
| InteractiveWizard.PicksAreEligible | src/projectinsight/core/interactive_wizard.py:88-98 | every pick is a candidate with a module, and a module-as-itself pick has some definition under it |
| InteractiveWizard.PicksDistinctModules | src/projectinsight/core/interactive_wizard.py:100-102 | no two picks share a module |
| InteractiveWizard.PicksSorted | src/projectinsight/core/interactive_wizard.py:82-102 | picks from score-sorted candidates stay in non-increasing score order |
| InteractiveWizard.PicksCover | src/projectinsight/core/interactive_wizard.py:100-102 | every eligible candidate's module is the module of some pick |
| InteractiveWizard.PicksBest | src/projectinsight/core/interactive_wizard.py:84-102 | over candidates in score order, a module's pick scores at least as high as every eligible candidate of that module |
| InteractiveWizard.AnyDefinitionUnder | src/projectinsight/core/interactive_wizard.py:97 | the scan decides whether some definition name starts with the candidate |
| InteractiveWizard.SeenSnoc | src/projectinsight/core/interactive_wizard.py:100-102 | the seen-modules set stays exactly the set of the picks' modules |
| InteractiveWizard.SelectRecommendations | src/projectinsight/core/interactive_wizard.py:84-104 | the selection loop with its early `break` yields the first five picks |
| InteractiveWizard.Recommend | src/projectinsight/core/interactive_wizard.py:51-104 | at most five recommendations, from pairwise distinct modules, in non-increasing score order, each an eligible candidate with its combined score; each scores at least as high as every eligible candidate of its own module; with five, the fifth scores at least as high as every eligible candidate of a module left out; with fewer than five, every eligible candidate's module is represented |
| InteractiveWizard.RecommendBest | src/projectinsight/core/interactive_wizard.py:84-104 | over the scored candidates in score order, each of the first five picks beats every eligible candidate of its module, and the fifth beats every eligible candidate of a module not picked |
| InteractiveWizard.NonBlank | src/projectinsight/core/interactive_wizard.py:158 | only stripped, non-empty items are kept |
| InteractiveWizard.NonBlankNoComma | src/projectinsight/core/interactive_wizard.py:158 | items without commas stay without commas |
| InteractiveWizard.CommaList | src/projectinsight/core/interactive_wizard.py:158 | the comma list holds only stripped, non-empty items without commas |
| InteractiveWizard.CommaListJoin | src/projectinsight/core/interactive_wizard.py:156-172 | joining clean items with commas and parsing the result gives back the items |
| InteractiveWizard.NonBlankStripped | src/projectinsight/core/interactive_wizard.py:158 | clean items pass through unchanged |
| InteractiveWizard.ChoiceOutcome | src/projectinsight/core/interactive_wizard.py:144-179 | only the last option exits; a recommendation focuses on it alone at depth 3; manual focus and filtering update exactly when the comma list is non-empty; the third option forces the analysis; focus updates always have entrypoints and depth 3 |
| InteractiveWizard.GetUserChoice | src/projectinsight/core/interactive_wizard.py:130-179 | the outcome of the first attempt that is a number from 1 to n+4, or none when no attempt is |
| ConfigLoader.Merge | src/projectinsight/core/config_loader.py:176-184 | the merged settings have exactly the keys of the defaults and of the user settings |
| ConfigLoader.MergeEmpty | src/projectinsight/core/config_loader.py:176-184 | merging empty user settings returns the defaults unchanged |
| ConfigLoader.MergeKeepsUserValues | src/projectinsight/core/config_loader.py:179-183 | every path leading to a non-dictionary user value leads to that same value in the merged settings |
| ConfigLoader.MergeKeepsDefaults | src/projectinsight/core/config_loader.py:179-183 | a default the user settings do not reach, and do not block with a non-dictionary on the way, survives the merge |
| ConfigLoader.MergeSelf | src/projectinsight/core/config_loader.py:176-184 | merging settings over themselves changes nothing |
| ConfigLoader.MergeIdempotent | src/projectinsight/core/config_loader.py:176-184 | merging the same user settings a second time changes nothing more |
| ConfigLoader.MergeConfigs | src/projectinsight/core/config_loader.py:176-184 | the in-place loop over the user's items, recursing into nested dictionaries, produces the recursive merge |
| ConfigLoader.MergeValue | src/projectinsight/core/config_loader.py:180-183 | a user dictionary over a default dictionary is merged recursively, any other user value replaces the default |
| ConfigLoader.MergeUntouched | src/projectinsight/core/config_loader.py:179-184 | defaults under keys the user does not set are kept as they are |
| ConfigLoader.SetPathFound | src/projectinsight/core/config_loader.py:241-245 | after a dotted-key update the key path leads to the new value |
| ConfigLoader.SetPathOthers | src/projectinsight/core/config_loader.py:241-245 | an update leaves every key path that parts ways with its own unchanged |
| ConfigLoader.SetPathFails | src/projectinsight/core/config_loader.py:243-245 | an update raises exactly when a proper prefix of its path leads to a value that is not a dictionary |
| ConfigLoader.SetPath | src/projectinsight/core/config_loader.py:241-245 | a successful update adds only the path's first key at the top level, keeps every other top-level entry, and leaves a dictionary under the first key of a longer path |
| ConfigLoader.ApplyUpdates | src/projectinsight/core/config_loader.py:236-251 | a successful run of updates starts from and yields a dictionary, and keeps every top-level key of the document |
| ConfigLoader.UpdateConfig | src/projectinsight/core/config_loader.py:236-251 | the update loop applies the updates in order and yields a dictionary, or fails as soon as one update raises |
| ConfigLoader.NoneStaysNone | src/projectinsight/core/config_loader.py:240-251 | once an update has raised, the whole update fails whatever follows |
| ConfigLoader.SingleUpdate | src/projectinsight/core/config_loader.py:240-245 | a single successful update leaves its value under its dot-split key |
| ConfigLoader.AssignColors | src/projectinsight/core/config_loader.py:204-211 | the coloured layers have exactly the given layer keys |
| ConfigLoader.AssignColorsAt | src/projectinsight/core/config_loader.py:209 | with distinct keys, the i-th layer key gets the i-th palette colour |
| ConfigLoader.ArchitectureLayers | src/projectinsight/core/config_loader.py:166-174 | the layers hold exactly the discovered keys, the user's keys and `(root)`; the user's layers override the discovered ones key by key, the rest stay, and a missing `(root)` layer is named after the display name with colour `#EAEAEA` |
| ConfigLoader.ProcessedConfig | src/projectinsight/core/config_loader.py:130-174 | after processing, parser and visualization settings hold every default key; with a target path, the layers hold every discovered key, every user layer unchanged, and `(root)` |
| ConfigLoader.RootDisplayName | src/projectinsight/core/config_loader.py:169 | the root package name when it is a string; the config file's stem without `_test` otherwise, which is the stem itself when it holds no `_test`; a failure exactly when a set root package name is not a string |
| ConfigLoader.ProcessConfig | src/projectinsight/core/config_loader.py:130-174 | processing fails exactly when the parser or visualization settings are not dictionaries, or, with a target path, when that path is not a string, the root package name is set but not a string, or the user's layers are not a dictionary; otherwise every other key is kept, the settings are the merges over the defaults, and the layers are added exactly with a target path |
| ConfigLoader.ProcessedKeepsUserSettings | src/projectinsight/core/config_loader.py:130-135 | after processing, every parser and visualization setting the user gives as a plain value holds at its path |
| ProjectProcessor.Prepare | src/projectinsight/core/project_processor.py:66-100 | the run goes on exactly when the configuration loaded, paths are prepared, `analysis_types` is a non-empty list of strings and there is a context; the context is the override when given, the detected packages otherwise; a `TypeError` after the paths comes from a non-string analysis type or a non-string root package name |
| ProjectProcessor.PreparePaths | src/projectinsight/core/project_processor.py:188-211 | the paths are prepared exactly when the target path and the output directory (`output` by default) are non-empty strings; a missing target path never raises, and any other failure is a `TypeError` from joining a non-string |
| ProjectProcessor.ModulePathOf | src/projectinsight/core/project_processor.py:108-115 | an `__init__.py` file names its package, any other file its dotted path without `.py`; an empty path names nothing |
| ProjectProcessor.PackageModuleKept | src/projectinsight/core/project_processor.py:112-118 | a package's `__init__.py` file under a context package is in context |
| ProjectProcessor.PrefixAdmitsSibling | src/projectinsight/core/project_processor.py:117 | the plain string-prefix test also admits a sibling package whose name extends a context package's name |
| ProjectProcessor.PathOrder | src/projectinsight/core/project_processor.py:121 | the part-by-part order on relative paths used by `sorted` is a strict total order |
| ProjectProcessor.FilesInContext | src/projectinsight/core/project_processor.py:102-121 | the files kept are exactly the given files whose module path is in context, strictly sorted and without duplicates |
| ProjectProcessor.NeedsWizard | src/projectinsight/core/project_processor.py:213-227 | the check raises exactly when a settings section on the way is not a dictionary; otherwise the wizard runs if and only if there are more than 3000 definitions, output goes to a terminal, analysis is not forced, and neither focus entry points nor an exclusion list is set |
| ProjectProcessor.DefaultsNeedWizard | src/projectinsight/core/project_processor.py:213-227 | with the default visualization settings the wizard runs exactly above the threshold on a terminal |
| ProjectProcessor.GraphSettingEndsWizard | src/projectinsight/core/project_processor.py:217-225 | a truthy focus entry-point list or exclusion list switches the wizard off |
| ProjectProcessor.ChosenUpdateEndsWizard | src/projectinsight/core/interactive_wizard.py:144-176 | once the wizard's chosen update is written to the configuration, the next run does not ask again |
| ProjectProcessor.UpdateLands | src/projectinsight/core/interactive_wizard.py:146-175 | the wizard's update written by the dotted-key updater lands at the path its key names |
| ProjectProcessor.UpdateKeySplits | src/projectinsight/core/config_loader.py:241 | each wizard update key splits on dots into its intended path |

## Left out

- The parallel process-pool runner (core/parallel_manager.py) is not part of this model. Its point is concurrency, and no modelled code calls it.
- HITS centrality (intelligence/graph_analyzer.py) is not part of this model. The wizard takes each module's hub value as an input.
- Colour maths is left out: the golden-ratio palette, its HLS floats and `random`. The palette is an input of the same length as the layer keys, so only the key set and the key-to-colour pairing are modelled.
- Graphviz output is left out: the DOT source, the HTML markup of labels and legends, the invisible ranking edges, and the `dot` subprocess. The renderers are modelled only for node colour, label prefix and split, border width, docstring line breaks, ranking groups, module-label rows and the layer comment block.
- These renderers and reporters are not part of this model: the concept-flow and dynamic-behaviour renderers, the legacy top-level renderer.py, the markdown reporter and the repository-to-text script.
- The foreign parsers are abstracted: libcst, its `FullRepoManager` and metadata providers, jedi inference, and `ast`. The model takes syntax trees whose nodes already carry their resolved fully qualified names, scopes and parent chains. Whether a libcst matcher fires on a node is a given predicate.
- I/O is left out. YAML, TOML and pickle documents are values. The MD5 digest is an uninterpreted function from bytes to string, and the disk is a function from path to file state. The directory tree is an `Entry` tree with a readability flag per directory.
- The cache file's temp-file-then-rename write is a `writeSucceeds` flag. Creating the cache directory is left out.
- `_discover_sub_packages`, the `src`-layout detection, `find_top_level_packages` and `rglob` are inputs: the discovered layer keys, the detected packages and the list of relative file paths.
- The command line, logging, `print`, and the `input()` loop are left out. The wizard's loop is modelled over a finite sequence of attempts and a manual-input string.
- `fnmatch` is the uninterpreted parameter `glob`. Case normalisation and character classes are library behaviour.
- Unicode is left out. Strings are sequences of code points. `lower` and `strip` cover ASCII letters and ASCII whitespace only.
- Python dictionary insertion order is modelled with association sequences only where it shows: layer colour lookup, the layer comment, and the grouping of dynamic-behaviour findings by rule key. Elsewhere dictionaries are maps, including the dynamic-behaviour nodes, whose order the model does not fix.
- Iteration order over Python sets is modelled as an arbitrary choice, so orders that depend on it are not fixed. This covers the order of `nodes_by_dir` lists and of the concept-flow edge list.
- Sorting.SortSeq: stability of `sorted` is not stated, only sortedness and permutation. This leaves open the order of equal keys in the dynamic-behaviour edges, the concept-flow edges and the wizard's equal-score candidates.
- DependencyBuilder.GroupByDir: states which modules each directory list holds, not their order, which follows set iteration in the code.
- ConceptFlowAnalyzer.AnalyzeConceptFlow: states the set of edges returned, not their list order, which follows set iteration in the code.
- InteractiveWizard.Recommend: among candidates with equal scores, does not state which one a module's slot goes to, because that depends on the order of a stable sort over a set; the score bounds above hold whichever it is.
- Scores are exact `real` numbers, not IEEE doubles, so floating-point rounding is not modelled. This covers the heuristic scores, the wizard's combined score (including the hub value times 100) and the framework bonus tables. Two places could differ from the code: HeuristicsScorer.MatchingSumAppend regroups a sum, which holds for reals but not always for doubles; and rounding can create or break the score ties that fix the order of the wizard's recommendations.
- InteractiveWizard.CombinedScore: a weight or a hub value that is present but `None` raises `TypeError` in the code; the model has no such value, because a weight is an `Option<real>` whose absence reads as `1.0` and a module whose HITS scores have no `hub` entry reads as `0.0`.
- ConfigLoader.MergeConfigs works on values. In the code the merge mutates a deep copy, so the module-level defaults are never changed; value semantics gives the same guarantee by construction.
- ConfigLoader.UpdateConfig works on values. The code walks nested dictionaries in place through `setdefault`, so aliasing between them is not modelled.
- The walk up the parent chain that finds an enclosing class or function is an input sequence of ancestors, not a traversal of a real tree.
- EcosystemAnalyzer is modelled as functions over its inputs rather than as a class, because its methods only read their state.
- SemanticLinkAnalyzer: the four visitor classes share one `SemanticLinkVisitor` class, one method per visitor. Their `_resolve_to_public_component` copies are identical, so the model has one `ResolveToPublicComponent`.
- Renderer.GenerateLlmComment requires distinct package keys, because `layer_info` is a dictionary.
- CacheManagement: a stored entry is always a `{hash, data}` record, so the code's `if not entry` test for an empty entry dictionary is not modelled.
- Exceptions that the code catches per file are modelled as `Option` results; that file's contribution is then skipped. Uncaught exceptions are `None` or `Failure` results of the whole operation.
