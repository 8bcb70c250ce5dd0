# Data ontology graph: models and proofs

The data ontology graph describes datasets, the entity definitions (keys) they hold, and the
relationships between definitions of one logical entity.  This project models the parts of the
service that compute something about such a graph and proves what their callers rely on.  It is
written in Dafny 4.11; `dafny verify dfyconfig.toml` checks all of it.

## What is modelled

**The connecting tree** (`src/data_ontology_graph/query/connecting.py`).  A multi-source breadth-first
search grows one region per terminal and keeps the cheapest boundary relationship between any two
regions; after every level Kruskal's algorithm, on a union-find by rank with path halving, tries to
join all terminals.  `Regions` is the search as a function of the number of levels, `Boundaries`
Kruskal's choice, `Moats` the argument that pays for the choice out of any connecting subgraph,
`BoundaryChoice` what the search and the choice take among equals, `EarlyStop` why stopping at the first
level that joins everything changes nothing, `SteinerTree` the tree built from boundaries and
predecessor chains, `ConnectingResult` and `ConnectingTheorems` the result and what it is worth, `Connecting` the program itself.  Its main theorem: for every
symmetric adjacency with unique edge IDs and at least two distinct terminals, the result is
`completed` exactly when the terminals are connected, and is then a tree containing them with only
terminals as leaves, of at most 2 - 2/t times the relationships of *any* connected subgraph joining
the t terminals; and it is the result of the search that never stops early.

**Ranked paths** (`src/data_ontology_graph/query/paths.py`).  Every definition is a node twice, ready to
leave and arrived; a 0-1 breadth-first search over a deque finds a cheapest path and Yen's algorithm
turns it into several.  `PathGraphs` is the graph, `ZeroOneSearch` the single search, `Spurs` and
`Yen` what the growing list of found paths keeps, `KShortest` and `RankedPaths` the program and its
answer, `Routes` and `EdgePaths` the correspondence between state paths and sequences of directed edges,
`Exactness` the condition under which the answer is the k shortest, `TieBreak` what decides between
paths of equal length.  `KeyOrders` says what the sort keys of paths, definitions and neighbours mean.

**Derived relationships** (`src/data_ontology_graph/model/derivation.py` and `relationship.py`).
`Derivation` derives and orients them, `DerivedRelationships` shows there is exactly one for every
pair and when edge IDs tell them apart, `GraphBuild` and `DerivedGraph` lay out the path graph from
them, `FirstPath` shows that a shortest path on it never reuses a definition.  `DataSemantics` gives
definitions and claims a meaning over records and populations; `Joins` shows that joining along a path
of `1:1` and `many:1` edges never multiplies rows.

**Where properties fail.**  `FirstPathLimits`, `YenLimits` and `TieLimits` take small snapshots, derive
their relationships, build their graph and run the ranked paths on it, with an answer that is not what
the documentation says; `ExactLimits` says for which requests and up to how many directed edges that
cannot happen.  `Samples` are such snapshots; `SearchTurns`, `MazeSearch` and `TieSearch` follow single
searches on them turn by turn.

**Navigation and documents.**  `Neighbours` and `Expansion` model grouped directed edges and bounded
expansion, `Labels` the directed-edge labels and their parser, `LexicalSearch` the search index,
`DocumentCheck` the check of a finalized document, `DocumentEdges` why derived relationships pass it,
`ComponentCount` its component count.

**Step systems.**  `NavigationSlots` models the server's bounded workers under cancellation and closing,
`NavigationProgress` shows that requests and closing come to an end, `Publishing` models the replacement
of the current artifact with its rollback.

`Order` (sorting keys and `sorted`), `Model` (the entities), `Graph` (undirected connectivity) and `Sets`
are shared.

## Where code and documentation disagree

The models follow the code.

- The system design says a path never reuses a definition (`project_metadata/system_design/functional.md`,
  2.3.6).  In the code a search only avoids repeating a *state*, and the result of the very first search is
  taken whether or not it reuses one.  On derived relationships, cancelled runs included, no returned path
  reuses a definition exactly for these requests (`ExactLimits.IsNeverReusedUpTo`): without a filter between
  different datasets at any `max_edges`; between different datasets under any filter with `max_edges` at
  most 2; from a dataset back to itself with `max_edges` at most 1.  Beyond, `FirstPathLimits.ReuseUnderFilter`
  and `FirstPathLimits.ReuseWithinDataset` are requests for which every returned path reuses one.
- The system design says the answer is the k shortest simple paths (2.3.7).  A later search result that
  reuses a definition is dropped without being searched further, so a legal path may be missed while
  `truncated` says there are no more (`YenLimits.LegalPathMissed`).  What holds: every answer is sound
  (`RankedPaths.Sensible`).  It is the k shortest legal paths whenever no path within `max_edges` arrives at
  a definition it also leaves (`Exactness.NoTurningBack`, a condition on the request).  On derived
  relationships that is so, under any filter, for up to two directed edges between different datasets and
  up to one within a dataset; with one more, the property fails for some snapshot even without a filter
  (`ExactLimits.IsExactUpTo`).  The default `max_edges` is 4.
- The same clause says ties are broken by edge IDs and starting definitions.  They order the answer, but
  where the cap of `k` cuts through paths with equally many directed edges they do not decide which
  are in it, whatever the k (`TieLimits.TieDecidedByNumber`), so that no `max_edges` and `k` that allow a path
  at all make the property safe (`TieLimits.IsBestUpTo`).  The answer is the first k legal paths by that rank
  whenever no such tie lies across the cap (`TieBreak.BestWithoutTie`), and being the k shortest does not
  imply it otherwise (`TieBreak.BestExactly`).

## Model

| member | source | states |
|---|---|---|
| `Connecting.ConnectTerminals` | src/data_ontology_graph/query/connecting.py:46-101 | the run returns the result of the search that never stops early, completed exactly when the terminals are connected, and correct: a tree on the terminals within 2 - 2/t of any connecting subgraph, listed by sorted IDs |
| `ConnectingTheorems.ResultCorrect` | src/data_ontology_graph/query/connecting.py:85-101 | for every input the full search's result is completed iff all terminals are connected and is then a tree with only terminal leaves, within the bound of every connecting subgraph |
| `ConnectingTheorems.TreeBound` | src/data_ontology_graph/query/connecting.py:46-119 | t times the tree's relationships are at most 2(t - 1) times those of any connected subgraph joining the t terminals |
| `Moats.ChoicePaid` | src/data_ontology_graph/query/connecting.py:69-76 | Kruskal's boundaries and their dearest one together weigh at most twice the relationships of any connecting subgraph |
| `Moats.LevelsPay` | src/data_ontology_graph/query/connecting.py:72-76 | while k classes of terminals are apart, every distance level of a connecting subgraph holds at least k half-relationships |
| `EarlyStop.CandidateFinal` | src/data_ontology_graph/query/connecting.py:77-79 | a candidate found within m levels costs at most 2m and is the same after any number of further levels |
| `EarlyStop.LaterIsDearer` | src/data_ontology_graph/query/connecting.py:77-84 | any candidate that only later levels bring costs more than every candidate already there |
| `EarlyStop.EarlyChoice` | src/data_ontology_graph/query/connecting.py:80-82 | once m levels join all terminals, Kruskal chooses the same boundaries after any further levels |
| `ConnectingResult.EarlyResult` | src/data_ontology_graph/query/connecting.py:77-84 | and so the same tree |
| `Connecting.FindBoundaries` | src/data_ontology_graph/query/connecting.py:80-88 | the cost limit passed after each level never cuts a candidate off: the boundaries are those without the limit, or none when they do not join all terminals |
| `Connecting.SpanningBoundaries` | src/data_ontology_graph/query/connecting.py:104-119 | returns Kruskal's boundaries over the candidates within the limit when they join all terminals, otherwise none |
| `Connecting.JoinInOrder` | src/data_ontology_graph/query/connecting.py:110-119 | the loop over sorted candidates with the union-find agrees with the choice by class names and stops when one class is left |
| `Regions.VisitSees` | src/data_ontology_graph/query/connecting.py:62-76 | after looking across a relationship both of its ends are reached, and if they lie in different regions, these have a boundary no dearer than it |
| `Regions.VisitExtends` | src/data_ontology_graph/query/connecting.py:63-76 | and nothing reached is given up, nor any boundary for a dearer one |
| `Regions.VisitKeeps` | src/data_ontology_graph/query/connecting.py:62-76 | and owners, distances, predecessors and boundaries stay consistent |
| `BoundaryChoice.KeptIsLeast` | src/data_ontology_graph/query/connecting.py:69-76 | two regions whose relationships have come within the search have one between them as their boundary, of least cost and, among those of that cost, of least edge ID |
| `BoundaryChoice.OfferedInOrder` | src/data_ontology_graph/query/connecting.py:112 | boundaries are offered to Kruskal by cost, then by edge ID |
| `BoundaryChoice.ChosenExactly` | src/data_ontology_graph/query/connecting.py:110-117 | a boundary is chosen exactly when those offered before it leave its two regions apart |
| `BoundaryChoice.ReachedByFirst` | src/data_ontology_graph/query/connecting.py:61-68 | a dataset takes its region and predecessor from the first relationship that leads to it, in the order of the frontier and of each dataset's relationships |
| `BoundaryChoice.QueuedInOrder` | src/data_ontology_graph/query/connecting.py:68-83 | and the next frontier lists datasets in the order they are reached |
| `Connecting.VisitLevel` | src/data_ontology_graph/query/connecting.py:59-76 | one level of the loop is one level of the search function |
| `Connecting.AddChain` | src/data_ontology_graph/query/connecting.py:96-100 | walking predecessors until the tree is met adds exactly the whole chain and its relationships' IDs |
| `Connecting.GrowTree` | src/data_ontology_graph/query/connecting.py:90-101 | nodes and edge IDs are the terminals, the chains of all boundary ends, and the relationships of both |
| `SteinerTree.TreeSize` | src/data_ontology_graph/query/connecting.py:90-101 | the union of boundaries and chains has one relationship fewer than datasets |
| `SteinerTree.TreeConnected` | src/data_ontology_graph/query/connecting.py:90-101 | and joins any two of its datasets |
| `SteinerTree.NodeInnerEdges` | src/data_ontology_graph/query/connecting.py:90-91 | a dataset that is no terminal has two different tree relationships |
| `SteinerTree.TreeWeight` | src/data_ontology_graph/query/connecting.py:90-101 | the tree has no more relationships than the boundaries weigh |
| `Regions.LevelKeeps` | src/data_ontology_graph/query/connecting.py:59-84 | each level keeps the search valid: owners, distances and predecessors fit together and every relationship nearer than the level has been accounted for |
| `Boundaries.KruskalStops` | src/data_ontology_graph/query/connecting.py:115-118 | once all terminals are joined nothing more is chosen |
| `Boundaries.KruskalClasses` | src/data_ontology_graph/query/connecting.py:110-117 | classes left plus boundaries chosen make the number of terminals |
| `UnionFind.DisjointSets.constructor` | src/data_ontology_graph/query/connecting.py:14-16 | every node starts in a class of its own |
| `UnionFind.DisjointSets.Root` | src/data_ontology_graph/query/connecting.py:18-22 | path halving returns the root and leaves every class as it was |
| `UnionFind.DisjointSets.Join` | src/data_ontology_graph/query/connecting.py:24-33 | true exactly when the two were apart, and afterwards exactly their classes are one |
| `UnionFind.FindRoot` | src/data_ontology_graph/query/connecting.py:18-22 | following and halving links terminates at the root and keeps the root of every node |
| `UnionFind.RootUnique` | src/data_ontology_graph/query/connecting.py:18-22 | the root reached does not depend on the ranks that show links climb |
| `UnionFind.RankBound` | src/data_ontology_graph/query/connecting.py:28-32 | two to the rank of any node is at most the number of nodes |
| `PathGraphs.SuccessorsAreMoves` | src/data_ontology_graph/query/paths.py:152-177 | the generator yields exactly the moves of the state graph that no cut forbids, each at its cost |
| `ZeroOneSearch.ShortestAnswers` | src/data_ontology_graph/query/paths.py:121-150 | the search returns a cheapest walk to the target among all that avoid the cuts, or none exactly when all exceed the budget |
| `ZeroOneSearch.TurnKeeps` | src/data_ontology_graph/query/paths.py:132-149 | each turn keeps the deque sorted by at most two distances, done states final and every offer made |
| `ZeroOneSearch.FindShortest` | src/data_ontology_graph/query/paths.py:121-150 | the loop over the deque computes that answer |
| `Routes.RoutePairs` | src/data_ontology_graph/query/paths.py:189-194 | reading the edge pairs off the states of a sequence of directed edges gives the sequence back, and counts it |
| `Routes.WalkIsRoute` | src/data_ontology_graph/query/paths.py:180-194 | every state path from source to target is the route of its own edge pairs |
| `Routes.WalkEdgesLegal` | src/data_ontology_graph/query/paths.py:3-9 | the edge pairs of a state path are linked, pivot between different definitions of one dataset and end on first reaching the target |
| `Routes.RouteWalks` | src/data_ontology_graph/query/paths.py:152-177 | and every such sequence of directed edges is a state path |
| `Routes.AnswerKeyInjective` | src/data_ontology_graph/query/paths.py:105-109 | number of edges, edge IDs and starting definitions tell any two paths apart |
| `KShortest.SimpleByCount` | src/data_ontology_graph/query/paths.py:184-186 | as many distinct definitions as definitions means no definition twice |
| `Spurs.SpurSound` | src/data_ontology_graph/query/paths.py:90-97 | a spur continues its root to a path of the graph within the limit, by a move no found path takes there |
| `Spurs.SpurBest` | src/data_ontology_graph/query/paths.py:90-97 | and costs no more than any legal path leaving the root by another move |
| `Yen.NewNotCheaper` | src/data_ontology_graph/query/paths.py:86-101 | a spur of the last found path not seen before is no cheaper than that path |
| `Yen.SharedUnchanged` | src/data_ontology_graph/query/paths.py:88-99 | searching again from a root shared with an earlier path finds only what has been seen |
| `Yen.Covered` | src/data_ontology_graph/query/paths.py:86-104 | while nothing was discarded, every legal path not found costs at least as much as some candidate |
| `KShortest.PopLeast` | src/data_ontology_graph/query/paths.py:101-104 | the candidate taken is least by edge count, edge IDs and states |
| `KShortest.TrySpurs` | src/data_ontology_graph/query/paths.py:87-101 | after the inner loop every root of every found path is accounted for, and candidates are legal, unfound and no cheaper than the last path |
| `KShortest.FindPaths` | src/data_ontology_graph/query/paths.py:79-104 | in every run found paths are distinct, within the limit, in order of edge count and, after the first, legal; each next one is the least by edge count, edge IDs and states that searches for earlier ones have yielded, the run stops at the first cancelled turn, after k + 1 paths or with nothing yielded left, and with no search reusing a definition it has the cheapest k + 1, or all |
| `RankedPaths.RankPaths` | src/data_ontology_graph/query/paths.py:65-106 | the answer in every run: the first k found paths, legal edge sequences in rank order, none twice, empty only if there is no path, the found ones taken and the run ended as for `FindPaths`; uncancelled, exactly the k shortest legal paths with `more` iff others exist, if no search reuses a definition or no path within the limit turns back |
| `KeyOrders.RankedInOrder` | src/data_ontology_graph/query/paths.py:105-109 | paths are listed by number of directed edges, then edge by edge by edge ID and by the dataset, identity and columns it leaves from |
| `KeyOrders.HeapInOrder` | src/data_ontology_graph/query/paths.py:101-104 | and candidates are taken in that order |
| `KeyOrders.NumberedInOrder` | src/data_ontology_graph/query/paths.py:42-48 | definitions are numbered by dataset ID, identity and columns |
| `RankedPaths.RankedUnlessTurningBack` | src/data_ontology_graph/query/paths.py:79-106 | every uncancelled run returns the k shortest legal paths if no path within the limit arrives at a definition it also leaves |
| `Exactness.NeverReuses` | src/data_ontology_graph/query/paths.py:96-99 | because searches pass no state twice, such a request never has a search result discarded |
| `Exactness.ShortNeverTurnsBack` | src/data_ontology_graph/query/paths.py:90-99 | on derived relationships, with any filter, no path of one directed edge, or of two between different datasets, turns back |
| `ExactLimits.IsExactUpTo` | src/data_ontology_graph/query/paths.py:65-106 | exactly up to two directed edges (one within a dataset) is every answer on every derived graph the k shortest: under any filter up to there, and not even unfiltered beyond |
| `ExactLimits.IsNeverReusedUpTo` | src/data_ontology_graph/query/paths.py:65-106 | no path of any answer on any derived graph, cancelled or not, reuses a definition exactly if the request is unfiltered between different datasets, or `max_edges` is at most two, or one within a dataset |
| `TieBreak.BestWithoutTie` | src/data_ontology_graph/query/paths.py:101-105 | if no legal path left out has as few directed edges as one within the cap, the answer is the first k legal paths by edge count, edge IDs and starting definitions |
| `TieBreak.BestExactly` | src/data_ontology_graph/query/paths.py:101-105 | being the k shortest settles which paths these are exactly when there is no such tie |
| `TieLimits.TieDecidedByNumber` | src/data_ontology_graph/query/paths.py:79-105 | for every k, from two datasets with more than k entities in common to the answer: of their paths of one directed edge, the one with the highest edge ID is returned and a lower one is not |
| `TieLimits.IsBestUpTo` | src/data_ontology_graph/query/paths.py:65-106 | on derived graphs every answer is the first k legal paths by rank exactly if `max_edges` or `k` allows no path at all |
| `TieSearch.LastTwinFirst` | src/data_ontology_graph/query/paths.py:132-149 | because what is queued last at no cost is taken first, the first search between datasets with any number of entities in common takes the definitions numbered last |
| `EdgePaths.SimpleWalk` | src/data_ontology_graph/query/paths.py:184-186 | a state path reuses a definition exactly when its directed edges do |
| `FirstPath.Shortened` | src/data_ontology_graph/query/paths.py:79-83 | on a derived graph, unfiltered and between different datasets, a path reusing a definition has a shorter one |
| `FirstPath.FirstIsSimple` | src/data_ontology_graph/query/paths.py:79-83 | so the unfiltered first path is legal although only states may not repeat |
| `DerivedGraph.DerivedAnswersLegal` | src/data_ontology_graph/query/paths.py:65-106 | and so is every path of every answer on the graph of derived relationships |
| `FirstPathLimits.LoneDefinitionIsReused` | src/data_ontology_graph/query/paths.py:79-83 | from a dataset with one definition back to itself every path reuses it |
| `FirstPathLimits.PairIsNotReused` | src/data_ontology_graph/query/paths.py:79-83 | but with two definitions of one identity on the dataset every unfiltered answer is legal |
| `FirstPathLimits.SameDatasetReuses` | src/data_ontology_graph/query/paths.py:79-83 | on the graph derived from a given snapshot, unfiltered, there is such a path and all reuse a definition |
| `FirstPathLimits.ReuseWithinDataset` | src/data_ontology_graph/query/paths.py:65-106 | and so does every path the program returns, from the datasets to the answer |
| `FirstPathLimits.BottleneckIsReused` | src/data_ontology_graph/query/paths.py:172-177 | if the filter leaves one definition elsewhere as the only way out of the source and into the target, every path reuses it |
| `FirstPathLimits.FilteredReuses` | src/data_ontology_graph/query/paths.py:172-177 | on the graph derived from a given snapshot, under a given filter, there is such a path and all reuse a definition |
| `FirstPathLimits.ReuseUnderFilter` | src/data_ontology_graph/query/paths.py:65-106 | and so does every path the program returns |
| `YenLimits.LegalPathMissed` | src/data_ontology_graph/query/paths.py:96-106 | on the graph derived from a given snapshot, unfiltered, every run that may use three or more directed edges misses a legal path of three and reports no more |
| `YenLimits.MissLegalPath` | src/data_ontology_graph/query/paths.py:42-106 | the same from the datasets to the answer: derive, build, rank |
| `Derivation.JoinRelationship.Canonicalize` | src/data_ontology_graph/model/relationship.py:56-67 | ends are swapped with their directions into key order; accepted exactly under the canonical edge ID |
| `Derivation.CanonicalOrientation` | src/data_ontology_graph/model/relationship.py:56-67 | orienting keeps the ends and what is claimed when leaving each, gives both readings one form, and is idempotent |
| `Derivation.EdgeIdSymmetric` | src/data_ontology_graph/model/relationship.py:111-121 | the edge ID does not depend on the order of the ends |
| `Derivation.GroupByIdentity` | src/data_ontology_graph/model/derivation.py:72-75 | the dictionary lists every definition once, under its identity |
| `Derivation.DeriveRelationships` | src/data_ontology_graph/model/derivation.py:70-92 | the list is a function of the set of definitions, whatever order datasets and definitions come in |
| `DerivedRelationships.OneForEveryPair` | src/data_ontology_graph/model/derivation.py:77-92 | sorted by edge ID, without duplicates, and exactly the relationships of the pairs of different definitions of one identity |
| `DerivedRelationships.OnlyOneForPair` | src/data_ontology_graph/model/derivation.py:77-91 | a relationship with the ends of a pair is that pair's |
| `DerivedRelationships.DerivedIsCanonical` | src/data_ontology_graph/model/derivation.py:81-90 | each is canonically oriented, has its canonical ID, joins different definitions of one identity and claims what the two definitions yield |
| `DerivedRelationships.EdgeIdInjective` | src/data_ontology_graph/model/relationship.py:119-128 | an edge ID gives back both ends when identities and columns have no ":", columns no "+", and no side contains "__" or ends with "_" |
| `DerivedRelationships.PlainIdsDistinct` | src/data_ontology_graph/model/relationship.py:119-128 | so derived relationships of such definitions have different IDs |
| `DerivedRelationships.SameIdExactly` | src/data_ontology_graph/model/relationship.py:111-128 | when no side contains "__" or ends with "_", two pairs of definitions get one edge ID exactly if their sides agree in order |
| `DerivedRelationships.IdsDistinctExactly` | src/data_ontology_graph/model/relationship.py:111-128 | so all derived edge IDs differ exactly if no two pairs of one identity each have the same sides |
| `DerivedRelationships.SidesCollide` | src/data_ontology_graph/model/relationship.py:119-128 | two definitions of one dataset with the same side make derived edge IDs coincide as soon as a third of their identity is elsewhere |
| `DerivedRelationships.ColumnsCollide` | src/data_ontology_graph/model/relationship.py:124-128 | as on any snapshot with the columns `a+b` and `a`, `b` on one dataset |
| `GraphBuild.BuildGraph` | src/data_ontology_graph/query/paths.py:42-60 | definitions are numbered in key order and listed by number with their datasets, and every relationship is laid out from both ends, by edge ID, with the multiplicity of leaving that end |
| `DerivedGraph.BuiltIsValid` | src/data_ontology_graph/query/paths.py:42-60 | from a valid snapshot the constructor establishes all the searches rely on |
| `DerivedGraph.DerivedJoinsIdentities` | src/data_ontology_graph/model/derivation.py:70-92 | on derived relationships, directed edges join exactly the different definitions of one identity |
| `DataSemantics.ClaimsHold` | src/data_ontology_graph/model/derivation.py:29-67 | in all data fitting two definitions, derived `always` means every record matches, and `1:1`, `many:1`, `1:many` mean at most one match on the one side |
| `DataSemantics.OptionalHasUnmatched` | src/data_ontology_graph/model/derivation.py:43-57 | where the source is indeed not total or the target indeed partial, `optional` means some record has no match |
| `DataSemantics.OptionalExactly` | src/data_ontology_graph/model/derivation.py:34-60 | between two datasets, data that bears out all a valid pair of definitions asserts and denies always has an unmatched record exactly when `optional` is derived or a key that does not conform meets one that does, a case the derivation leaves unknown |
| `DataSemantics.AlwaysExactly` | src/data_ontology_graph/model/derivation.py:39-60 | between two datasets `always` is derived exactly when all fitting data has a match for every record, and, for valid definitions, exactly when all data does that bears out their denials as well |
| `DataSemantics.ToOneExactly` | src/data_ontology_graph/model/derivation.py:21-31 | `1:1` or `many:1` is derived exactly when the start's uniqueness is assessed and no fitting data matches a record twice, and the same with denials borne out |
| `DataSemantics.FromOneExactly` | src/data_ontology_graph/model/derivation.py:21-31 | `1:1` or `1:many` likewise, of matches in the other direction |
| `DataSemantics.MultiplicityExactly` | src/data_ontology_graph/model/derivation.py:21-36 | each multiplicity, `many:many` included, is derived exactly when all described data has unique keys on just its sides, and `unknown` exactly when such data differs in the uniqueness of a side |
| `DataSemantics.CoherentExactly` | src/data_ontology_graph/model/dataset.py:183-187 | validation refuses exactly the definitions that no data bears out in all they assert and deny |
| `DataSemantics.OptionalUnstrayed` | src/data_ontology_graph/model/derivation.py:43-60 | `optional` is derived exactly when an unmatched record is inevitable from all that a valid pair of definitions asserts and denies, denials of conforming aside |
| `Joins.JoinRowsExactly` | src/data_ontology_graph/query/paths.py:172-177 | the join along a path holds exactly the chains of records joined edge by edge |
| `Joins.NoFanOut` | src/data_ontology_graph/query/paths.py:172-177 | along a legal path of `1:1` and `many:1` edges each source record is in at most one row, so there are no more rows than source records |
| `Joins.ExactlyOneRowEach` | src/data_ontology_graph/model/derivation.py:51-60 | and exactly one row per source record when every edge claims `always` |
| `Neighbours.DirectedEdgesByDataset` | src/data_ontology_graph/query/neighbourhood.py:61-68 | each dataset lists the directed edges of its ends in sort-key order |
| `Neighbours.ListedExactly` | src/data_ontology_graph/query/neighbourhood.py:61-68 | an edge is listed at a dataset exactly when it leaves an end there; a self-join is listed from both ends |
| `KeyOrders.ListedByTarget` | src/data_ontology_graph/query/neighbourhood.py:43-48 | a dataset's edges are in order of identity and start columns, and those of one definition by target dataset ID, then target columns |
| `Neighbours.GroupEdges` | src/data_ontology_graph/query/neighbourhood.py:84-102 | one group per definition left, in the order of the edges, counting all its edges and listing the first ones accepted up to the limit |
| `Expansion.Search` | src/data_ontology_graph/query/neighbourhood.py:133-144 | every dataset within the depth, and no other, has the least number of allowed hops from a seed |
| `Expansion.Expand` | src/data_ontology_graph/query/neighbourhood.py:114-165 | the nearest datasets up to the cap, groups in edge order for exactly those below the depth, truncated exactly when a dataset within the depth is not selected or an allowed directed edge leaving a grouped one is listed fewer times than it is there |
| `KeyOrders.NearestFirst` | src/data_ontology_graph/query/neighbourhood.py:146-149 | datasets are selected and returned by distance, then by dataset ID |
| `Expansion.SelectedNearest` | src/data_ontology_graph/query/neighbourhood.py:146-147 | the cap keeps the first so many of them, and cuts only when there are more |
| `Expansion.GroupListsFirst` | src/data_ontology_graph/query/neighbourhood.py:99-101 | each group lists the first edges of its definition that are allowed and end at a selected dataset, all of them or as many as the limit |
| `Expansion.ReturnedExactly` | src/data_ontology_graph/query/neighbourhood.py:159-165 | exactly the selected datasets are returned or, referenced ones only, the seeds and ends of listed edges among them |
| `Expansion.PredecessorKept` | src/data_ontology_graph/query/neighbourhood.py:146-149 | a dataset kept under the cap that is no seed has a kept neighbour one hop nearer |
| `Expansion.ListedEndsReturned` | src/data_ontology_graph/query/neighbourhood.py:150-165 | every listed directed edge is allowed and ends at a returned dataset, also when only referenced ones are returned |
| `Expansion.CountsExact` | src/data_ontology_graph/query/neighbourhood.py:150-158 | a group's edge count is the number of allowed edges leaving its definition, one group for each |
| `Expansion.SortedAdjoins` | src/data_ontology_graph/query/neighbourhood.py:43-48 | sort-key order keeps the edges of one definition together, as grouping relies on |
| `Labels.JsonRoundTrip` | src/data_ontology_graph/service/views.py:74-94 | a column name written as a JSON string reads back, whatever follows |
| `Labels.NamePrinted` | src/data_ontology_graph/service/views.py:68-78 | a column name is printed as it is exactly when it holds no comma, bracket, quotation mark or arrow |
| `Labels.EscapedAsItIs` | src/data_ontology_graph/service/views.py:74 | a JSON string holds the name as it is exactly when it has no quotation mark, backslash or control character |
| `Labels.SurrogatePairReads` | src/data_ontology_graph/service/views.py:93-94 | and so does a character written as two escapes |
| `Labels.EdgeRoundTripExactly` | src/data_ontology_graph/service/views.py:71-116 | a printed edge reads back as its two ends exactly when both have columns and no "[" in their dataset ID |
| `Labels.EdgeLabelInjective` | src/data_ontology_graph/service/views.py:71-78 | so such a label belongs to one directed edge |
| `Labels.SplitEdgeLabel` | src/data_ontology_graph/service/views.py:81-116 | the parser, error cases included, reads what the grammar function reads |
| `Labels.SplitEdgeSpelled` | src/data_ontology_graph/service/views.py:81-116 | what it reads is spelled out in the label, dataset IDs as they are and without brackets |
| `LexicalSearch.AddSubject` | src/data_ontology_graph/service/search.py:173-200 | values without terms are dropped, the others kept in order and entered under each of their terms, nothing else |
| `LexicalSearch.FirstWithIs` | src/data_ontology_graph/service/search.py:403-405 | the word taken for a query word is the first that starts with it |
| `LexicalSearch.WordMatch` | src/data_ontology_graph/service/search.py:396-406 | the first phrase if there is one, otherwise the first word for each query word |
| `LexicalSearch.ValuesWithEveryWord` | src/data_ontology_graph/service/search.py:367-393 | exactly the values with, for every query word, a term starting with it |
| `LexicalSearch.EveryMeansHolds` | src/data_ontology_graph/service/search.py:332-337 | these are exactly the eligible values with a word starting with each query word, so `next` never fails |
| `LexicalSearch.FindBest` | src/data_ontology_graph/service/search.py:316-337 | the index finds for every value the best of its matches that a scan of that value alone would, and none where there is none |
| `LexicalSearch.KeptMatch` | src/data_ontology_graph/service/search.py:307-337 | the match kept for a value is the query itself if it is among its terms, otherwise the least term it starts, otherwise a match word by word |
| `LexicalSearch.Search` | src/data_ontology_graph/service/search.py:299-364 | one group per selected kind in order: all matching subjects, those with the query among a value's terms first, then with a term starting with it, then with the phrase, then with all words, each by label and key, the first `limit` listed, truncated exactly when there are more; none for an empty query |
| `DocumentCheck.EdgeAndId` | src/data_ontology_graph/akg/check.py:111-210 | under fields in order, an array read by field names has its directed edge first and its edge ID last, which is what the models of the checks read |
| `DocumentCheck.CheckDefinition` | src/data_ontology_graph/akg/check.py:187-245 | an error exactly when an edge is unreadable, starts elsewhere, lacks its canonical ID, is held twice or (final) ends outside, or usage names no edge or keeps no end of it; and exactly the rules and severities reported, warnings included |
| `DocumentCheck.CheckDocument` | src/data_ontology_graph/akg/check.py:100-184 | an error exactly when fields, datasets, edges or usage are wrong or, for a final document, some reference does not resolve; which rules are reported and how severely, a draft's dangling references and unlisted columns as warnings |
| `DocumentEdges.DerivedPasses` | src/data_ontology_graph/akg/check.py:201-222 | a derived relationship written as label and ID from either end passes the check at the definition it leaves if no dataset ID holds "[", and only if the start's does not |
| `ComponentCount.JoinEnds` | src/data_ontology_graph/akg/export.py:188-199 | after the loop two datasets have one root exactly when edges among the datasets connect them |
| `ComponentCount.CountComponents` | src/data_ontology_graph/akg/export.py:187-200 | the count is the number of connected components |
| `NavigationSlots.StepKeeps` | src/data_ontology_graph/rpc/server.py:140-164 | every step keeps slots conserved, each served client with its own worker, told exactly once the client is interrupted and done once it is past its waits, a client raising exactly when interrupted or its worker failed, each unfinished worker attended, and closed clients gone |
| `NavigationSlots.NeverMoreThanSlots` | src/data_ontology_graph/rpc/server.py:140-164 | in every run unfinished navigation workers never exceed the slots, free and held slots are constant, and none is free while a request waits |
| `NavigationSlots.ReturnedAfterWorker` | src/data_ontology_graph/rpc/server.py:149-164 | through the first wait, interruptions, `done()` tests, repeated waits and worker errors: a slot is given up only before its worker started or once its worker is done, and at most one at a time |
| `NavigationProgress.RequestsEnd` | src/data_ontology_graph/rpc/server.py:140-164 | with any slots at all, from any state of any run tasks and threads take at most a known number of steps by themselves, and when they can take no more, no request is in progress and no cancellation pending |
| `NavigationProgress.CloseCanEnd` | src/data_ontology_graph/rpc/server.py:74-82 | so `close`, once it has cancelled its clients, is able to finish |
| `NavigationProgress.ConnectedIsGone` | src/data_ontology_graph/rpc/server.py:74-81 | and when it has finished, every client connected when it began is gone |
| `NavigationSlots.NeverServesAgain` | src/data_ontology_graph/rpc/server.py:157-164 | a client interrupted during a request waits for its worker and is gone |
| `NavigationSlots.ClosedMeansStopped` | src/data_ontology_graph/rpc/server.py:74-82 | once `close` has gathered its clients, any running worker belongs to a client it did not gather |
| `Publishing.AlwaysOneComplete` | src/data_ontology_graph/store/snapshot_store.py:61-83 | at every step of every run the old or the new artifact is complete at the target or the backup, and the target is old, new or absent |
| `Publishing.ReturnedNew` | src/data_ontology_graph/store/snapshot_store.py:65-83 | a normal return leaves exactly the validated new artifact and nothing beside it |
| `Publishing.RaisedOldExactly` | src/data_ontology_graph/store/snapshot_store.py:70-82 | after an exception the old artifact is in place exactly unless restoring it or removing the backup failed |
| `Publishing.ReturnsExactly` | src/data_ontology_graph/store/snapshot_store.py:51-83 | a run returns exactly when nothing it tries fails, the target is free or holds a loadable artifact, and what was written loads |
| `Publishing.RunEnds` | src/data_ontology_graph/store/snapshot_store.py:47-83 | every run returns or raises |

## Left out

- RankedPaths.RankPaths: on a request with a tie across the cap, which of the tied paths a run returns is not characterised (it depends on the numbering and on the candidates met).  Beyond the limits of `ExactLimits`, no condition is given that is necessary for a single request.
- Derivation.DeriveRelationships: definitions are required to be distinct within a dataset and dataset IDs within the graph, as dataset and snapshot validation demand.
- Connecting.ConnectTerminals: at least two distinct terminals, as the request model demands; with one terminal the code answers `disconnected`.
- LexicalSearch.Search: the columns of subject and match rows and the order of a subject's match rows are presentation; a tie in rank, label and key is broken by the order subjects are met in, which is not modelled.
- DocumentCheck.CheckDocument: where a finding is located, its message and how often it occurs; schema validation and the note on unknown keys; an `edge` or `edge_id` position that is not a string.
- Labels.SplitEdgeLabel: a `\u` escape of a lone surrogate is refused, since characters here are Unicode scalar values; the program keeps it in the name.
- NavigationSlots.StepKeeps: the semaphore and `shield` by contract; a cancelled task not at its waits is interrupted at its next one; the elements of a batch are requests one after the other; event-loop teardown that cancels workers directly.
- NavigationProgress.RequestsEnd: that a thread stops is a step it may take at any time; how long a request runs is not modelled.
- The dictionaries `owner`, `distance` and `predecessor` of the connecting tree are one map of records; `heapq` and `sorted` are their contracts (least element, ascending permutation); `marisa_trie` is the set of its entries; text normalization gives words joined by single spaces.
- Records and populations of `DataSemantics` and `Joins` are this project's reading of the claims in `project_metadata/product/graph-model.md`; the repository itself never looks at data.
- Detail levels, tables, Markdown export, accessor schemas, YAML intermediaries, sockets, `launchd`, the command line and the client.
- Running time and memory.
