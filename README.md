# CliqueVM core in Dafny

CliqueVM runs a multiway evolution. Each step applies the user's
*operator* to the maximal cliques of the previous step. An operation reads
the states of its clique and yields new states. Each new state is placed
at a spacetime *location*: its coordinate, reached through its ancestors.
The new states of one location are then joined into *maximal cliques* of
mutually spacelike states. Two vertices are spacelike when their common
history is cut by a clique of an earlier step. A step is recorded as rows
`[prevLoc, oper, state, clique, loc]` of id ranges. An optional *observer*
then keeps one clique per location (observer 1) or a random, pairwise
spacelike set of cliques over the whole system (observer 2). Each choice is
weighted by the clique's factorial of size.

The model covers these parts of the system:

- the browser worker `lib/wwmodel.js`;
- the server worker `server/model.mjs`;
- the clique-worker threads `server/clique.mjs`, which keep the spacelike
  relation between the workers;
- the view worker `lib/wwview.js`, which mirrors the ids and the graph;
- the `Trigraph` class `modules/Trigraph.mjs`, which keeps vertices,
  levels, locations and steps;
- the helper API `lib/ModelAPI.js`: factorial, combinations, permutations,
  cartesian product, shuffling, Heap's algorithm, Bron–Kerbosch and string
  rewriting. `modules/ModelAPI.mjs` is a subset of it, and the same members
  model both.

The arena of vertices is a `map<nat, Vertex>`. `CausalGraph` projects it
onto parent links and defines the spacelike relation as a reference. The
two-frontier search of `isSpacelike` is proved to decide that relation.
`MaximalCliques.BronKerbosch` is the explicit-stack Bron–Kerbosch used by
every part. It is proved sound, complete and free of repeats.

Both engines are proved against one session invariant, `EngineSession.Inv`:
ids are fresh, parents sit below their children, and the rows are chained.
`Trigraphs.Trigraph` is a class whose methods change its fields in place.
Its invariant, `TrigraphStore.Shape`, is kept by `next`, `prev` and
`reset`.

Effects become parameters:

- the user's `init`, `oper`, `coord` and `eqf` callbacks are function
  values;
- `Math.random` is a function from round number to draw;
- progress reports and abort polls are sequences of booleans;
- the clique-worker pool is replaced by the search it answers: `ServerEngine.CliqueJobs` runs Bron–Kerbosch on the server's own arena, and the `Worker` class models one clique-worker thread on its own.

Probabilities are whole ten-thousandths. The draws use `real`.

## Model

| member | source | states |
|---|---|---|
| CausalGraph.Parents | lib/wwmodel.js:509-510 | the frontier step yields exactly the parents of the frontier's members; ids outside the arena contribute none |
| CausalGraph.IsSpacelike | lib/wwmodel.js:501-531 | the two-frontier loop answers exactly the spacelike relation; a missing vertex or a vertex paired with itself is never spacelike |
| CausalGraph.SearchSymmetric | lib/wwmodel.js:508-527 | the search gives the same answer whichever frontier is called the first |
| CausalGraph.SpacelikeSymmetric | lib/wwmodel.js:501-531 | spacelike separation is symmetric |
| CausalGraph.SearchFailsAtSharedClique | lib/wwmodel.js:526 | a "not spacelike" answer means the two vertices have a common ancestor that is a clique |
| CausalGraph.NoSharedCliqueAncestorIsSpacelike | lib/wwmodel.js:501-531 | two distinct vertices with no common clique ancestor are spacelike: only a clique separates |
| CausalGraph.Neighbours | lib/wwmodel.js:549-557 | the pairwise loop records every spacelike pair in both neighbour lists and nothing else |
| CausalGraph.SpacelikeListsAgree | server/clique.mjs:69-81 | the neighbour lists form a symmetric irreflexive relation whose maximal cliques are exactly the maximal pairwise-spacelike sets |
| CausalGraph.SpacelikeCliques | lib/wwmodel.js:558-583 | sorting by degree and enumerating reports every maximal spacelike subset exactly once; an empty group reports one empty clique |
| CausalGraph.SpacelikeBronKerbosch | server/clique.mjs:69-108 | `BronKerbosch2(U)` reports every maximal spacelike subset of `U` exactly once, each without repetitions |
| MaximalCliques.BronKerbosch | lib/wwmodel.js:560-583 | the explicit-stack loop terminates and reports only maximal cliques, every maximal clique, none twice, each without repeated vertices |
| MaximalCliques.Expand | lib/wwmodel.js:567-581 | pushing a child per candidate outside the pivot's neighbours keeps every frame good, accounts for each maximal clique once and lowers the termination weight |
| MaximalCliques.SplitOwnership | lib/wwmodel.js:574-580 | the cliques a frame owned are split between the pushed child (those with `v`) and the frame that remains (those without) |
| MaximalCliques.LeafIsMaximal | lib/wwmodel.js:565 | a frame with no candidates and no excluded vertices holds a maximal clique |
| MaximalCliques.Conclude | lib/wwmodel.js:583 | when the stack is empty the reported cliques are all maximal, all of them and pairwise distinct |
| CliqueWorker.WithVerticesFacts | server/clique.mjs:13-17 | the new range is present and unlinked with the request's flag; every other vertex is untouched |
| CliqueWorker.SetVertices | server/clique.mjs:13-17 | the first loop of `add` builds exactly the vertices `WithVerticesFacts` describes |
| CliqueWorker.ApplyLinks | server/clique.mjs:18 | appending each link's parent succeeds iff every child exists, and gives the graph `Linked` describes |
| CliqueWorker.Worker.constructor | server/clique.mjs:4 | the worker starts with no vertices |
| CliqueWorker.Worker.Add | server/clique.mjs:12-18 | the new graph and the error flag are those of `add` on the old graph |
| CliqueWorker.Worker.Del | server/clique.mjs:19-20 | the new graph is the old one without the range |
| CliqueWorker.Worker.Clique | server/clique.mjs:8-11 | a TypeError exactly when `states` is missing or names an unknown id; otherwise the reply keeps every field but `states` and carries the maximal spacelike subsets of the listed states |
| CliqueWorker.LinkedSucceeds | server/clique.mjs:18 | `add` fails exactly when some link names a child that does not exist; the ids are unchanged |
| CliqueWorker.LinkedParents | server/clique.mjs:18 | each vertex keeps its flag and gets, in order, the parents its links give it |
| CliqueWorker.AddCreatesRange | server/clique.mjs:12-18 | after `add` the ids are the old ones plus the range; each new vertex has exactly its links' parents and the request's flag |
| CliqueWorker.AddKeepsParentsBelow | server/clique.mjs:12-18 | links from newer to older ids keep every parent below its child, so ancestor searches terminate |
| CliqueWorker.AddThenDelRestores | server/model.mjs:163-190 | `addLayer` followed by `delLayer` of the same fresh range gives back the graph the worker had |
| Layout.ParentsFromLinks | server/model.mjs:164-167 | every parent assigned to a vertex comes from one of its links |
| Layout.ParentsFromHas | server/model.mjs:164-167 | every link's parent is among those assigned to its child |
| Layout.ParentsFromNone | server/model.mjs:164-167 | a vertex that no link names gets no parents |
| CausalGraph.ParentsLower | lib/wwmodel.js:508-510 | walking one level up from a non-empty frontier lowers its largest id, so the loop ends |
| MaximalCliques.Extender | lib/wwmodel.js:567-569 | once a non-leaf frame has pushed its children, what remains of it is extended by the pivot, so it owns no maximal clique |
| EngineCore.ProjectBelow | lib/wwmodel.js:138-176 | the vertices the engine labels have parents with smaller ids, so the projection is a graph the ancestor search walks to its end |
| EngineCore.AppendedKeys | lib/wwmodel.js:138-141 | labelling `vs` after `base` adds exactly the ids `base+1..base+|vs|` |
| EngineCore.AppendedNew | lib/wwmodel.js:138-141 | vertex `k` of the batch gets the id `base+k+1` |
| EngineCore.AppendedOld | lib/wwmodel.js:138-141 | the vertices up to `base` stay as they were |
| EngineCore.AppendedDense | lib/wwmodel.js:138-142 | labelling keeps the ids `1..id` all present |
| EngineCore.AppendedBelow | lib/wwmodel.js:138-141 | labelling vertices whose parents precede them keeps every parent below its child |
| EngineCore.Store | lib/wwmodel.js:138-142 | the labelling loop stores the batch under consecutive ids and leaves the counter at the last |
| EngineCore.WithStatesKeys | lib/wwmodel.js:146-160 | labelling the states adds exactly the ids after `base` |
| EngineCore.WithStatesNew | lib/wwmodel.js:146-152 | state `j` gets the id `base+j+1`, its parent operation and its own visibility |
| EngineCore.WithStatesOld | lib/wwmodel.js:148-151 | an existing vertex keeps its parents and kind and is shown iff it was shown or a shown new state is its child |
| EngineCore.WithStatesDense | lib/wwmodel.js:146-161 | labelling the states keeps the ids dense |
| EngineCore.WithStatesBelow | lib/wwmodel.js:146-152 | a state's operation precedes it, so parents stay below children |
| EngineCore.GroupIndex | lib/wwmodel.js:154 | the group found is the first with the coordinate, or none exists |
| EngineCore.GroupedPartition | lib/wwmodel.js:145-160 | the `G` map puts each new state in exactly the group of its coordinate |
| EngineCore.GroupedDistinct | lib/wwmodel.js:154-159 | no coordinate has two groups |
| EngineCore.GroupedCovers | lib/wwmodel.js:154-159 | every state is in the group of its coordinate |
| EngineCore.GroupedMembers | lib/wwmodel.js:154-159 | a group holds only states with its coordinate |
| EngineCore.GroupedIncreasing | lib/wwmodel.js:154-159 | each group lists its states in id order |
| EngineCore.GroupedFirstSeen | lib/wwmodel.js:154-159 | the groups come in the order their coordinates were first seen, none empty |
| EngineCore.GroupedBound | lib/wwmodel.js:146-160 | the groups hold no id past the last state |
| EngineCore.StateTurn | lib/wwmodel.js:147-152 | one turn of the state loop: the next id, and the parent operation marked shown when the state is |
| EngineCore.GroupTurn | lib/wwmodel.js:153-159 | one turn adds the state to the group of its coordinate, opening a group when there is none |
| EngineCore.LabelStates | lib/wwmodel.js:146-161 | the state loop labels the states as `WithStates` says and groups them as `Grouped` says |
| EngineCliques.CliqueVerticesAt | lib/wwmodel.js:167-176 | clique `k` of group `g` comes at position `Offset(g)+k` of the flattened list and points at location `g` |
| EngineCliques.FlatParentsElems | lib/wwmodel.js:185 | the flattened, de-duplicated parents are exactly the parent set of the listed vertices |
| EngineCliques.LocsOfElems | lib/wwmodel.js:191 | the metric lists exactly the locations of the clique vertices among the grandparents |
| EngineCliques.StatCounts | lib/wwmodel.js:184-190 | `stat` counts the distinct states of the location's cliques, their distinct operations and the operations' distinct parent cliques |
| EngineCliques.MetricLocations | lib/wwmodel.js:191 | `metric` lists the location of each grandparent clique, each location once |
| EngineCliques.TakeCensus | lib/wwmodel.js:183-191 | one census per group, each the `stat` and `metric` of its cliques |
| EngineCliques.LabelCliques | lib/wwmodel.js:164-206 | the clique and location loops leave the arena `Labelled` describes, with the locations' ids right after the cliques' |
| EngineFind.LabelLayer | lib/wwmodel.js:137-161 | the operation and state loops label the layer as `Layered` says and leave the counter past the last state |
| EngineFind.Layer | lib/wwmodel.js:137-161 | the labelled layer is dense, keeps parents below children and keeps every older vertex |
| EngineFind.LayerShape | lib/wwmodel.js:137-161 | labelling the operations then the states keeps the ids dense and parents below children |
| EngineFind.GroupFacts | lib/wwmodel.js:145-160 | every group holds distinct new states of the arena and no coordinate has two groups |
| EngineFind.CliqueSearch | lib/wwmodel.js:167-197 | each searched group gets its maximal spacelike cliques; the loop stops early exactly when the progress poll reports an abort, never after the last group |
| EngineFind.SearchedBelow | lib/wwmodel.js:168 | every member of a reported clique is a state of the layer |
| EngineFind.FindCliques | lib/wwmodel.js:132-212 | on success the step is complete, its cliques are the maximal spacelike ones and the ids row is ordered; on an abort fewer groups were searched and the poll said stop |
| EngineFind.Conclude | lib/wwmodel.js:183-206 | once every group is searched, the census is taken and cliques then locations are labelled, keeping the arena dense and ordered |
| EngineFind.Abandon | lib/wwmodel.js:196 | an aborted search leaves the cliques already labelled and no location |
| EngineFind.LayerOld | lib/wwmodel.js:148-151 | vertices from earlier steps are untouched: a new state only marks its own new operation shown |
| EngineFind.LayerOp | lib/wwmodel.js:138-151 | operation `k` gets id `id0+k+1` and its parents, and is shown iff one of its states is |
| EngineFind.LayerState | lib/wwmodel.js:146-152 | state `j` gets id `id0+|ops|+j+1`, its operation, its value and the user's `show` |
| EngineStep.LabelledOld | lib/wwmodel.js:164-206 | labelling cliques and locations keeps every vertex already there |
| EngineStep.LabelledClique | lib/wwmodel.js:170-173 | clique `k` of group `g` gets id `stateMax+Offset(g)+k+1`, its states as parents, and points at its group's location |
| EngineStep.LabelledLocation | lib/wwmodel.js:201-204 | group `g` becomes the location `cliqueMax+g+1` |
| EngineStep.ShownClique | lib/wwmodel.js:172 | a clique is shown iff one of its states is |
| EngineStep.CliquesOfLocation | lib/wwmodel.js:175 | a location's parents are exactly its group's cliques, each pointing back at it |
| EngineStep.ShownLocation | lib/wwmodel.js:203 | a location is shown iff one of its cliques is |
| EngineStep.CliqueInItsLocation | lib/wwmodel.js:171-175 | every new clique points at a new location that lists it |
| EngineStep.LabelledDense | lib/wwmodel.js:198-206 | after the step the ids `1..locMax` are all present |
| EngineStep.LabelledBelow | lib/wwmodel.js:170-205 | cliques over earlier states and locations over their cliques keep every parent below its child |
| EngineFilter.CappedKeepsLargest | server/model.mjs:430-434 | the cap keeps `min(N, |cliques|)` of the location's own cliques, each no more often than listed, and each kept one has at least as many states as every dropped one; among cliques with equal numbers of states the ones kept are the first listed, in list order |
| EngineFilter.SortedSplit | server/model.mjs:431-432 | after the descending sort, every entry of the kept prefix has at least the arity of every entry cut off |
| EngineFilter.CapCliques | server/model.mjs:425-438 | without an abort, `Lc` and the arena are those of capping every location; an abort after location `k` leaves the turns up to `k` |
| EngineFilter.CapTurn | server/model.mjs:430-434 | one turn caps the location's list in the arena and appends it to `Lc` |
| EngineFilter.CapAtKeeps | server/model.mjs:430-434 | a turn keeps the arena dense with parents below children and only lists older cliques |
| EngineFilter.CapTurnsKeep | server/model.mjs:428-438 | the whole cap loop, or any prefix of it, keeps those facts |
| EngineFilter.CapTurnsSeparate | server/model.mjs:428-438 | each location ends with its own capped list, every other vertex is untouched and `Lc` is the kept lists in location order |
| EngineFilter.CappedAgree | server/model.mjs:431 | the cap reads the arena only through the arities of the listed cliques |
| EngineObserve.ProbsOf | server/model.mjs:587-595 | one probability per clique |
| EngineObserve.CliqueProbs | server/model.mjs:587-595 | `probs(cliques)` gives the ten-thousandth shares of the factorials of the clique sizes and leaves the memo a true factorial table |
| EngineObserve.Drawn | server/model.mjs:384-387 | the draw as written, with the loop bound `P.length - 2`: an index of the list, and never the last one once the list has two entries or more |
| EngineObserve.PickAt | server/model.mjs:381-390 | the pick is one of the location's own cliques, and there is one whenever the location has cliques |
| EngineObserve.ObserveEach | server/model.mjs:374-395 | without an abort `Lc` is one pick per location, each drawn as written (`Drawn`); an abort after location `k` leaves the picks up to `k` |
| EngineObserve.PickTurn | server/model.mjs:381-390 | one turn computes the location's probabilities and draws among its cliques with the source's loop bound, so the last of two or more cliques is never picked |
| EngineObserve.PicksOnePerLocation | server/model.mjs:378-395 | when every location has a clique, observer 1 keeps exactly one clique per location, one of its own |
| EngineObserve.SpacelikeTo | server/model.mjs:418 | the filter keeps exactly the pooled cliques spacelike to `c`, and a pool holding `c` shrinks |
| EngineObserve.KeepSpacelike | server/model.mjs:418 | the filter loop computes `SpacelikeTo` |
| EngineObserve.ObserveWhole | server/model.mjs:397-423 | the loop as intended, with `Lctmp` a local (the code as written throws, see `ObserveWholeAsWrittenThrows`): the selected cliques come from the pool and are pairwise spacelike; a finished run is maximal (every other clique is non-spacelike to a selected one) and selects one iff the pool was non-empty |
| EngineObserve.ObserveRound | server/model.mjs:405-418 | one round of the intended loop selects a drawn clique and strictly shrinks the pool, keeping the selection invariant |
| EngineObserve.SelectionStep | server/model.mjs:414-418 | selecting a pooled clique and keeping only the cliques spacelike to it preserves the selection invariant |
| EngineObserve.SelectionPairwise | server/model.mjs:402-423 | the selection is pairwise spacelike in both orders |
| EngineObserve.ObserveWholeAsWrittenThrows | server/model.mjs:400 | observer 2 as written throws a ReferenceError before selecting anything |
| EngineOper.DrawsFor | server/model.mjs:470 | the random draws for one shuffle, all in [0,1) |
| EngineOper.SampledFromClique | server/model.mjs:469-472 | all the clique's states when there are at most the limit (or none), otherwise exactly the limit, each no more often than in the clique |
| EngineOper.OperPhase | server/model.mjs:463-502 | the phase yields the operations and states `Spawned` describes, or the first TypeError |
| EngineOper.SpawnedStops | server/model.mjs:474-487 | once a TypeError is thrown, later cliques change nothing |
| EngineOper.CliqueTurn | server/model.mjs:468-494 | one clique's turn: sample its states, call `oper`, check and append its operations |
| EngineOper.StateList | server/model.mjs:468 | the map loop yields the clique's states |
| EngineOper.OpsTurn | server/model.mjs:479-494 | the inner loop appends each operation and its states, or stops at the first bad entry |
| EngineOper.OpsSpawnStops | server/model.mjs:482-487 | entries after a bad one are not looked at |
| EngineOper.Shuffled | server/model.mjs:470 | the shuffle of the copy is `ShuffleFrom` of the states, same length |
| EngineOper.SpawnedShape | server/model.mjs:463-494 | a finished phase gives operations each with one parent clique from `Lc`, and states each pointing to an earlier operation, at least one per operation |
| EngineSession.ChainedSnoc | lib/wwmodel.js:135-209 | a step's ids row starts where the previous row ends, so the history stays chained |
| EngineSession.LatestGiven | lib/wwmodel.js:465-468 | the cliques a tuple lays out are ids up to its end |
| EngineSession.InitialSpawn | lib/wwmodel.js:259-263 | the first step has one operation without parents, the parent of every initial state in order |
| EngineSession.CapFilter | lib/wwmodel.js:349-362 | the cap branch of `filter` gives `Filtered`: the capped lists, or the prefix up to an abort, and keeps the arena dense and ordered |
| EngineSession.Rebuild | lib/wwmodel.js:441-474 | `reconstruct()` cuts the arena at the last step's end, resets the counter there and relists that step's four lists |
| EngineSession.SearchStep | lib/wwmodel.js:429-435 | an abort during the search leaves the session as it was; success adds one chained ids row, keeps the old arena below it and posts one ready message |
| EngineSession.PrevStep | lib/wwmodel.js:487-494 | drops the last step, cuts the arena to the previous one, relists it and posts it |
| EngineSetup.InstallReportsFirstMissing | lib/wwmodel.js:223-226 | the walk fails iff some name is not given as a string, and reports the first such name |
| EngineSetup.InstallFields | lib/wwmodel.js:227-241 | after a complete walk each callback on the list is the user's and the others are unchanged |
| EngineSetup.InstallComplete | lib/wwmodel.js:223-242 | on either engine's list a complete walk installs exactly the user's `oper`, `coord` and `show` |
| EngineSetup.InstallKeepsInstalled | lib/wwmodel.js:223-242 | the walk only installs given functions, so it never uninstalls one |
| EngineSetup.InstallGivesAll | lib/wwmodel.js:223-242 | a complete walk finds `init` and `detectors` and installs the user's callbacks |
| EngineSetup.InstallAll | lib/wwmodel.js:223-242 | the loop computes `Install`: the callbacks and the first missing name |
| EngineSetup.InstallStops | lib/wwmodel.js:224-226 | nothing after the first missing name is installed |
| EngineSetup.InitChecked | lib/wwmodel.js:245-251 | the initial states pass iff they are a non-empty array, and then are used as given |
| EngineSetup.DetectorsChecked | lib/wwmodel.js:269-275 | the detectors pass iff they are an array of strings, and then are posted as given |
| EngineMirror.ParentsFromConcat | server/model.mjs:164-167 | the parents assigned by two batches of links are those of the first then the second |
| EngineMirror.ChildLinksParents | server/model.mjs:166 | one vertex's links assign it exactly its parents and nothing to any other vertex |
| EngineMirror.LayerLinksParents | server/model.mjs:164-167 | the links of a range give each id of the range exactly its vertex's parents and no other id any |
| EngineMirror.LayerLinksAgree | server/model.mjs:164-167 | two arenas that agree on the range give the same links |
| EngineMirror.LayerLinksLaysOut | server/model.mjs:163-167 | the links `addLayer` builds lay out its range |
| EngineMirror.LaysOutAgree | server/model.mjs:163-167 | links that lay out a range of one arena lay it out in any arena agreeing with it there |
| EngineMirror.CollectLinks | server/model.mjs:164-167 | the link loop builds `LayerLinks` |
| EngineMirror.LayerMessage | server/model.mjs:163-179 | the `add` message carries the range, the flag and links that lay the range out |
| EngineMirror.ReplayConcat | server/model.mjs:170-189 | replaying two message lists is replaying one then the other |
| EngineMirror.AddLayerInstalls | server/model.mjs:163-179 | on a worker, `addLayer` of a range succeeds and installs each id of the range with its parents and the flag, leaving every other id as it was |
| EngineMirror.AddThenDelLayer | server/model.mjs:248-253 | a rejected step's `addLayer` then `delLayer` leaves the worker as before, without the range |
| EngineMirror.AddLayerBelow | server/model.mjs:163-179 | a replayed layer whose parents precede their children keeps the worker's ancestor search terminating |
| EngineReady.HiddenExactly | lib/wwmodel.js:97-101 | `hide` holds exactly the un-shown ids of the step, once each, increasing |
| EngineReady.ParentLinksExactly | lib/wwmodel.js:108-110 | one vertex's links are its parent links where both ends are shown |
| EngineReady.LinksExactly | lib/wwmodel.js:108-120 | a link is listed iff its child is in the lists, its parent is one of the child's parents, and both are shown |
| EngineReady.HideList | lib/wwmodel.js:98-101 | the hide loop computes `Hidden` |
| EngineReady.LinkList | lib/wwmodel.js:108-120 | the link loops append `LinksOf` the list |
| EngineReady.LocListsAt | lib/wwmodel.js:117-124 | one coordinate, stat and metric per location, each that location's own |
| EngineReady.LocFields | lib/wwmodel.js:121-123 | the pushes of the location loop build those lists |
| EngineReady.ReadyData | lib/wwmodel.js:77-129 | `postReady` builds the message `ReadyFor` describes |
| EngineReady.ReadyForFields | lib/wwmodel.js:77-129 | the message reports the step and its ids row, hides exactly the un-shown ids, links exactly the shown parent links and gives each location its fields |
| EngineReady.LatestReadable | lib/wwmodel.js:80-124 | every vertex the message reads is present when the arena holds every id of the step |
| EngineReconstruct.Truncate | lib/wwmodel.js:445-448 | the loop removes exactly the ids above `top` and leaves the counter at `top` |
| EngineReconstruct.TruncateIsCut | lib/wwmodel.js:445-448 | on a dense arena the truncation is the cut at `top`, dense up to `top` |
| EngineReconstruct.CutUndoesStep | lib/wwmodel.js:487-491 | cutting a grown arena at the old end gives the old arena back |
| EngineReconstruct.CutBelow | lib/wwmodel.js:445-448 | cutting keeps parents below their children |
| EngineReconstruct.Span | lib/wwmodel.js:457 | the ids `lo+1..hi` in order |
| EngineReconstruct.RangeList | lib/wwmodel.js:457-460 | the relisting loop gives exactly the ids of the range, increasing |
| EngineReconstruct.Reconstruct | lib/wwmodel.js:441-474 | the truncation, then the four lists of the last ids row |
| EngineReconstruct.LatestPartitions | lib/wwmodel.js:457-472 | an ordered row splits its range into the four lists, every id in exactly one |
| LocalEngine.FirstStep | lib/wwmodel.js:253-266 | the reset and first search: the session is valid, and it has a first step iff the search was not aborted |
| LocalEngine.OperAndSearch | lib/wwmodel.js:386-435 | the operator phase and the search give `StepOutcome`: a TypeError, an abort that leaves the step, or one more step |
| LocalEngine.NextStep | lib/wwmodel.js:380-437 | `next` after its check: an aborted filter rebuilds the step, otherwise `OperAndSearch` on the filtered cliques |
| LocalEngine.Engine.constructor | lib/wwmodel.js:6-14 | the worker starts with no vertices, no steps and nothing posted |
| LocalEngine.Engine.Setup | lib/wwmodel.js:215-282 | "Missing model." changes nothing; a missing function throws naming the first one; otherwise the initial states and detectors are checked and the first step is built and posted |
| LocalEngine.Engine.Next | lib/wwmodel.js:370-438 | before setup a RangeError that changes nothing; otherwise the outcome `NextOutcome` describes, with posted messages only appended |
| LocalEngine.Engine.Prev | lib/wwmodel.js:477-498 | RangeErrors before setup and at the first step change nothing; otherwise the last step is dropped, the previous one rebuilt and posted |
| ServerEngine.ServerFind | server/model.mjs:193-297 | labels and mirrors the operations and states; if a clique job is rejected the layer is withdrawn and nothing more is labelled, otherwise the step is complete, its cliques mirrored with the flag |
| ServerEngine.CliquesMessage | server/model.mjs:283 | the cliques' `add` message, after the operations and states, makes the workers mirror the whole step |
| ServerEngine.CliqueJobs | server/model.mjs:226-249 | once every job has answered, each coordinate group has exactly its maximal spacelike cliques |
| ServerEngine.ServerConclude | server/model.mjs:255-294 | the clique and location loops complete the step and keep every vertex labelled before |
| ServerEngine.PicksGiven | server/model.mjs:378-395 | observer 1 only picks existing cliques |
| ServerEngine.ServerFilter | server/model.mjs:367-443 | the three branches of `filter` as written: observer 1 with the source's draw, observer 2 throwing the ReferenceError of the undeclared `Lctmp` with the arena and memo unchanged, and the cap, each with its abort, keeping the arena and the memo valid |
| ServerEngine.ServerSearchStep | server/model.mjs:505-511 | a rejected job rebuilds the current step; a completed one adds one ids row, mirrors it and posts it |
| ServerEngine.RejectedSearch | server/model.mjs:505-508 | a rejection leaves the session at its current step, the layer withdrawn from the workers |
| ServerEngine.AcceptedSearch | server/model.mjs:294 | a completed step's row is pushed and its ready message posted |
| ServerEngine.ServerOperAndSearch | server/model.mjs:463-511 | the operator phase then the search: a TypeError, a rejection, or one more mirrored step |
| ServerEngine.ServerNextStep | server/model.mjs:456-513 | `next` after its check: observer 2 throws the ReferenceError and leaves the arena, ids, rows, latest step and messages as they were; an aborted filter rebuilds the step; otherwise the operator phase and the search |
| ServerEngine.ServerFirstStep | server/model.mjs:335-348 | the reset and first search: the session has a first step iff no job was rejected |
| ServerEngine.ServerBoot | server/model.mjs:335-360 | the first step, then the detector checks and the first ready message with the detectors |
| ServerEngine.ServerSetup | server/model.mjs:300-364 | "Missing model." and a missing function throw; otherwise the initial states are checked and the first step built |
| ServerEngine.Server.constructor | server/model.mjs:1-40 | the worker starts with an empty session and the factorial memo `[1, 1]` (the corrected seed, see Left out) |
| ServerEngine.Server.Setup | server/model.mjs:300-364 | `setup` on the worker's fields, with the messages to the clique workers and the posts appended |
| ServerEngine.Server.Next | server/model.mjs:446-514 | before setup a RangeError that changes nothing; with observer 2 the ReferenceError of `filter` with the session unchanged; otherwise `next` as `ServerNextStep` says, messages only appended |
| ServerEngine.Server.Prev | server/model.mjs:553-577 | RangeErrors before setup and at the first step; otherwise the step is dropped, withdrawn from the workers, the previous one rebuilt and posted |
| ServerOutcome.StepLayersInstall | server/model.mjs:223-283 | after a completed step each worker holds every operation and state with its parents and no flag, every clique with its parents and the flag, and everything else as before |
| ServerOutcome.RejectedLayersRestore | server/model.mjs:223-253 | after a rejected step each worker is as before, without the step's range |
| ServerOutcome.NextThenPrevRestores | server/model.mjs:564-567 | `next` followed by `prev` gives each worker back the graph it had |
| Factorials.Fact | server/model.mjs:581-584 | n! is positive |
| Factorials.FactMonotone | server/model.mjs:581-584 | factorials grow with their argument |
| Factorials.FactExceeds | server/model.mjs:581-584 | (n+1)! exceeds n·n! |
| Factorials.GrowFacts | server/model.mjs:582 | growing the memo keeps the cached prefix, covers `n` and appends factorials |
| Factorials.MemoFactorial | server/model.mjs:581-584 | the answer is the memo's entry `n`, which is n! for n ≥ 1 and for every n on a memo of true factorials, and the memo stays one |
| Factorials.SourceSeedFactorialOfZero | lib/ModelAPI.js:17 | the seed `[0n, 1n]` answers 0 for 0! |
| Factorials.CorrectedSeedIsFactMemo | lib/ModelAPI.js:60-65 | with the seed `[1n, 1n]` every answer is a factorial |
| Probabilities.FactTotalPositive | server/model.mjs:588-593 | the total is at least the number of cliques, so the division is defined |
| Probabilities.Probs | server/model.mjs:587-595 | entry `i` is the floor of 10000·(size_i)!/total |
| Probabilities.ShareSumBounds | server/model.mjs:594 | each numerator is the floor of its exact share |
| Probabilities.ProbsBounds | server/model.mjs:587-595 | each probability is at most 1, they sum to at most 1, and lose less than 1/10000 per clique to rounding |
| Probabilities.DrawIndexFirst | server/model.mjs:384-387 | the draw stops at the first index whose running sum reaches `r`, or at the bound |
| Probabilities.DrawLoop | server/model.mjs:384-387 | the loop computes `DrawIndex` |
| Probabilities.DrawAsWritten | server/model.mjs:383-387 | with the bound `P.length - 2` the last index is never returned |
| Probabilities.DrawAsWrittenMissesLast | server/model.mjs:408-411 | with two equal cliques, a draw of 0.75 picks the first, and no draw picks the second |
| Probabilities.Draw | server/model.mjs:383-387 | with the bound `P.length - 1` the index is the one whose cumulative interval holds `r` |
| Probabilities.EveryEntryDrawable | server/model.mjs:383-387 | every entry with positive probability is picked by some draw |
| Probabilities.CumulativeMonotone | server/model.mjs:385 | running sums of probabilities never decrease |
| Combinatorics.LexSortedDistinct | lib/ModelAPI.js:75-132 | a list in strict lexicographic order repeats no entry |
| Combinatorics.CombShape | lib/ModelAPI.js:79-85 | every list `comb` yields has `k` increasing positions from the start position on |
| Combinatorics.CombComplete | lib/ModelAPI.js:79-85 | every increasing choice of `k` positions is yielded |
| Combinatorics.CombSorted | lib/ModelAPI.js:79-85 | the choices come in lexicographic order, so none twice |
| Combinatorics.CombCount | lib/ModelAPI.js:75-86 | `comb` yields n-choose-k lists |
| Combinatorics.CombExample | lib/ModelAPI.js:69 | `comb([a,b,c],2)` yields `[a,b]`, `[a,c]`, `[b,c]` |
| Combinatorics.PermShape | lib/ModelAPI.js:102-112 | every list `perm` yields has `k` distinct unused positions |
| Combinatorics.PermComplete | lib/ModelAPI.js:102-112 | every ordered choice of `k` distinct unused positions is yielded |
| Combinatorics.PermSorted | lib/ModelAPI.js:102-112 | the selections come in lexicographic order, so none twice |
| Combinatorics.PermExample | lib/ModelAPI.js:90 | `perm([a,b,c],2)` yields `[a,b] [a,c] [b,a] [b,c] [c,a] [c,b]` |
| Combinatorics.CartShape | lib/ModelAPI.js:125-131 | every tuple `cart` yields has one position into each set |
| Combinatorics.CartComplete | lib/ModelAPI.js:125-131 | every tuple of positions is yielded |
| Combinatorics.CartSorted | lib/ModelAPI.js:125-131 | the tuples come in lexicographic order, so none twice |
| Combinatorics.CartCount | lib/ModelAPI.js:122-132 | `cart` yields the product of the set sizes |
| Combinatorics.SwapPermutes | lib/ModelAPI.js:160 | a swap only rearranges the elements |
| Combinatorics.HeapsCount | lib/ModelAPI.js:153-165 | `heapsAlg` yields (n−index)! arrays |
| Combinatorics.HeapsPermutes | lib/ModelAPI.js:157-164 | every snapshot is a permutation of the array that keeps the positions before `index` |
| Combinatorics.HeapsDistinct | lib/ModelAPI.js:157-164 | on an array without repeats no two snapshots are equal |
| ModelApi.Api.constructor | lib/ModelAPI.js:14-18 | ids start at 0 and the memo at the source's seed `[0, 1]` |
| ModelApi.Api.Id | lib/ModelAPI.js:42-44 | returns the counter and moves it on, so calls give 0, 1, 2, … |
| ModelApi.Api.Factorial | lib/ModelAPI.js:60-65 | returns n! for every n ≥ 1 and the seed's 0 for n = 0, grows the memo up to `n` and keeps entries 1 on factorials |
| ModelApi.Pick | lib/ModelAPI.js:141 | `Math.floor(x·(i+1))` is an index from 0 to `i` |
| ModelApi.ShufflePermutes | lib/ModelAPI.js:139-145 | shuffling only rearranges the elements |
| ModelApi.Shuffle | lib/ModelAPI.js:139-145 | permutes the array in place as the draws say and returns the same array |
| ModelApi.SwapIn | lib/ModelAPI.js:142 | swaps the two entries in place |
| ModelApi.ShuffleStep | lib/ModelAPI.js:140-143 | one iteration of the Fisher–Yates loop |
| ModelApi.HeapsUtil | lib/ModelAPI.js:157-164 | yields the snapshots `HeapsFrom` describes and leaves the array as it found it |
| ModelApi.HeapsAlg | lib/ModelAPI.js:153-165 | n! snapshots, each a permutation of the array, with the array restored at the end |
| StringRewrite.MatchesSound | lib/ModelAPI.js:224-228 | every reported position is a match at or after the start, increasing |
| StringRewrite.RuleHits | lib/ModelAPI.js:224-228 | the hits of rule `i` are tagged `i` |
| StringRewrite.HitsValid | lib/ModelAPI.js:222-229 | every hit is a real match and none is found twice |
| StringRewrite.FindHits | lib/ModelAPI.js:220-229 | the two loops collect exactly `HitsUpTo` every rule, valid and without repeats |
| StringRewrite.DisjointNeighbours | lib/ModelAPI.js:233-238 | two hits become neighbours iff they are different hits whose ranges do not overlap |
| StringRewrite.AllPairsSeen | lib/ModelAPI.js:233 | `comb(hits,2)` visits every pair of different positions |
| StringRewrite.PairSeenIff | lib/ModelAPI.js:233 | a pair of positions is visited iff the positions differ |
| StringRewrite.DisjointListsWellFormed | lib/ModelAPI.js:232-238 | the neighbour lists form a relation the clique enumerator accepts |
| StringRewrite.RightToLeftComposes | lib/ModelAPI.js:249 | splicing hits from right to left replaces every range of the original text |
| StringRewrite.RightFirst | lib/ModelAPI.js:249 | the corrected splicing order is a rearrangement of the group |
| StringRewrite.RightFirstIsRightToLeft | lib/ModelAPI.js:249 | for non-overlapping hits, largest `s+e` first is right to left |
| StringRewrite.CombineCorrectedComposes | lib/ModelAPI.js:247-250 | the corrected combining step replaces every range of the original string, whatever the order of the group |
| StringRewrite.CombineAsWrittenShifts | lib/ModelAPI.js:248-250 | splicing in clique order gives "xyb" for "ab" with a→xx, b→y, while the intended result is "xxy" |
| StringRewrite.GroupStrings | lib/ModelAPI.js:252-258 | one rewritten string per hit of the group |
| StringRewrite.GroupStringsCompose | lib/ModelAPI.js:252-258 | each replaces its one range of the original string |
| StringRewrite.MaximalAgree | lib/ModelAPI.js:242 | the maximal cliques of the neighbour relation are exactly the maximal sets of pairwise non-overlapping hits |
| StringRewrite.DisjointCliques | lib/ModelAPI.js:239-242 | the degree sort and the enumeration report every maximal set of non-overlapping hits exactly once |
| StringRewrite.GroupFits | lib/ModelAPI.js:242-246 | a reported group is made of real, pairwise non-overlapping hits |
| StringRewrite.RewriteStr | lib/ModelAPI.js:214-263 | a TypeError for a non-string and for non-array rules; no result when nothing matches; otherwise one result per maximal group |
| ViewMirror.WithEmpty | lib/wwview.js:112 | each id of the range gets an empty parent list; other ids keep theirs |
| ViewMirror.View.constructor | lib/wwview.js:7-11 | an empty mirror with the factorial memo `[1, 1]` (the corrected seed, see Left out) |
| ViewMirror.View.Add | lib/wwview.js:103-133 | the mirror and the result are those of `add` on the old mirror |
| ViewMirror.View.Open | lib/wwview.js:109-113 | the history push, the empty parent lists and the removal of the hidden ids |
| ViewMirror.View.Reset | lib/wwview.js:112 | the parent lists of the range are reset to empty, nothing else changes |
| ViewMirror.View.Unlist | lib/wwview.js:113 | the hidden ids lose their entry, nothing else changes |
| ViewMirror.View.LinkIn | lib/wwview.js:114 | each link appends its parent to its child's list, as `LinkAll` says |
| ViewMirror.View.PlaceAll | lib/wwview.js:117-130 | each location of the step gets its coordinate and metric, and joins its coordinate's list |
| ViewMirror.View.Del | lib/wwview.js:136-161 | a RangeError at the first step, otherwise the last step's entries removed as `DelSpec` says |
| ViewMirror.View.UnplaceAll | lib/wwview.js:147-155 | the location loop of `del` |
| ViewMirror.View.DropParents | lib/wwview.js:158 | the parent lists of the step's other vertices go |
| ViewMirror.View.Factorial | lib/wwview.js:426-429 | returns n! and grows the memo up to `n`, over the corrected seed |
| ViewMirror.View.Probs | lib/wwview.js:432-441 | fails iff a clique has no parent list; otherwise the factorial shares of the cliques' sizes |
| ViewMirror.LinkAllParents | lib/wwview.js:114 | linking goes through iff every child has a list, keeps the ids, and appends each vertex's parents in link order |
| ViewMirror.AddBuildsParents | lib/wwview.js:109-114 | `add` goes through iff every link names a known id; the new lists are exactly the unhidden ids of the step with their links' parents |
| ViewMirror.PlacedCoords | lib/wwview.js:118-128 | location `base+k+1` gets `coords[k]`, other entries stay |
| ViewMirror.PlacedMetric | lib/wwview.js:118-129 | location `base+k+1` gets `metric[k]`, other entries stay |
| ViewMirror.PlacedLists | lib/wwview.js:122-127 | each location is appended to its coordinate's list, in order |
| ViewMirror.PlaceUnplace | lib/wwview.js:147-155 | the location loop of `del` undoes the location loop of `add` |
| ViewMirror.AddThenDelRestores | lib/wwview.js:103-161 | `add` of a fresh step then `del` gives back the mirror it started from |
| ViewMirror.AddOutcome | lib/wwview.js:103-133 | a fresh `add` pushes its ids, links its parents and places its locations |
| ViewMirror.ParentsRestored | lib/wwview.js:154-158 | the parent lists `del` leaves after a fresh `add` are the ones before |
| ViewMirror.OpenedHasChildren | lib/wwview.js:112-114 | every child a fresh step links is present once the step is opened |
| SeqUtil.RemoveFirst | lib/wwmodel.js:579 | `P.splice(P.indexOf(v),1)` removes one occurrence of `v` |
| SeqUtil.AddUnique | lib/wwmodel.js:575 | `[...new Set([...R,v])]` appends `v` unless present |
| SeqUtil.Keep | lib/wwmodel.js:576-577 | the filter keeps exactly the entries also in the other list |
| SeqUtil.Without | lib/wwmodel.js:569 | the filter keeps exactly the entries not in the other list |
| SeqUtil.SortDesc | lib/wwmodel.js:558 | the sort puts larger keys first and is a permutation |
| SeqUtil.SortDescStable | lib/wwmodel.js:558 | the sort is stable, as `Array.prototype.sort` is: the entries of each key come out in their input order |
| SeqUtil.InsertKeep | lib/wwmodel.js:558 | one insertion puts the new entry before the others of its key and keeps every key's order |
| SeqUtil.KeyFilterPrefix | lib/wwmodel.js:355-356 | truncating a list keeps, for each key, a prefix of that key's entries |
| Trigraphs.Trigraph.constructor | modules/Trigraph.mjs:47-66 | an empty trigraph at level 0 with the parameters given and the memo `[0, 1]` |
| Trigraphs.Trigraph.Load | modules/Trigraph.mjs:48-55 | the fields hold the given trigraph |
| Trigraphs.Trigraph.GetStep | modules/Trigraph.mjs:93-96 | the step is `level / 3` rounded to the nearest whole number, the current level standing in for a missing one |
| Trigraphs.Trigraph.Fact | modules/Trigraph.mjs:117-125 | the memo grows up to `n` and entry `n` is returned, which is n! for n ≥ 1 |
| Trigraphs.Trigraph.Reset | modules/Trigraph.mjs:72-86 | everything but the memo cleared, the parameters installed, and the first step run on the empty trigraph |
| Trigraphs.Trigraph.Next | modules/Trigraph.mjs:133-317 | one step as `NextOutcome` says; a step that makes states adds three levels and at least one clique |
| Trigraphs.Trigraph.Prev | modules/Trigraph.mjs:323-359 | up to level 3 nothing changes and the answer is false; otherwise the last step is undone, three levels go, and the answer says whether another step can be undone |
| TrigraphStore.StepOf | modules/Trigraph.mjs:93-96 | levels `3s-2`, `3s-1` and `3s` make step `s` |
| TrigraphStore.GetStep | modules/Trigraph.mjs:93-96 | `round(level/3)`: the nearest step to `level/3` |
| TrigraphStore.EmptyShape | modules/Trigraph.mjs:48-55 | the empty trigraph satisfies the invariant |
| TrigraphBfs.ListLinks | modules/Trigraph.mjs:471-474 | the loop lists the parents (or children) of the generation in order |
| TrigraphBfs.Bfs | modules/Trigraph.mjs:462-478 | the generator yields the generations from `skip` on while they are non-empty; after the last one every generation is empty, and the yielded ones are pairwise disjoint |
| TrigraphGraph.IsSpacelike | modules/Trigraph.mjs:422-451 | the two-frontier loop answers exactly the spacelike relation with clique levels as barriers; a missing vertex or a vertex paired with itself is never spacelike |
| TrigraphGraph.SiblingsSpacelike | modules/Trigraph.mjs:245-248 | two states of one operation are spacelike |
| TrigraphGraph.CousinsNotSpacelike | modules/Trigraph.mjs:242-248 | two states made by different operations of one clique are not spacelike |
| TrigraphGraph.SpacelikeRow | modules/Trigraph.mjs:382 | a vertex's neighbours are exactly the other members spacelike to it |
| TrigraphGraph.SpacelikeMap | modules/Trigraph.mjs:381-383 | every vertex's list holds exactly the others spacelike to it, never itself |
| TrigraphGraph.BronKerbosch | modules/Trigraph.mjs:377-413 | the caller's group is left a permutation of itself; every maximal spacelike subset is reported exactly once, and a non-empty group gives non-empty cliques |
| TrigraphGraph.MaximalExtends | modules/Trigraph.mjs:377-413 | every pairwise spacelike set grows into a maximal one |
| TrigraphGraph.MaximalExists | modules/Trigraph.mjs:377-413 | a non-empty group has a maximal spacelike subset, and none of them is empty |
| TrigraphGroup.TakenLeft | modules/Trigraph.mjs:268-273 | the states equivalent to the popped one and the rest together hold the pending states exactly |
| TrigraphGroup.GroupedSplits | modules/Trigraph.mjs:266-273 | every pending state ends in the group or stays pending, once; the group starts with the popped state |
| TrigraphGroup.GroupedEquivalent | modules/Trigraph.mjs:268-273 | the group is exactly the popped state and the states `eqf` finds equivalent to it |
| TrigraphGroup.Group | modules/Trigraph.mjs:266-273 | the pop and the backwards splice loop compute `Grouped` |
| TrigraphGrown.GrownPhase | modules/Trigraph.mjs:223-251 | the operator phase only adds vertices with fresh ids and appends children to stored ones |
| TrigraphGrown.GrownFirst | modules/Trigraph.mjs:137-157 | the first step, thrown or not, only adds vertices with fresh ids |
| TrigraphGrown.PairedPhase | modules/Trigraph.mjs:232-250 | the phase makes operations exactly when it makes states |
| TrigraphGrowth.OpsStopped | modules/Trigraph.mjs:235-240 | once an entry throws, the later entries are not looked at |
| TrigraphGrowth.PhaseStopped | modules/Trigraph.mjs:228-230 | once a clique throws, the later cliques are not looked at |
| TrigraphGrowth.AddStatesFacts | modules/Trigraph.mjs:245-249 | an operation's states take the next ids in order, become its children, and have it as their only parent |
| TrigraphGrowth.FirstStepThrows | modules/Trigraph.mjs:143-151 | an initial reply that is not an array, or is empty, throws a TypeError after the root's id is taken |
| TrigraphGrowth.FirstStepIds | modules/Trigraph.mjs:141-157 | the root takes the next id and the initial states the ids after it |
| TrigraphGrowth.FirstStepRoot | modules/Trigraph.mjs:141-155 | the root operation has no parents and the initial states as its children, in order |
| TrigraphGrowth.FirstStepStates | modules/Trigraph.mjs:153-156 | each initial state has the root as its only parent and holds its value |
| TrigraphGrowth.FirstStepKeeps | modules/Trigraph.mjs:137-157 | the first step leaves the stored vertices alone |
| TrigraphLayers.SetLevelAt | modules/Trigraph.mjs:307-310 | stamping changes the level of the listed vertices only |
| TrigraphLayers.SetLevelThree | modules/Trigraph.mjs:304-313 | three lists stamped in turn: a vertex takes the level of the last list it is in |
| TrigraphLayers.StampNone | modules/Trigraph.mjs:304-313 | with no new vertices nothing changes |
| TrigraphLayers.StampThree | modules/Trigraph.mjs:304-313 | new operations, states and cliques make three new levels, each listing its vertices |
| TrigraphLayers.StampList | modules/Trigraph.mjs:307-310 | the stamping loop computes `SetLevel` |
| TrigraphLayers.StampLayers | modules/Trigraph.mjs:304-313 | the level loop computes `Stamp` |
| TrigraphLocate.Ancestry | modules/Trigraph.mjs:277-278 | the parent locations are the distinct locations of the vertices three links above the group |
| TrigraphLocate.Mark | modules/Trigraph.mjs:280 | every member of the group points at the new location |
| TrigraphLocate.AdoptAll | modules/Trigraph.mjs:281 | every parent location gets the new one as its last child |
| TrigraphLocate.PushAll | modules/Trigraph.mjs:298 | every member of a clique gets the clique as its last child |
| TrigraphLocate.Weigh | modules/Trigraph.mjs:292 | the total is the sum of the factorials of the clique sizes |
| TrigraphLocate.MakeCliques | modules/Trigraph.mjs:295-300 | each clique takes the next id and its share `fact(size)·10000/tot`, and is a child of its members |
| TrigraphLocate.LocateGroup | modules/Trigraph.mjs:263-301 | one round: the group's location with its parents, and its maximal spacelike cliques, each non-empty and without repeats |
| TrigraphLocate.Locate | modules/Trigraph.mjs:258-301 | the location loop ends with every new state in exactly one of the step's new locations |
| TrigraphNext.SettledOutcome | modules/Trigraph.mjs:257-316 | a step that made states ends three levels higher with at least one clique; one that made none ends with no clique and only the counter and child lists changed |
| TrigraphNext.Settle | modules/Trigraph.mjs:257-316 | the second half of `next` keeps the invariant and returns the number of new cliques |
| TrigraphNext.NextStep | modules/Trigraph.mjs:133-317 | one `next` keeps the invariant; a step with new states adds three levels and some cliques, one without returns 0 |
| TrigraphPlace.HandlesElems | modules/Trigraph.mjs:278 | the handles read off a list are the locations of its states |
| TrigraphPlace.MarkAt | modules/Trigraph.mjs:280 | marking changes the location of the group's members only |
| TrigraphPlace.AdoptAt | modules/Trigraph.mjs:281 | each listed location gains the new one as its last child, once |
| TrigraphPlace.PushChildAt | modules/Trigraph.mjs:298 | each member gains the clique as its last child, once |
| TrigraphPlace.CliquedAt | modules/Trigraph.mjs:295-300 | the cliques take ids `a+1`, `a+2`, … with their members as parents, and each member gains them as children |
| TrigraphPlace.Shares | modules/Trigraph.mjs:296 | one share per clique |
| TrigraphPlaced.GroupEffect | modules/Trigraph.mjs:280-300 | one round's changes to the vertices are the marking and the cliques |
| TrigraphPlaced.AdoptEffect | modules/Trigraph.mjs:279-281 | one round's changes to the locations are the new location and its adoption |
| TrigraphPlaced.PlacingStart | modules/Trigraph.mjs:259-263 | the loop invariant holds with every new state pending |
| TrigraphPlaced.PlacingStep | modules/Trigraph.mjs:263-301 | a round moves its group from pending to placed and keeps the invariant |
| TrigraphPlaced.PlacingDone | modules/Trigraph.mjs:263 | once nothing is pending, the placed states are the new states |
| TrigraphPrev.UnchartLoop | modules/Trigraph.mjs:328-334 | the splice loop computes `Unchart` |
| TrigraphPrev.DropLevel | modules/Trigraph.mjs:340-346 | every vertex of the level leaves the map and the counter drops once per vertex |
| TrigraphPrev.DropStep | modules/Trigraph.mjs:337-350 | deleting the top level's list leaves the levels below it |
| TrigraphPrev.DropLevels | modules/Trigraph.mjs:337-350 | the do-while loop deletes every level of the step and its vertices, and lowers the counter by their number |
| TrigraphPrev.AssembledRetreat | modules/Trigraph.mjs:323-359 | the pieces `prev` assembles make up `Retreat` |
| TrigraphPrev.Prev | modules/Trigraph.mjs:323-359 | up to level 3 nothing changes and the answer is false; otherwise the result is `Retreat`, keeps the invariant, keeps earlier vertices, lowers the level by three and removes the step's locations |
| TrigraphRetreat.Splice | modules/Trigraph.mjs:331 | `splice(indexOf(h),1)` removes the first `h`, and for a missing `h` removes the last element |
| TrigraphRetreat.UnchartWithout | modules/Trigraph.mjs:328-334 | the splice loop removes exactly the step's locations from every coordinate list and drops the coordinates left empty |
| TrigraphRetreat.Bare | modules/Trigraph.mjs:355-356 | the cleanup of the level's child lists keeps every vertex |
| TrigraphRetreat.BareLocs | modules/Trigraph.mjs:353-354 | the cleanup of the locations' child lists keeps every location |
| TrigraphRetreat.GoneBound | modules/Trigraph.mjs:344 | no more vertices are deleted than the counter handed out |
| TrigraphRetreatShape.RetreatKept | modules/Trigraph.mjs:337-350 | undoing a step keeps every vertex of earlier steps |
| TrigraphRetreatShape.RetreatLowered | modules/Trigraph.mjs:349-350 | undoing a step lowers the level by three |
| TrigraphRetreatShape.RetreatUncharted | modules/Trigraph.mjs:328-334 | undoing a step removes its locations |
| TrigraphRetreatShape.RetreatShape | modules/Trigraph.mjs:323-359 | `prev` keeps the invariant |
| TrigraphRings.RingNext | modules/Trigraph.mjs:471-476 | the next generation is what the current one links to, less every vertex visited |
| TrigraphRings.RingsDisjoint | modules/Trigraph.mjs:475-476 | different generations share no vertex |
| TrigraphRings.RingEmptyStays | modules/Trigraph.mjs:464 | once a generation is empty every later one is |
| TrigraphRings.BfsRound | modules/Trigraph.mjs:471-476 | one round of the generator grows the visited list by the generation and yields the next |
| TrigraphRings.SearchDone | modules/Trigraph.mjs:462-478 | when the generator stops, the later generations are empty and the yielded ones pairwise disjoint |
| TrigraphSpawn.NewStates | modules/Trigraph.mjs:245-249 | the states of an operation take exactly the ids from `a` on |
| TrigraphSpawnLoops.GrowStates | modules/Trigraph.mjs:245-249 | the loop computes `AddStates` |
| TrigraphSpawnLoops.SpawnFirst | modules/Trigraph.mjs:137-157 | the first step computes `FirstStep` |
| TrigraphSpawnLoops.SpawnOpsLoop | modules/Trigraph.mjs:232-250 | the loop over `oper`'s reply computes `SpawnOps` |
| TrigraphSpawnLoops.SpawnCliques | modules/Trigraph.mjs:223-251 | the loop over the cliques computes `OperatorPhase` |
| TrigraphStepShape.SpawnedGrown | modules/Trigraph.mjs:133-255 | the first half of `next` only adds fresh vertices, and makes operations exactly when it makes states |
| TrigraphStepShape.ThrownShape | modules/Trigraph.mjs:228-240 | a `next` that throws keeps the invariant: only child lists change and the counter grows |
| TrigraphStepShape.GrewShape | modules/Trigraph.mjs:257-316 | a `next` that makes states keeps the invariant |
| TrigraphStepShape.Located | modules/Trigraph.mjs:283-286 | the new locations are recorded under their step and coordinate |
| TrigraphStepShape.GrewStepped | modules/Trigraph.mjs:261 | the steps keep their locations, each under its coordinate |
| TrigraphStepShape.GrewCharted | modules/Trigraph.mjs:284-285 | every coordinate lists recorded locations with that coordinate, once each |

## Left out

- User interface, DOM, graph drawing and dot export (`lib/wwdot.js`, `modules/TrigraphUI.mjs`, `modules/ForceGraph.mjs`, `modules/CliqueVM.mjs`) are not part of this model.
- The trace and snapshot views of `lib/wwview.js` (lines 164-423) are not modelled, since they only build display data.
- The model manager, proxy, tester and HTTP server (`modules/ModelManager.mjs`, `lib/wwproxy.js`, `lib/wwtester.js`, `server/server.mjs`, `server/serverd.mjs`) are not part of this model.
- `postMessage`, `XMLHttpRequest` abort checks and progress timing are I/O: each poll is an oracle boolean, and messages are return values.
- The worker-thread pool and its Promises are concurrency; the server's messages to the clique workers are kept as a list, and no `Worker` object replays them.
- Floating point: probabilities are integer ten-thousandths, and `Math.round` display rounding (`round`, modules/Trigraph.mjs:105-110) is not modelled.
- User callbacks compiled with `new Function` are opaque function values; a callback that throws is an explicit `Threw` outcome.
- Lists hold vertex ids rather than object references, so aliasing between the JavaScript objects is not modelled.
- Observer modes 1 and 2 of `Trigraph.next` (modules/Trigraph.mjs:165-220) are not modelled; `Trigraphs.Trigraph.Next` runs without an observer.
- Observer modes 1 and 2 of `lib/wwmodel.js` (lines 292-347) are not modelled, because they call the user's `probs`. Those of `server/model.mjs` are modelled as written: observer 1 with the draw bound `P.length - 2`, observer 2 as the ReferenceError of its undeclared `Lctmp`; the intended observer-2 loop is modelled beside it.
- The user's `probs` callback in `findCliques` of `lib/wwmodel.js` (lines 179-181) is not modelled; locations keep no probabilities in the local engine.
- The merge of default parameters in the `Trigraph` constructor and `reset` is not modelled; the parameters are given whole.
- `ModelAPI.set`, `ModelAPI.get` and `ModelAPI.clone` (lib/ModelAPI.js:25-53) are not modelled: they copy or store JavaScript objects.
- LocalEngine.Engine.Next: the progress poll inside the oper-phase `forEach` (lib/wwmodel.js:421-424) is not modelled. On an abort the source calls `reconstruct()` there, and its `return false` only ends one callback, so the loop goes on adding operations and states to the rebuilt step. The model never aborts at that point.
- EngineOper.OperPhase: same gap as `LocalEngine.Engine.Next`; the operator loop has no progress poll, so neither the `reconstruct()` inside the `forEach` nor the loop that goes on after it is captured.
- LocalEngine.OperAndSearch: same gap as `LocalEngine.Engine.Next`; an abort is seen only at `findCliques`, never inside the operator loop.
- ServerEngine.Server.Next: the same oper-phase poll of `server/model.mjs` (lines 497-500) is not modelled, with the same `reconstruct()` inside the `forEach` and the same loop that goes on after it.
- ServerEngine.ServerOperAndSearch: same gap as `ServerEngine.Server.Next`; an abort is seen only through a rejected clique job.
- ServerEngine.CliqueJobs: computes the groups' maximal cliques on the server's arena (`Project(S)`), not on graphs the clique workers built from the server's `add`/`del` messages; no invariant ties those messages to the arena, so the model does not show that the workers' replies agree with the server.
- ServerEngine.Server.constructor: seeds the memo with the corrected `[1, 1]`, not the source's `[0, 1]` (server/model.mjs:581-584), because the observers are proved over a memo of true factorials; a clique of size 0, which the source weighs 0, is weighed 1.
- ViewMirror.View.constructor: seeds the memo with the corrected `[1, 1]`, not the source's `[0, 1]` (lib/wwview.js:26); `probs` then weighs a clique without parents 1 where the source weighs it 0, and where the source divides by a zero total the model does not.
- ViewMirror.View.Factorial: answers 1 for `n == 0` where the source answers 0, because of the corrected seed.
- StringRewrite.RewriteStr: combines the rewrites of each clique with `CombineCorrected` (right to left), not with the left-to-right splice of lib/ModelAPI.js:245-250, which `CombineAsWritten` models; the result differs when a replacement changes length and a later rewrite follows it.
- StringRewrite.MatchesFrom: the rules' regular expressions are literal patterns, and case is ignored only for the letters A-Z; other regular-expression syntax and Unicode case folding are not modelled.
- `comb`, `perm` and `heapsAlg` yield one array that they mutate between yields; the model yields a snapshot of each arrangement, so a caller that keeps a yielded array and sees it change later is not modelled.
- The default arguments of `comb`, `perm` and `rewriteStr` (size and combine) are not modelled; the model takes them as explicit parameters.
- The `postProgress(d, 0, true)` poll in the message handlers (lib/wwmodel.js:24-34, server/model.mjs:58-68), which skips the action when the job was already aborted, is not modelled: every action runs.
- Trigraphs.Trigraph.Next: the states the user's `init` and `oper` return are `int` values here; the source accepts any JavaScript value.
- EngineObserve.PickAt: an index past the end of the probabilities gives no clique, where the source pushes `undefined`.
- Trigraphs.Trigraph.Fact: exact only for n ≥ 1, because the memo is seeded with `[0, 1]`.
- TrigraphBfs.Bfs: the caller's filter `or` (modules/Trigraph.mjs:468-469) is not modelled; the generator runs to its end.
- TrigraphBfs.Bfs: the generator is run to its end instead of being consumed lazily.

## Findings

| source | as written | input that shows it | evidently intended | confidence | as-written member | corrected member |
|---|---|---|---|---|---|---|
| server/model.mjs:384-387 | the draw loop stops at `ndx < P.length - 2`, so the last clique is never drawn (also server/model.mjs:408-411 and lib/wwmodel.js:302-305) | `P = [0.5, 0.5]`, `r = 0.75` picks index 0 | bound `P.length - 1`, so the draw lands on index 1 | not executed | Probabilities.DrawAsWrittenMissesLast | Probabilities.EveryEntryDrawable |
| server/model.mjs:400 | `Lctmp = Lc` assigns an undeclared name in an ES module, which runs in strict mode | any step with observer 2 throws a `ReferenceError` | a local `let Lctmp` | not executed | EngineObserve.ObserveWholeAsWrittenThrows | EngineObserve.SelectionPairwise |
| lib/ModelAPI.js:17 | the factorial memo is seeded `[0n, 1n]`, so `factorial(0)` is 0 (also server/model.mjs:581-584, lib/wwview.js:26, modules/Trigraph.mjs:65) | `factorial(0)` returns 0 | seed `[1n, 1n]`, so 0! = 1 | not executed | Factorials.SourceSeedFactorialOfZero | Factorials.CorrectedSeedIsFactMemo |
| lib/ModelAPI.js:245-250 | `rewriteStr` splices the rewrites of a clique left to right at their original positions, so a replacement of a different length shifts the later ones | `"ab"` with rules `a → xx` and `b → y` gives `"xyb"` | splice right to left, giving `"xxy"` | not executed | StringRewrite.CombineAsWrittenShifts | StringRewrite.CombineCorrectedComposes |
