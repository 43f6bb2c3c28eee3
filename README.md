# Topology Generator — a Dafny model of its core

Topology Generator reads the geographic cable data of a Dutch grid operator (Alliander or
Enexis), extracts the low-voltage (LV) and medium-voltage (MV) networks as graphs, and matches
a network against reference topologies using graph edit distance. This project models the core
of that pipeline in Dafny and proves properties of the model:

- `Geometry` (`geometry.dfy`): points, the 0.12 closeness margin, the 0.05 overlap box, lines, and
  navigation lines with their connected and open ends.
- `LineIndex` (`line_index.dfy`): the spatial index of lines as a table of query functions. It
  finds the lines connected to a point and the continuations of a navigation line.
- `Esdl` (`esdl.dfy`): ESDL assets and ports, the helper functions that filter them, and the
  energy system's asset list.
- `Lists` (`lists.dfy`): filtering, "collect then remove" as done with Python's `list.remove`,
  flattening, and substring search.
- `Topology` (`topology.dfy`): the dataclasses, an undirected graph with labelled edges, and
  the connection and length totals of a `NetworkTopologyInfo`.
- `GeoData` (`geodata.dfy`): the shared parser base. It covers line extraction with
  de-duplication, building-year categories, year look-ups, and counting connections without
  counting a building twice.
- `Alliander` and `Enexis` (`alliander.dfy`, `enexis.dfy`): the two data providers. They cover
  station start lines, the retry with a widening margin, the pruning of duplicate start lines,
  cable-type selection and start-line cleaning.
- `LvBuilder` (`lv_builder.dfy`): the recursive LV builder. It is a class whose graph, visited
  list and loop map are fields updated in place. It collapses straight runs into one edge,
  creates a node at each branch, and closes loops through the loop map.
- `MvBuilder` (`mv_builder.dfy`): the MV ring builder. It covers the continuation sources in
  their priority order, the bounding box, the transformers inserted at stations with their
  derived commissioning year, cable retyping, loop-back cables, and the driver that walks every
  starting line of every HV/MV station.
- `Analyzer` (`analyzer.dfy`): the topology matcher. It computes the normalising maxima, the
  edge costs and the connection term, and finds the best-matching network with its tie rule.

The geometry library (overlaps, touches, distances on polygons), the spatial trees and the
graph edit distance are not modelled. Each is a function-valued parameter or field. Where the
code relies on a property of one, a validity predicate states it (indices in range, touch
results in ascending order).

The model follows the code, with two exceptions listed under "## Findings": on two kinds of
input a traversal loop of the code never ends. For each, the model states the loop as written
and proves that it does not end, and the builders use a corrected loop that does.

A match in which no candidate was evaluated is not reported as undefined: the code returns the
sentinel distance 500000000 together with the first candidate, and
`Analyzer.FindBestMatchingNetwork` does the same.

## Model

| member | source | states |
|---|---|---|
| Geometry.PointsAreClose | src/Topology_Generator/GeometryHelperFunctions.py:9-10 | Two points are close exactly when both coordinate differences are at most the margin. |
| Geometry.PointsAreCloseDefault | src/Topology_Generator/GeometryHelperFunctions.py:6-10 | With no margin given, closeness uses the module margin of 0.12 on each axis. |
| Geometry.PointsAreCloseReflexive | src/Topology_Generator/GeometryHelperFunctions.py:9-10 | Every point is close to itself for any non-negative margin. |
| Geometry.PointsAreCloseSymmetric | src/Topology_Generator/GeometryHelperFunctions.py:9-10 | Closeness does not depend on argument order. |
| Geometry.FarPointsAreNotClose | src/Topology_Generator/GeometryHelperFunctions.py:9-10 | Points farther apart than the margin on either axis are not close. |
| Geometry.CreatePointBox | src/Topology_Generator/GeometryHelperFunctions.py:15-20 | The box has four corners, sides of the overlap size, and is centred on the point; corners go round in order. |
| Geometry.OrientationFromConnectedFirst | src/Topology_Generator/dataclasses.py:7-11 | A navigation line's connected and open ends are the line's two endpoints, chosen by its orientation flag. |
| LineIndex.LineConnectedToPoint | src/Topology_Generator/LvNetworkBuilder.py:29-39 | A line yields a navigation line iff one of its endpoints is the point, and the result is oriented so that its connected end is that point (first endpoint preferred). |
| LineIndex.OrientCandidates | src/Topology_Generator/LvNetworkBuilder.py:47-51 | Every returned navigation line is one of the candidate lines, oriented with its connected end at the point. |
| LineIndex.OrientCandidatesKeepsTouching | src/Topology_Generator/LvNetworkBuilder.py:47-51 | No candidate with an endpoint at the point is dropped. |
| LineIndex.GetNextLines | src/Topology_Generator/LvNetworkBuilder.py:41-52 | Every continuation is a different line that the index reports as touching the open end, and is oriented to connect there. |
| LineIndex.GetNextLinesComplete | src/Topology_Generator/LvNetworkBuilder.py:41-52 | Every other touching line with an endpoint at the open end appears among the continuations. |
| LineIndex.CollectSound | src/Topology_Generator/AllianderGeoDataNetworkParser.py:55-68 | Every collected line is what the selection rule produced for some candidate. |
| LineIndex.CollectComplete | src/Topology_Generator/AllianderGeoDataNetworkParser.py:55-68 | Every line the rule accepts is collected. |
| LineIndex.CollectLines | src/Topology_Generator/AllianderGeoDataNetworkParser.py:55-68 | The loop over candidate indices returns exactly the rule's selection, in candidate order. |
| Esdl.InPorts | src/Topology_Generator/EsdlHelperFunctions.py:8-9 | Returns exactly the asset's ports named "In". |
| Esdl.OutPorts | src/Topology_Generator/EsdlHelperFunctions.py:12-13 | Returns exactly the asset's ports named "Out". |
| Esdl.ObjectsOfKind | src/Topology_Generator/EsdlHelperFunctions.py:16-17 | Returns exactly the assets of the requested kind, drawn from the collection. |
| Esdl.KindsPartitionCollection | src/Topology_Generator/EsdlHelperFunctions.py:16-17 | Cables, joints and transformers together account for every asset exactly once. |
| Esdl.GenerateEsdlJoint | src/Topology_Generator/EsdlHelperFunctions.py:30-35 | A new joint at the given coordinates and with the given name has one "In" port and one "Out" port and no commissioning year. |
| Esdl.EnergySystem.constructor | src/Topology_Generator/EsdlHelperFunctions.py:24-27 | A new energy system holds no assets. |
| Esdl.EnergySystem.AddNewAssets | src/Topology_Generator/EsdlHelperFunctions.py:24-27 | The new assets are appended after the existing ones, in order. |
| Lists.FlattenLength | src/Topology_Generator/EsdlHelperFunctions.py:20-21 | The flattened list is as long as all sublists together. |
| Lists.InFlatten | src/Topology_Generator/EsdlHelperFunctions.py:20-21 | Every element of a sublist is in the flattened list. |
| Lists.FlattenMember | src/Topology_Generator/EsdlHelperFunctions.py:20-21 | Every element of the flattened list comes from some sublist. |
| Lists.FlattenAppend | src/Topology_Generator/EsdlHelperFunctions.py:20-21 | Flattening distributes over concatenation. |
| Lists.RemoveSelectedIsFilter | src/Topology_Generator/AllianderGeoDataNetworkParser.py:144-147 | Collecting the items that match a test and then removing them one by one leaves exactly the items that do not match, in order. |
| Lists.RemoveEachRemovesItems | src/Topology_Generator/AllianderGeoDataNetworkParser.py:32-34 | In a list without duplicates, every removed item is gone afterwards. |
| Lists.RemoveEachKeepsOthers | src/Topology_Generator/AllianderGeoDataNetworkParser.py:32-34 | An item that was never scheduled for removal survives. |
| Lists.HasSubstring | src/Topology_Generator/MvNetworkBuilder.py:170 | The search answers true iff the needle occurs at some position of the name. |
| Topology.AddNode | src/Topology_Generator/LvNetworkBuilder.py:56 | Adding a node adds it to the node set and leaves the edges alone. |
| Topology.AddEdge | src/Topology_Generator/LvNetworkBuilder.py:57 | Adding an edge adds both endpoints; a new pair gets a new edge, and an existing pair (in either direction) keeps its position but has its label replaced. |
| Topology.FindEdge | src/Topology_Generator/LvNetworkBuilder.py:57 | Finds the edge joining two nodes in either direction, or reports that none does. |
| Topology.MakeEsdlTopology | src/Topology_Generator/dataclasses.py:21-26 | The ESDL topology carries the network information together with its assets, starting transformer and starting cable. |
| Topology.EmptyTopologyTotals | src/Topology_Generator/dataclasses.py:18-19 | A graph without edges has zero connections and zero total length. |
| Topology.SumsOfConcatenation | src/Topology_Generator/dataclasses.py:18-19 | The connection and length totals are additive over edge lists. |
| Topology.EdgeLengthAtMostTotal | src/Topology_Generator/dataclasses.py:19 | With non-negative lengths, no edge is longer than the network's total length. |
| Topology.SumOfLengthsNonNegative | src/Topology_Generator/dataclasses.py:19 | With non-negative lengths, the total length is non-negative. |
| Topology.AppendedEdgeTotals | src/Topology_Generator/dataclasses.py:18-19 | Appending an edge adds its connections and length to the totals. |
| GeoData.HasSimilarLine | src/Topology_Generator/GeoDataNetworkParser.py:32 | True iff some stored line has the same endpoints as the new line, in either order, within the closeness margin. |
| GeoData.AddLine | src/Topology_Generator/GeoDataNetworkParser.py:31-34 | A line is appended iff no similar line is already stored; otherwise the list is unchanged. |
| GeoData.AddLinesAppend | src/Topology_Generator/GeoDataNetworkParser.py:81-86 | Adding two batches of lines is the same as adding their concatenation. |
| GeoData.ExtractNetworkLines | src/Topology_Generator/GeoDataNetworkParser.py:77-87 | The extracted lines are the offered line strings of every geometry, each added in frame order under the similarity test; an empty frame gives no lines. |
| GeoData.SelfSimilar | src/Topology_Generator/GeoDataNetworkParser.py:32 | A line is similar to itself. |
| GeoData.AddLinesDeduplicates | src/Topology_Generator/GeoDataNetworkParser.py:31-34 | Adding lines to a list without similar pairs keeps it free of similar pairs, and every offered line is represented by a similar stored line. |
| GeoData.ExtractedLinesAreDeduplicated | src/Topology_Generator/GeoDataNetworkParser.py:77-87 | The extracted lines contain no two similar lines and represent every offered line. |
| GeoData.RepeatedLineIsDropped | src/Topology_Generator/GeoDataNetworkParser.py:78 | A line offered again right after itself is dropped. |
| GeoData.RepeatOfferIsDropped | src/Topology_Generator/GeoDataNetworkParser.py:78 | A line offered again anywhere later is dropped, so adding the lines with the repeat gives the same list as without it: the `drop_duplicates` before the adding loop changes nothing. |
| GeoData.BuildingYearToCategory | src/Topology_Generator/GeoDataNetworkParser.py:95-101 | A year up to 1970 is Old, 1971 to 2000 is average, and later years are New; the three cases are exhaustive and exclusive. |
| GeoData.CategoryIsMonotone | src/Topology_Generator/GeoDataNetworkParser.py:95-101 | A later year never gets an older category. |
| GeoData.BuildingYearAtPoint | src/Topology_Generator/GeoDataNetworkParser.py:60-65 | The year of the first building at the point, or the "no building" year 1 when there is none. |
| GeoData.TransformerHouseYearAtPoint | src/Topology_Generator/GeoDataNetworkParser.py:67-72 | The building year at the point of the first station found within 3 m, or 1 when no station is found. |
| GeoData.NewConnections | src/Topology_Generator/GeoDataNetworkParser.py:49-50 | The newly counted buildings are exactly the residential buildings near the line that were not counted before. |
| GeoData.CountedAtMostOnce | src/Topology_Generator/GeoDataNetworkParser.py:49-51 | Once a building has been counted for one line, it is never counted again for another. |
| GeoData.GeoDataNetworkParser.constructor | src/Topology_Generator/GeoDataNetworkParser.py:21-29 | A new parser keeps its data and cable case and has counted no connections. |
| GeoData.GeoDataNetworkParser.GetAmountOfConnectionsBorderingLine | src/Topology_Generator/GeoDataNetworkParser.py:44-53 | Returns the number of newly counted buildings and adds them to the pass-wide counted set; with no buildings it returns 0 and changes nothing. |
| Alliander.CableTable | src/Topology_Generator/AllianderGeoDataNetworkParser.py:169-179 | The table's labels start with 'X' exactly for new buildings, and have 'C' at position 5 exactly for old ones. |
| Alliander.DefineCableType | src/Topology_Generator/AllianderGeoDataNetworkParser.py:167-180 | XLPE cable after 2000, paper-insulated before; a copper core up to 1970, aluminium after. |
| Alliander.CableTableIsInjective | src/Topology_Generator/AllianderGeoDataNetworkParser.py:169-179 | Different cable cases or categories always give different labels. |
| Alliander.AverageCableOf1984 | src/Topology_Generator/AllianderGeoDataNetworkParser.py:167-180 | An average cable for 1984 is GPLK-Al-150. |
| Alliander.OrientByCloseness | src/Topology_Generator/AllianderGeoDataNetworkParser.py:42-49 | A line is kept iff one endpoint is close to the station, and it is oriented to connect at an endpoint that is close. |
| Alliander.OrientByTouchCount | src/Topology_Generator/AllianderGeoDataNetworkParser.py:59-66 | A line is dropped iff both ends touch several lines or both ends touch only themselves; otherwise it connects at the end touching one line (first end preferred). |
| Alliander.Candidates | src/Topology_Generator/AllianderGeoDataNetworkParser.py:38 | The index query returns indices of stored lines. |
| Alliander.ExtractLinesConnectedToEntityOneSideConnected | src/Topology_Generator/AllianderGeoDataNetworkParser.py:54-68 | Returns the one-side-connected selection over the candidates near the station. |
| Alliander.ExtractLinesConnectedToEntityBothSidesDisconnected | src/Topology_Generator/AllianderGeoDataNetworkParser.py:70-88 | Returns the selection, over the candidates near the station, of lines close to it and not touching on both sides. |
| Alliander.OneSideConnectedExactly | src/Topology_Generator/AllianderGeoDataNetworkParser.py:54-68 | Every returned line is a candidate oriented by the touch-count rule, and every candidate the rule accepts is returned. |
| Alliander.ReturnedLinesAreCloseToStation | src/Topology_Generator/AllianderGeoDataNetworkParser.py:36-88 | Every line returned by the closeness and both-sides queries has an endpoint close to the station. |
| Alliander.Loser | src/Topology_Generator/AllianderGeoDataNetworkParser.py:27-30 | Of two conflicting start lines, the second is removed iff the first's connected end is strictly nearer the station; otherwise the first is removed. |
| Alliander.ScheduleRow | src/Topology_Generator/AllianderGeoDataNetworkParser.py:18-30 | The inner loop schedules, for line i, the loser of each pair (i, j) with j ≥ i that is in conflict, the pair of the line with itself included. |
| Alliander.RemoveDuplicateAndNonConnectedLines | src/Topology_Generator/AllianderGeoDataNetworkParser.py:15-34 | The result is the input with every scheduled loser removed, one occurrence per schedule entry. |
| Alliander.RowSchedulesConflict | src/Topology_Generator/AllianderGeoDataNetworkParser.py:18-30 | Every conflicting pair's loser is scheduled in its row. |
| Alliander.ScheduleHoldsConflicts | src/Topology_Generator/AllianderGeoDataNetworkParser.py:17-30 | Every conflicting pair's loser appears in the full schedule. |
| Alliander.RowItemsAreLosers | src/Topology_Generator/AllianderGeoDataNetworkParser.py:18-30 | Nothing enters a row except the loser of a conflicting pair. |
| Alliander.ScheduledAreLosers | src/Topology_Generator/AllianderGeoDataNetworkParser.py:17-30 | Nothing enters the schedule except the loser of a conflicting pair. |
| Alliander.NoTouchesRemovesNothing | src/Topology_Generator/AllianderGeoDataNetworkParser.py:26 | If the touch test never holds, pruning returns the lines unchanged. |
| Alliander.PruningDropsExactlyLosers | src/Topology_Generator/AllianderGeoDataNetworkParser.py:15-34 | On distinct lines, pruning removes every loser of a conflict and removes nothing else. |
| Alliander.ExtractLinesConnectedToEntity2 | src/Topology_Generator/AllianderGeoDataNetworkParser.py:36-52 | The lines close to the station, pruned of conflicting duplicates. |
| Alliander.ExtractLinesConnectedToStationsBothSides | src/Topology_Generator/AllianderGeoDataNetworkParser.py:90-96 | One container per station, holding its both-sides-disconnected lines and its building year. |
| Alliander.RetryFromFindsFirstNonEmpty | src/Topology_Generator/AllianderGeoDataNetworkParser.py:103-108 | The retry returns the first non-empty result over the five margins tried, or nothing if all five are empty. |
| Alliander.RetryWideningMargin | src/Topology_Generator/AllianderGeoDataNetworkParser.py:101-108 | The loop makes between one and five attempts, makes all five only when nothing is found, and returns the retry's result. |
| Alliander.ExtractLinesConnectedToStationsOneSide | src/Topology_Generator/AllianderGeoDataNetworkParser.py:98-112 | One container per station, holding the retried one-side lines and the station's building year. |
| Alliander.FirstStationWithin | src/Topology_Generator/AllianderGeoDataNetworkParser.py:115-116 | Finds the first station within the radius, or reports that none is. |
| Alliander.ExtractMvLinesAtMvLvStation | src/Topology_Generator/AllianderGeoDataNetworkParser.py:114-118 | Returns the MV lines of the first MV/LV station within 3 m of the point. |
| Alliander.ExtractLvLinesAtMvLvStation | src/Topology_Generator/AllianderGeoDataNetworkParser.py:120-124 | Returns the both-sides-disconnected LV lines, with a 10 m margin, of the first MV/LV station within 10 m of the point, or none. |
| Alliander.MvLinesAtMvLvStationIsFirstHit | src/Topology_Generator/AllianderGeoDataNetworkParser.py:114-118 | When station k is the first within 3 m, the result is the one-side lines of station k. |
| Alliander.ExtractLvLinesConnectedToMvLvStation | src/Topology_Generator/AllianderGeoDataNetworkParser.py:130-131 | One container per MV/LV station, holding its both-sides-disconnected LV lines with a 3 m margin and the year of the building at the station. |
| Alliander.MvLinesAtHvMvStation | src/Topology_Generator/AllianderGeoDataNetworkParser.py:136-142 | No lines when no HV/MV station is within 20 m; otherwise the lines of the first such station. |
| Alliander.RemoveAll | src/Topology_Generator/AllianderGeoDataNetworkParser.py:146-147 | Removing a list of items removes one occurrence of each, in turn. |
| Alliander.RemoveNotConnectedToBuilding | src/Topology_Generator/AllianderGeoDataNetworkParser.py:144-147 | Keeps exactly the start lines, in order, of which at least one endpoint has a building year other than the "no building" year 1. |
| Alliander.RemoveConnectedToMvStation | src/Topology_Generator/AllianderGeoDataNetworkParser.py:149-158 | Keeps exactly the start lines that do not lead to an MV/LV station. |
| Alliander.CleanStartingLines | src/Topology_Generator/AllianderGeoDataNetworkParser.py:162-164 | Both removals applied one after the other. |
| Alliander.CleanContainer | src/Topology_Generator/AllianderGeoDataNetworkParser.py:162-164 | A container's start lines are cleaned and its building year is kept. |
| Alliander.ExtractMvLinesConnectedToHvMvStation | src/Topology_Generator/AllianderGeoDataNetworkParser.py:160-165 | One cleaned container per HV/MV station, built from the lines found with a retried 50 m margin. |
| Enexis.BuildingYearAtShape | src/Topology_Generator/EnexisGeoDataNetworkParser.py:32 | The year of the first building overlapping the station, or 1 when there is none. |
| Enexis.OrientByStationTouch | src/Topology_Generator/EnexisGeoDataNetworkParser.py:16-19 | A line is kept iff one of its endpoints touches the station, and it connects at that endpoint (first preferred). |
| Enexis.Candidates | src/Topology_Generator/EnexisGeoDataNetworkParser.py:13 | The index query returns indices of stored LV lines. |
| Enexis.ExtractLinesConnectedToEntity | src/Topology_Generator/EnexisGeoDataNetworkParser.py:11-20 | Returns the lines touching the station, oriented at the touching end. |
| Enexis.LinesConnectedToEntityExactly | src/Topology_Generator/EnexisGeoDataNetworkParser.py:14-19 | Every returned line is a candidate with an end touching the station, and every such candidate is returned. |
| Enexis.StartingLinesOfStation | src/Topology_Generator/EnexisGeoDataNetworkParser.py:25-31 | The inner loop turns every candidate near the station into a start line, in order. |
| Enexis.ExtractLvLinesConnectedToMvLvStation | src/Topology_Generator/EnexisGeoDataNetworkParser.py:22-34 | One container per station, holding its start lines and the year of the building at its shape. |
| Enexis.FirstStationWithin | src/Topology_Generator/EnexisGeoDataNetworkParser.py:37-39 | Finds the first station whose shape is within the radius, or reports that none is. |
| Enexis.ExtractLvLinesAtMvLvStation | src/Topology_Generator/EnexisGeoDataNetworkParser.py:36-41 | Returns the lines connected to the first station within range, or none. |
| LvBuilder.AddEdgeKeepsSound | src/Topology_Generator/LvNetworkBuilder.py:81 | An edge between existing nodes keeps every node reachable from node 0 through lower-numbered nodes. |
| LvBuilder.AddNodeAndEdgeKeepsSound | src/Topology_Generator/LvNetworkBuilder.py:54-59 | A new node attached to an existing node keeps the graph connected to node 0. |
| LvBuilder.VisitingShrinksUnvisited | src/Topology_Generator/LvNetworkBuilder.py:69-70 | Marking a fresh line as visited strictly shrinks the set of unvisited lines, which bounds the recursion. |
| LvBuilder.EnteringShrinks | src/Topology_Generator/LvNetworkBuilder.py:93-98 | Entering a line from an end not entered before leaves fewer line ends to enter, which bounds the run. |
| LvBuilder.RunStep | src/Topology_Generator/LvNetworkBuilder.py:93-98 | Following a single continuation not entered before consumes it, appends its index to the visited list, adds its length, and leaves the rest of the run unchanged. |
| LvBuilder.TotalLengthSnoc | src/Topology_Generator/LvNetworkBuilder.py:97 | The length of a run grows by the length of each line appended. |
| LvBuilder.RunIsChain | src/Topology_Generator/LvNetworkBuilder.py:93-98 | Each line of a run connects to the open end of the line before it, the first to the end it started from, and a run never stops at exactly one continuation. |
| LvBuilder.RunNeverRepeats | src/Topology_Generator/LvNetworkBuilder.py:93-98 | A run enters no line end it entered before, and none twice. |
| LvBuilder.AsWrittenAfterSingle | src/Topology_Generator/LvNetworkBuilder.py:93-98 | One pass of the loop as written replaces a single continuation by that line's continuations, with no visited check. |
| LvBuilder.RunAgreesWithLoop | src/Topology_Generator/LvNetworkBuilder.py:75-98 | The run's j-th line is the loop's single continuation after j passes as written; after the run the loop as written holds the run's stop, unless the run ended at a single continuation it had already entered. |
| LvBuilder.FrontierSkip | src/Topology_Generator/LvNetworkBuilder.py:113-117 | An already visited continuation adds nothing to the listing frontier. |
| LvBuilder.FrontierTake | src/Topology_Generator/LvNetworkBuilder.py:113-116 | A fresh continuation is listed and its own continuations join the frontier. |
| LvBuilder.ListingAppend | src/Topology_Generator/LvNetworkBuilder.py:112-118 | Two listings of disjoint line sets concatenate into a listing. |
| LvBuilder.ListingGrows | src/Topology_Generator/LvNetworkBuilder.py:110-118 | Adding newly found fresh lines to a listing yields a listing of the larger visited set. |
| LvBuilder.LvNetworkBuilder.constructor | src/Topology_Generator/LvNetworkBuilder.py:23-27 | A new builder has an empty graph, an empty visited list and an empty loop map. |
| LvBuilder.LvNetworkBuilder.AddNodeAndEdge | src/Topology_Generator/LvNetworkBuilder.py:54-59 | Adds the next node and an edge from the given node carrying the run's length. |
| LvBuilder.LvNetworkBuilder.FollowRun | src/Topology_Generator/LvNetworkBuilder.py:93-98 | Follows single continuations to the run's end, marking each line visited and summing the lengths. |
| LvBuilder.LvNetworkBuilder.HandleBranchPoint | src/Topology_Generator/LvNetworkBuilder.py:76-86 | At a branch point, either closes the edge to the node already mapped at that point or creates a new node there and records it. |
| LvBuilder.LvNetworkBuilder.BuildRecursive | src/Topology_Generator/LvNetworkBuilder.py:67-104 | A visited line changes nothing. Otherwise the line is visited, earlier visits and loop entries are kept, and a run ending at a dead end adds one new node and one edge carrying the run's total length. |
| LvBuilder.LvNetworkBuilder.StartRun | src/Topology_Generator/LvNetworkBuilder.py:69-72 | Visits the line and follows its straight run, shrinking the unvisited set. |
| LvBuilder.LvNetworkBuilder.BuildUnvisited | src/Topology_Generator/LvNetworkBuilder.py:69-102 | Handles a fresh line: the graph stays connected to node 0, and a dead-end run becomes exactly one new edge. |
| LvBuilder.LvNetworkBuilder.EndRun | src/Topology_Generator/LvNetworkBuilder.py:100-102 | A run without continuations closes as an edge to a new node. |
| LvBuilder.LvNetworkBuilder.BuildBranches | src/Topology_Generator/LvNetworkBuilder.py:88-89 | After the branch loop every branch line has been visited. |
| LvBuilder.LvNetworkBuilder.ComputeLvNetworkTopology | src/Topology_Generator/LvNetworkBuilder.py:151-156 | The resulting graph contains node 0, stays connected to it, and the starting line is visited. |
| LvBuilder.LvNetworkBuilder.VisitFrontier | src/Topology_Generator/LvNetworkBuilder.py:111-118 | Marks the frontier visited and returns the lines newly found there, each once and fresh; when the frontier is reached from the start line, so are the found lines and their continuations. |
| LvBuilder.NextLinesContinue | src/Topology_Generator/LvNetworkBuilder.py:41-52 | Every continuation is another indexed line touching the open end and entered from it. |
| LvBuilder.ReachesStep | src/Topology_Generator/LvNetworkBuilder.py:113-116 | A line continuing a line reached from the start is itself reached. |
| LvBuilder.NextLinesReached | src/Topology_Generator/LvNetworkBuilder.py:108-116 | The continuations of the start line, or of a line reached from it, are all reached. |
| LvBuilder.TakeReached | src/Topology_Generator/LvNetworkBuilder.py:113-116 | Taking a reached frontier line keeps the found lines and the new frontier reached. |
| LvBuilder.SweepRound | src/Topology_Generator/LvNetworkBuilder.py:110-118 | One round of the sweep keeps the listing distinct, indexed and reached, and the frontier reached. |
| LvBuilder.ListingReached | src/Topology_Generator/LvNetworkBuilder.py:119-120 | A distinct listing of reached lines, followed by the start line, has the form the sweep promises. |
| LvBuilder.LvNetworkBuilder.Sweep | src/Topology_Generator/LvNetworkBuilder.py:108-118 | The breadth loop lists distinct stored lines, each reached from the start line. |
| LvBuilder.LvNetworkBuilder.BuildLvNetwork | src/Topology_Generator/LvNetworkBuilder.py:106-120 | Lists distinct stored lines, each reached from the start line by a chain of continuations, and ends with the start line itself. |
| LvBuilder.RingContinuations | src/Topology_Generator/LvNetworkBuilder.py:41-52 | In the three-line triangle, each line has exactly one continuation, the next line. |
| LvBuilder.RingIsCycle | src/Topology_Generator/LvNetworkBuilder.py:41-52 | The triangle's three lines continue into each other in a cycle. |
| LvBuilder.AsWrittenRingNeverEnds | src/Topology_Generator/LvNetworkBuilder.py:75-98 | After any number k of passes on the triangle, the loop as written holds exactly one continuation, the line k + 1 along the cycle, so it never ends. |
| LvBuilder.PhaseIsRemainder | src/Topology_Generator/LvNetworkBuilder.py:93-98 | k steps round a cycle of three from position j end at (j + k) mod 3. |
| LvBuilder.AsWrittenCycleNeverEnds | src/Topology_Generator/LvNetworkBuilder.py:93-98 | The same holds for any three lines that continue into each other in a cycle. |
| LvBuilder.CorrectedRingRunEnds | src/Topology_Generator/LvNetworkBuilder.py:93-98 | With the repeat check, the run from the first triangle line consumes the other two and stops as at a dead end. |
| MvBuilder.RemoveOutOfBoundsLines | src/Topology_Generator/MvNetworkBuilder.py:224-231 | Keeps exactly the lines inside the bounding box, in order. |
| MvBuilder.RemoveDuplicateLines | src/Topology_Generator/MvNetworkBuilder.py:233-236 | Keeps exactly the lines not yet visited, in order. |
| MvBuilder.NextLines | src/Topology_Generator/MvNetworkBuilder.py:242-255 | Direct continuations come first; station lines are used only when there are none; both are unvisited and inside the box. |
| MvBuilder.NextLinesComplete | src/Topology_Generator/MvNetworkBuilder.py:242-255 | Every unvisited direct continuation inside the box is returned. |
| MvBuilder.LastDated | src/Topology_Generator/MvNetworkBuilder.py:89 | Finds the last asset with a commissioning year, or reports that there is none. |
| MvBuilder.LastTransformer | src/Topology_Generator/MvNetworkBuilder.py:101-106 | Finds the last transformer, or reports that there is none. |
| MvBuilder.FindLastTrafoWithBuildingYear | src/Topology_Generator/MvNetworkBuilder.py:86-92 | Returns the last dated asset; the error is IndexError for an empty list and "no building year" otherwise. |
| MvBuilder.CableTypesUpdated | src/Topology_Generator/MvNetworkBuilder.py:94-106 | Fails iff no asset is dated. Otherwise every cable after the last transformer gets the cable type for the given year and, as its year, the later of that year and the last dated year. Every other asset is untouched, and kinds, names and places never change. |
| MvBuilder.CableTypesUpdateIsIdempotent | src/Topology_Generator/MvNetworkBuilder.py:94-106 | Updating cable types twice gives the same result as once. |
| MvBuilder.UpdateCableTypes | src/Topology_Generator/MvNetworkBuilder.py:94-106 | The loop over the assets retypes the cables after the last transformer and leaves everything else unchanged, exactly as `CableTypesUpdated` states. |
| MvBuilder.NewJoint | src/Topology_Generator/MvNetworkBuilder.py:121 | A joint with the given place, name and year. |
| MvBuilder.NoCapitalHNoHighVoltage | src/Topology_Generator/MvNetworkBuilder.py:170 | A name without a capital H never contains the HV transformer marker. |
| MvBuilder.OnlyStartingJointIsHighVoltage | src/Topology_Generator/MvNetworkBuilder.py:170 | The starting joint carries the HV marker and no numbered joint does. |
| MvBuilder.WithJoint | src/Topology_Generator/MvNetworkBuilder.py:108-113 | Appends a cable and an undated joint at the open end, with the next joint number. |
| MvBuilder.WithLoopBack | src/Topology_Generator/MvNetworkBuilder.py:141-149 | Fails iff no asset is dated; otherwise appends one cable to the loop station, retyped with the run. |
| MvBuilder.LastDatedOfAppended | src/Topology_Generator/MvNetworkBuilder.py:135 | Appending undated assets does not change the last dated asset. |
| MvBuilder.LastTransformerOfAppended | src/Topology_Generator/MvNetworkBuilder.py:133 | Appending non-transformers does not change the last transformer. |
| MvBuilder.StationYear | src/Topology_Generator/MvNetworkBuilder.py:119-138 | The transformer house year when known, otherwise the last dated year, otherwise the look-up error; never the "unknown" year 1. |
| MvBuilder.WithStation | src/Topology_Generator/MvNetworkBuilder.py:115-139 | Appends, at the open end, the retyped cable, a joint dated with the station year, an undated LV joint and a transformer dated with the year; the run's cables are retyped and the pass continues from the dated joint. |
| MvBuilder.WithTransformer | src/Topology_Generator/MvNetworkBuilder.py:115-139 | Fails with "no building year" iff the station year cannot be found; otherwise inserts the station dated with that year. |
| MvBuilder.VisitShrinks | src/Topology_Generator/MvNetworkBuilder.py:153-154 | Visiting a fresh line strictly shrinks the unvisited set. |
| MvBuilder.CorrectedLoopCase | src/Topology_Generator/MvNetworkBuilder.py:157-198 | Some case applies iff there is any continuation, and it agrees with the code's cases wherever one of those matches. |
| MvBuilder.ScanFindsUnvisited | src/Topology_Generator/MvNetworkBuilder.py:265-275 | A successful scan stops at an existing starting line that has not been visited. |
| MvBuilder.ScanRaisesOnlyWhenExhausted | src/Topology_Generator/MvNetworkBuilder.py:265-275 | "All paths explored" is raised only at the last station once its remaining lines are visited, and it resets the visited set. |
| MvBuilder.ScanMovesPastVisited | src/Topology_Generator/MvNetworkBuilder.py:265-275 | The scan never moves backwards, and it moves past a visited line. |
| MvBuilder.LoopKeys | src/Topology_Generator/MvNetworkBuilder.py:277-280 | The pre-seeded loop keys are exactly the connected ends of the starting lines. |
| MvBuilder.HvRingMakesNetwork | src/Topology_Generator/MvNetworkBuilder.py:310-314 | A ring from the HV transformer's joint, followed by the transformer, forms an MV network. |
| MvBuilder.DefaultLoopKeys | src/Topology_Generator/MvNetworkBuilder.py:277-280 | The loop builds exactly the pre-seeded keys. |
| MvBuilder.PassState.constructor | src/Topology_Generator/MvNetworkBuilder.py:309-310 | A pass starts with nothing visited and with the given loop map. |
| MvBuilder.MvNetworkBuilder.constructor | src/Topology_Generator/MvNetworkBuilder.py:24-37 | A new builder has nothing visited, no containers, and both cursors at 0. |
| MvBuilder.MvNetworkBuilder.DefineNextLines | src/Topology_Generator/MvNetworkBuilder.py:242-255 | The continuations are unvisited and in the line table, with direct ones preferred over station lines. |
| MvBuilder.MvNetworkBuilder.BuildRecursive | src/Topology_Generator/MvNetworkBuilder.py:151-153 | A visited line returns only its joint; otherwise the line is visited, the loop map only grows, and a success is ring-shaped. |
| MvBuilder.MvNetworkBuilder.BuildUnvisited | src/Topology_Generator/MvNetworkBuilder.py:153-209 | A fresh line yields nothing or a chain that starts at the joint and ends with a cable. |
| MvBuilder.MvNetworkBuilder.StartRun | src/Topology_Generator/MvNetworkBuilder.py:153-155 | Visits the line and returns its fresh continuations. |
| MvBuilder.MvNetworkBuilder.Step | src/Topology_Generator/MvNetworkBuilder.py:186-198 | A single direct continuation adds exactly the cable and joint of `WithJoint`; a single station line adds exactly the station of `WithTransformer` and fails iff that fails, with its error and nothing visited; the next line is visited. |
| MvBuilder.MvNetworkBuilder.EndRun | src/Topology_Generator/MvNetworkBuilder.py:200-209 | A run that ends away from a loop point is discarded; one that ends at a loop point is exactly `WithLoopBack` to that point's station. |
| MvBuilder.MvNetworkBuilder.AddLoopBackCable | src/Topology_Generator/MvNetworkBuilder.py:141-149 | Fails iff no asset is dated; otherwise appends one cable after the existing assets, which keep their first joint. |
| MvBuilder.MvNetworkBuilder.AddTransformer | src/Topology_Generator/MvNetworkBuilder.py:115-139 | Fails iff the station year cannot be found; otherwise appends four assets and returns a dated joint. |
| MvBuilder.MvNetworkBuilder.BuildBranch | src/Topology_Generator/MvNetworkBuilder.py:159-185 | A branch point yields nothing or a chain from the run's joint that ends with a cable; the branches are descended into unless the point loops back to the starting HV station, and when they add nothing the assets are cleared, otherwise the branches' assets follow the marked ones. |
| MvBuilder.MarkedShape | src/Topology_Generator/MvNetworkBuilder.py:159-170 | The first half of the branch case fails exactly when a loop-back finds no dated station or a new station no year; otherwise it keeps the first joint, adds one cable at a loop point, four assets at a new intersection with unvisited branches and nothing otherwise, and stops the descent only at the starting HV station, after a cable. |
| MvBuilder.MvNetworkBuilder.MarkIntersection | src/Topology_Generator/MvNetworkBuilder.py:159-170 | Returns exactly `Marked` on the old loop map and visited set; a new intersection with unvisited branches that gets its station is recorded in the loop map, which otherwise is unchanged. |
| MvBuilder.MvNetworkBuilder.BuildBranches | src/Topology_Generator/MvNetworkBuilder.py:172-181 | The assets built before the branches are kept as a prefix, and whatever the branches add ends with a cable. |
| MvBuilder.MvNetworkBuilder.InitializeStartingParameters | src/Topology_Generator/MvNetworkBuilder.py:257-282 | Loads the HV/MV containers and returns the first unvisited starting line with its loop keys, or "all paths explored". |
| MvBuilder.MvNetworkBuilder.NextStart | src/Topology_Generator/MvNetworkBuilder.py:287 | Returns the starting line under the cursor, which is in the line table, and strictly reduces the pending work. |
| MvBuilder.MvNetworkBuilder.RunPass | src/Topology_Generator/MvNetworkBuilder.py:287-310 | One pass returns the lines it visited, including the starting line. It also returns an HV transformer at the line's connected end, dated with the station's building year, and either nothing or a ring from the HV joint closed by a cable. |
| MvBuilder.MvNetworkBuilder.RecordVisited | src/Topology_Generator/MvNetworkBuilder.py:311 | The pass's lines are added to the lines visited across passes, and the remaining work shrinks. |
| MvBuilder.MvNetworkBuilder.GenerateAMvNetwork | src/Topology_Generator/MvNetworkBuilder.py:284-317 | Passes run until one yields a ring. The result starts at the HV joint and ends with a cable and then the HV transformer, which has the joint's place and year. |
| MvBuilder.JunctionContinuations | src/Topology_Generator/MvNetworkBuilder.py:242-255 | At a T-junction, the continuation sources give two direct lines and no station lines. |
| MvBuilder.AsWrittenJunctionNeverEnds | src/Topology_Generator/MvNetworkBuilder.py:157-198 | For those continuations none of the code's loop cases matches and nothing changes, so the loop spins forever. |
| Analyzer.MaxEdgeLength | src/Topology_Generator/TopologyAnalyzer.py:17-18 | No value iff there are no edges; otherwise the largest edge length, attained by some edge. |
| Analyzer.MaxEdgeConnections | src/Topology_Generator/TopologyAnalyzer.py:20-21 | No value iff there are no edges; otherwise the largest connection count, attained by some edge. |
| Analyzer.LengthCeiling | src/Topology_Generator/TopologyAnalyzer.py:23-29 | Fails iff some network has no edges; otherwise a non-negative bound on every network's longest edge, attained when non-zero. |
| Analyzer.ConnectionsCeiling | src/Topology_Generator/TopologyAnalyzer.py:31-37 | Fails iff some network has no edges; otherwise a non-negative bound on every network's largest count, attained when non-zero. |
| Analyzer.GetMaxLengthOfNetworkCables | src/Topology_Generator/TopologyAnalyzer.py:23-29 | The running-maximum loop computes the length ceiling. |
| Analyzer.GetMaxAmountOfConnections | src/Topology_Generator/TopologyAnalyzer.py:31-37 | The running-maximum loop computes the connections ceiling. |
| Analyzer.NewTopologyAnalyzer | src/Topology_Generator/TopologyAnalyzer.py:10-15 | Fails iff some reference network has no edges; otherwise stores the networks and both ceilings. |
| Analyzer.EdgeInsDelCostBounds | src/Topology_Generator/TopologyAnalyzer.py:88-92 | Insertion and deletion cost the same, between 0 and 2 for edges within the ceilings. |
| Analyzer.EdgeSubstCostSymmetric | src/Topology_Generator/TopologyAnalyzer.py:94-101 | Substituting e1 by e2 costs the same as substituting e2 by e1. |
| Analyzer.EdgeSubstCostZero | src/Topology_Generator/TopologyAnalyzer.py:94-101 | The cost is non-negative; it is zero iff both edges have the same length and the same non-zero count; a zero count costs at least 1. |
| Analyzer.ConnectionDistance | src/Topology_Generator/TopologyAnalyzer.py:60-62 | The relative connection difference is never negative. |
| Analyzer.ConnectionDistanceProperties | src/Topology_Generator/TopologyAnalyzer.py:58-62 | The connection term is symmetric and is zero iff both totals are equal. |
| Analyzer.BestIsLastLowest | src/Topology_Generator/TopologyAnalyzer.py:45-69 | The chosen distance is at most the sentinel and at most every evaluated score; the chosen network was evaluated with that score, and every later evaluated network scores strictly more (ties go to the later one). |
| Analyzer.FindBestMatchingNetwork | src/Topology_Generator/TopologyAnalyzer.py:40-80 | An empty network list is an error. Otherwise the loop returns the distance and network chosen by lowest score, with ties going to the later network. |
| Analyzer.NothingScoredGivesSentinel | src/Topology_Generator/TopologyAnalyzer.py:42-43 | When no network is small enough to evaluate, the result is the sentinel distance with the first network. |

## Left out

- Geometry library and spatial trees: overlaps, touches, covers, `dwithin` and polygon distances are query functions given as parameters; only the properties the code relies on are assumed (indices in range, touching results in ascending order).
- `_extract_common_point` (LvNetworkBuilder.py:61-65): a parameter function of the builder; the branch point it computes is not derived from geometry.
- The default `loops_mapping` argument of the LV builder is shared between calls in Python; each model builder starts with its own empty map.
- Plotting, intermediate energy-system snapshots and logging (including the minimum-distance connection count) have no effect on results and are omitted.
- ESDL file I/O, UUID generation, port wiring (`connectedTo`) and `save_network` are not modelled; assets are values without identities or links.
- MvBuilder.NewCable: keeps only the line's first point and no length; cable geometry is not modelled.
- Python `datetime` range errors for years outside 1..9999 are not modelled.
- `all_visited_lines` is modelled as a set; its order is never observed.
- The graph edit distance is a parameter function; its time-out and a `None` result are not modelled.
- Floating-point numbers are reals; the divisions by the ceilings and by the smaller length require non-zero denominators, as the code would otherwise raise.
- MvBuilder.MvNetworkBuilder.MarkIntersection: the `all(not visited)` test is modelled as written, but the branch lines reach it already filtered against the visited set, so no input of the builder makes it false.
- LvBuilder.LvNetworkBuilder.AddNodeAndEdge and LvBuilder.LvNetworkBuilder.HandleBranchPoint: LV edges carry only a `length` in the code (LvNetworkBuilder.py:57, :81); the model gives them a connection count of 0, where code reading `amount_of_connections` from an LV graph would raise a `KeyError`. No modelled operation reads the count of an LV edge.
- LvBuilder.LvNetworkBuilder.BuildLvNetwork: states that every listed line is reached from the start line, not that every line reached from it is listed.
- LvNetworkBuilder's `extract_lv_lines_connected_to_mv_lv_station` (:127-138) and `_extract_lv_lines_from_dataframe` (:140-149) repeat the Enexis and GeoData versions modelled above.
- `is_there_industry_at_point`, `get_line_length_from_metadata`, `NetworkParser.py`, `EsdlNetworkParser.py` and `MvEnergySystemBuilder.py` are not part of this model.
- Alliander.MvLinesConnectedAtPoint (:126-128) is defined as the index query it wraps and has no contract of its own.
- Analyzer.NodeCost: only the constant cost 0 is stated.
- The repository's worked LV examples (2 nodes and 1 edge; 4 nodes and 3 edges; 6 nodes and 6 edges) are not modelled as concrete lemmas; the general properties above cover their structure.

## Findings

| source | as written | input that shows it | evidently intended | confidence | as-written member | corrected member |
|---|---|---|---|---|---|---|
| src/Topology_Generator/LvNetworkBuilder.py:93-98 | A single continuation is followed without checking whether the run has already entered it. | Three lines forming a triangle with no branch point: each line has one continuation, so the loop goes round forever. | A single continuation the run has already entered ends the run like a dead end; lines visited earlier, outside the run, are followed as written. | not executed | LvBuilder.AsWrittenRingNeverEnds | LvBuilder.CorrectedRingRunEnds |
| src/Topology_Generator/MvNetworkBuilder.py:157-198 | The loop's cases cover a branch only among station lines, so two or more direct continuations with at most one station line match no case. | A T-junction: a line whose open end meets two other lines gives two direct continuations and no station lines, and the loop repeats with nothing changed. | A branch over the direct continuations, handled like a branch over station lines. | not executed | MvBuilder.AsWrittenJunctionNeverEnds | MvBuilder.CorrectedLoopCase |
