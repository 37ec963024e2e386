# Verified model of the MeshCore Ninja API

A Dafny model of the stateful core of the MeshCore Ninja API, a Go service that watches mesh
radio traffic, and proofs of what that core is for. `dafny verify dfyconfig.toml` checks all of it.

* **Routing** (`Routing`, `RouteSearch`, `MinHeap`, `LinkGraphs`, `LinkRoutes`): the cheapest route between
  two nodes over the graph of observed links, found by Dijkstra's algorithm with a hand-written heap,
  stale entries, an early exit and per-edge filters, on a cached snapshot. Optimal, complete, and the
  reported path is simple and joins up; read off the stored links, a route is found exactly when links that were
  seen late enough, through a selected network, join the two nodes.
* **Link registry** (`Keys`, `PathWalk`, `PathRecords`, `LinkModel`, `LinkRecords`, `LinkRegistry`, `LinkViews`):
  what one locked section of `links.go` does, as functions on values; the classes `LinkRecord` and
  `LinkRegistry` update their fields and shards in place and are proved against those functions.
  `LinkRuns`, `LinkLogs`, `LinkCounts`, `LinkShares`, `LinkTallies`, `LinkGeometry`, `LinkTraces` and `ViewFacts`
  state the laws over whole runs: the two deduplication tables, the window, what every counter and the scores add
  up to, the position segments, and what a record and its views say about the events.
* **Durability** (`LinkStore`, `LinkHistory`, `LinkTables`, `Durability`, the files ending in `Steps`,
  `DurabilityLaws` and `DurabilityCounts`): the step machine of background restore, live ingest, gated flush, failed
  commits and retries. Nothing is written before the restore is done, nothing is lost or counted twice, in every
  interleaving, and every count of a link is what was persisted plus what came in since.
* **Counters** (`RateWindow`, `Counters`, `CounterLogs`, `Networks`): the rate ring against an event log, the two
  deduplication layers of a counter, what it holds read off the log, and a network's counter beside its analyzers'.
* **Adverts** (`NodeModel`, `NodeRegistry`, `Adverts`, `NodeFacts`): the append-only advert history with its
  buffer (exactly once), the rolling lists, the node rows, and what a node's row says about its adverts.
* **Coverage areas** (`Rings`, `Triangles`, `Projection`): even-odd point-in-ring tests, which are right for every
  triangle, bounding boxes and distances, over the reals.

`Ledgers` holds the one counting argument behind three of these laws: of two deduplication tables that are
refreshed and swept together, the coarser never counts more often, whatever the clock does. `Sums`,
`Reals` and `Collections` hold the arithmetic of count maps, powers and products, and facts about lists.

Times are integers, and counters are natural numbers. Scores, costs and coordinates are reals.
`Config.retain` is the share of a score that is left after one second, so a decay over `dt` seconds is
a power with a natural exponent; it is 1 when scores do not decay. Whether two positions are farther
apart than the position epsilon, `exp`, `log1p`, the cosine and the great-circle distance are
parameters. One operation of a run is one locked section, one query or one transaction of the program,
so that a sequence of operations is any interleaving of its goroutines. The databases' answers (commit or
not) are parameters too. A law that needs observations to come in order of time says so; sweeps may always
carry any time, since a sweep reads its time once and then works through many locked sections.

Where code and comments disagree, the model follows the code:

* The repository's `README.md:26-27` speaks of a 60-second rate window; `metrics.go:12` sets 300 seconds.
* `links.go:794-796` says that the restore runs before any collector; `main.go:156-170` runs it in the
  background beside live ingest, which is what makes the merge and the restore gate necessary.
* `links.go:273-275` says that a link repeated within one path is handled once; the set of `links.go:281` holds
  directions (`links.go:302-309`), so that a path can count a link once each way.
* `links.go:859-860` says that restored geometry becomes older segments. A merge appends it after the live
  segments (`links.go:861-867`), so that order in time survives a merge exactly when the live link has not
  moved yet or the row has no position.

## Model

| member | source | states |
|---|---|---|
| Routing.EdgeCost | route.go:25-30 | an edge always costs more than nothing, whatever its activity and age |
| LinkRoutes.BetterLinksAreNotDearer | route.go:25-34 | a link that is busier or was seen later is never dearer, whatever monotone functions stand for exp and log1p |
| MinHeaps.RootIsMinimal | route.go:149-157 | the first entry of a heap is a cheapest one, ties included |
| MinHeaps.SiftUpStep | route.go:159-171 | one swap upwards moves the only broken place of the heap order up |
| MinHeaps.SiftDownStep | route.go:178-195 | one swap downwards moves the only broken place down to the cheaper child |
| MinHeaps.MinHeap.Push | route.go:159-171 | keeps heap order and adds exactly the one entry |
| MinHeaps.MinHeap.Pop | route.go:173-197 | keeps heap order, removes exactly one entry, and returns a cheapest one |
| RouteSearch.WalkBound | route.go:222-243 | every walk from the source ends in a settled node it does not undercut, or costs at least as much as something still queued |
| RouteSearch.CheapestIsTrue | route.go:223-233 | the first popped entry of an unsettled node carries its true distance: no walk to it is cheaper |
| RouteSearch.DropStale | route.go:224-227 | skipping an entry of a settled node loses nothing |
| RouteSearch.RelaxKeepsInv | route.go:232-242 | following one passing edge keeps the whole search invariant |
| RouteSearch.ExhaustedMeansUnreachable | route.go:245-247 | when the frontier is empty, an unsettled destination cannot be reached |
| RouteSearch.Explore | route.go:212-243 | the main loop terminates and ends with the destination settled at its true distance or unreachable |
| RouteSearch.TraceIsWalk | route.go:249-262 | following predecessors from a settled node gives a walk from the source of exactly its distance |
| RouteSearch.TraceIsSimple | route.go:249-262 | that walk visits no node twice, so it ends |
| RouteSearch.Reconstruct | route.go:249-280 | the predecessor loop, the reversal and the hops report exactly that walk |
| RouteSearch.ReportShape | route.go:249-280 | one more node than hops, all different, hop i leads from node i to node i+1 |
| RouteSearch.LonelyEndIsUnreachable | route.go:207-210 | the early exit is right: an endpoint without edges cannot be on a route |
| RouteSearch.RouteInGraph | route.go:207-280 | a route is found if and only if there is one through passing edges, and then no other is cheaper |
| Routing.ReverseWalkIsWalk | route.go:117-133 | in a mirrored graph every walk can be walked back, through the same filter, at the same cost |
| Routing.OptimalCostIsSymmetric | route.go:104-135 | under any filter the cheapest route costs the same both ways |
| LinkGraphs.AddLinkEdges | route.go:106-131 | adding a link adds its two directions and no parallel edge |
| LinkGraphs.GraphOfLinks | route.go:104-135 | the graph of stored links is mirrored at equal cost, its costs are positive, and no edge leads back to its node |
| LinkGraphs.ServedGraphIsFresh | route.go:86-99 | over any history of locked sections, requests and restores, a request is served exactly the links stored at a request less than 15 seconds before, or now, with no restore finished in between |
| LinkRegistries.LinkRegistry.BuildAdjacency | route.go:104-135 | exactly two edges per stored link of any shard, and nothing else |
| LinkRegistries.LinkRegistry.Adjacency | route.go:90-99 | serves the cached snapshot while it is young enough, otherwise the graph of the links now stored, which is the request of that history |
| LinkRegistries.LinkRegistry.RouteBetween | route.go:203-280 | equal endpoints, otherwise the cheapest route in the snapshot; found if and only if a chain of stored links joins the nodes that were seen late enough, through a selected network, and every hop reports such a link |
| LinkRoutes.AnswerIsOverLinks | route.go:137-147 | what an answer says about the links themselves, by their last sightings and their networks; two nodes joined by one open link are always connected |
| LinkRoutes.ReachableIffChained | route.go:137-147 | a node is reachable through passing edges exactly over a chain of open stored links |
| Keys.CanonicalKeyCorrect | links.go:61-76 | two different keys have exactly one canonical link key, in either order; equal ones have none |
| Keys.HexOfInjective | links.go:78-79 | a node's hex name determines its key |
| Keys.NormalizePubRoundTrip | links.go:49-59 | a text names a key exactly when, trimmed and in lower case, it is that key's hex name |
| Keys.SmallerKeyComesFirst | links.go:61-76 | the A end of a link is the key that is smaller in the first byte in which the two differ |
| Keys.CleanIs | links.go:49-59 | cleaning keeps the text between the first and the last character that is no space, in lower case |
| PathWalk.WalkEmitsEveryWayOnce | links.go:267-338 | a path emits each way between neighbouring valid keys, blanks dropped, exactly once, and nothing else |
| PathRecords.PathRecordsNeighbors | links.go:267-338 | read off the path's texts: one event, in the direction of the path, for each two different keys that stand next to each other, blanks aside, and no other event |
| PathRecords.EventOfLeg | links.go:310-336 | an event carries the cleaned hash and the context of its packet, and each end's own position if both are known |
| PathWalk.WalkHasNoSelfLegs | links.go:300-301 | it never emits a link from a node to itself |
| PathWalk.FirstLegEmitted | links.go:302-310 | of several passes the first one is emitted |
| PathWalk.ReversedPathEmitsConverse | links.go:267-338 | the reversed path emits the converse ways, on the same links with the direction flipped |
| PathWalk.CleanPathSnrs | links.go:320-327 | on a path of valid keys without repeats the link into position i takes the i-th SNR |
| LinkRegistries.LinkRegistry.ObservePathCtx | links.go:267-338 | the loop with its variables observes exactly the adjacencies the path emits, in order |
| LinkRegistries.ObserveInSteps | links.go:381-456 | the lookup, the network part and the global part together are one observation |
| LinkRegistries.LinkRegistry.ObserveLink | links.go:381-456 | one locked section does exactly this, to the one shard its key selects; the laws of LinkLogs and LinkShares say what that counts |
| LinkLogs.CountsUnlessRemembered | links.go:413-427 | in every run a link counts an observation unless an earlier one has the same hash, link and direction, none since has, and no sweep of the shard since was more than its window later |
| LinkLogs.NetCountsUnlessRemembered | links.go:400-411 | the same for a network's own count, with the network as the fourth field |
| LinkLogs.SecondCountsUnlessSame | links.go:167-177 | two observations with no sweep between both count unless they agree in all three fields, or for a network in all four |
| LinkShares.ObservedEntry | links.go:487-517 | an observation leaves its network's entry with this sighting and, if it counted, this hash in its direction; other entries stay |
| LinkRecords.LinkRecord.UpdatePosition | links.go:462-483 | keeps, grows or freezes the live segment |
| LinkRecords.LinkRecord.AddNetwork | links.go:487-495 | refreshes a network's entry or appends one |
| LinkRecords.LinkRecord.CountNetwork | links.go:497-517 | counts the event on its network only |
| LinkRecords.LinkRecord.CountEvent | links.go:418-455 | position, score, counters, direction, SNR history and sources of a counted event |
| LinkRecords.LinkRecord.MergeNetwork | links.go:937-963 | merges a network into its entry or appends it |
| LinkRecords.LinkRecord.MergeRestored | links.go:822-875 | merges a persisted record into a live one, without marking it dirty; the laws of LinkShares say what that adds up to |
| LinkShares.CountsAreBrought | links.go:426-455 | in every run a link's packets, each direction, low confidence, each route type and the same per network are the sums of what counted events and restored records brought |
| LinkShares.MergedShares | links.go:822-875 | a merge adds up each of these counts |
| LinkShares.MergeTakesLastTraces | links.go:842-852 | the last hashes and SNRs after a merge are those of the record with the later last sighting, as far as it has any |
| LinkShares.MergeNetworksEntry | links.go:937-963 | merging networks changes exactly the entries the restored record has |
| LinkShares.MergeNetFields | links.go:937-963 | two entries of a network add up, span both sightings and keep the last hashes of the one seen last |
| LinkRegistries.LinkRegistry.Sweep | links.go:543-559 | drops exactly the entries older than the window, from both tables of every shard |
| LinkRegistries.LinkRegistry.TakeDirty | links.go:758-778 | hands out every dirty link once, as it is, and clears exactly those flags |
| LinkRegistries.LinkRegistry.Requeue | links.go:783-792 | marks the given links that exist dirty again, and no other |
| LinkRegistries.LinkRegistry.Restore | links.go:797-820 | stores or merges every valid record under its canonical key and drops the routing snapshot |
| LinkRegistries.LinkRegistry.LinksForNode | links.go:621-704 | every link of the node, once, from the node's side |
| LinkViews.ViewsMirror | links.go:621-704 | the two endpoints' views of a link are exact mirror images |
| ViewFacts.ViewShowsSent | links.go:621-704 | in every run what a node is shown as sent is what it sent itself, and as received what its neighbor sent: packets, last hash, last five SNRs |
| ViewFacts.ViewShowsNetworks | links.go:621-704 | so it is network by network, and each position is that of its own end |
| ViewFacts.ViewShowsQuality | links.go:904-915 | quality is high when no event was of low confidence, low when all were, mixed otherwise |
| LinkRuns.ObserveAllIsRun | links.go:267-338 | a whole path observation is a run of locked sections, so the laws of runs hold of it |
| LinkRuns.SweepIsRun | links.go:543-559 | so is a sweep |
| LinkRuns.TakeIsRun | links.go:758-778 | so is a take-dirty |
| LinkRuns.RestoreIsRun | links.go:797-820 | so is a restore |
| LinkRuns.RequeueIsRun | links.go:783-792 | so is a requeue |
| LinkRuns.StepKeepsNetCoupledIff | links.go:398-418 | an operation keeps each per-network entry no newer than its global entry if and only if it is not an observation behind another network's; a sweep always does |
| LinkRuns.CoupledIffNeverBehind | links.go:398-418 | over any run the tables stay coupled if and only if no observation is behind another network's |
| LinkRuns.TablesStayCoupled | links.go:398-418 | so they do in every run whose observations come in order of time, with sweeps at any time |
| LinkRuns.NewLinksCount | links.go:386-397 | whatever the clock does, the first event of a link that is not stored yet counts |
| LinkRuns.GlobalCountImpliesNetworkCount | links.go:398-427 | while they are coupled, an event that counts globally counts for its network |
| LinkRuns.ObservationBehindBreaksCoupling | links.go:543-559 | a concrete run in which an observation is behind another network's and the event then counts globally but not for its network |
| LinkRuns.TableIsLog | links.go:413-418 | the table holds exactly the events the log still remembers, with the time of the latest sighting, counted or not |
| LinkRuns.CountedIffForgotten | links.go:413-427 | an event counts exactly when the log before it does not remember it |
| LinkRuns.CountedEventsAreApart | links.go:413-427 | with observations in order, a counted event lies more than the window after every earlier sighting, if no sweep before it was ahead of it |
| LinkCounts.RecordsStayBalanced | links.go:426-455 | in every run directions and route types each add up to the packet count, low confidence stays within it, the same per network, and at most five SNRs are kept |
| LinkCounts.MergeKeepsBalance | links.go:822-902 | a restore merge keeps this and adds up the networks' totals |
| LinkCounts.NetworksCoverTheCount | links.go:398-427 | when every event has a network, no link ever has more packets than its networks together, whatever the clock does |
| LinkTallies.WorthIsEarned | links.go:428-429 | in every run packet count, located count and the score at any later time are the sums over counted events and restored records of what each contributes |
| LinkTallies.HalfLivesHalve | links.go:519-539 | every half-life halves a score |
| LinkTallies.OneSecondLeavesShare | links.go:519-539 | one second leaves exactly the configured share of a score; one without an update time stays as it is |
| LinkTallies.CombinedScoreIsSum | links.go:930-935 | two merged scores are worth what they are worth separately, at any later time, also those without an update time that decay does not change |
| LinkTallies.UnstampedScoreIsNotSum | links.go:531-539 | for a record without an update time this holds if and only if it has no score or scores do not decay |
| LinkTallies.ScoresStayWithinCounts | links.go:519-539 | a score read at any time lies between 0 and the packet count, and located events are at most as many |
| LinkTallies.MergeGeometryAdds | links.go:859-874 | a restore merge adds up the packets of all segments |
| LinkGeometry.RecordIsReplay | links.go:418-455 | a record that was never restored tells the story of its counted events |
| LinkTraces.RecordSummarizesEvents | links.go:426-455 | over any run such a record is the exact summary of its counted events: how many, when, by which routes, and per direction the last hash and the last five SNRs |
| LinkTraces.PacketCountIsLogCount | links.go:413-427 | its packet count is the number of log entries of the link whose event the log before them does not remember |
| LinkTraces.MergedSnrsAreLastFive | links.go:885-902 | merged SNR histories are the last five of both, the newer record's last |
| LinkGeometry.StretchesGroup | links.go:462-483 | the stretches keep every counted event in order; events in one stay near its anchor, the next anchor is far |
| LinkGeometry.SegmentsAreStretches | links.go:462-483 | the segments of a record are exactly those stretches |
| LinkGeometry.PositionHistory | links.go:423-427 | over any run: segments are the stretches of the counted events, in order of time if observations are |
| LinkGeometry.ReplayIsWellPlaced | links.go:462-483 | a record of events in order has its segments in order, none before its first sighting |
| LinkGeometry.MergeKeepsOrderIff | links.go:859-874 | a merge with an older row keeps the segments in order if and only if the live link has not moved yet or the row has no position |
| LinkGeometry.MergeCanBreakOrder | links.go:859-874 | a concrete merge that breaks the order |
| LinkStores.SavedIsRecord | db.go:640-676 | saving a record that extends its row makes the row show the record, networks included: exactly, or with later last sightings if observations came out of order |
| LinkStores.ShownIsHeld | db.go:640-676 | a row that shows a record equals it field by field and network by network, whatever the row leaves out |
| LinkStores.SavedSightings | db.go:640-676 | whatever a save brings, first sightings in rows only move back and last ones only forward, and rows of other networks stay |
| LinkHistories.ObservedOk | links.go:398-455 | an observation extends the row a record would be saved as, and marks the record dirty if it changes it |
| LinkHistories.MergedOk | links.go:822-875 | a merge extends the restored row, adds up the packets, and leaves the flag alone |
| LinkTables.LinkDb.SaveLinks | db.go:625-690 | upserts all records and their networks in turn in one transaction, or changes nothing; SavedThenLoaded says what is read back |
| LinkTables.SavedTogether | db.go:678-688 | records of different links are saved as one batch, in any order |
| LinkTables.LinkDb.LoadLinks | db.go:694-749 | one record per link row, with exactly its networks |
| LinkTables.SavedThenLoaded | db.go:625-749 | the round trip: saved records of different links, no older than their rows, are loaded field by field with the same networks; other links as before |
| LinkTables.ReadsIsLoad | db.go:694-749 | a record read back has its row's canonical key and shows its row |
| LinkTables.LoadedByLink | db.go:694-749 | what is loaded is what the restore may start from |
| LinkTables.TakenBatch | links.go:758-778 | what a flush takes can be saved, each link once |
| DurabilityLaws.StepKeepsInv | main.go:156-170 | every event of ingest, sweep, restore and flush, at whatever time, keeps the invariant that accounts for each link |
| RestoreSteps.RestoredLink | links.go:797-875 | a merged live link stays accounted for because it was dirty before |
| FlushSteps.CommittedLink | main.go:272-286 | a saved copy is its row, and its link is shown by that row or dirty again |
| DurabilityLaws.NothingWrittenBeforeRestore | main.go:272-275 | in every run no row changes before the restore is finished |
| DurabilityLaws.NothingIsLost | main.go:156-286 | afterwards every link is dirty, on its way, or held by its row field by field, and counts what was persisted before plus what was counted since |
| DurabilityCounts.PersistedPlusLive | main.go:156-286 | afterwards every count of a link, by direction, confidence, route type and network, is what its rows had at the start plus what was counted since |
| DurabilityLaws.QuietFlushIsComplete | main.go:272-286 | a flush that succeeds with nothing observed meanwhile leaves every link's row equal to the link field by field, with that whole count |
| DurabilityLaws.OrderedRuns | db.go:643-644 | the flag under which rows show their links exactly, last sightings included, holds if and only if no observation carries an earlier time than one before it |
| DurabilityLaws.CrashIsRecoverable | main.go:156-170 | the tables at any moment are ones the next start can work from |
| RateWindows.RingSum | metrics.go:61-64 | the buckets of a log's ring add up to the events of the last 300 seconds |
| RateWindows.OneSecondOn | metrics.go:38-41 | clearing the new second's bucket is all that one second changes |
| RateWindows.RateWindow.Advance | metrics.go:26-43 | the ring shows the same log at the later time, by partial or full clear |
| RateWindows.RateWindow.Add | metrics.go:45-51 | the log gains this event, under its own second exactly when it is less than a window behind |
| RateWindows.RateWindow.PerMin | metrics.go:56-73 | a fifth of the events of the last 300 seconds; over the time since the first event while that is shorter, and over one second at least |
| Counters.Counter.Observe | metrics.go:130-182 | both deduplication layers, the gauges and the rate of one event |
| CounterLogs.CountsAreLogCounts | metrics.go:150-181 | in every run the unique packets, the observations and the count of each payload type are what the log says is new |
| CounterLogs.TablesAreLog | metrics.go:130-209 | both deduplication tables, the observers and the nodes hold exactly the keys the log still stands for, with the time of the latest observation that noted them |
| CounterLogs.ObserverIsLog | metrics.go:149-171 | an observer's entry has its first sighting, its last name and as many observations as the log says are new |
| Counters.Counter.Sweep | metrics.go:186-209 | drops exactly what is older than its window |
| Counters.Counter.Restore | metrics.go:283-302 | takes over the persisted totals and gauges |
| Counters.RestartKeepsTotals | metrics.go:254-302 | an export restored into a new counter keeps totals and gauges, with nothing to deduplicate |
| Counters.RestoreOverLive | metrics.go:283-302 | a restore replaces totals, keeps live observers, and takes over persisted nodes and payload types |
| Counters.SharedKey | metrics.go:150-152 | exactly when two observer and hash pairs share a key |
| Counters.NewPacketIsNewObservation | metrics.go:150-181 | while remembered pairs keep their packet remembered, a new packet is a new observation |
| Counters.RememberedPairsAreLayered | metrics.go:150-209 | with observations in order, each remembered pair has its hash remembered at least as recently |
| Counters.TotalsStayOrdered | metrics.go:130-209 | in every run, whatever the clock does, payload types add up to at most the unique packets, and those are at most the observations |
| Counters.OrderedIffNoClash | metrics.go:150-152 | for a set of hashes this holds in all runs if and only if none of them ends with a bar and another one |
| Counters.BarFreeHashesDoNotClash | metrics.go:150-152 | hashes without a bar never do |
| Networks.NetworkState.Observe | store.go:174-177 | one analyzer and the network hear the event, the other analyzers do not |
| Networks.NetworkState.Sweep | store.go:213-220 | sweeps the network's counter and all its analyzers' |
| Networks.TallyStaysConsistent | store.go:174-220 | with events in order, what an analyzer remembers the network remembers at least as recently |
| Networks.CountersRunApart | store.go:174-220 | each counter of a network runs on its own events and the sweeps alone |
| Networks.NetworkCountsNoMore | store.go:174-220 | in every run from fresh or restored counters, whatever the clock does, a network counts no more unique packets than its analyzers together |
| Networks.RestartIsFresh | store.go:185-209 | exported counters restored in a new process are such a start again |
| Ledgers.SweepAnchored | metrics.go:186-197 | a sweep of both tables forgets no more coarse entries than fine ones |
| Ledgers.AnchoredCount | metrics.go:150-181 | and the coarse table never remembers more |
| NodeModel.NewestIsNewestFirst | db.go:814-858 | the history query returns the newest adverts of a node, newest first, as many as asked for or there are |
| NodeRegistries.NodeRegistry.Observe | nodes.go:115-157 | the node, its rolling list, the buffer and the dirty set after one advert |
| NodeRegistries.NodeRegistry.ClearPending | nodes.go:188-196 | drops exactly the first n buffered adverts |
| NodeRegistries.NodeRegistry.TakeDirty | nodes.go:605-625 | every changed node once, without its list; nothing is dirty afterwards |
| NodeRegistries.NodeRegistry.Requeue | nodes.go:629-637 | marks the given nodes that exist dirty again |
| NodeRegistries.NodeRegistry.AttachRecentAdverts | nodes.go:644-657 | fills exactly the lists that are still empty |
| NodeRegistries.NodeRegistry.ApplyFlags | nodes.go:288-306 | sets flags, marks and counts exactly the nodes whose flags change |
| NodeRegistries.NodeRegistry.Restore | nodes.go:663-676 | takes over the persisted nodes, the last of equal keys winning |
| NodeModel.RestoredIsLast | nodes.go:663-676 | a restored node is the last record of its key, with the newest adverts read for it up to the cap |
| Adverts.AdvertsExactlyOnce | main.go:259-270 | in every run the durable adverts followed by the buffer are all adverts in order; between commit and clear the overlap is exactly the first n |
| Adverts.ListsShowNewest | nodes.go:144-150 | in every run each list is the newest part of the node's whole history, persisted and live, within the cap, and no live advert is missing that the cap allows |
| Adverts.NodesAreNeverLost | main.go:243-257 | in every run each node is dirty, on its way to disk, or exactly shown by its row |
| NodeFacts.NodesAreTheirAdverts | nodes.go:115-157 | in every run a node's name, type, position, networks, times and observer are those of its persisted row, overtaken by the adverts heard since, in order |
| Rings.RingContains | netareas.go:231-245 | a point is inside if and only if the ray to its east meets an odd number of edges, each at a point of the edge strictly east of it, under the half-open rule at the ends |
| Rings.CrossesIffMeets | netareas.go:237-241 | the code's comparison decides exactly whether some point of the edge lies at the latitude, strictly east |
| Triangles.TriangleInside | netareas.go:231-245 | for every proper triangle a strict mean of the vertices is inside and a point strictly beyond a side is outside |
| Triangles.EveryPointWeighs | netareas.go:231-245 | every point is such a mean with some weights, so that only the lines through the sides are left open |
| Rings.CrossingIsSymmetric | netareas.go:238-239 | an edge is crossed in the same place from either end |
| Rings.RotationKeepsInside | netareas.go:231-245 | starting the ring at another vertex does not change the answer |
| Rings.ReversalKeepsInside | netareas.go:231-245 | neither does listing it the other way around |
| Rings.ClosingVertexIsRedundant | netareas.go:231-245 | nor does leaving out the closing vertex |
| Rings.StraddleParity | netareas.go:237-238 | a path crosses a latitude an odd number of times exactly when its ends are on different sides |
| Rings.InsideIsWithinVertices | netareas.go:231-245 | a point inside has vertices on every side of it |
| Rings.PolygonContains | netareas.go:215-225 | inside the outer ring and outside every hole |
| Rings.NetworkArea.constructor | netareas.go:153-172 | the box is the tightest one around the outer rings, infinite if there are no vertices |
| Rings.OuterVerticesAre | netareas.go:153-172 | exactly the vertices of the first rings bound the box |
| Rings.NetworkArea.CoverageIsInBox | netareas.go:153-225 | every point of the coverage lies in the box |
| Projection.ClampedIsNearest | netareas.go:279-289 | the chosen parameter lies in [0, 1] and gives the nearest point, the only one unless the segment is a point |
| Projection.NearestPointIsNearest | netareas.go:268-292 | in the plane around the point nothing on the segment is nearer than where the distance is measured |
| Projection.SegmentDistanceIsToNearest | netareas.go:263-292 | the distance to a segment is that to one of its points, and none is nearer once longitudes are scaled by the cosine of the latitude |
| Projection.RingDistance | netareas.go:249-261 | the least distance to an edge of the closed ring, attained by one; infinite for an empty ring |
| Projection.AreaDistance | netareas.go:195-211 | zero inside the coverage, otherwise the least distance to any edge of any ring |
| Projection.AreaDistancesAre | netareas.go:195-211 | the distances compared are those to every edge of every ring, holes included |

## Left out

- HTTP handlers, JSON, configuration, metrics export, the live feed and its advert hook: plumbing around the core.
- The stream collectors, the importer and packet decoding: the model starts from decoded observations.
- SQL, migrations and JSON columns: the tables are maps, a transaction commits whole or not at all, and stored values are read back as written. Rows with keys the program does not write are not modelled.
- A failed `LoadLinks`: the gate then opens without a restore, and a later flush overwrites the counts of rows that were never merged.
- Integer widths: counters and times do not wrap around.
- Floating point: scores, costs and coordinates are exact, and NaN does not occur.
- Lower case outside ASCII: letters are lowered in the ASCII range only, which is all that a key can contain.
- Clocks at or before the epoch: times are positive where the code uses 0 for "never".
- LinkRecords.LinkRecord.MergeRestored: the fields of a live record are held in one value field, so that updates in place are modelled record by record, not field by field.
- NodeRegistries.NodeRegistry.Observe: node records are values in the map; the copy that shifts the rolling list in place is a sequence operation.
- LinkRegistries.LinkRegistry.RouteBetween: its body is spread over several methods, and the maps that hold distances and predecessors are locals passed between them.
- Projection.RingDistance: great-circle distance is a parameter, so the nearest point is nearest in the local plane only, as in the code.
- RateWindows.RateWindow.Add: an event a whole window or more behind the latest one is filed under a newer second; the contract says which.
- Networks.NetworkCountsNoMore: the network's analyzers are fixed, since `Store.Update` can drop an analyzer and its count leaves the sum; the sweep of a network and its analyzers is one step.
- DurabilityLaws.NothingIsLost: one flush runs at a time, as in the flush loop, and the restore reads the tables in one step.
- Adverts.AdvertsExactlyOnce: one advert flush runs at a time.
- `withNetworkFilter`, sorting of neighbors, search, map clustering and statistics: easier members that change no state.
- `haversineKM`, GeoJSON parsing and merging the boxes of several features.
- LinkRegistries.LinkRegistry.BuildAdjacency: a build locks one shard after the other; the model takes the links of all shards at one moment.
- Locks themselves: a locked section is one step, and the shards' mutexes are not modelled.
