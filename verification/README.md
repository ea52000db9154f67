# umwelt: a verified model of the replication engine and the edge

umwelt replicates a region's entities to the clients near them. Once a tick it takes a
snapshot of the region sorted by cell, gathers what each viewer can see, chooses what is
worth a record, and assembles one packet a viewer. An edge sits between clients and regions:
it names entities, moves them between regions, and keeps a second viewer (a shadow) across
every seam a client sees over. This project models that path and proves what it promises.

| files | what they model |
|---|---|
| `Numbers`, `Bytes`, `Ordering` | machine words, bit arithmetic, little-endian words, a stable sort |
| `Config`, `Building`, `WorldFrame` | world configuration and cells; which configurations are accepted; the world map and the frame regions share |
| `Stepping`, `LiveSet`, `Odometer` | what a game does in a tick, the live bitset, accumulated displacement |
| `CountingSort`, `Snapshot` | the per-tick two-level counting sort, its loops over arrays |
| `Gather`, `GatherExact`, `SubCells` | the nearest-first walk, that it is a radius scan, and where sub-cells lie |
| `Probing`, `Ghosts` | the open-addressed ghost table, refining a finite map |
| `Nearest`, `Select`, `Scoring`, `Packing` | choosing the ghost set, scoring, ranking, committing; what a score trades; when packed distances keep their order |
| `Rounds`, `Forgetting` | one viewer over many serves, and when its client loses a ghost |
| `Serve`, `Spacing` | registering a viewer; one serve from avatar to payload; turns, room and numbers of packets |
| `Ticking`, `Replay`, `Wire` | a tick of a region with its serves; what a viewer's last record said against where the entity is; what its client holds by the bytes it was sent |
| `Packet`, `Framing` | records and payloads on the wire; framed messages on a stream |
| `Handoff` | the slot protocol between ticks and the I/O thread, action by action |
| `Seam` | the squares a view reaches and where its shadows stand |
| `EdgeState`, `Edge` | the edge's handlers, as functions on its state and as a class |
| `EdgeInvariant`, `EdgeSteps`, `EdgeTeleports`, `EdgeReports` | what every handler keeps |
| `EdgeRun`, `EdgeWords`, `EdgeTransit` | what is true of every reachable edge, and what a teleport carries |
| `EdgeTracks`, `EdgeTold` | what handlers leave alone, and what each end of a teleport is told until completion or timeout |
| `EdgeViews` | a shadow in every region a view reaches, at the point its gather takes over from |
| `EdgeAsked`, `EdgeReturns` | every entity is asked for once; what is given back reaches its region, and a client that leaves is reported |
| `EdgeMoves`, `EdgeCrossings` | where positions end up; when a teleport starts and is given up, and what a word does |

Imperative code is imperative here: the ghost table, the snapshot, the odometer, the live set,
the packet writer, the framer, a viewer's serve and the edge are classes whose methods change
their fields, and each method is tied to a function on values about which the lemmas speak. The
edge's object carries `Valid`: some run of handlers leads to its state. Every handler keeps it,
so what `EdgeRun`, `EdgeWords`, `EdgeTransit`, `EdgeTold`, `EdgeAsked` and `EdgeReturns` prove
of reachable states is true of the object. The handoff is a state machine over its atomic actions, because its point is
their interleaving.

Things found on the way, each with a concrete run or input and a condition that says, for all
inputs, exactly when it happens:

* A despawn queue drained only in part can take away an entity that was sent again in the
  meantime, while the server believes the client holds it and owes it nothing
  (`Forgetting.PartialDrainLosesGhost`). Whether a serve does this is settled before it chooses
  anybody (`Forgetting.KeepsGhostsIff`).
* Draining the whole queue every serve does not exclude the loss: an entity that leaves a region
  and comes back has a new id under its old name, and the despawn of the old id takes the name
  away (`Forgetting.ReturnLosesGhost`). A client whose queues are all drained whole stays in
  step if and only if no due despawn goes by the name of a ghost that is not sent again
  (`Rounds.ClientIsExact`, on the bytes of its packets `Wire.HoldsExactly`, and before the
  serve `Forgetting.ClearIff`).
* A squared distance packed into 32 bits wraps at 2^40. A configuration keeps the order of what
  its viewers see if and only if nothing in view is that far (`Packing.PackingKeepsOrder`,
  in a configuration's own numbers `Packing.ReachDecides`); in one `build` accepts, a farther
  entity takes a nearer one's place (`Packing.FartherWins`).
* The wrapped difference of two odometer readings is the path between them exactly while that
  path is below 2^32 (`Odometer.DifferenceIsPath`). A path of 2^32, which the widest region
  admits in two moves, reads as no movement (`Odometer.LongPathAliases`).
* `build` accepts regions of more cells an axis than a cell coordinate holds. It is sound if and
  only if the region is at most 2^15 times half the view radius (`Config.BuildIsValid`); beyond,
  a far cell takes the number of the first and the count of cells wraps to zero
  (`Config.WideGridOverflows`).
* A viewer has one turn in as many ticks as its period, but for the window in which tick and id
  add up past 2^32, where a period that does not divide that can have two
  (`Spacing.OneTurnEach`, `Spacing.TwoTurnsAtTheWrap`); it never has none (`Spacing.HasItsTurn`).

Where the documentation and the code disagree, the code is followed: `select` documents that
ties break on candidate index, but a candidate the client already holds ranks before a
stranger of the same score whatever their indices (src/select.rs:287-332).

## Model

| member | source | states |
|---|---|---|
| `Config.BuildIsValid` | src/config.rs:491-616 | a configuration `build` accepts is sound (power-of-two extents, cells that tile the region, a cell radius that covers the view, a move per tick below one cell, cell coordinates and cell count within their words) if and only if its region is at most 2^15 times half its view radius |
| `Building.BuildsIff` | src/config.rs:491-587 | `build` accepts exactly what is complete and positive, with power-of-two extents, a radius within the region, whole milliseconds a tick, and less than a derived cell of movement a tick |
| `Building.BuiltAsAsked` | src/config.rs:491-587 | what is built carries the extents, radius, speed and rate asked for, cells of the largest power of two within half the radius, and the movement and milliseconds of a tick |
| `Building.RefusalIsTrue` | src/config.rs:491-560 | each refusal names a fault the builder has |
| `Config.WideGridOverflows` | src/config.rs:266-279 | a configuration `build` accepts has 2^21 cells an axis: a position in a far cell truncates to cell 0 and the count of cells wraps to 0 |
| `Config.CellHolds` | src/config.rs:266-279 | the truncation to 16 bits loses nothing in a sound configuration: a coordinate in the region lies in the cell its shift names, below the cells per axis |
| `Config.CellsApart` | src/config.rs:603-616 | positions within the view radius are within the cell radius of each other |
| `Config.IdsDistinct` | src/config.rs:290-296 | the row-major number, computed in 32 bits, tells the cells of a grid below 2^16 an axis apart |
| `Stepping.World.MoveTo` | src/sim/world.rs:187-205 | a move is held inside the box; a target outside is reported as asked, unless the entity was left at the box by its last move; nobody else is touched |
| `Stepping.World.Spawn` | src/sim/world.rs:247-261 | a spawn takes a new id, alive and shown, and disturbs nothing |
| `Stepping.World.SpawnShadow` | src/sim/world.rs:272-286 | a shadow takes a new id, alive, untagged and not shown, and disturbs nothing |
| `Stepping.World.Despawn` | src/sim/world.rs:305-312 | a despawn removes a live entity once and reports it once |
| `Stepping.ReportsAreDepartures` | src/sim/world.rs:180-205 | over any run of what `MoveTo` does to an entity, what is reported is exactly the targets outside the box that follow one inside, each once and in order |
| `Stepping.ClampHolds` | src/config.rs:325-335 | clamping puts a position inside, and changes it exactly when it was outside |
| `Stepping.ClampIsNearest` | src/config.rs:325-335 | no position in the box is nearer, on any axis, than where clamping puts it |
| `Stepping.World.SetName` | src/sim/world.rs:263-270 | a live entity takes the name it is given, and a dead one none |
| `LiveSet.LiveSet.Insert` | src/entity.rs:243-258 | inserting adds exactly that id, and the live count stays the number of members |
| `LiveSet.LiveSet.Remove` | src/entity.rs:260-272 | removing takes out exactly that id |
| `LiveSet.LiveSet.Cover` | src/entity.rs:230-241 | covering an id makes nothing alive |
| `LiveSet.LiveSet.Contains` | src/entity.rs:220-228 | the masked bit is membership |
| `LiveSet.LiveSet.All` | src/entity.rs:207-218 | the walk yields exactly the live ids, ascending |
| `LiveSet.LiveIter.Next` | src/entity.rs:330-348 | each step yields the least id not yet yielded, and stops only when none is left |
| `LiveSet.LowestBit` | src/entity.rs:336-342 | trailing zeros find the lowest bit, and `w & (w - 1)` clears that bit alone |
| `Odometer.Meter.Accumulate` | src/odometer.rs:107-151 | each shown entity gains its saturated step since it was last seen; a new slot gains nothing; the rest are untouched |
| `Odometer.Meter.BumpChanged` | src/sim/world.rs:1136-1147 | exactly the live entities whose tag is not last tick's are bumped |
| `Odometer.Meter.Tick` | src/sim/world.rs:1131-1147 | a tick adds to each reading the entity's displacement and its tag bump, wrapping |
| `Odometer.PathCovers` | src/odometer.rs:20-25 | over any run of ticks a reading is its start plus the true path, wrapped, and the path covers the displacement |
| `Odometer.DifferenceIsPath` | src/odometer.rs:20-25 | a wrapped difference is the true path if and only if that path is below 2^32 |
| `Odometer.LongPathAliases` | src/odometer.rs:20-25 | from a corner of the region to the opposite one and back, 4 units off: a path of 2^32 that reads as no drift at all |
| `Odometer.CornersInside` | src/config.rs:491-616 | those corners are positions of a region `build` accepts |
| `CountingSort.ScatterStep` | src/snapshot.rs:470-505 | each scattered element lands at its bucket's cursor and disturbs no other bucket |
| `CountingSort.ScatterEnds` | src/snapshot.rs:470-505 | when every element is placed, every bucket holds exactly its own, in order |
| `CountingSort.BucketedPermutes` | src/snapshot.rs:460-505 | a bucketed range is a permutation of what was sorted |
| `Snapshot.CellSnapshot.Update` | src/snapshot.rs:438-515 | after a tick every cell's range holds exactly its live rows in order, dense cells sorted again by sub-cell with every offset on record, and a cell is divided exactly when it is dense |
| `Snapshot.CellSnapshot.RebuildSubdivisions` | src/snapshot.rs:520-531 | exactly the cells at or above the threshold are divided, and the others are left as they were |
| `Snapshot.CellSnapshot.Subdivide` | src/snapshot.rs:537-594 | one cell's range, stably sorted in place by the given key, every offset on record; which square of the cell a key is, `SubCells.SubKeyIs` says |
| `Snapshot.Tally` | src/snapshot.rs:456-466 | the first pass counts each bucket, one place on |
| `Snapshot.RunningTotal` | src/snapshot.rs:467-469 | the second pass turns counts into where each bucket starts |
| `Snapshot.Scatter` | src/snapshot.rs:470-505 | the third pass leaves every bucket holding exactly its rows in order |
| `Snapshot.CellSnapshot.CollectLive` | src/snapshot.rs:438-466 | what is sorted is the live ids the columns cover, each with its own position, tag and composed name |
| `GatherExact.SnapshotPermutes` | src/snapshot.rs:438-594 | the snapshot's rows are the live rows, each exactly once |
| `GatherExact.InItsOwnCell` | src/snapshot.rs:366-387 | a row is in a cell's range exactly when it is a live row of that cell |
| `GatherExact.LiveRowsAscend` | src/entity.rs:330-348 | live rows come in ascending id order |
| `GatherExact.RangesAscend` | src/snapshot.rs:533-536 | an undivided cell is ascending by id, and so is each sub-cell of a divided one |
| `GatherExact.SubCellHolds` | src/snapshot.rs:159-190 | a sub-cell's range holds exactly the cell's rows of that sub-cell |
| `SubCells.SubKeyIs` | src/snapshot.rs:551-557 | a row's key is `j * axis + i` if and only if its offset in its own cell lies in the `i`th stretch along x and the `j`th along y |
| `SubCells.SubCellIsSquare` | src/snapshot.rs:159-190 | each part of a divided cell holds exactly the live rows that lie in that square of that cell |
| `Gather.BuildCellOrder` | src/snapshot.rs:597-616 | the cell order is every offset within the radius, each once, nearest first |
| `Gather.BuildSubOrder` | src/snapshot.rs:619-653 | for every origin, every sub-cell once, nearest first |
| `Gather.Take` | src/gather.rs:271-294 | one run appends its rows in view, in order; `Gather.FoundAllExact` says with what distance |
| `Gather.GatherIntoCapped` | src/gather.rs:204-258 | the capped gather appends a prefix of the full walk ending at a run boundary, the first where the length reaches the cap |
| `Gather.FoundAllExact` | src/gather.rs:271-294 | every entry names a row, with that row's id and the sum of its squared differences from the viewer over all three axes, and lies within the radius on the map |
| `GatherExact.ViewIsSubscribed` | src/subscription.rs:71-83 | everything in view lies in a cell of the viewer's own subscription |
| `GatherExact.WalkReaches` | src/gather.rs:220-258 | the walk reaches a row exactly once if its cell is subscribed and in radius, and otherwise never |
| `GatherExact.GatherIsRadiusScan` | src/gather.rs:171-203 | the uncapped gather lists the row at each place once if it is in view and never otherwise |
| `GatherExact.GatherFindsEntities` | src/gather.rs:171-203 | a live entity is within the view radius on the map, whatever its height, if and only if the gather lists it, with its id and its squared distance over all three axes |
| `SubCells.OriginIsNearest` | src/snapshot.rs:284-304 | the origin a walk takes in a cell is the sub-cell nearest the viewer, every other strictly farther |
| `SubCells.NearestSubCellFirst` | src/gather.rs:228-243 | in a divided cell a walk opens that sub-cell first and finds exactly the rows in it; a viewer standing in the cell stands in it |
| `SubCells.OwnCellFirst` | src/snapshot.rs:597-616 | a walk takes the viewer's own cell first, and of two others the one fewer cells away |
| `Probing.MaskedDistance` | src/ghost.rs:256-264 | masked subtraction is the cyclic distance |
| `Probing.HomeInTable` | src/ghost.rs:66-71 | the shifted hash is a slot of the table |
| `Ghosts.VacantEndsProbe` | src/ghost.rs:229-242 | a vacant slot at the end of a probe means the table does not hold the id |
| `Ghosts.ClosedIsDeleted` | src/ghost.rs:246-269 | backward shift leaves a table with unique ids and no broken probe chain, wrapped chains included, holding everything but the entry removed |
| `Ghosts.EvictingDrops` | src/ghost.rs:202-217 | dropping an entry and looking at its slot again keeps all that the pass has established |
| `Ghosts.EvictingEnds` | src/ghost.rs:202-217 | once every slot is passed, what is left is what is within grace, and what was dropped is the rest |
| `Ghosts.LengthCountsGhosts` | src/ghost.rs:86-92 | the map has as many entries as the table has taken slots |
| `Ghosts.GhostTable.WithCapacity` | src/ghost.rs:79-85 | a table made to hold so many holds nothing, and is large enough |
| `Ghosts.GhostTable.Find` | src/ghost.rs:229-242 | a probe finds an id exactly when the map has it, and terminates |
| `Ghosts.GhostTable.Len` | src/ghost.rs:86-92 | `len` is the number of ghosts |
| `Ghosts.GhostTable.Held` | src/ghost.rs:118-128 | what is believed held is what the map says |
| `Ghosts.GhostTable.MarkSeen` | src/ghost.rs:130-152 | stamping refines the map's update, and creates nothing |
| `Ghosts.GhostTable.MarkSent` | src/ghost.rs:154-186 | a send refines the map's insertion, growing at half full |
| `Ghosts.GhostTable.Clear` | src/ghost.rs:220-226 | clearing empties the map |
| `Ghosts.GhostTable.Evict` | src/ghost.rs:188-217 | one forward pass leaves exactly the entries within grace, appends each dropped id once and nothing else, and terminates |
| `Ghosts.GhostTable.RemoveAt` | src/ghost.rs:244-269 | deletion removes exactly one entry from the map |
| `Ghosts.GhostTable.ReserveOne` | src/ghost.rs:271-281 | room for one more at or below half full, the map unchanged |
| `Ghosts.GhostTable.Rehash` | src/ghost.rs:283-295 | growth keeps every ghost |
| `Nearest.SelectNth` | src/select.rs:366-371 | the partition's cut is the order statistic: at most `k` below it, more than `k` at or below it |
| `Nearest.PickNearest` | src/select.rs:359-378 | exactly the `min(cap, n)` smallest (distance, index) pairs, ascending by index |
| `Nearest.NearestIsUnique` | src/select.rs:343-358 | no other choice is the nearest in walk order |
| `Nearest.KeptIff` | src/select.rs:343-378 | a candidate is kept if and only if fewer than the cap come before it by distance, then index |
| `Packing.PackingKeepsOrder` | src/gather.rs:44-55 | a configuration's packed distances keep the order of all pairs of positions its viewers see if and only if no position a viewer sees is 2^40 raw units squared away |
| `Packing.ReachDecides` | src/gather.rs:44-55 | order is kept when the squares of the view radius and of the top height add up below 2^40, and, for a radius below the region's side, only then |
| `Packing.FartherWins` | src/select.rs:343-378 | in a region 2048 m high, of two entities above a viewer at heights 2^20 - 1 and 2^20, a cap of one keeps the farther |
| `Select.GhostSetIsNearest` | src/select.rs:343-358 | below 2^40 nobody left out is nearer by as much as one packed unit |
| `Select.InversePower` | src/select.rs:100-107 | every band of a power curve is positive, none heavier than a nearer one, the first twenty-one at full weight |
| `Select.InverseDistanceHalves` | src/select.rs:64-85 | under the inverse-distance curve twice the separation is half the weight |
| `Select.BandFits` | src/select.rs:404-408 | the band of a 64-bit squared distance is inside the table, zero included |
| `Select.BandOfDouble` | src/select.rs:26-33 | twice the separation is two bands further out |
| `Select.ScoreOf` | src/select.rs:380-402 | a score is zero exactly when drift is; what it is otherwise, `Scoring` says |
| `Select.ScoreIsMonotone` | src/select.rs:380-402 | more drift never scores lower, nor does a smaller separation |
| `Scoring.ScoresFollowWeights` | src/select.rs:380-402 | below saturation scores at equal drift stand to each other as the weights of their bands, and one unit of drift scores the weight |
| `Scoring.ScoresFollowDrift` | src/select.rs:380-402 | and at equal separation as the drifts |
| `Scoring.SaturatesAt` | src/select.rs:380-402 | against full weight it takes 2^20 units of drift to saturate, and no less |
| `Scoring.TwiceAsFarScoresHalf` | src/select.rs:64-85 | under the inverse-distance curve, between a metre and 4096 metres, twice the separation is half the score |
| `Scoring.NearWeighsFull` | src/select.rs:100-107 | up to a metre every power curve weighs in full |
| `Scoring.FarWeighsLess` | src/select.rs:100-107 | from there, while the weight lasts, four times the separation costs a factor of two to the power of `k_halves` |
| `Scoring.NearerGoesFirst` | src/select.rs:291-326 | under the inverse-distance curve a candidate `2^k` times as far is sent first exactly when it has more than `2^k` times the drift, or as much and the smaller position |
| `Scoring.WantsSendingIff` | src/select.rs:304-316 | a candidate scores nothing if and only if the client holds it, it reads as when last sent, and that was within `refresh` ticks |
| `Scoring.StaleIsAsAStranger` | src/select.rs:304-316 | going unsent for `refresh` ticks never lowers a drift, and raises it to a stranger's and no further |
| `Select.RankRemembers` | src/select.rs:187-200 | a rank gives back its candidate index and whether the client holds a ghost of it |
| `Select.Ranking` | src/select.rs:320-326 | sorting orders a ghost set strictly and loses nobody |
| `Select.LeadingPositive` | src/select.rs:328-330 | the records are the positive-score prefix within the slots |
| `Select.SendEach` | src/select.rs:332-335 | committing the records marks each of them and nothing else |
| `Select.StampEach` | src/select.rs:336-338 | stamping the rest creates no ghost and moves no mark |
| `Select.Select` | src/select.rs:291-341 | the nearest `ghost_cap` are ranked, the positive prefix within `slots` is committed, the rest stamped, and what is past grace departs, each once |
| `Select.SelectionIsUnique` | src/select.rs:283-288 | candidates, ghosts, readings and policy settle the ghost set, the ranking and what is sent: a replay selects identically |
| `Rounds.ClientIsContained` | src/sim/world.rs:488-544 | over every lossless run a client holds nothing that is not a ghost or a pending despawn |
| `Rounds.ClientIsExact` | src/sim/world.rs:488-544 | if every serve drains its queue whole, the client holds exactly the disjoint union of ghosts and despawns due, at every step, if and only if at every serve no despawn due goes by the name of a ghost left unsent |
| `Rounds.ClientIsExactWhileApart` | src/sim/world.rs:488-544 | in particular for as long as no two entities the server keeps account of share a name |
| `Forgetting.SentIff` | src/select.rs:291-341 | a candidate is sent if and only if, before the serve, it is among the nearest `ghost_cap`, scores above zero, and fewer than `slots` of those rank before it |
| `Forgetting.KeepsGhostsIff` | src/sim/world.rs:493-500 | a client that held every ghost still does after a serve if and only if, before it, no despawn about to be drained goes by the name of a ghost that is in sight or within grace and is not about to be sent |
| `Forgetting.ClearIff` | src/sim/world.rs:488-544 | likewise, on the state before the serve, for the condition of a whole drain |
| `Forgetting.PartialDrainLosesGhost` | src/sim/world.rs:493-500 | five serves at the default grace, each a real selection under the budget below, that lose a client a ghost the server believes it holds and owes nothing for |
| `Forgetting.ReturnLosesGhost` | src/sim/world.rs:488-516 | four such serves, every queue drained whole, that lose a client an entity that returned under its old name |
| `Forgetting.SmallIsBudget` | src/budget.rs:64-87 | a client that declares 44 bytes gets a budget of one record and one despawn a packet |
| `Rounds.GhostsAreBounded` | src/select.rs:123-139 | without a tick wrap a table holds at most `(grace + 1) * ghost_cap` ghosts after a serve |
| `Serve.PayloadFits` | src/sim/world.rs:489-501 | header, despawns and records never pass the declared payload, and their counts fit their words |
| `Spacing.RoomIsUsed` | src/sim/world.rs:488-501 | a packet takes as many despawns as fit half of what the header leaves and as many records as fit the rest: neither would take one more |
| `Spacing.HasItsTurn` | src/sim/viewer.rs:143-149 | within as many ticks as its period a viewer has its turn |
| `Spacing.OneTurnEach` | src/sim/viewer.rs:143-149 | and only one, but where tick and id add up past 2^32 between two and the period does not divide that |
| `Spacing.TwoTurnsAtTheWrap` | src/sim/viewer.rs:143-149 | there a viewer due one tick in three is due on two running |
| `Spacing.NumbersDiffer` | src/sim/world.rs:501 | two packets have one number exactly when they are a multiple of 65536 packets apart |
| `Serve.BoundaryClips` | src/sim/world.rs:462-472 | the view is at the boundary exactly when its box was clipped |
| `Serve.Register` | src/sim/world.rs:1050-1074 | a client is registered if and only if its payload holds a header and a record; it then starts with nothing, due as often as it asked, under a budget every serve can rely on |
| `Serve.Viewer.Reset` | src/sim/viewer.rs:115-131 | a recycled viewer holds nothing |
| `Serve.Viewer.Subscribe` | src/sim/world.rs:455-483 | a view collision or its end is reported exactly on a cell change that makes it so, and never for a shadow |
| `Serve.GatherIsBounded` | src/gather.rs:204-258 | a gather lists each entity at most once, so never more than the rows |
| `Serve.FindCandidates` | src/sim/world.rs:485-486 | candidates are the capped nearest-first gather from the avatar through its own subscription |
| `Serve.Drain` | src/sim/world.rs:488-500 | despawns go first and take at most half of the state bytes; records get what is left |
| `Serve.Assemble` | src/sim/world.rs:488-544 | the packet is built from the drained names and the selected rows, and departures wait for the next; what those names are, `Ticking.RowIsNamed` and `Wire` say |
| `Serve.Serve` | src/sim/world.rs:435-556 | a viewer is served exactly when registered, due, alive and inside; its box is redrawn and reported, the payload fits, the ghosts and the queue move on as one round, and otherwise nothing changes |
| `Serve.RoundIsCapped` | src/select.rs:296-300 | a serve stamps no more entities than the ghost cap |
| `Serve.ClientReadsServe` | src/sim/world.rs:515-525 | the packet decodes to the names of the drained despawns and to the selected rows, each with its own name, tag and world position, in rank order |
| `Ticking.ServeIn` | src/sim/world.rs:435-556 | one viewer of a tick: served exactly when it may be, from the columns and readings of that same tick, touching nobody else |
| `Ticking.Region.Advance` | src/sim/world.rs:1106-1166 | a tick before its serves: readings move on by what the columns show, the snapshot is of exactly those columns, and both are what every viewer is served from |
| `Ticking.Region.Tick` | src/sim/world.rs:1106-1200 | a whole tick of one viewer: the step a viewer's life is made of |
| `Ticking.RowIsCurrent` | src/sim/world.rs:1148-1156 | a row of a tick's snapshot is of an entity that tick shows, where it stands, with the tag it has |
| `Ticking.RowIsNamed` | src/sim/world.rs:502-517 | and goes by the name a despawn of it would: the one it was given if it was given one, its region and id if not |
| `Replay.LastSent` | src/ghost.rs:154-186 | over any life of a viewer every ghost has a last record, and carries the reading of the tick that sent it |
| `Replay.RecordSays` | src/sim/world.rs:515-525 | a record says where its entity stood on its tick, and with what tag |
| `Replay.ZeroScoreIsCorrect` | src/select.rs:400-402 | over any life of a viewer, a ghost that scores zero stands where the last record sent of it put it, with the tag that record carried, while its path since is below 2^32 |
| `Replay.DriftBoundsDisplacement` | src/select.rs:304-316 | drift never understates how far the last record sent of a ghost is from where it stands now |
| `Replay.DriftIsPath` | src/select.rs:304-316 | until it goes stale, a ghost's drift is its entity's path since the last record sent of it, tag bumps included, while that is below 2^32 |
| `Replay.StaysWithin` | src/sim/world.rs:488-544 | over any life of a viewer what it keeps account of are ids its region's columns cover |
| `Wire.UpdateIsTrue` | src/sim/world.rs:515-525 | every record a client decodes is of an entity its region shows that tick, and says its name, its tag, and where it stands in the shared frame |
| `Wire.DespawnNamesTheRecord` | src/sim/world.rs:502-517 | the name a client decodes for a despawn is the name it decoded in the last packet that recorded that id |
| `Wire.ReceivedIsApplied` | src/packet.rs:207-303 | the bytes of a packet drop and adopt exactly the names of the ids drained and sent |
| `Wire.HoldsOnlyBelieved` | src/sim/world.rs:488-544 | over any life of a viewer, what its client holds by the packets it decoded is a ghost or a despawn it is owed |
| `Wire.HoldsExactly` | src/sim/world.rs:488-544 | if every serve drains its queue whole, it holds at all times exactly their disjoint union, if and only if no serve drops a ghost's name it does not send again |
| `Wire.RegionNamesDiffer` | src/snapshot.rs:507-510 | no two entities named by region and id share a name |
| `Packet.CodecFits` | src/codec.rs:54-60 | every configuration's position fits 128 bits |
| `Packet.PackedSum` | src/codec.rs:78-84 | or-ing shifted axes sets them side by side |
| `Packet.PackedRoundTrips` | src/codec.rs:78-108 | packing and unpacking a position in the region is the identity |
| `Packet.RecordRoundTrips` | src/codec.rs:76-109 | a record reads back as itself, whatever follows it, if and only if its position is inside the region |
| `Packet.RecordLayout` | src/codec.rs:76-109 | a record is its name, its axes side by side from the lowest bit, and its tag, least significant byte first |
| `Packet.HeaderRoundTrips` | src/packet.rs:49-91 | a header reads back as itself |
| `Packet.HeaderLayout` | src/packet.rs:49-91 | where a header's words stand |
| `Bytes.LeDigit` | src/packet.rs:49-91 | the byte at `i` of a word is its `i`th digit to base 256 |
| `Packet.PacketWriter.Build` | src/packet.rs:120-154 | the buffer, whatever it held, becomes the header with the right counts, the despawns, the records |
| `Packet.PayloadRoundTrips` | src/packet.rs:207-303 | a payload decodes to exactly its despawns and its in-region records, in order |
| `Packet.PrefixRefused` | src/packet.rs:213-220 | every strict prefix of a payload is refused |
| `Framing.Framer.Take` | src/net/edge/protocol.rs:608-637 | a message is taken exactly when it is complete, and a length past the cap is refused |
| `Framing.Framer.Push` | src/net/edge/protocol.rs:596-606 | compaction drops only what was handed out |
| `Framing.FrameIsReady` | src/net/edge/protocol.rs:589-594 | a stream opening with a frame announces its body |
| `Framing.Framer.TakeAll` | src/net/edge/server.rs:352-378 | taking until nothing is ready leaves no complete message behind |
| `Framing.ReadChunks` | src/net/edge/protocol.rs:568-637 | any chunking of framed bodies yields exactly the bodies, in order |
| `Handoff.StepKeeps` | src/sim/handoff.rs:79-132 | every atomic action of senders, drain and shutdown keeps the protocol's invariant |
| `Handoff.DeliversInOrder` | src/sim/handoff.rs:1-17 | under every interleaving a viewer is delivered a subsequence of what was sent to it, nothing empty |
| `Handoff.NeverStranded` | src/sim/handoff.rs:79-132 | a waiting payload has work flagged, a sender about to mark or flag it, or a pass that will reach it |
| `Handoff.SinkHoldsNoLock` | src/sim/handoff.rs:93-99 | no lock is held across a call into the wrapped sink |
| `Handoff.ShutdownDelivers` | src/sim/handoff.rs:168-180 | after the shutdown drain nothing waits, and the last payload stashed for each viewer is the last delivered to it |
| `WorldFrame.LocalRoundTrips` | src/pos.rs:215-236 | a local position into the world frame and back is itself |
| `WorldFrame.FrameJoins` | src/pos.rs:215-236 | what is any way apart in one region, or one step apart across a side, is as far apart in the shared frame |
| `WorldFrame.WorldMap.Place` | src/map.rs:139-153 | a placement is added exactly when its id fits and no region or square is placed twice, and the refusal says which fails first |
| `WorldFrame.WorldMap.Locate` | src/map.rs:184-200 | a world position is located exactly when some placed region's square holds it, in that region, at that place |
| `Seam.SquaresInView` | src/net/edge/seam.rs:12-52 | the squares listed are exactly those the view's cells reach into, each once |
| `Seam.ViewCrossesSeam` | src/net/edge/seam.rs:8-64 | an entity of another square within view is in a listed square, and within view of the shadow point there |
| `Seam.ShadowsCoverSeam` | src/net/edge/handle.rs:1019-1048 | what an observer sees across a seam is in the uncapped gather of its shadow there |
| `EdgeInvariant.AlikeKeeps` | src/net/edge/handle.rs:351-377 | positions and words change nothing the maps rely on |
| `EdgeSteps.AskForKeeps` | src/net/edge/handle.rs:566-620 | asking for an entity keeps every map, index and counter |
| `EdgeSteps.ForgetKeeps` | src/net/edge/handle.rs:644-671 | forgetting owes only the entity's place and its shadows |
| `EdgeSteps.ReleaseKeeps` | src/net/edge/handle.rs:622-642 | giving back strands nothing, answered for or not |
| `EdgeTeleports.BeginKeeps` | src/net/edge/handle.rs:1269-1317 | a copy under the same name, and its original waiting for it |
| `EdgeTeleports.ExpireOneKeeps` | src/net/edge/handle.rs:1333-1365 | giving a teleport up keeps the invariant |
| `EdgeCrossings.StartsIff` | src/net/edge/handle.rs:1269-1317 | a teleport starts exactly when the entity is held, not given back, not in transit, not already there and allowed: a copy in its role, under its name and client, asked for at the point, and nothing else changed |
| `EdgeCrossings.ClientStartsIff` | src/net/edge/server.rs:514-557 | a client's does so only under a handle of its own and onto the map |
| `EdgeCrossings.CrossesIff` | src/net/edge/handle.rs:1066-1095 | reaching a side starts one into the region beyond exactly when there is another, the game allows it, and the entity is no shadow, not given back and not in transit |
| `EdgeCrossings.GivenUpIff` | src/net/edge/handle.rs:1319-1366 | an entity in transit is in the list under one deadline, and a sweep gives it up and forgets its copy if and only if that has passed |
| `EdgeReports.AddedKeeps` | src/net/edge/handle.rs:941-984 | a spawn confirmed, a teleport completed, or a stranger given back keeps the invariant |
| `EdgeReports.CompletesKeeps` | src/net/edge/handle.rs:1139-1259 | the remap keeps every map, index and counter |
| `EdgeReports.OrphanKeeps` | src/net/edge/handle.rs:1141-1150 | a copy whose original is gone is given straight back |
| `EdgeReports.ViewCollisionKeeps` | src/net/edge/handle.rs:990-1048 | one shadow a region in view, each listed, the rest given back |
| `EdgeReports.ViewClearedKeeps` | src/net/edge/handle.rs:1049-1059 | every shadow of a cleared view is given back |
| `EdgeReports.RemovedKeeps` | src/net/edge/handle.rs:1096-1122 | an owner takes its shadows with it, a shadow comes off its owner's list |
| `EdgeReports.SweepKeeps` | src/net/edge/server.rs:569-584 | a sweep gives back all a client held |
| `EdgeReports.FinishKeeps` | src/net/edge/handle.rs:1373-1390 | reporting a client gone leaves nothing naming it |
| `EdgeRun.StepKeeps` | src/net/edge/server.rs:396-537 | every handler keeps the invariant |
| `EdgeRun.StepReaches` | src/net/edge/server.rs:396-537 | every enabled handler leaves a reachable state reachable, and all that follows from it |
| `EdgeRun.ReachableKeeps` | src/net/edge/handle.rs:228-266 | it holds in every reachable state |
| `EdgeRun.IdsAndKeysAgree` | src/net/edge/handle.rs:228-232 | in every reachable state ids and keys are mutual inverses |
| `EdgeRun.HandlesAreExact` | src/net/edge/handle.rs:117-134 | a handle names an entity if and only if it is that client's under that handle; everything a client owns is in its keys |
| `EdgeRun.CountersAreTrue` | src/net/edge/handle.rs:89-105 | the observer and shadow counters are the true counts |
| `EdgeRun.NoMoveForGivenBack` | src/net/edge/handle.rs:622-642 | no queued move names an entity given back |
| `EdgeRun.NothingStranded` | src/net/edge/handle.rs:941-963 | every entity announced and not reported removed is held by its id or has had a despawn queued |
| `EdgeRun.NamesAreShared` | src/net/edge/handle.rs:527-538 | two entities share a name only while one is the in-flight copy of the other |
| `EdgeRun.NoShadowOrphaned` | src/net/edge/handle.rs:543-561 | each shadow not given back has a held owner that lists it, one to a region |
| `EdgeRun.ReportedGoneOnce` | src/net/edge/handle.rs:1368-1390 | `disconnected` fires at most once for a client, and from then on no entity names it |
| `EdgeReturns.MarkedIffReturned` | src/net/edge/handle.rs:622-642 | in every reachable state an entity its region knows is marked given back if and only if its despawn has been queued |
| `EdgeReturns.FreedIsReturned` | src/net/edge/handle.rs:622-642 | after a despawn, a sweep, a view cleared or moved on, an owner gone or a teleport completed, each entity to give back has its despawn queued, or is in no map if its region never answered |
| `EdgeReturns.StrangerIsReturned` | src/net/edge/handle.rs:941-984 | an arrival nobody waits for, or whose original is gone, is despawned where it arrived |
| `EdgeReturns.UnansweredIsStruck` | src/net/edge/handle.rs:644-671 | given back unanswered, an entity leaves its client's keys and its handle is free |
| `EdgeReturns.SweptIsDismissed` | src/net/edge/server.rs:569-584 | a swept client is reported, or is leaving with something still to come back |
| `EdgeReturns.GoneIsForgotten` | src/net/edge/handle.rs:1096-1122 | what a region reports gone is in no map, key set or list, and a leaving client it was the last of is reported |
| `EdgeReturns.ClientIsNew` | src/net/edge/server.rs:290-304 | the next client to connect has never been, is not reported gone, and owns nothing |
| `EdgeAsked.AskedForOnce` | src/net/edge/handle.rs:566-620 | in every reachable state the spawns queued are one for each key minted, in order, and every entity held is in the region, role and name it was asked for |
| `EdgeCrossings.GameEnters` | src/net/edge/handle.rs:755-810 | a game's spawn holds one more entity, as asked, and queues its spawn with where it is to stand |
| `EdgeCrossings.ClientEntersIff` | src/net/edge/server.rs:403-457 | a client's spawn does so unless it is of a shadow, under a handle in use, or off the map, when nothing changes |
| `EdgeWords.CompletionKeepsIdentity` | src/net/edge/handle.rs:1124-1200 | a completed teleport keeps name, handle, role and client, leaves nobody else under that name, and takes the original's key from its client |
| `EdgeWords.CompletionIs` | src/net/edge/handle.rs:1202-1229 | what the destination is told is the standing word, then those held, in order and once |
| `EdgeWords.RemapOnlyDespawns` | src/net/edge/handle.rs:1177-1200 | nothing but despawns is queued before those words |
| `EdgeWords.TimeoutKeepsIdentity` | src/net/edge/handle.rs:1333-1365 | in every state that keeps the invariant, a teleport given up leaves one entity under the name, and hands what was held to its region, in order and once, if its id is known |
| `EdgeTransit.StepStill` | src/net/edge/server.rs:484-513 | no handler but its client's word changes what an entity in transit has been told |
| `EdgeTransit.TransitHoldsEveryWord` | src/net/edge/server.rs:484-513 | over any run an entity in transit has been told exactly what its client said, each word once and in order |
| `EdgeTransit.TeleportForwardsEveryWord` | src/net/edge/handle.rs:1210-1224 | from start to completion a teleport forwards the standing word and then every word said meanwhile, each once and in order |
| `EdgeCrossings.WordReaches` | src/net/edge/server.rs:484-513 | a word is held behind those held if its entity is in transit, and otherwise remembered and told to its region, after all it was told, if that knows it |
| `EdgeMoves.LatestWins` | src/net/edge/handle.rs:351-377 | after a batch an entity is bound for the last position of it that fits its region's frame, or holds the last if in transit; one not named is left as it was |
| `EdgeMoves.AnswerQueues` | src/net/edge/handle.rs:941-984 | a position kept for an unanswered entity is queued when its region answers |
| `EdgeMoves.LandingQueues` | src/net/edge/handle.rs:1202-1229 | a copy that lands is bound for where its original was last told to go, if its new frame can express that, and otherwise for where it was told itself |
| `EdgeMoves.TimeoutQueues` | src/net/edge/handle.rs:1333-1365 | a teleport given up binds the entity that stayed for the position held |
| `EdgeTracks.StepKin` | src/net/edge/server.rs:396-537 | no handler but its own announcement changes the region or id of a held entity, or what it is a copy of |
| `EdgeTold.InFlightIsListed` | src/net/edge/handle.rs:1269-1366 | in every reachable state an entity in transit has its entry in the transits, and its copy, if still asked for, is of it and unanswered |
| `EdgeTold.ExpireAllTells` | src/net/edge/handle.rs:1319-1366 | a sweep tells an entity's place exactly what was held for it if its teleport is due, and nothing if not, whatever else is due |
| `EdgeTold.TimeoutReturnsEveryWord` | src/net/edge/handle.rs:1319-1366 | from start to a sweep past the deadline, what the origin is told of the entity at the sweep is every word said meanwhile, each once and in order, whatever else is due |
| `EdgeTold.OriginHearsNothing` | src/net/edge/server.rs:484-513 | from start to completion the origin is told nothing of the entity, so no word goes to both |
| `EdgeViews.ReachedFrom` | src/net/edge/handle.rs:996-1031 | what a view reaches is exactly the placed regions its cells reach into, each once, with the point its shadow stands at |
| `EdgeViews.ViewIsShadowed` | src/net/edge/handle.rs:990-1048 | after a view report the observer lists one shadow a region reached, in order, each moved to its point, to be moved there once answered, or asked for there, unless already given back |
| `EdgeViews.ShadowsAreKept` | src/net/edge/handle.rs:1019-1048 | a shadow already in a region reached is the one kept there; only where there is none is another asked for |
| `EdgeViews.ViewReportCovers` | src/net/edge/handle.rs:990-1048 | so for an entity of another region within the observer's view a shadow is listed, bound for a point whose uncapped gather finds that entity |
| `Edge.Shared.GameSpawn` | src/net/edge/handle.rs:755-810 | a game's spawn asks for an entity under a fresh key; the edge stays one that some run of handlers leads to, so all that holds of every reachable state holds of the object |
| `Edge.Shared.ClientSpawn` | src/net/edge/server.rs:403-457 | a client's spawn is refused under a handle it already uses or off the map, and otherwise asked for; the edge stays reachable |
| `Edge.Shared.GameDespawn` | src/net/edge/handle.rs:831-837 | an entity the game gives back has its despawn queued, or is in no map if unanswered; the edge stays reachable |
| `Edge.Shared.ClientDespawn` | src/net/edge/server.rs:477-480 | so has one its client gives back under a handle it holds; the edge stays reachable |
| `Edge.Shared.ClientTeleport` | src/net/edge/server.rs:514-557 | a client's teleport starts only under a handle it holds and onto the map; the edge stays reachable |
| `Edge.Shared.AskFor` | src/net/edge/handle.rs:566-620 | asks under the next key and indexes it by name, handle and client; the object's fields become those of the specified step |
| `Edge.Shared.Forget` | src/net/edge/handle.rs:644-671 | likewise, forgetting |
| `Edge.Shared.Release` | src/net/edge/handle.rs:622-642 | likewise, giving back |
| `Edge.Shared.SetPositions` | src/net/edge/handle.rs:468-491 | a batch under one lock queues what one position at a time would |
| `Edge.Shared.SetWorldPositions` | src/net/edge/handle.rs:351-377 | likewise for world positions, those in transit held; the edge stays reachable |
| `Edge.Shared.EntityMessage` | src/net/edge/server.rs:484-513 | a word is held in transit, and otherwise forwarded and remembered; the edge stays reachable |
| `Edge.Shared.BeginTeleport` | src/net/edge/handle.rs:1269-1317 | a teleport starts exactly when the entity is held, not given back, not in transit, not already there and allowed |
| `Edge.Shared.CompleteTeleport` | src/net/edge/handle.rs:1128-1259 | the remap, field by field |
| `Edge.Shared.ExpireTransitions` | src/net/edge/handle.rs:1319-1366 | every teleport past its deadline is given up, oldest first; the edge stays reachable |
| `Edge.Shared.OnAdded` | src/net/edge/handle.rs:941-984 | an answer its region owes: a spawn confirmed, a teleport completed with what it leaves given back, or a stranger given back; the edge stays reachable |
| `Edge.Shared.OnViewCollision` | src/net/edge/handle.rs:990-1048 | shadows are moved and asked for in the regions reached, and given back elsewhere; the edge stays reachable |
| `Edge.Shared.OnViewCleared` | src/net/edge/handle.rs:1049-1059 | every shadow of the view is given back, its despawn queued; the edge stays reachable |
| `Edge.Shared.OnBoundaryCollision` | src/net/edge/handle.rs:1066-1095 | a crossing begins only beyond a placed side, and never for a shadow; the edge stays reachable |
| `Edge.Shared.OnRemoved` | src/net/edge/handle.rs:1096-1122 | an owner's shadows are given back with it, a shadow comes off its owner's list; the edge stays reachable |
| `Edge.Shared.Sweep` | src/net/edge/server.rs:569-584 | everything a client had is given back, in whatever order; the edge stays reachable |
| `Edge.Shared.FinishLeaving` | src/net/edge/handle.rs:1373-1390 | `disconnected` fires only for a leaving client that owns nothing |

## Left out

Hypotheses the code needs and the model carries as preconditions:

- Ghost ids differ from the empty marker, the ghost cap is at least one, and a table's slots fit 32 bits.
- Every live id is below the array length, and a snapshot holds fewer rows than a flagged index can name.
- Positions are in the region wherever they are scored or encoded; `positions_mut` lets a game break that, and a cell key clamps what is outside.
- A configuration's cells per axis are below 2^16 (part of `WorldConfig.Valid`; `Config.BuildIsValid` says exactly when `build` meets it, `Config.WideGridOverflows` when it does not).
- `Rounds`, `Forgetting`, `Replay` and `Wire` speak of a client that receives every packet in order.
- An id that has departed is never spawned again, as in `Stepping.World`, and the name column keeps its entries once a record can carry them: the session names an entity as it spawns it.
- Game callbacks are decisions made outside, and each edge handler runs to its end before the next.
- A region answers a token once, from the region asked, with an id it never used; spawns name a connected client.

Modelled differently from the source:

- Arithmetic that overflows wraps, as an optimised build does; an unoptimised one would panic.
- The snapshot's six parallel columns are one array of rows, and `update` and `subdivide` share their three counting passes.
- The marker of an undivided cell is a constructor, the order table has one row an origin instead of one flat array, and cursors and scratch are allocated where they are used.
- `select_nth_unstable` and the unstable sorts are a verified stable sort; partition by binary search is a scan.
- `LiveSet` hands its ids over as a list; the step and the frame hold them as sets.
- `Odometer.Meter.Tick`: tag bumps are proved for a positive `unseen_drift`; with a bump of zero a tag change alone is never sent.
- Mutex poisoning, and a sink that panics and takes the I/O thread with it, are not part of the handoff.
- Observers are uncounted where a teleport's original leaves the maps rather than at the end of the same handler.

Not modelled:

- `EdgeRun.ReportedGoneOnce`: nothing says `disconnected` eventually fires. A shadow's removal returns before `finish_leaving`, and a completed teleport without a handle leaves the old key in its client's keys.
- `EdgeWords.CompletionKeepsIdentity`: a despawn in transit does not cancel the copy, because completion never reads whether the original was given back.
- `GatherExact.RangesAscend`: a divided cell as a whole is not ascending by id, only each sub-cell.
- What clients are posted, the relay of packets, `told`, `teleport_state`, the off-map, wall, crossing and timeout counters, and statistics.
- The mint's prefixes and the map's own byte form.
- `Ticking.Region.Tick`: the loop over viewers; each is one `Ticking.ServeIn` from the same frame, which writes that viewer and its writer only.
- NATS, QUIC, tokio tasks, heartbeats, pacing and worker threads.
- Buffer reuse, cache alignment, the shared order-table cache, display and debug forms, `Fixed` operators, the protocol hash.
- The client's table of who is sending what, and the region protocol's own messages.
- That every transit resolves, and that no entity is starved: the code promises neither.
