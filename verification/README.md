# Verification model

A Dafny model of the scene tools and the evidence gate of the simulation repository, with proofs of what
they keep over every input and every run. It is checked with `dafny verify dfyconfig.toml`.

- **Tabletop packer and spawn reconciler.** `SurfaceLayout.dfy`, `PackingLaws.dfy` and `Layout.dfy` model the
  packing of footprints onto a measured surface: the lattice search, the row and column blocks, the greedy
  fallback, and the class that holds the reservations; `PackingOrder.dfy` says which place is taken. `Spawn.dfy` specifies a run of `apply` over a manifest and a
  `clear`, each killed after any item or not. `SpawnLaws.dfy` has the laws of one run, `SpawnRecords.dfy` and
  `SpawnCounts.dfy` what it records and decides, said without its lists and counters, `SpawnResume.dfy` of runs
  resumed after outages and kills, `SpawnRefusals.dfy` and `SpawnTight.dfy` of what refusals for room do to them,
  `SpawnFailures.dfy` and `SpawnIds.dfy` of re-runs after failures, `SpawnClear.dfy` of clearing; `SpawnSafety.dfy`
  and `SpawnRooms.dfy` prove what whole histories keep, and when. `SpawnMethods.dfy` is the loop itself with its
  counters, queues and snapshots, proved to compute the specification. `EmitScenario.dfy`, `EmitRecords.dfy` and
  `EmitMethods.dfy` do the same for the merging of plans into a scenario.
- **Protocols.** `Reset.dfy`, `ResetRun.dfy` and `ResetLog.dfy` model the per-trial reset against an arbitrary
  client with a recorded trace of every call, and the log of trial starts. `Presend.dfy` models who can cancel the
  pre-sent motion goal at every step of a driver run. `Requests.dfy` models the two pollers that keep one service
  request in flight.
- **Evidence.** `Capture.dfy`, `CaptureLaws.dfy` and `CaptureMethods.dfy` model the fail-closed join of keyframes,
  requests and truth streams, `CaptureExact.dfy` says when it leaves nothing open, and `CaptureExample.dfy` has a
  suite; `EvidenceIndex.dfy`, `EvidenceIndexLaws.dfy`, `EvidenceRecords.dfy` and `EvidenceIndexMethods.dfy` model the
  index, its integrity check and the summary cycle.
- **Small algorithms.** `PoseAudit.dfy` (slab test, box distance, standing poses), `FrameSink.dfy` (frame limiter),
  `Sampling.dfy` (even sampling). `Geometry.dfy` holds the shared plane geometry and rounding.

Conventions. Numbers are exact reals; where the code compares `hypot` values, squares are compared. The sort key's
rounded distance is modelled exactly, by an integer search on squares. The simulator, the reset client and the
services are adversaries: their answers are arbitrary, and a Python `Counter` is a `multiset`. Exceptions are result
values. Poses carry yaw in degrees. A hash is a constructor, so equal digests mean equal contents.

Where the code and its comments differ the model follows the code: `apply_plan` speaks of a 4 cm margin and an 8 cm
gap while the constants are 0.02 and 0.06, and `emit_scenario` describes an older grid placement.

Properties that are false as one would first state them, with what holds instead:

- Resuming after an outage is not always the same as not having been interrupted: packing the rest alone can refuse
  what one batch would have placed (`ResumingCanRefuse`). It is the same if and only if the resumed run refuses nothing
  for room (`FinishesExactly`, `ResumesExactly`), and it starts with the interrupted item if and only if that is not
  refused (`FirstCall`).
- A re-run after ordinary failures converges on counts, not on ids (`CountsConvergeIdsDoNot`); it retries exactly the
  items that failed or were refused if and only if none of them is followed by a success of its group
  (`RerunRetriesExactlyFailures`), and records each of different ids once if moreover it refuses nothing, and only then
  (`IdsConverge`).
- Cleared records stay ok and count as present (`ClearedStillCounts`).
- A killed clear forgets the ok records it has not reached; it keeps them all if and only if there are none
  (`KilledClearForgets`, `KilledClearCounts`).
- A person in a room named like a measured spot is recorded there unpacked; histories are safe if and only if no item
  without a measured spot has such a room (`RoomsDecideSafety`).
- A request can go without an image in its own directory when numbers are shared (`SharedNumbersHide`); it cannot if
  and only if the shared numbers have images there (`RequestsHaveImages`).
- A requested time that is not a number passes the time check (`NotANumberAgrees`); `TimeCheck` says what passes.
- A fresh index does not pass everywhere it can be written; `FreshIndexPasses` says exactly where.
- The checksum cycle closes only if the summary is written in the suite under the name of a summary, and the suite had
  none before (`CycleCloses`). A summary under another name or outside the suite is never checked (`CycleAccepted`).
- A sent goal is not always named by a cancel request before exit: the cancel service may be unavailable, and then the
  id is forgotten (`CleanupRetained`); `Run` says exactly when one leaves.
- Starts of an unknown session are compared with nothing (`UnknownSessionsDrift`, `LogPasses`).
- The frame limiter is not always optimal for stamps out of order (`OutOfOrderLoses`); it is on every part of a list
  if and only if no stamp blocks (`OptimalExactlyUnblocked`).
- The slab test is true without a parameter in range for a negative range and a flat direction (`RayHitsBox`).

## Model

| member | source | states |
|---|---|---|
| `PackingLaws.SortByKeyLaw` | tools/gpsr_scene.py:199 | sorting the candidates by the (rounded distance, x, y) key gives an ordered list with the same points |
| `PackingLaws.FullAxisExact` | tools/gpsr_scene.py:185-195 | with the start inside the range, the values tried on one axis are exactly the lattice points start + k*step of the range |
| `PackingLaws.AxisTried` | tools/gpsr_scene.py:185-195 | wherever the start lies, the values tried on an axis are the nearest one in range and the in-range ones of as many rings around the start as steps fit into the range, and one more |
| `PackingLaws.CandidateMember` | tools/gpsr_scene.py:178-199 | a point is a candidate exactly when the range is not empty and both coordinates are tried values of their axis |
| `PackingLaws.SpotsAreTheLattice` | tools/gpsr_scene.py:156-199 | for a surface centre in range, the candidate centres are exactly the lattice points at which the footprint stays on the surface |
| `PackingLaws.PlaceLeast` | tools/gpsr_scene.py:156-176 | refused if and only if no candidate is clear; otherwise the chosen candidate is clear and least in the sort order, of which `PackingOrder` says what it prefers |
| `PackingLaws.PlaceComplete` | tools/gpsr_scene.py:156-199 | the same over all lattice points when the centre is in range: refusal is a complete search, the choice is the least clear point (`NearestOnLattice` says which that is) |
| `PackingOrder.PlaceNearest` | tools/gpsr_scene.py:156-199 | refused exactly if no tried point is free; otherwise the free point whose rounded distance from the surface point is least, ties by the rounded vertical distance, dx, dy - so no free point is nearer by more than a micrometre |
| `PackingOrder.NearestOnLattice` | tools/gpsr_scene.py:156-199 | the same over all lattice points at which the footprint stays on the surface, if it does so at the surface point |
| `PackingOrder.CentreIfClear` | tools/gpsr_scene.py:156-199 | so a footprint goes to the surface point itself while that is clear, as it is on an empty surface |
| `PackingLaws.PlaceSound` | tools/gpsr_scene.py:139-176 | a placed footprint is inside the usable rectangle up to 1e-9 and at least the gap away from everything registered |
| `PackingLaws.RefusalIsStable` | tools/gpsr_scene.py:156-176 | a refused footprint stays refused however the surface fills up |
| `PackingLaws.StartIsPrefixSum` | tools/gpsr_scene.py:231-240 | the accumulated start of a column or row is the sum of the extents before it plus that many gaps |
| `PackingLaws.BandsInOrder` | tools/gpsr_scene.py:231-240 | a later band starts at least one gap after an earlier one ends |
| `PackingLaws.CellIndicesAreDivMod` | tools/gpsr_scene.py:224-245 | row and column of the i-th item are its quotient and remainder by the number of columns |
| `PackingLaws.CellsApart` | tools/gpsr_scene.py:224-249 | any two footprints of one block are a full gap apart, which the code never tests |
| `PackingLaws.CellWithin` | tools/gpsr_scene.py:224-249 | every footprint of a block at an origin in range is inside the usable rectangle, which the code never tests |
| `PackingLaws.BlockChoice` | tools/gpsr_scene.py:223-249 | the origin taken for a number of columns is free and least in the sort order (`BlockNearest` says what that means); none is taken only if none is free |
| `PackingOrder.BlockNearest` | tools/gpsr_scene.py:223-249 | the origin taken for a number of columns is free, and no free one brings the block nearer to centred by more than a micrometre; none is taken exactly if none is free |
| `PackingOrder.OriginsAreTheLattice` | tools/gpsr_scene.py:223-249 | if the block can be centred, the origins tried are the lattice points around that origin at which it stays on the surface |
| `PackingOrder.BandsAreTight` | tools/gpsr_scene.py:222-227 | a column is as wide as its widest footprint and a row as high as its tallest |
| `PackingOrder.BlockLaw` | tools/gpsr_scene.py:224-249 | a block is as large as its columns, rows and gaps; each footprint is in the middle of its column and row; an origin can be taken exactly if it is tried, the block fits and every footprint is clear there |
| `PackingOrder.CentredIfClear` | tools/gpsr_scene.py:223-249 | a block that can be centred and is clear there is centred |
| `PackingOrder.EmptyBatchCentred` | tools/gpsr_scene.py:201-249 | on an empty surface a batch whose widest fitting block can be centred is laid out as that block, centred |
| `PackingLaws.PackAllChoice` | tools/gpsr_scene.py:201-250 | a batch is laid out in a free block with the most columns that has one, else greedily left to right |
| `PackingOrder.PlacedInTurn` | tools/gpsr_scene.py:250 | in the greedy fallback each item is placed as if alone, after those before it in the list |
| `PackingOrder.ReservedForBatch` | tools/gpsr_scene.py:247-250 | what is reserved for a batch is the footprint of everything that was granted a centre, in order, and nothing else |
| `PackingOrder.ReportedIsNearest` | tools/gpsr_scene.py:176 | centres are reported in ten-thousandths: the nearest, or the even one of two |
| `PackingLaws.PackAllSound` | tools/gpsr_scene.py:201-250 | whichever branch is taken, each placed item is inside, clear of what was there and clear of every other item of the batch |
| `Layout.AxisValues` | tools/gpsr_scene.py:185-195 | the loop over rings of the axis yields exactly the values of the specification, in its order |
| `Layout.Middles` | tools/gpsr_scene.py:231-240 | the accumulating loop yields the centre of every column or row |
| `Layout.SurfaceLayout.constructor` | tools/gpsr_scene.py:112-128 | a new layout reserves nothing; its usable rectangle is the box shrunk by the margin |
| `Layout.SurfaceLayout.Occupy` | tools/gpsr_scene.py:135-137 | registers one given footprint and keeps the packing invariant |
| `Layout.SurfaceLayout.IsClear` | tools/gpsr_scene.py:139-145 | true if and only if the rectangle is a gap away on some axis from everything registered |
| `Layout.SurfaceLayout.Fits` | tools/gpsr_scene.py:147-154 | true if and only if inside up to 1e-9 and clear |
| `Layout.SurfaceLayout.Place` | tools/gpsr_scene.py:156-176 | reserves and returns (rounded) the least clear candidate or refuses; every footprint not given by Occupy stays inside and a gap away from all registered before it |
| `Layout.SurfaceLayout.PlaceAll` | tools/gpsr_scene.py:201-250 | reserves the batch where the choice above puts it, returns it rounded, and keeps the same invariant over any sequence of calls |
| `Layout.SurfaceLayout.FindBlock` | tools/gpsr_scene.py:223-249 | the columns loop finds the block with the most columns that has a free origin, if any |
| `Layout.SurfaceLayout.FreeOrigin` | tools/gpsr_scene.py:224-249 | the first origin, in candidate order, at which every footprint of the block is clear |
| `Layout.SurfaceLayout.PlaceOneByOne` | tools/gpsr_scene.py:250 | the fallback places and reserves the items one after the other |
| `SpawnMethods.NearestSpotOrRoom` | tools/gpsr_spawn.py:122-148 | returns a spot or room of least distance, the first of them in the table; none for an empty table |
| `SpawnMethods.NearestIsFirst` | tools/gpsr_spawn.py:122-148 | what the base counts call nearest is at least distance, and every place before it is strictly farther |
| `SpawnMethods.BaseScenarioCounts` | tools/gpsr_spawn.py:151-183 | the counter of base records per (asset, place) |
| `SpawnCounts.TableLaw` | tools/gpsr_spawn.py:122-148 | the table that nearest is looked up in holds every measured spot with its surface point, then every room, and nothing else |
| `SpawnCounts.NearestLaw` | tools/gpsr_spawn.py:122-148 | a base record is counted at a place exactly if an entry of that name is at least distance, all entries before it being farther |
| `SpawnCounts.BaseCount` | tools/gpsr_spawn.py:151-183 | the base count of a group is the number of base actors plus that of base objects of its asset nearest to its place |
| `SpawnCounts.ExistingCount` | tools/gpsr_spawn.py:305-319 | what exists of a group is that number plus the number of its ok records |
| `SpawnCounts.SkipCount` | tools/gpsr_spawn.py:329-337 | an item is skipped exactly if fewer items of its group precede it in the plan than base and ok records of the group exist |
| `SpawnCounts.SeedLaw` | tools/gpsr_spawn.py:201-220 | on a spot there is, before a batch, exactly each base object nearest to it and each ok record there, with the footprint of its asset |
| `SpawnCounts.BatchLaw` | tools/gpsr_spawn.py:328-345 | a batch is, in plan order, exactly the items for that measured spot which are not skipped, with their footprints |
| `SpawnCounts.FootprintIs` | tools/gpsr_scene.py:58-91 | an asset has the footprint it is tabled with, and 10 cm by 10 cm if it has none |
| `SpawnCounts.SentWhere` | tools/gpsr_spawn.py:374-408 | an item not skipped is sent as it is without a measured spot; otherwise its batch decides: refused without a centre, else sent to the rounded centre at the height of the spot |
| `SpawnMethods.SeedLayout` | tools/gpsr_spawn.py:201-220 | a layout reserves exactly the base objects and the earlier ok entities at its spot |
| `SpawnMethods.GatherPerSpot` | tools/gpsr_spawn.py:328-339 | the planning pass lists, per spot, exactly the items the spawn pass will not skip |
| `SpawnMethods.PlanSpots` | tools/gpsr_spawn.py:340-345 | every listed item gets the rounded centre its spot's batch gives it |
| `SpawnMethods.DropByTag` | tools/gpsr_spawn.py:347-362 | deleting the head of a group's queue by identity removes the first failed record of that group |
| `SpawnMethods.ReplaceStale` | tools/gpsr_spawn.py:347-362 | at most one record goes, a failed one of the group of the fresh attempt; the queues stay in step with the records |
| `SpawnMethods.SpawnOne` | tools/gpsr_spawn.py:374-445 | one item: the state moves as the specification steps and one snapshot is emitted |
| `SpawnMethods.ApplyPlan` | tools/gpsr_spawn.py:253-446 | the imperative run returns the manifest of the specification, sends exactly its calls, and emits one snapshot per item equal to the state after that item |
| `SpawnLaws.DropFailedLaw` | tools/gpsr_spawn.py:347-362 | dropping a stale record leaves all ok records and removes one failed record of the group, if there is one |
| `SpawnLaws.SnapshotPartition` | tools/gpsr_spawn.py:368-446 | after p items the ids of the fresh records, the skipped and the not attempted items are those of the first p items, each once |
| `SpawnLaws.FreshRecords` | tools/gpsr_spawn.py:374-445 | every fresh record belongs to one item in plan order, sent where it was planned, and records the answer to its own call |
| `SpawnRecords.RecordedFields` | tools/gpsr_spawn.py:381-445 | field by field: fresh record k is of the k-th item sent, with its id and asset, its spot or else room, the point sent, and no clearing mark; its name is the one reported if and only if call k spawned it, else the path of its id; it is ok if and only if call k spawned it or found it existing |
| `SpawnRecords.ListsSayWhy` | tools/gpsr_spawn.py:374-395 | every item listed as skipped was decided so, under its place; every item listed as not attempted comes after the service went down, and otherwise was refused for room at its place |
| `SpawnRecords.ManifestIs` | tools/gpsr_spawn.py:364-446 | what is written, in the end or when killed, is the earlier records kept, then the fresh ones in order, and the two lists |
| `SpawnRecords.FirstStaleDropped` | tools/gpsr_spawn.py:347-362 | what an attempt drops is exactly the first failed record of its group, nothing if there is none |
| `SpawnLaws.NoCallAfterOutage` | tools/gpsr_spawn.py:381-422 | the down flag is set exactly by an unavailable last call, and no call follows one |
| `SpawnLaws.EarlierRecordsKept` | tools/gpsr_spawn.py:347-362 | in every snapshot all earlier ok records are kept in order, and each attempt costs at most one failed record of its group |
| `SpawnLaws.NeedsAreTheExcess` | tools/gpsr_spawn.py:329-337 | per group, the items not skipped number exactly the plan's excess over what exists |
| `SpawnLaws.FreshMeetsNeeds` | tools/gpsr_spawn.py:364-445 | while nothing is left unattempted, the fresh records are one per needed item, in order: both passes skip the same items |
| `SpawnLaws.TargetReached` | tools/gpsr_spawn.py:305-446 | if every needed item ends ok, base plus ok records per group are the larger of what existed and what is wanted |
| `SpawnLaws.SecondRunIsIdle` | tools/gpsr_spawn.py:305-446 | a second run after a complete one sends nothing and leaves the entities unchanged, whatever the simulator would answer |
| `SpawnResume.SkipsShift` | tools/gpsr_spawn.py:329-337 | a re-run skips exactly what the earlier runs have spawned and decides the rest as the first run did |
| `SpawnResume.ReRun` | tools/gpsr_spawn.py:305-446 | after an outage at an item, a re-run that meets nothing but outages - no call fails otherwise, and nothing is refused for room as far as it gets - first attempts exactly that item and moves on to the next outage, leaving at most one new failed record |
| `SpawnResume.ReRunKilled` | tools/gpsr_spawn.py:305-446 | the same for such a re-run killed after any number of items: what it sends starts with that item, and the snapshot it leaves is again one to resume from |
| `SpawnResume.HistoryReaches` | tools/gpsr_spawn.py:305-446 | after any number of such runs over any manifest, each stopped by an outage or killed after any item, the ok records are the earlier ones and those of the plan's needs up to some item; the failed ones are the earlier ones less one of its group per attempt, and at most the one where it stopped |
| `SpawnResume.ReachedFromClean` | tools/gpsr_spawn.py:347-362 | over a manifest without failed records, the only failed one left is that of the item where it stopped |
| `SpawnResume.ResumeEqualsUninterrupted` | tools/gpsr_spawn.py:305-446 | whatever runs met an outage or were killed between items, if no run refuses an item for room as far as it gets, then once one runs to the end the records carry the same ids and groups in the same order as one uninterrupted run, each once, and as many failed records per group are left - none if there were none before |
| `SpawnRefusals.FirstCall` | tools/gpsr_spawn.py:305-446 | whatever is answered, the first call of a re-run is for the item where the earlier runs stopped if and only if its planning pass has room for that item |
| `SpawnRefusals.FinishesExactly` | tools/gpsr_spawn.py:305-446 | from a manifest interrupted runs left, a run whose calls all succeed records exactly what the plan needs if and only if its planning pass, before any call, refuses nothing |
| `SpawnRefusals.ResumesExactly` | tools/gpsr_spawn.py:305-446 | if the uninterrupted run refuses nothing, the resumed one ends with its records if and only if it refuses nothing either |
| `SpawnTight.ResumingCanRefuse` | tools/gpsr_scene.py:185-250 | two bananas on a surface of 0.278 x 0.178: one run places both, but after an outage at the second call every further run, killed or not, refuses it and changes nothing |
| `SpawnFailures.RerunRetriesExactlyFailures` | tools/gpsr_spawn.py:318-337 | a re-run attempts exactly the items that were not spawned if and only if none of them is followed by a spawned one of the same group |
| `SpawnFailures.ExistingAfterRun` | tools/gpsr_spawn.py:305-319 | without an outage - calls may fail, items may be refused - the counts a re-run starts from are the earlier ones plus the successful calls |
| `SpawnFailures.RerunAfterFailures` | tools/gpsr_spawn.py:305-446 | the same equivalence for the decisions of an actual run without an outage and its re-run |
| `SpawnFailures.CountsConvergeIdsDoNot` | tools/gpsr_spawn.py:318-337 | two equal items of which the first fails: after the re-run the counts are right, yet the second id is recorded twice and the first never |
| `SpawnIds.IdsConverge` | tools/gpsr_spawn.py:305-446 | for needed items with different ids and a first run without an outage, after a re-run whose calls all succeed each needed id is recorded exactly once if and only if no failed call or refused item of the first run was followed by a success of its group, and the re-run refuses nothing |
| `SpawnSafety.ApplyKeepsSafe` | tools/gpsr_spawn.py:318-408 | unless an unplaced item has a room named like a measured spot, one run keeps all ok on-spot records inside the usable surface and at least gap - 1e-4 apart, and gap - 5e-5 from base objects, despite the rounding |
| `SpawnSafety.SnapshotsAreSafe` | tools/gpsr_spawn.py:368-446 | under the same condition this holds for every snapshot written on the way, so for what a run killed after any item leaves |
| `SpawnClear.ClearKeepsRecords` | tools/gpsr_spawn.py:477-493 | clearing keeps every record in place: a failed one untouched, an ok one still ok and marked with the last answer to its own delete |
| `SpawnClear.ClearCalls` | tools/gpsr_spawn.py:477-506 | the deletes sent for a record are none if it had failed, else one, and a second of the same name exactly after a timeout; those of the records follow each other in order |
| `SpawnRecords.ClearAfterRun` | tools/gpsr_spawn.py:443-493 | a clear after a run asks to delete exactly the names reported by its calls, the paths of what they found existing, and the names of the earlier ok records |
| `SpawnClear.ClearedStillCounts` | tools/gpsr_spawn.py:312-314 | after a complete clear the cleared records still count as present, so nothing cleared is spawned again |
| `SpawnClear.KilledClearForgets` | tools/gpsr_spawn.py:470-493 | a clear killed after p entities keeps all ok records if and only if none lies at or after p; the others are forgotten while their entities remain |
| `SpawnClear.KilledClearCounts` | tools/gpsr_spawn.py:470-493 | and the counts a later run starts from are unchanged under exactly the same condition |
| `SpawnSafety.HistoriesAreSafe` | tools/gpsr_spawn.py:253-493 | every manifest reachable from an empty one by any runs of such plans and any clears, each killed after any item or not, with any answers, is safe in that sense |
| `SpawnRooms.RoomsDecideSafety` | tools/gpsr_spawn.py:374-394 | all histories over plans drawn from a set of items are safe if and only if no item of the set without a measured spot has a room named like one |
| `SpawnMethods.DeleteWithOneRetry` | tools/gpsr_spawn.py:496-506 | one delete, a second one exactly after a timeout, and the last answer |
| `SpawnMethods.ClearManifest` | tools/gpsr_spawn.py:449-493 | the loop returns the cleared records, makes exactly those calls and emits a snapshot per record; other fields pass through |
| `EmitScenario.BestIsLongest` | tools/gpsr_spawn.py:531-540 | the winning group is at least as long as any plan's and is one of them |
| `EmitScenario.OrderLaw` | tools/gpsr_spawn.py:531-540 | the merge visits each group with items exactly once |
| `EmitScenario.MergeTarget` | tools/gpsr_spawn.py:528-579 | per group, appended plus refused items number max(0, largest count in any one plan - base count) |
| `EmitScenario.MergeOrderFree` | tools/gpsr_spawn.py:531-548 | that number depends only on which plans there are, not on their order or multiplicity |
| `EmitScenario.BaseComesFirst` | tools/gpsr_spawn.py:528-579 | the base records are untouched and come first in the merged lists |
| `EmitRecords.MergedStandsForItems` | tools/gpsr_spawn.py:528-579 | the actors beyond the base are exactly the records of the items beyond the base of those groups led by a person, the objects those of the other groups: each with the item's id at its place, its asset, and its own position off a measured spot, else the rounded centre its batch gave it at the height of the spot |
| `EmitRecords.RefusedExactly` | tools/gpsr_spawn.py:549-579 | an item is refused exactly if it is beyond the base and its batch gave it no centre |
| `EmitRecords.ReservedFirst` | tools/gpsr_spawn.py:186-199 | before the first group exactly the base objects nearest to a spot are reserved there, and the base has of a group as many as its actors and objects of it |
| `EmitRecords.MergeStaysPacked` | tools/gpsr_spawn.py:542-557 | at every point of the merge all that was merged at a measured spot is on its surface and a gap away from the base objects there and from all merged there before |
| `EmitRecords.GroupMembers` | tools/gpsr_spawn.py:531-540 | a plan's group is its items of that asset and place, in plan order |
| `EmitRecords.BestIsFirst` | tools/gpsr_spawn.py:531-540 | the winning group is that of a plan all earlier of which have a shorter one |
| `EmitRecords.GroupsInOrder` | tools/gpsr_spawn.py:531-540 | groups are merged in the order in which the plans, read one after the other, first name them |
| `EmitScenario.EmitTwice` | tools/gpsr_spawn.py:509-579 | emitting again onto the result adds nothing if nothing was refused and every appended pose is nearest to its own place |
| `EmitMethods.BestGroups` | tools/gpsr_spawn.py:531-540 | the dictionary of winning groups, filled plan by plan, holds the longest group per key in insertion order |
| `EmitMethods.MeetByGroups` | tools/gpsr_spawn.py:532-540 | inserting a plan's groups one by one gives the key order of meeting its items one by one |
| `EmitMethods.PackGroup` | tools/gpsr_spawn.py:542-557 | a group is packed as one batch on the layout of its spot, made on first use and shared by later groups |
| `EmitMethods.EmitMerged` | tools/gpsr_spawn.py:509-579 | the imperative merge computes the lists and refusals that the laws of `EmitScenario` and `EmitRecords` are about |
| `Reset.DegErrorIsLeast` | tools/gpsr_run_reset.py:88-91 | the yaw error is the least over all whole turns, is reached by one, and is at most half a turn |
| `Reset.ActiveActions` | tools/gpsr_run_reset.py:106-108 | one question per action, in order; empty exactly when all answer zero |
| `Reset.IsIdle` | tools/gpsr_run_reset.py:160-166 | a passing sample is a sweep of zeros followed by one stationary speed |
| `Reset.WaitUntilIdle` | tools/gpsr_run_reset.py:111-125 | success means an idle window of at least the hold time with only quiet calls in it, at the first turn that is long enough; a failure means the client raised, or a sweep right after a clock reading past the timeout, with a goal or none, no unbroken run of passing samples before having been as long as the hold time; at most ceil(timeout/poll)+1 samples are taken (one more question tells why on failure) |
| `Reset.LongRunEnds` | tools/gpsr_run_reset.py:111-125 | among turns that did not end the wait no unbroken run of passing samples is as long as the hold time: such a run ends it |
| `Reset.MaxChecksIs` | tools/gpsr_run_reset.py:111-125 | the bound on the samples: one, and one more for each poll interval that begins before the timeout |
| `ResetRun.Watched` | tools/gpsr_run_reset.py:154 | the watched actions are the known and the listed ones, each once |
| `ResetRun.Assembled` | tools/gpsr_run_reset.py:174-212 | if the calls come in the order of the phases, each made only after the one before went well, the whole trace is safe |
| `ResetRun.RunReset` | tools/gpsr_run_reset.py:147-227 | in every run: at most one state reset, straight after a sweep of zeros and an idle window; seeding and homing only after an in-tolerance restored pose; it succeeds exactly if the trace ends with no goal started and a truth near the spawn and the reference, if any; every failure has the answer that causes its error as the last of the trace |
| `ResetRun.OneEnd` | tools/gpsr_run_reset.py:147-227 | the answers that cause the different errors exclude each other, and a run that ends well has none of them |
| `ResetRun.ResetAndHome` | tools/gpsr_run_reset.py:182-209 | the drastic calls, each made only if the one before it succeeded |
| `ResetRun.Settled` | tools/gpsr_run_reset.py:211-223 | success exactly if no goal started and the truth just read is near the spawn and the reference, if any; each error with the answer that causes it |
| `ResetLog.ReadReference` | tools/gpsr_run_reset.py:260-268 | the first logged start of a known session, nothing for an unknown one |
| `ResetLog.AppendedReads` | tools/gpsr_run_reset.py:565-566 | what a reader sees after a write cut off anywhere: a whole record is one more unless the file ended inside a line, part of one is nothing, and every complete line stays |
| `ResetLog.LogStaysSteady` | tools/gpsr_run_reset.py:260-268 | in every log of any runs, killed at any point of writing, each readable record of a known session is within tolerance of the first readable one |
| `ResetLog.StartPoseSpread` | tools/gpsr_run_reset.py:271-280 | the two worst errors bound every record's error against its session's first start and are attained or zero |
| `ResetLog.Summarize` | tools/gpsr_run_reset.py:283-292 | passes if and only if there are records and all are within tolerance of their session's first |
| `ResetLog.LogPasses` | tools/gpsr_run_reset.py:283-292 | for a log produced with the same tolerances this holds exactly when it is not empty, the tolerances are not negative, and the unknown session's starts agree |
| `ResetLog.UnknownSessionsDrift` | tools/gpsr_run_reset.py:263-264 | two starts a metre apart in an unknown session are both logged, and the batch fails |
| `ResetLog.RunOnce` | tools/gpsr_run_reset.py:543-567 | it returns 0 exactly if there is a spawn and the run ends well against the session's reference; then the log gains one accepted record whose pose is the last one read, also for its readers if the write is not cut off and the file ended with a line, and otherwise it is unchanged |
| `Presend.Driver.SendRetainingHandle` | validation/integrated_gate_executor_driver.py:2860-2911 | the id is retained before the goal is sent; a handle is returned exactly if the goal was accepted in time, and is the accepted one of that goal |
| `Presend.Driver.CleanupDelayedAcceptance` | validation/integrated_gate_executor_driver.py:2760-2857 | a late acceptance is retained and cleaned up on its handle, no acceptance leads to an attempt to cancel exactly the id, a rejection or a failed wait to neither; whether a request leaves is recorded with the attempt |
| `Presend.Driver.PresendLongMotion` | validation/integrated_gate_executor_driver.py:2914-3018 | whatever happens on the way, every state is safe; it succeeds exactly if the goal was accepted in time and the controller showed it, and then the handle is held |
| `Presend.Driver.CleanupRetained` | validation/integrated_gate_executor_driver.py:3021-3076 | one cleanup of exactly the goal held, by handle if there is one, else by id; a sent goal has been attempted, and the id is forgotten even when no request could leave |
| `Presend.Driver.Run` | validation/integrated_gate_executor_driver.py:3462-3523 | a run that may raise anywhere sends exactly if it pre-sends and gets that far - otherwise nothing is sent or cleaned up - and does not raise exactly if all goes well; every state was safe, and a sent goal has had one cleanup, or two exactly if its acceptance came late, had not come, or a cleanup on its handle raised; a cancel request naming it left before the exit if and only if one of these could send its request |
| `Presend.NeverOrphaned` | validation/integrated_gate_executor_driver.py:2885-2890 | in a safe state a sent goal is held by handle or id or has been attempted, and every cleanup names the one goal whose id was chosen |
| `Requests.Separated` | validation/integrated_gate_executor_driver.py:1089-1112 | of consecutive requests the second is made after the reply to the first arrived, or more than the time-to-live after the first |
| `Requests.CallKeeps` | validation/integrated_gate_executor_driver.py:1056-1133 | each call keeps at most one tracked future, none with a cached list; a returned list is what a tracked future completed with |
| `Requests.RunList` | validation/integrated_gate_executor_driver.py:1056-1133 | the same over any interleaving of calls, replies, dropped replies and time |
| `Requests.CachedForGood` | validation/integrated_gate_executor_driver.py:1084-1087 | once a list is cached no further request is made and every call returns it |
| `Requests.CallAsks` | validation/integrated_gate_executor_driver.py:1056-1133 | a call issues a request, now and once, exactly if the service takes it and there is nothing tracked or cached, or the tracked request has been pending for more than the time-to-live |
| `Requests.CallReturns` | validation/integrated_gate_executor_driver.py:1056-1133 | a call returns the cached list or the answer of the tracked request, and keeps it; the tracked one is let go exactly when it is answered or asked for again |
| `Requests.NeverStuck` | validation/integrated_gate_executor_driver.py:1056-1133 | from every state, once the time-to-live has passed, two calls the service takes return a list or issue a request |
| `Requests.Observer.ListControllers` | validation/integrated_gate_executor_driver.py:1056-1133 | its fields move exactly as one step of the specification: reuse, consume, expire and reissue, or start; the invariant is kept |
| `Requests.PollKeeps` | validation/integrated_gate_executor_driver.py:1636-1714 | each readback step keeps at most one tracked future, and none while done |
| `Requests.RunRead` | validation/integrated_gate_executor_driver.py:1636-1714 | the same over any interleaving with replies, time and topic messages |
| `Requests.StaysLatched` | validation/integrated_gate_executor.py:3222-3248 | a latched readback is unlatched by exactly the topic messages that empty the owned ids; an empty diff does not |
| `Requests.LatchedWhileOwned` | validation/integrated_gate_executor_driver.py:1660-1673 | while no message empties the owned ids, a latched readback never asks again |
| `Requests.ReadbackAsks` | validation/integrated_gate_executor_driver.py:1636-1714 | a readback step issues a request, now and once, exactly if the service takes it, nothing is tracked and it is not latched |
| `Requests.ReadbackTakes` | validation/integrated_gate_executor_driver.py:1636-1714 | a scene that answers the tracked request is the latest one and latches; any other answer, or none within the time-to-live, lets the request go |
| `Requests.ReadbackNeverStuck` | validation/integrated_gate_executor_driver.py:1636-1714 | from every state, once the time-to-live has passed, two steps the service takes end latched or issue a request |
| `Requests.Executor.StepPlanningSceneReadback` | validation/integrated_gate_executor_driver.py:1636-1714 | its fields move exactly as one step of the specification: stay latched, rearm, start, consume or expire; the invariant is kept |
| `CaptureLaws.SoftIffAgrees` | validation/integrated_evidence_index.py:850-1037 | the checks that do not stop the join are silent if and only if time, frame, latency and execution step agree |
| `CaptureLaws.FrameBound` | validation/integrated_evidence_index.py:885-973 | for numeric times, t/dt - 1/2 < raw frame <= t/dt + 1/2 + 4 |
| `CaptureLaws.RequestFrameBound` | validation/integrated_evidence_index.py:850-973 | the same bound against the request's own time, wider on either side by the time tolerance over dt |
| `CaptureLaws.NotANumberAgrees` | validation/integrated_evidence_index.py:856-884 | a requested time that is not a number passes the time check against any request time and fixes no frame |
| `CaptureLaws.TimeCheck` | validation/integrated_evidence_index.py:856-884 | the times pass if and only if the request has no numeric one, or the keyframe has one too and either is not a number, both are the same infinity, or they are within the tolerance |
| `CaptureLaws.KeyTableLaw` | validation/integrated_evidence_index.py:656-698 | without duplicate diagnostics, a key in the table belongs to exactly one record and a key not in it to none |
| `CaptureLaws.RequestTableLaw` | validation/integrated_evidence_index.py:733-752 | without duplicate diagnostics, a numbered request is the only driving one of its number in its journal |
| `CaptureLaws.StepGood` | validation/integrated_evidence_index.py:754-1150 | a keyframe adds no diagnostic if and only if all its conditions hold, and then it is bound |
| `CaptureLaws.NothingUnbound` | validation/integrated_evidence_index.py:732-1161 | no diagnostics: every keyframe of every journal is bound, to a distinct path, to the matching request of its directory and to one raw and one evaluator record; the binding holds the keyframe's own event, scenario, camera, sequence, frame and time, the image's attempt and the event of its request; every driving request's number is some keyframe's |
| `CaptureLaws.RequestIsUnique` | validation/integrated_evidence_index.py:822-848 | the request a keyframe is bound to is the only one of its number in its own directory, and agrees with it |
| `CaptureLaws.RequestsHaveImages` | validation/integrated_evidence_index.py:1152-1160 | without diagnostics, every request of a directory has an image there if and only if that holds for the numbers some other directory has keyframes of |
| `CaptureLaws.OneMoreDirectory` | validation/integrated_evidence_index.py:732-1161 | a further directory adds no diagnostic if and only if its keyframes join and its requests use numbers covered there or before |
| `CaptureExact.CleanExactly` | validation/integrated_evidence_index.py:701-1161 | a suite leaves no diagnostics if and only if its journals can be read with no request number twice in one, every keyframe is good - well formed, matching, agreeing, placed, with truth records and no key twice - no two share a path or an identity, and every driving request's number is some keyframe's |
| `CaptureExact.StepChanges` | validation/integrated_evidence_index.py:754-1150 | what a keyframe changes even if it gives diagnostics: it is bound exactly if it has a request, a placed image, truth records and a path of its own, with the fields above; nothing else is rebound |
| `CaptureExact.WellFormedExactly` | validation/integrated_evidence_index.py:755-806 | the exact condition on the fields of a keyframe, and its path |
| `CaptureExact.DrivesExactly` | validation/integrated_evidence_index.py:488-528 | which request lines drive a capture, and which are recognized at all |
| `CaptureExact.PlacedExactly` | validation/integrated_evidence_index.py:1039-1077 | an image is placed exactly if it is a file in the suite, of a known attempt with a directory that does not declare another scenario |
| `CaptureExact.TruthExactly` | validation/integrated_evidence_index.py:1071-1112 | the truth streams have a keyframe exactly if the first raw record of its scenario and frame is within the tolerance of its time, and there is an evaluator record of them |
| `CaptureExact.ToleranceIs` | validation/integrated_evidence_index.py:865-869 | the tolerance is half the frame time if that is a positive number, and at least a microsecond |
| `CaptureExact.ExpectedFrameIs` | validation/integrated_evidence_index.py:900-916 | the frame a request falls on is the nearest to its time, the later of two; known exactly if both times are numbers and the frame time is positive |
| `CaptureExact.RawKeyExactly` | validation/integrated_evidence_index.py:640-661 | the key of a raw record |
| `CaptureExact.EvaluatorKeyExactly` | validation/integrated_evidence_index.py:674-686 | the key of an evaluator record, with what it takes from the frame it embeds |
| `CaptureExact.SilentTable` | validation/integrated_evidence_index.py:656-698 | a stream gives no duplicate diagnostics exactly if no key occurs twice |
| `CaptureExact.SilentRequests` | validation/integrated_evidence_index.py:733-752 | a request journal is silent exactly if all its lines are recognized and no number drives twice |
| `CaptureLaws.SharedNumbersHide` | validation/integrated_evidence_index.py:730 | so a further directory, with its own keyframe journal or without, whose request has an image only elsewhere is let through |
| `CaptureLaws.ImagelessDirectory` | validation/integrated_evidence_index.py:1152-1160 | in particular one without any keyframe, all of whose requests use covered numbers |
| `CaptureExample.HiddenRequest` | validation/integrated_evidence_index.py:732-1161 | such a suite: two directories with a keyframe each, no diagnostics, and a request of the second has an image only in the first |
| `CaptureMethods.PhysicsKeyTable` | validation/integrated_evidence_index.py:656-698 | the loop builds the first-record-wins table and reports every repeated key |
| `CaptureMethods.CaptureJoin.JoinKeyframe` | validation/integrated_evidence_index.py:754-1150 | one keyframe, with every early exit, moves the dictionaries and the diagnostics as specified |
| `CaptureMethods.CaptureJoin.LoadCaptureBindings` | validation/integrated_evidence_index.py:701-1161 | the two passes over all directories compute the join the laws are about, diagnostics included |
| `EvidenceIndexLaws.IntegrityIsExact` | validation/integrated_evidence_index.py:1400-1458 | no integrity reason if and only if the checksum is the index's own and the index is exactly the current path, digest and size map |
| `EvidenceIndexLaws.FreshIndexPasses` | validation/integrated_evidence_index.py:1167-1263 | a fresh index passes its integrity check if and only if it is written at its own name, or - in a suite with no file of that name - outside the suite or under a temporary name |
| `EvidenceIndexLaws.MisplacedIndexFails` | validation/integrated_evidence_index.py:1447-1456 | under any other, not temporary name inside the suite it fails: it misses itself |
| `EvidenceIndexLaws.OldIndexFails` | validation/integrated_evidence_index.py:1447-1456 | written elsewhere while the suite still has a file of its name it fails: it lists that file |
| `EvidenceIndexLaws.CycleCloses` | validation/integrated_evidence_index.py:2841-2861 | with the index at its own name or outside: removing the summary from the final index gives back the index whose checksum the summary recorded, if and only if the summary is written in the suite under the name of a summary and the suite had no earlier summary entry, readable or not |
| `EvidenceIndexLaws.CycleAccepted` | validation/integrated_evidence_index.py:2719-2744 | on a suite without an earlier summary nothing can be held against the new one except that it did not pass; under another name or outside the suite it is never read |
| `EvidenceIndexLaws.MisplacedCycleFails` | validation/integrated_evidence_index.py:1180-1181 | with another index name inside the suite the second indexing refuses to overwrite the first, wherever the summary goes |
| `EvidenceIndexLaws.PassingMeans` | validation/integrated_evidence_index.py:2704-2717 | passing means no diagnostics and an exact index: any diagnostic fails the gate |
| `EvidenceIndexLaws.PassedSuiteIsClosed` | validation/integrated_evidence_index.py:2704-2710 | a suite whose index passes has every keyframe of every directory bound |
| `EvidenceIndexMethods.Indexer.BuildEvidenceIndex` | validation/integrated_evidence_index.py:1167-1263 | the loop computes the index the laws of `EvidenceRecords` are about, writes it at its place and nothing else; refused over an evidence file |
| `EvidenceRecords.EvidenceIs` | validation/integrated_evidence_index.py:1183-1195 | the files the diagnostics are computed from: all, in order, but the output and the documents that are summaries by name and content |
| `EvidenceRecords.EntriesAre` | validation/integrated_evidence_index.py:1187-1240 | one entry with path, digest, size and identity per file, in path order, but for the output and temporary files |
| `EvidenceRecords.FilterLaw` | validation/integrated_evidence_index.py:228-253 | where in such a list a file is: after as many as are kept before it, and nothing else is there |
| `EvidenceRecords.IndexHolds` | validation/integrated_evidence_index.py:1241-1262 | the diagnostics of the capture join and then the others, the scenarios, and the checksum of all that |
| `EvidenceRecords.BuildLaw` | validation/integrated_evidence_index.py:1175-1181 | refused exactly if the output is in the suite, not of the index's name, and there is a file; otherwise only that file changes |
| `EvidenceRecords.LessLaw` | validation/integrated_evidence_index.py:253 | the order of paths is that of the dictionary |
| `EvidenceIndexMethods.Indexer.ValidateIndexIntegrity` | validation/integrated_evidence_index.py:1400-1458 | the loops find the wrong checksum and every malformed, escaping, missing, changed, unindexed and stale path, in order |
| `EvidenceRecords.IntegritySays` | validation/integrated_evidence_index.py:1400-1458 | each reason is given exactly if it holds: of the checksum, of an entry that is malformed, escapes, misses its file or does not match it, of a file without entry, or of an entry without file |
| `EvidenceRecords.PassesExactly` | validation/integrated_evidence_index.py:2693-2744 | the gate passes exactly without diagnostics or further reasons, with an exact index under its own checksum that lists nothing twice and not itself, and whose last summary, if any, passed and was made for it |
| `EvidenceIndexMethods.Indexer.BuildQualificationSummary` | validation/integrated_evidence_index.py:2841-2861 | the suite afterwards holds the summary with the first index's checksum and the second index; it stops only if an index is refused |
| `EvidenceRecords.CycleLaw` | validation/integrated_evidence_index.py:2841-2861 | the cycle changes the two files and no other; the summary says whether the first index passed, and its checksum |
| `EvidenceIndexMethods.Project` | validation/integrated_evidence_index.py:1461-1479 | the projection loop removes exactly the summary entries, none if there are none |
| `EvidenceRecords.OthersAre` | validation/integrated_evidence_index.py:1461-1479 | what is left without the summaries is the other entries, in order |
| `PoseAudit.RayHitsBox` | tools/gpsr_pose_audit.py:432-446 | true if and only if some parameter in [0, max_t] puts the point in the box, components below 1e-12 taken as 0 (or max_t is negative, the direction flat and the point inside) |
| `PoseAudit.FlatteningIsExact` | tools/gpsr_pose_audit.py:436 | which is the ray itself exactly for components that are 0 or at least 1e-12 |
| `PoseAudit.DistanceIsLeast` | tools/gpsr_pose_audit.py:82-86 | the distance is the least over all box points, is attained, and is 0 if and only if the point is inside |
| `PoseAudit.CandidateDistance` | tools/gpsr_pose_audit.py:260-267 | a candidate stands exactly the standoff from its box while the slide stays on the face; past the end the excess adds its square |
| `PoseAudit.FreeExactly` | tools/gpsr_pose_audit.py:252-267 | a slide is free exactly if, where the robot stands in front of the face, every point of every obstacle is at least the clearance away, and its rear, 0.35 m further from the face, is in none |
| `PoseAudit.FreeFaceCandidate` | tools/gpsr_pose_audit.py:232-249 | the slide chosen is free and of least length among those tried, the positive one if both are free; none only if none is free |
| `FrameSink.FrameSink.Offer` | validation/gpsr_run_recorder.py:48-76 | a frame is kept exactly when under the cap and spaced, and is numbered by how many were kept before |
| `FrameSink.KeptAreSpaced` | validation/gpsr_run_recorder.py:56-59 | for any stamps at all, kept ones are spaced by the interval and at most the cap |
| `FrameSink.KeptIsOptimum` | validation/gpsr_run_recorder.py:56-76 | if no stamp blocks - comes before two that cannot follow it though the later could follow the earlier - no selection with the same spacing is larger |
| `FrameSink.UnblockedIsOptimal` | validation/gpsr_run_recorder.py:56-76 | if no stamp blocks, the number kept is the smaller of the cap and the largest possible selection |
| `FrameSink.GreedyIsOptimal` | validation/gpsr_run_recorder.py:56-76 | for stamps in order the number kept is the smaller of the cap and the largest possible selection |
| `FrameSink.OptimalExactlyUnblocked` | validation/gpsr_run_recorder.py:56-76 | for any interval the limiter is optimal on every part of a list of stamps if and only if no stamp blocks |
| `FrameSink.OutOfOrderLoses` | validation/gpsr_run_recorder.py:56-59 | stamps 10, 0, 1 with interval 1 block: only the first is kept where the other two could be |
| `Sampling.EvenIndices` | tools/contact_sheet.py:120-127 | for 2 <= k < n the k rounded indices are strictly increasing from 0 to n-1, so none repeats, and every gap g has g(k-1) within k-1 of n-1 |
| `Sampling.IndexIsNearest` | tools/contact_sheet.py:120-127 | each index is the one nearest to the exact point, or the even one of two |
| `Sampling.SampleEvenly` | tools/contact_sheet.py:111-127 | returns exactly those items, or all, the first, or none in the edge cases |

## Left out

- Layouts of spots without a measured box (the older grid), which test neither extent nor separation.
- Quaternions, notes, error texts, printed messages and the paths and line numbers inside diagnostics.
- Manifest records without a position, which the layouts skip; the model's records always carry one.
- HistoriesAreSafe: takes plans in which no unplaced item has a room named like a measured spot; `RoomsDecideSafety`
  shows that exactly the item sets without one are safe.
- ReRun: takes runs in which nothing is refused for room as far as they get; `FirstCall` and `FinishesExactly` say what
  refusals change.
- ReRunKilled: the same.
- HistoryReaches: the same; after a refusal the records are no longer those up to one item.
- ResumeEqualsUninterrupted: the same, with `ResumesExactly` for the last run. It does not cover a kill inside the
  last, plain write of the manifest (tools/gpsr_spawn.py:866, 886), which can leave nothing readable to resume from.
- Where an entity really is when the simulator reports that its name exists: the manifest records the planned pose,
  and the model, like the code, takes that record at its word.
- Floating-point error: `real` arithmetic throughout, so 0.05 added repeatedly is a multiple of 0.05.
- ROS nodes, topics, discovery, service and action plumbing, argument parsing, JSON and image encoding, the file
  system except as sequences of parsed records, and atomic replacement of files.
- Exceptions that are not ordinary ones (an interrupt) during a driver's cleanup, which the code does not catch
  either; and the run methods of the executor, which may raise but are not modelled as cancelling goals.
- Run: states that a cleanup of the sent goal was attempted and whether its request left, not that the goal stopped,
  which is up to the server.
- Layout.SurfaceLayout.constructor: asks for a gap that is not negative and a step above 1e-9, as the constants are;
  the code checks neither, divides by a zero step, and with a negative gap would promise an overlap.
- WaitUntilIdle: asks for a positive poll interval; with a zero interval only the passing of real time ends the wait.
- RunReset: asks for a positive poll interval for the same reason.
- The frame recorder's output: writing the JPEG and the index line, which may fail on their own.
- The corner fallback and the choice among faces in the pose recommendation, and the 5 cm ring search.
- The field-by-field artifact validators behind the gate, which appear as further reasons; symbolic links and
  unreadable files; file modes, which the integrity check ignores as well.
- Command-text parsing, event classification, asset tables other than the footprints, and the simulator probes: string
  tables and drivers that would only add easy members.
