# Tangram tensor-level memory simulator: a verified model

The tensor simulator decides which weight groups of which models stay in GPU memory,
where they lie, what has to be evicted when a request arrives, and how much of the
loading its computation hides. This project models that logic in Dafny and proves that
its parts agree: the eviction optimiser with the allocators, the allocators with
themselves over whole runs, and the stall tables with the recurrences they come from.
A few neighbouring algorithms with sharp guarantees are modelled too: trace
arrangement, reuse distances, module placement, arena copies and the packed-file index.

`dafny verify dfyconfig.toml` checks everything.

## How it is organised

| file | what it holds |
|---|---|
| `Common.dfy` | options, group keys, sums and runs shared by the other modules |
| `Prediction.dfy`, `Mckp.dfy`, `MckpSole.dfy` | predicted damage, the exact covering knapsack, and its plan when one model has anything to give up |
| `StallTable.dfy` | the stall recurrence, its envelopes, the table builder, loader and lookups |
| `PageLayout.dfy`, `PageMemory.dfy`, `PageRuns.dfy`, `PagePreviews.dfy` | both page layouts, the page pool under prefix-MCKP, whole runs, and when a reclaim misses its preview |
| `SegmentExtents.dfy`, `SegmentReclaim.dfy`, `SegmentModels.dfy` | extents that tile a pool; freeing, coalescing, packing, evicting; model bytes in a pool |
| `SegmentEvictions.dfy` | which pool an eviction loop ends in, for any victim rule |
| `SegmentSteps.dfy`, `SegmentPool.dfy` | tensor-by-tensor allocation step by step, and the segment pool as an object |
| `SegmentPartition.dfy`, `SegmentPacking.dfy`, `SegmentKv.dfy`, `SegmentShape.dfy`, `SegmentRequests.dfy`, `SegmentPlans.dfy` | partitioned bin packing, KV blocks, residency shapes and the bookkeeping of one request |
| `SegmentBlocks.dfy`, `SegmentOutcomes.dfy` | pools cut into whole KV blocks; what a planned request leads to, as a function of the pool it finds |
| `SegmentThrift.dfy` | what a planned request may evict, said without the functions that compute it |
| `SegmentPlanner.dfy`, `SegmentRuns.dfy`, `SegmentFragments.dfy` | the request-level planner as an object, whole runs of it, and a pool on which a prefix policy gives up |
| `Pipeline.dfy`, `OnlineTiming.dfy` | load/compute overlap; online routing and its timing replay |
| `TraceArrangement.dfy`, `ReuseDistance.dfy` | request traces |
| `Placement.dfy`, `WeightArena.dfy` | module placement, GPU arenas |
| `PackedFiles.dfy`, `PackedIndex.dfy` | packed weight files and the text index beside them |

## Main results

- **Exact reclamation.** The pruned frontier search never loses the optimum: a plan is
  found exactly when evicting everything else would free enough, and no covering choice
  does less predicted damage (`Mckp.SolveCoveringMckp`).
- **Planned prefixes are the committed ones, and exactly when.** A reclaim misses its
  preview exactly when the prefixes it plans are not the longest ones with their pages
  (`PageMemory.Misses`, in `MckpReclaim`, `PlanRequest` and `ServeRequest`). Over all states
  of two or more models it never does, if and only if every prefix that is cheapest among those freeing
  at least as much costs no less than the longest prefix with the same pages
  (`PagePreviews.ReclaimsExactlyMeaning`). In any one state with a single model to cut the
  same condition is exact (`PagePreviews.SoleVictimExact`); with two it is only sufficient,
  because a second model can be cheaper for every requirement
  (`PagePreviews.OthersCanPrevent`). Tables looked up in range meet it
  (`PageRuns.InRangeReclaimsExactly`); beyond the last row they need not, and
  `PagePreviews.MissedRun` is a run of two feasible requests that ends in the error. In the
  segment pool the two mismatch errors never happen.
- **A routing preview on a clone ends as the commit does**, with the same cost and the same
  state: for the page pools, misses included (`PageRuns.PreviewThenCommit`), for the segment
  pool under every compaction policy (`SegmentPool.PreviewThenCommit`), and for its
  request-level planner under every replacement policy (`SegmentPlanner.PreviewThenCommit`).
  Behind it, every method's outcome is a function of the state it finds (`SegmentSteps.Serving`,
  `SegmentOutcomes.ServingOf`, `SegmentOutcomes.ServedState`).
- **A page run stops exactly at the first request that fails the feasibility check or
  misses a preview** (`PageRuns.Simulate`).
- **The segment pool stays well formed** through every operation: extents tile the
  pool, no key is held twice, used plus free is the capacity, and the key index is exactly
  what the extents say (`SegmentExtents.Sound`, kept by every method of `SegmentPool` and
  `SegmentPlanner`).
- **Partitioned bin packing always succeeds** when the free bytes cover the request, keeps
  the size and order of every old key, and moves no more than one merge of the whole pool
  (`SegmentPlanner.MockAllocationSegmentMemory.PackRequests`).
- **A request evicts what it needs and no more.** When the free bytes cover what it misses,
  nothing is evicted; otherwise the prefixes left are a cheapest cover of exactly the
  shortage, or no group was given up in vain; the reclaims for whole KV blocks do the same
  (`SegmentThrift.Thrifty`, in `SegmentPlanner.MockAllocationSegmentMemory.ServeRequest`).
  Tensor by tensor, objects go only while something is short, and a cost-aware pool evicts
  instead of compacting exactly when that is cheaper (`SegmentSteps.AllocationIs`).
- **A prefix policy can give up although the bytes are there.** `SegmentFragments.Scatters`
  is a family of pools, one for every block size, in which two reclaims succeed, free only
  scattered bytes, and the code gives up; evicting everything would have freed the block.
  In a pool cut into whole blocks it never does
  (`SegmentPlanner.MockAllocationSegmentMemory.PlanKv`).
- **Residency keeps its shape over whole runs**: prefixes under the two prefix policies,
  suffixes under LRU, from the order of touches alone (`SegmentRuns.Simulate`).
- **Stalls have a closed form**, so tables are antitone, the builder's rows always pass the
  loader, and lookups stay between their rows. Beyond the last row a lookup falls with
  residency exactly up to the token count where two extrapolated columns cross
  (`StallTable.LinearLookupOrder`).
- **The text index of a packed file round-trips if and only if** the names are distinct,
  free of line breaks and of space at either end (`PackedIndex.IndexRoundTrip`).

## Modelling decisions

- Milliseconds are `real`; rounding is not modelled. Bytes are unbounded integers.
- The stall table enters the planner as a damage function. `PageRuns.StallOf` and
  `Prediction.DamageOf` build it from a table, and `PageRuns.TableDamageIsFair` shows that
  it always has the one property the solver needs.
- Both page layouts are one pool over "units": groups in the tensor-page layout, pages in
  the compact one. `PageLayout.BuildLayout` derives the unit dictionaries from a model, and
  `PageMemory.BuildConfigWellFormed` shows they are sound for every model.
- A model's groups have positive sizes and contiguous offsets from 0, and its tensors visit
  its groups in order, as the simulator builds them.
- Extents are values. Where the code finds an extent by identity, the model finds it by
  equality; in a tiling the two agree (`SegmentPacking.OnlyOnce`). The key index maps keys
  to those values.
- A replacement policy that evicts object by object is any function that picks one of the
  candidates it is given; LRU is the property of picking a least recently accessed one.
- The subclass that plans whole requests holds the pool it inherits from in a field.
- `rng.choice`, dictionary order and set order are arbitrary choices.
- The comment in `_prune_frontier` says a state survives unless any state that frees at
  least as much is as cheap. The code compares states below the requirement only with each
  other; the model follows the code (`Mckp.Survives`).

## Model

| member | source | states |
|---|---|---|
| `Prediction.DamageIsFair` | evaluation/tensor_simulator/tensor_sim_mckp.py:339-352 | damage is never negative and keeping the whole prefix does none, for every table and sample list |
| `Prediction.DamageAntitone` | evaluation/tensor_simulator/tensor_sim_mckp.py:347-352 | if no sample's stall grows with the prefix, keeping more never does more damage |
| `Prediction.DamageScales` | evaluation/tensor_simulator/tensor_sim_mckp.py:347-352 | scaling every weight by a positive factor scales the damage by it |
| `Prediction.DamageJoins` | evaluation/tensor_simulator/tensor_sim_mckp.py:347-352 | the damage of two sample lists joined is the sum of theirs |
| `Prediction.DamageOfWeighted` | evaluation/tensor_simulator/tensor_sim_mckp.py:340-345 | samples without positive weight can be left out |
| `Prediction.DamageIsRise` | evaluation/tensor_simulator/tensor_sim_mckp.py:347-352 | the damage is the weighted stall at the kept prefix less that at the held one, summed over the samples of positive weight whose stall rises |
| `Prediction.FallingDamageIsRise` | evaluation/tensor_simulator/tensor_sim_mckp.py:347-352 | with falling stalls and positive weights that is the whole weighted stall at the kept prefix less that at the held one |
| `Prediction.PlannedDamage` | evaluation/tensor_simulator/tensor_sim_mckp.py:340-352 | the same of the damage the planner minimises; a model without samples does none |
| `Mckp.RankLessTransitive` | evaluation/tensor_simulator/tensor_sim_mckp.py:364-371 | the rank of states is transitive, so "the best state" is well defined |
| `Mckp.RankLessTotal` | evaluation/tensor_simulator/tensor_sim_mckp.py:364-371 | two different states never tie |
| `Mckp.RankMeans` | evaluation/tensor_simulator/tensor_sim_mckp.py:364-371 | of two states that free enough, one that no other beats costs less, or frees less, or evicts fewer groups, or its choices come first |
| `Mckp.ChoicesLessMeans` | evaluation/tensor_simulator/tensor_sim_mckp.py:364-371 | choices of the same models are compared where they first differ |
| `Mckp.BestByFreed` | evaluation/tensor_simulator/tensor_sim_mckp.py:376-383 | one state per amount of freed bytes, none of them beaten by a state freeing the same amount |
| `Mckp.PruneFrontier` | evaluation/tensor_simulator/tensor_sim_mckp.py:374-407 | the survivors are exactly the states that survive the dominance rule, in both directions; those that free too little are dearer the more they free, and at most one frees enough |
| `Mckp.SurvivorDominating` | evaluation/tensor_simulator/tensor_sim_mckp.py:393-406 | every pruned state is dominated by a survivor that is no dearer and frees enough whenever it does |
| `Mckp.ExpandFrontier` | evaluation/tensor_simulator/tensor_sim_mckp.py:437-445 | the expansion is every state extended by every option and nothing else |
| `Mckp.CompleteStep` | evaluation/tensor_simulator/tensor_sim_mckp.py:430-447 | after one more model, every selection of prefixes is still matched by a frontier state |
| `Mckp.PreferringSurvivor` | evaluation/tensor_simulator/tensor_sim_mckp.py:364-383 | with survivors kept by rank, no model keeps a prefix when a longer one of the same bytes does no more damage |
| `Mckp.SearchFrontier` | evaluation/tensor_simulator/tensor_sim_mckp.py:427-447 | the final frontier accounts exactly for its choices and matches every selection |
| `Mckp.VictimKeyMember` | evaluation/tensor_simulator/tensor_sim_mckp.py:457-462 | a group is a victim exactly when it lies at or above its model's kept prefix and below the held one |
| `Mckp.VictimBytes` | evaluation/tensor_simulator/tensor_sim_mckp.py:456-465 | the bytes of the listed victim groups are the freed bytes of the choices |
| `Mckp.SolveCoveringMckp` | evaluation/tensor_simulator/tensor_sim_mckp.py:410-465 | feasible exactly when evicting all other models frees enough; then the plan covers, no covering choice does less damage, its figures are exact, and no model keeps a prefix when a longer one of the same bytes does no more damage |
| `Mckp.PreferredAreLongest` | evaluation/tensor_simulator/tensor_sim_mckp.py:364-383 | with falling damage every model keeps the longest prefix its bytes can hold |
| `Mckp.PlannedIsBest` | evaluation/tensor_simulator/tensor_sim_mckp.py:454-456 | whatever the search settles on is a cheapest cover that prefers longer prefixes |
| `Mckp.PlanUnique` | evaluation/tensor_simulator/tensor_sim_mckp.py:454-456 | a problem has one plan: the rank leaves no freedom, so solving it again gives the same choices |
| `Mckp.LastModelTight` | evaluation/tensor_simulator/tensor_sim_mckp.py:427-456 | how ties are broken: given what the plan keeps of the others, no other prefix of the last model covers at less damage, or at the same damage with fewer bytes freed, or with as many freed and fewer groups evicted |
| `StallTable.SimulateStall` | tools/layerpipe/build_layerweave_offline_stall_table.py:18-49 | the replay is at least a sum over missing observed groups of load beyond the boundary gap, plus the backward steps of the boundaries; it equals that sum unless a missing group follows a boundary before time zero |
| `StallTable.LoadTimesAdd` | tools/layerpipe/build_layerweave_offline_stall_table.py:35-38 | a group's load is its transfer and its allocation added up: bandwidth times the transfer is its bytes, and the allocation is the given time |
| `StallTable.StallStep` | tools/layerpipe/build_layerweave_offline_stall_table.py:32-46 | one observed group less is resident: the stall grows by what its load exceeds its boundary gap by, and by nothing if the group is not observed |
| `StallTable.OneGroupStall` | tools/layerpipe/build_layerweave_offline_stall_table.py:35-49 | with one group the stall of the empty prefix is the excess of bytes over bandwidth plus allocation over the boundary |
| `StallTable.DropsVanish` | tools/layerpipe/build_layerweave_offline_stall_table.py:27-31 | non-decreasing boundaries have no backward steps, so only the sum is left |
| `StallTable.GapsAndDrops` | tools/layerpipe/build_layerweave_offline_stall_table.py:27-31 | the gaps between boundaries lead to the last one, and as far beyond it as the boundaries step back |
| `StallTable.ExposedMonotone` | tools/layerpipe/build_layerweave_offline_stall_table.py:32-46 | more missing groups or longer loads never expose less |
| `StallTable.NothingExposed` | tools/layerpipe/build_layerweave_offline_stall_table.py:32-49 | with nothing missing there is no stall |
| `StallTable.MonotoneEnvelope` | tools/layerpipe/build_layerweave_offline_stall_table.py:66-72 | the least non-increasing curve ending in zero that lies above the values |
| `StallTable.IncreasingMonotoneEnvelope` | tools/layerpipe/build_layerweave_offline_stall_table.py:75-81 | the least non-decreasing curve starting in zero that lies above the values |
| `StallTable.EnvelopeFixesCurves` | tools/layerpipe/build_layerweave_offline_stall_table.py:66-72 | a curve that already has the shape is left unchanged |
| `StallTable.IncreasingEnvelopeFixesCurves` | tools/layerpipe/build_layerweave_offline_stall_table.py:75-81 | the same for suffix curves |
| `StallTable.StallAntitone` | tools/layerpipe/build_layerweave_offline_stall_table.py:52-63 | keeping more groups never stalls longer, for prefixes and suffixes |
| `StallTable.CurveIsExact` | tools/layerpipe/build_layerweave_offline_stall_table.py:142-160 | for non-decreasing boundaries the replayed curve already has the stored shape |
| `StallTable.StoredCurve` | tools/layerpipe/build_layerweave_offline_stall_table.py:142-160 | the stored curve has the shape the loader demands, and is the replayed stalls exactly if no boundary steps back |
| `StallTable.BuildRow` | tools/layerpipe/build_layerweave_offline_stall_table.py:134-168 | every row built passes the loader's validation; without a measured overhead the boundaries are the raw ones, and the curves are the exact replay if and only if an overhead was removed or no raw boundary steps back; for one observed group without overhead the stored stall of the empty prefix is the excess of bytes over bandwidth plus allocation over the boundary |
| `StallTable.BuildModel` | tools/layerpipe/build_layerweave_offline_stall_table.py:127-176 | the built model fails exactly when some profile has another number of boundaries than groups; its rows come in token order, its prefix bytes are cumulative, and it passes the loader if and only if anything was measured |
| `StallTable.CorrectEventOverhead` | tools/layerpipe/build_layerweave_offline_stall_table.py:84-106 | without overhead the boundaries are unchanged; otherwise they are the running peak of the reduced ones, hence non-negative and non-decreasing |
| `StallTable.OverheadIsUniform` | tools/layerpipe/build_layerweave_offline_stall_table.py:96-102 | every observed boundary takes the same part of the overhead, an unobserved one none, and together they take all of it |
| `StallTable.PeakIsGreatest` | tools/layerpipe/build_layerweave_offline_stall_table.py:103-105 | the running peak is the greatest value so far, or zero |
| `StallTable.InterpolateBetween` | evaluation/tensor_simulator/tensor_sim_mckp.py:111-133 | in range or clamped, an interpolated value lies between two neighbouring rows |
| `StallTable.InterpolateOnLine` | evaluation/tensor_simulator/tensor_sim_mckp.py:120-133 | between two rows, and beyond the last, the value lies on the line through the two columns, cut off at zero |
| `StallTable.LookupAntitone` | evaluation/tensor_simulator/tensor_sim_mckp.py:95-143 | in range or clamped, more resident groups never mean a longer stall |
| `StallTable.LookupNonNegative` | evaluation/tensor_simulator/tensor_sim_mckp.py:95-143 | a lookup is never negative, even extrapolated |
| `StallTable.LinearLookupOrder` | evaluation/tensor_simulator/tensor_sim_mckp.py:120-143 | at and beyond the last row, one residency state looks up no more than another if and only if the extrapolated columns have not crossed at that token count, or the clamp at zero hides it |
| `StallTable.LinearLookupAntitone` | evaluation/tensor_simulator/tensor_sim_mckp.py:95-143 | a whole lookup falls with residency if and only if no two columns have crossed at its token count |
| `StallTable.FullResidency` | evaluation/tensor_simulator/tensor_sim_mckp.py:48-65 | in range or clamped, a fully resident model has no stall |
| `StallTable.LinearLookupCanRise` | evaluation/tensor_simulator/tensor_sim_mckp.py:120-133 | a valid two-row table whose extrapolated columns cross: a longer prefix is given a longer stall |
| `StallTable.ReplayMonotone` | evaluation/tensor_simulator/tensor_sim_mckp.py:146-175 | replaying with more cost components enabled never stalls less |
| `StallTable.SharesAddUp` | evaluation/tensor_simulator/tensor_sim_mckp.py:195-257 | the transfer and allocation shares are non-negative and add up to the profiled stall |
| `StallTable.SharesDiffer` | evaluation/tensor_simulator/tensor_sim_mckp.py:241-255 | the two shares differ as the replays with transfer alone and with allocation alone do, in proportion to the profiled stall |
| `StallTable.ComponentsDiffer` | evaluation/tensor_simulator/tensor_sim_mckp.py:195-257 | the same of the components of a table, so which one is the transfer is fixed |
| `StallTable.ComponentsAreAdditive` | evaluation/tensor_simulator/tensor_sim_mckp.py:195-257 | in range or clamped, the two exposed components of a table add up to its lookup; a table without groups, costs or boundaries is not replayed and its whole lookup is the transfer share |
| `PageLayout.CompactCount` | evaluation/tensor_simulator/tensor_sim_page_backends.py:271-279 | a compact prefix reaches exactly as many pages as its bytes need |
| `PageLayout.GroupUnitsReach` | evaluation/tensor_simulator/tensor_sim_page_backends.py:264-270 | a group needs only units its prefix reaches, and every unit its prefix adds |
| `PageLayout.BuildLayoutValid` | evaluation/tensor_simulator/tensor_sim_page_backends.py:99-110 | the unit dictionaries are consistent in both layouts; tensor-page prefixes always differ in units |
| `PageLayout.PrefixFootprint` | evaluation/tensor_simulator/tensor_sim_page_backends.py:330-332 | unit bytes of a prefix add up to what each layout charges: whole pages per group, or the pages its bytes reach |
| `PageMemory.BuildConfigWellFormed` | evaluation/tensor_simulator/tensor_sim_page_backends.py:245-280 | the dictionaries built for any models are sound |
| `PageMemory.PrefixUnique` | evaluation/tensor_simulator/tensor_sim_page_backends.py:305-328 | the longest prefix a set of pages stands for is unique |
| `PageMemory.PagePrefixMemory.ResidentPrefixCount` | evaluation/tensor_simulator/tensor_sim_page_backends.py:305-328 | the longest prefix whose units are exactly the resident ones, or a failure exactly when there is none |
| `PageMemory.PagePrefixMemory.CommitPrefix` | evaluation/tensor_simulator/tensor_sim_page_backends.py:342-359 | cutting a prefix never meets missing or extra units and frees the difference of the two footprints |
| `PageMemory.ChoicesAreLongest` | evaluation/tensor_simulator/tensor_sim_page_backends.py:61-65 | in the tensor-page layout, or when every model keeps the longest prefix of its byte class, the planned prefixes are the ones counted after the commit |
| `PageMemory.AlwaysExact` | evaluation/tensor_simulator/tensor_sim_page_backends.py:56-65 | in the tensor-page layout, when no two prefixes of a model share their units, or with falling damage, no reclaim of any state misses its preview |
| `PageMemory.PagePrefixMemory.MckpReclaim` | evaluation/tensor_simulator/tensor_sim_page_backends.py:33-76 | a reclaim frees at least what is required at least damage; it fails with "cannot reclaim" exactly when the others hold too little, and with the prefix mismatch exactly when the planned prefixes are not the longest with their units |
| `PageMemory.PagePrefixMemory.TrimToCapacity` | evaluation/tensor_simulator/tensor_sim_page_backends.py:423-427 | trimming succeeds exactly when the pool or the active model fits and its reclaim does not miss, and leaves a pool that fits |
| `PageMemory.PagePrefixMemory.PlanRequest` | evaluation/tensor_simulator/tensor_sim_page_backends.py:83-96 | one batch reclaim makes room for everything the request misses, exactly when the model fits and the reclaim does not miss |
| `PageMemory.PagePrefixMemory.PrepareTensor` | evaluation/tensor_simulator/tensor_sim_page_backends.py:437-474 | with room for the group, the per-tensor fallback reclaims nothing and maps exactly the missing units |
| `PageMemory.PagePrefixMemory.PrepareModel` | evaluation/tensor_simulator/tensor_sim_page_backends.py:197-222 | loading all tensors makes the model fully resident and maps exactly its missing bytes |
| `PageMemory.PagePrefixMemory.ServeRequest` | evaluation/tensor_simulator/tensor_sim_memory_common.py:125-131 | a request is served exactly when its model fits beside its KV cache and neither of its reclaims misses; the mismatch error is raised exactly when one does; bytes are conserved and other models only lose tails |
| `PageMemory.PagePrefixMemory.Clone` | evaluation/tensor_simulator/tensor_sim_memory_common.py:113-119 | a clone is a new pool in the same state |
| `PageMemory.ServedUnique` | evaluation/tensor_simulator/tensor_sim_memory_common.py:125-131 | serving the same request from the same prefixes has one outcome |
| `PageRuns.PreviewThenCommit` | evaluation/tensor_simulator/layerweave_tensor_pipeline_sim.py:1358-1401 | running a request on a clone leaves the original untouched, and committing it then has the same result, misses included, the same evicted and mapped bytes, and a served request leaves the same state |
| `PageRuns.Simulate` | evaluation/tensor_simulator/layerweave_tensor_pipeline_sim.py:841-861 | a run stops exactly at the first request that does not fit or misses a preview |
| `PagePreviews.SoleVictimExact` | evaluation/tensor_simulator/tensor_sim_page_backends.py:56-65 | with one model to cut: no required amount makes a reclaim miss, if and only if every prefix that is cheapest among those freeing at least as much costs no less than the longest prefix with the same units |
| `PagePreviews.ReclaimsExactlyMeaning` | evaluation/tensor_simulator/tensor_sim_page_backends.py:56-65 | with two models or more: over all held prefixes, active models and required amounts no reclaim misses its preview, if and only if that holds of every longest held prefix of every model |
| `PagePreviews.MissedRun` | evaluation/tensor_simulator/tensor_sim_page_backends.py:61-65 | from an empty pool, two requests that both pass the feasibility check: the second ends in the prefix mismatch |
| `PagePreviews.OthersCanPrevent` | evaluation/tensor_simulator/tensor_sim_page_backends.py:61-65 | with two models to cut the per-model condition can fail while no required amount misses |
| `PageRuns.TableDamageIsFair` | evaluation/tensor_simulator/tensor_sim_mckp.py:340-352 | damage predicted from any table and samples is fair |
| `PageRuns.InRangeReclaimsExactly` | evaluation/tensor_simulator/tensor_sim_page_backends.py:56-65 | with valid tables and samples in range, no reclaim can miss its preview, even when groups share pages |
| `SegmentExtents.Coalesce` | evaluation/tensor_simulator/tensor_sim_segment_backend.py:86-93 | the loop computes the coalesced extents |
| `SegmentExtents.CoalescedFacts` | evaluation/tensor_simulator/tensor_sim_segment_backend.py:86-93 | coalescing keeps the tiling, every allocation, the index and the free bytes |
| `SegmentExtents.CoalescedSeparates` | evaluation/tensor_simulator/tensor_sim_segment_backend.py:86-93 | no two free extents stay next to each other |
| `SegmentExtents.CoalesceLate` | evaluation/tensor_simulator/tensor_sim_segment_backend.py:95-106 | coalescing after each release or once at the end gives the same extents |
| `SegmentExtents.UsedPlusFree` | evaluation/tensor_simulator/tensor_sim_segment_backend.py:59-60 | used and free bytes add up to the total |
| `SegmentExtents.IndexedSize` | evaluation/tensor_simulator/tensor_sim_segment_backend.py:48-66 | the index gives every key's own extent and its bytes |
| `SegmentExtents.CompactedFacts` | evaluation/tensor_simulator/tensor_sim_segment_backend.py:155-173 | compaction tiles the pool again with the same objects in the same order |
| `SegmentExtents.CompactedMoves` | evaluation/tensor_simulator/tensor_sim_segment_backend.py:155-173 | the bytes compaction moves are those of the objects whose address it changes |
| `SegmentExtents.PlaceFacts` | evaluation/tensor_simulator/tensor_sim_segment_backend.py:262-267 | placing adds exactly one object between those around it and keeps the tiling and index |
| `SegmentReclaim.ExhaustionIsMost` | evaluation/tensor_simulator/tensor_sim_segment_backend.py:145-153 | no evictions reach a larger stretch, more whole blocks or fewer used bytes than evicting everything |
| `SegmentReclaim.SameExhaustion` | evaluation/tensor_simulator/tensor_sim_segment_backend.py:145-153 | evicting the rest leads to the same pool whatever was evicted first |
| `SegmentReclaim.BelowLimit` | evaluation/tensor_simulator/tensor_sim_segment_backend.py:108-113 | with every allocation below the weight limit, free and used bytes below it add up to the limit |
| `SegmentReclaim.CompactedBelow` | evaluation/tensor_simulator/tensor_sim_segment_backend.py:155-173 | compaction turns all free bytes below the limit into one stretch |
| `SegmentPool.SegmentMemory.constructor` | evaluation/tensor_simulator/tensor_sim_segment_backend.py:14-20 | a new pool is one free extent, well formed |
| `SegmentPool.SegmentMemory.Clone` | evaluation/tensor_simulator/tensor_sim_segment_backend.py:22-46 | a clone is a fresh object with the same state, its rebuilt index equal to the original's |
| `SegmentPool.SegmentMemory.Free` | evaluation/tensor_simulator/tensor_sim_segment_backend.py:95-106 | exactly one key's bytes become free; an unknown key changes nothing |
| `SegmentPool.SegmentMemory.EvictOne` | evaluation/tensor_simulator/tensor_sim_segment_backend.py:145-153 | evicts the policy's victim among other models' weights, and fails only when there is none |
| `SegmentPool.SegmentMemory.Compact` | evaluation/tensor_simulator/tensor_sim_segment_backend.py:155-180 | the pool is compacted, and the moved bytes are those of the objects that changed address |
| `SegmentPool.SegmentMemory.EvictionAlternative` | evaluation/tensor_simulator/tensor_sim_segment_backend.py:182-193 | the probe finds a fit exactly when evicting everything would, and counts the bytes evicted where the victim rule first leads to one |
| `SegmentEvictions.ReachedAtMost` | evaluation/tensor_simulator/tensor_sim_segment_backend.py:145-153 | some evictions reach a goal only if evicting everything would |
| `SegmentEvictions.Trail` | evaluation/tensor_simulator/tensor_sim_segment_backend.py:145-153 | the evictions that lead to a goal are the policy's victims one after the other, as long as it is not reached |
| `SegmentEvictions.OnlyEnd` | evaluation/tensor_simulator/tensor_sim_segment_backend.py:145-153 | only one pool can be reached like this |
| `SegmentSteps.ProbeIsCheaper` | evaluation/tensor_simulator/tensor_sim_segment_backend.py:223-248 | a cost-aware pool prefers evicting exactly when the bytes lost until a stretch is free are reloaded faster than the pool is compacted |
| `SegmentSteps.AllocationIs` | evaluation/tensor_simulator/tensor_sim_segment_backend.py:218-275 | an allocation evicts as long as too few bytes are free, gains a stretch only if none is large enough then, by compacting or by evicting as the policy says, and takes the first free extent with room |
| `SegmentSteps.NothingForTensor` | evaluation/tensor_simulator/tensor_sim_segment_backend.py:218-253 | with room for a group nothing is evicted for it if the pool may be compacted or has a stretch that is large enough; in the second case nothing moves either |
| `SegmentPool.SegmentMemory.EvictForStretch` | evaluation/tensor_simulator/tensor_sim_segment_backend.py:240-249 | evicting for a stretch follows the probe: it ends in the same pool, and fails exactly when evicting everything would not be enough |
| `SegmentPool.SegmentMemory.TrimToCapacity` | evaluation/tensor_simulator/tensor_sim_segment_backend.py:195-205 | succeeds exactly when what cannot be evicted fits, and then leaves every allocation below the weight limit, having evicted only while too much was in use and compacted only if something then lay beyond the limit |
| `SegmentPool.SegmentMemory.MakeStretch` | evaluation/tensor_simulator/tensor_sim_segment_backend.py:223-253 | with compaction a contiguous fit always results; the cost-aware loop follows its probe, cannot fail, and evicts only if that is predicted cheaper than compacting |
| `SegmentPool.SegmentMemory.PlaceFirst` | evaluation/tensor_simulator/tensor_sim_segment_backend.py:254-270 | the first free extent with room below the limit is used; one always exists |
| `SegmentPool.SegmentMemory.AllocateTensor` | evaluation/tensor_simulator/tensor_sim_segment_backend.py:218-275 | fails exactly when the pinned bytes leave too little room or, without compaction, no large enough stretch; otherwise other models only lose groups and bytes are conserved; it evicts only while too few bytes are free, gains a stretch only if none is large enough then, and takes the first free extent with room |
| `SegmentPool.SegmentMemory.PrepareTensor` | evaluation/tensor_simulator/tensor_sim_segment_backend.py:212-275 | a resident group is only touched; a missing one is allocated as above |
| `SegmentPool.SegmentMemory.BeginRequest` | evaluation/tensor_simulator/tensor_sim_memory_common.py:125-127 | the weight limit becomes capacity less KV bytes, and the pool is trimmed to it |
| `SegmentPool.SegmentMemory.ServeRequest` | evaluation/tensor_simulator/tensor_sim_memory_common.py:125-131 | with compaction a request is served exactly when its model fits beside its KV cache; it loads exactly the missing bytes and touches the groups in order; a pool that is always compacted loses nothing to a request it has room for; under every policy whether it is served, what it costs and the state it leaves are a function of the state it finds |
| `SegmentPool.PreviewThenCommit` | evaluation/tensor_simulator/tensor_sim_segment_backend.py:22-46 | running a request on a clone leaves the pool untouched, and committing it then succeeds alike, at the same cost, into the same state |
| `SegmentPartition.BySizeDescends` | evaluation/tensor_simulator/tensor_sim_segment_backend.py:686 | requests are considered largest first |
| `SegmentPartition.SplitRequests` | evaluation/tensor_simulator/tensor_sim_segment_backend.py:517-531 | the loop computes the greedy division of the requests |
| `SegmentPartition.SplitConserves` | evaluation/tensor_simulator/tensor_sim_segment_backend.py:517-531 | a division loses no request and overfills neither side |
| `SegmentPartition.AssignedBalances` | evaluation/tensor_simulator/tensor_sim_segment_backend.py:521-530 | a request that fits either side goes where more room is left afterwards on the fuller one, to the left when both have as much; otherwise to the side it fits |
| `SegmentPartition.ProfitIsGap` | evaluation/tensor_simulator/tensor_sim_segment_backend.py:568-574 | in a tiled pool the bytes that need not move for a cut are the address gap between its two free extents, all of it allocated |
| `SegmentPartition.PieceIsWidest` | evaluation/tensor_simulator/tensor_sim_segment_backend.py:558-587 | the cut taken has the widest address gap of all cuts that divide the requests, and is the first such |
| `SegmentPartition.DivisibleIsCut` | evaluation/tensor_simulator/tensor_sim_segment_backend.py:558-583 | a partition with a cut that divides its requests is cut |
| `SegmentPartition.PartsAreNeighbours` | evaluation/tensor_simulator/tensor_sim_segment_backend.py:549-589 | the free extents of every partition lie next to each other in the pool |
| `SegmentPartition.BestOfIsBest` | evaluation/tensor_simulator/tensor_sim_segment_backend.py:558-579 | the cut settled on is the first of the most profitable feasible ones |
| `SegmentPartition.SplitOne` | evaluation/tensor_simulator/tensor_sim_segment_backend.py:554-588 | a partition is left whole exactly when it cannot be cut; otherwise it is cut where the address gap between neighbouring free extents is widest among the cuts that divide its requests, at the first such place, and all of that gap is allocated |
| `SegmentPartition.PartitionRequests` | evaluation/tensor_simulator/tensor_sim_segment_backend.py:533-590 | terminates with the free extents cut into runs in order, the request multiset conserved, each run's demand within its capacity, and no further cut possible |
| `SegmentPacking.EverythingMoves` | evaluation/tensor_simulator/tensor_sim_segment_backend.py:613-620 | behind a free extent a merge moves every allocation |
| `SegmentPacking.WholeMergeMoves` | evaluation/tensor_simulator/tensor_sim_segment_backend.py:592-631 | one merge of the whole pool moves everything between the first and last free extent |
| `SegmentPlanner.MockAllocationSegmentMemory.MergePartition` | evaluation/tensor_simulator/tensor_sim_segment_backend.py:592-631 | the stretch's allocations slide together in order, its free bytes become one extent, and the pool stays well formed |
| `SegmentPlanner.MockAllocationSegmentMemory.Reserve` | evaluation/tensor_simulator/tensor_sim_segment_backend.py:633-644 | the low end of a free extent is allocated and the rest returned |
| `SegmentPlanner.MockAllocationSegmentMemory.PackPartition` | evaluation/tensor_simulator/tensor_sim_segment_backend.py:689-696 | every reserve of a partition fits, and the requests lie side by side behind the merged allocations |
| `SegmentPlanner.MockAllocationSegmentMemory.PackRequests` | evaluation/tensor_simulator/tensor_sim_segment_backend.py:685-696 | if the free bytes cover the requests all are placed, old keys keep size and order, no more moves than in one merge of the whole pool, and the layout is determined by the pool and the requests |
| `SegmentKv.DealStep` | evaluation/tensor_simulator/tensor_sim_segment_backend.py:490-512 | taking blocks from an extent leaves enough whole blocks behind it for what is still wanted |
| `SegmentPlanner.MockAllocationSegmentMemory.FreeForKv` | evaluation/tensor_simulator/tensor_sim_segment_backend.py:469-487 | reclaims until whole blocks suffice, each time exactly what they lack; evicting one by one it stops as soon as they do, and fails exactly when emptying the pool would not be enough; where it ends, and with which error, is determined |
| `SegmentPlanner.MockAllocationSegmentMemory.ReclaimBlocks` | evaluation/tensor_simulator/tensor_sim_segment_backend.py:712-719 | whole blocks that suffice are left alone; otherwise one reclaim, and then one after the other while there are still too few, each asks for exactly what is lacking; a prefix policy gives up exactly when the others hold too little for one or it frees no block |
| `SegmentPlanner.MockAllocationSegmentMemory.PlaceKv` | evaluation/tensor_simulator/tensor_sim_segment_backend.py:488-515 | exactly the requested bytes are placed in new extents of whole blocks, from low to high addresses, nothing else changes, and "bytes but not enough KV blocks" cannot happen |
| `SegmentShape.PrefixCounted` | evaluation/tensor_simulator/tensor_sim_segment_backend.py:317-324 | groups without gaps pass the prefix check, which returns how many there are |
| `SegmentShape.SuffixCounted` | evaluation/tensor_simulator/tensor_sim_segment_backend.py:331-339 | groups closed upwards pass the suffix check |
| `SegmentShape.LeastRecentKeepsSuffix` | evaluation/tensor_simulator/tensor_sim_memory_common.py:190-218 | evicting a least recently used weight keeps every model's suffix |
| `SegmentShape.PlanLeavesChoices` | evaluation/tensor_simulator/tensor_sim_segment_backend.py:352-379 | without a plan's victims every model holds exactly its chosen prefix |
| `SegmentShape.EvictAllOccupies` | evaluation/tensor_simulator/tensor_sim_segment_backend.py:357-364 | what the solver says evicting all others frees is what their extents occupy |
| `SegmentPlanner.MockAllocationSegmentMemory.ResidentPrefixCount` | evaluation/tensor_simulator/tensor_sim_segment_backend.py:317-324 | succeeds exactly when the resident groups form a prefix |
| `SegmentPlanner.MockAllocationSegmentMemory.ResidentSuffixStart` | evaluation/tensor_simulator/tensor_sim_segment_backend.py:331-339 | returns where the resident suffix starts, and never fails on a suffix |
| `SegmentPlanner.MockAllocationSegmentMemory.MckpReclaim` | evaluation/tensor_simulator/tensor_sim_segment_backend.py:352-394 | fails only when the others hold too little; planned bytes and prefixes are always what is found afterwards, at least damage |
| `SegmentPlanner.MockAllocationSegmentMemory.LruVictim` | evaluation/tensor_simulator/tensor_sim_segment_backend.py:403-417 | the least recently used reclaimable model, ties to the smaller id |
| `SegmentShape.RecencyIsLatest` | evaluation/tensor_simulator/tensor_sim_segment_backend.py:411-416 | a model's recency is the latest access of its resident groups, or -1 |
| `SegmentPlanner.MockAllocationSegmentMemory.LruPrefixReclaim` | evaluation/tensor_simulator/tensor_sim_segment_backend.py:396-431 | frees at least what is required from the tails of prefixes, least recently used models first, failing only when the others hold too little; nothing when nothing is required, and without the last group it frees it would have freed too little |
| `SegmentPlanner.MockAllocationSegmentMemory.PrefixReclaim` | evaluation/tensor_simulator/tensor_sim_segment_backend.py:433-440 | a prefix reclaim takes nothing when nothing is required; otherwise the prefixes left are a cheapest cover of exactly what is required, or, least recently used first, would not cover it with the last group back |
| `SegmentPlanner.MockAllocationSegmentMemory.BeginRequest` | evaluation/tensor_simulator/tensor_sim_segment_backend.py:306-315 | the old KV blocks, and nothing else, are released |
| `SegmentPlanner.MockAllocationSegmentMemory.MissingGroups` | evaluation/tensor_simulator/tensor_sim_segment_backend.py:647-655 | exactly the groups that are not resident, each once, at its size, in ascending order, which is the order of the tensors |
| `SegmentPlanner.MockAllocationSegmentMemory.PlanWeights` | evaluation/tensor_simulator/tensor_sim_segment_backend.py:675-706 | the missing groups are placed exactly when the model (with its KV cache, under a prefix policy) fits into the pool; nothing is evicted when the free bytes cover both, otherwise a prefix policy leaves a cheapest cover of exactly the shortage or gives up no group in vain, and evicting one by one stops as soon as the groups have room |
| `SegmentPlanner.MockAllocationSegmentMemory.PlanKv` | evaluation/tensor_simulator/tensor_sim_segment_backend.py:712-719 | reclaims for whole blocks and places the KV cache; nothing is evicted when whole blocks suffice, every reclaim asks for exactly the blocks that lack and takes a cheapest cover of them or no group in vain; a prefix policy fails exactly at a reclaim the others hold too little for or that frees no block; in a pool of whole blocks it fails exactly when too little is free or evictable, and object by object exactly when an emptied pool lacks blocks |
| `SegmentFragments.Scatters` | evaluation/tensor_simulator/tensor_sim_segment_backend.py:473-485 | for every block size: pools with enough bytes, and with a block once everything is evicted, on which either prefix policy gives up because its reclaims free only scattered bytes |
| `SegmentFragments.GivesUp` | evaluation/tensor_simulator/tensor_sim_segment_backend.py:482-485 | a planner over such a pool ends with that error |
| `SegmentBlocks.WholeEnough` | evaluation/tensor_simulator/tensor_sim_segment_backend.py:474-478 | in a pool of whole blocks, free and evictable bytes are blocks |
| `SegmentBlocks.NewPoolBlocked` | evaluation/tensor_simulator/tensor_sim_segment_backend.py:14-17 | a new pool of whole blocks is one |
| `SegmentPlanner.MockAllocationSegmentMemory.PlanRequest` | evaluation/tensor_simulator/tensor_sim_segment_backend.py:646-720 | a planned request has its whole model and KV cache resident, its loads recorded, and bytes conserved; it has evicted what its weights and then its KV cache needed, and no more; in a pool of whole blocks it is planned exactly when it fits; result, cost and layout are a function of the pool it finds |
| `SegmentPlanner.MockAllocationSegmentMemory.PrepareTensor` | evaluation/tensor_simulator/tensor_sim_segment_backend.py:732-739 | a planned group costs what its plan says, once; a resident one nothing; otherwise the base class allocates |
| `SegmentPlanner.MockAllocationSegmentMemory.PrepareTensors` | evaluation/tensor_simulator/layerweave_tensor_pipeline_sim.py:430-431 | after a plan no tensor allocates or evicts, exactly the missing bytes are loaded, and groups are touched in order |
| `SegmentPlanner.MockAllocationSegmentMemory.ServeRequest` | evaluation/tensor_simulator/layerweave_tensor_pipeline_sim.py:428-432 | a served request keeps the pool well formed and every model's shape, with bytes conserved; it evicts what its weights and then its KV cache need and no more; it fails on weights exactly when they do not fit; in a pool of whole blocks it is served exactly when it fits, and evicts nothing when the free bytes cover its missing groups and KV cache; outcome, cost and state left are a function of the state it finds |
| `SegmentThrift.SpaceIsThere` | evaluation/tensor_simulator/tensor_sim_segment_backend.py:675-684 | when the free bytes cover the missing groups and, under a prefix policy, the KV cache, the reclaim for the weights changes nothing |
| `SegmentThrift.BlocksAreThere` | evaluation/tensor_simulator/tensor_sim_segment_backend.py:473-478 | when the free extents hold enough whole blocks, neither reclaim for the KV cache changes anything |
| `SegmentThrift.BytesEvicted` | evaluation/tensor_simulator/tensor_sim_segment_backend.py:681-684 | evicting one by one, the policy's victims go one after the other as long as too few bytes are free, and not one more |
| `SegmentThrift.NothingEvicted` | evaluation/tensor_simulator/tensor_sim_segment_backend.py:646-720 | in a pool of whole blocks a request whose missing groups and KV cache the free bytes cover evicts nothing, and every key stays |
| `SegmentPlanner.MockAllocationSegmentMemory.Clone` | evaluation/tensor_simulator/tensor_sim_segment_backend.py:22-46 | a fresh planner over a fresh pool, both in the same state |
| `SegmentPlanner.PreviewThenCommit` | evaluation/tensor_simulator/tensor_sim_segment_backend.py:22-46 | running a request on a clone leaves the planner and its pool untouched; committing it then ends alike, at the same cost or the same stage, and a served one leaves the same state |
| `SegmentRuns.ResidencyState` | evaluation/tensor_simulator/layerweave_tensor_pipeline_sim.py:422-427 | the residency state describes exactly the resident groups, and never fails under the prefix policies or LRU |
| `SegmentRuns.Simulate` | evaluation/tensor_simulator/layerweave_tensor_pipeline_sim.py:418-432 | over any run the shape checks never fail under the prefix policies or LRU, and a run stops on weights only at a request that does not fit |
| `SegmentRuns.LruRuleExists` | evaluation/tensor_simulator/tensor_sim_memory_common.py:190-218 | there is a victim rule with the LRU property |
| `Pipeline.ExecutePipelined` | evaluation/tensor_simulator/layerweave_tensor_pipeline_sim.py:337-379 | the critical path is start, first load, the longer of each computation and the next load, and the last computation; it is all computation plus the recorded stalls; the first load stalls in full, any other one for exactly what it exceeds the computation before it by |
| `Pipeline.OverlapBounds` | evaluation/tensor_simulator/layerweave_tensor_pipeline_sim.py:347-379 | overlap is never slower than loading first and computing then, nor faster than either alone |
| `Pipeline.HiddenOrHiding` | evaluation/tensor_simulator/layerweave_tensor_pipeline_sim.py:347-379 | loads hidden by the computations before them cost nothing but the first; loads that hide those computations cost all their time |
| `Pipeline.SimulateGpu` | tools/layerpipe/layerweave_estimator.py:323-345 | the estimator's replay has the same closed form with prefetch and is fully serial without; the path is computation plus stall |
| `Pipeline.PrefetchNeverSlower` | tools/layerpipe/layerweave_estimator.py:329-342 | prefetch is never slower and never stalls longer |
| `OnlineTiming.ChooseCandidate` | evaluation/tensor_simulator/layerweave_tensor_pipeline_sim.py:902-926 | the first candidate round-robin whose score is as good as the best, with its predicted queueing; in the timing replay no other candidate would give its first token, plus weighted damage, clearly earlier |
| `OnlineTiming.ChosenIsSoonest` | evaluation/tensor_simulator/layerweave_tensor_pipeline_sim.py:907-926 | whatever the rule chooses, its first token in the replay plus its weighted damage is within the tolerance of every other candidate's |
| `OnlineTiming.CloseMeans` | evaluation/tensor_simulator/layerweave_tensor_pipeline_sim.py:918-921 | two scores are as good as each other when a billion times their difference is at most one or at most one of them |
| `OnlineTiming.SoonestWithoutDamage` | evaluation/tensor_simulator/layerweave_tensor_pipeline_sim.py:907-926 | with weight zero no candidate would give its first token clearly earlier |
| `OnlineTiming.ApplyOnlineTiming` | evaluation/tensor_simulator/layerweave_tensor_pipeline_sim.py:727-777 | the rows and final availability of the replay, each row's times adding up from its request's; a request behind the end of the routing goes to the first GPU, round-robin, that is free earliest |
| `OnlineTiming.RowAddsUp` | evaluation/tensor_simulator/layerweave_tensor_pipeline_sim.py:755-762 | a row's times follow from its request's: it waits, is served, and decodes |
| `OnlineTiming.RouteOnline` | evaluation/tensor_simulator/layerweave_tensor_pipeline_sim.py:949-957 | whatever times the requests take once executed, the queueing predicted at routing equals the queueing the timing pass replays, and every request goes where its replayed first token plus weighted damage is within the tolerance of the soonest |
| `OnlineTiming.BusyIntervalsDisjoint` | evaluation/tensor_simulator/layerweave_tensor_pipeline_sim.py:755-762 | requests on one GPU occupy it one at a time, in order |
| `OnlineTiming.NoIdleWaiting` | evaluation/tensor_simulator/layerweave_tensor_pipeline_sim.py:755-756 | a request that waits starts the moment an earlier request of its GPU finishes |
| `TraceArrangement.AtMostHalf` | evaluation/traces/generate_target_trace.py:162-164 | without consecutive repeats a model fills at most every other place |
| `TraceArrangement.GreedyStep` | evaluation/traces/generate_target_trace.py:165-172 | taking any most frequent candidate keeps the rest arrangeable |
| `TraceArrangement.BalancedSequence` | evaluation/traces/generate_target_trace.py:154-173 | whatever the random choices, succeeds exactly when no count exceeds half the total rounded up, with the given counts and no repeats |
| `TraceArrangement.ValidSwap` | evaluation/traces/generate_target_trace.py:324-344 | on a sequence without repeats, accepts exactly the swaps outside the frozen prefix that change something and leave no repeats |
| `TraceArrangement.Anneal` | evaluation/traces/generate_target_trace.py:371-415 | whatever is proposed and accepted, counts, frozen prefix and absence of repeats are kept and the loss does not rise |
| `ReuseDistance.ByTimestamps` | evaluation/traces/generate_target_trace.py:260-280 | comparing timestamps gives every model's list of distances |
| `ReuseDistance.BySeenSets` | evaluation/traces/show_trace_pattern.py:80-102 | per-model seen sets give every model's list of distances |
| `ReuseDistance.ByRescanning` | evaluation/motivation/multi_model_locality.py:178-204 | rescanning the gap gives every model's list of distances |
| `ReuseDistance.AllAgree` | evaluation/traces/show_trace_pattern.py:80-102 | the three results agree on every trace |
| `Placement.FillCell` | sllm_store/sllm_store/device_map_utils.py:246-270 | a cell is finite exactly when its modules can be cut; it then holds such a cut with the sizes of its smallest and largest run, the first of those whose last run lies closest to the runs before it |
| `Placement.TwoBalanced` | sllm_store/sllm_store/device_map_utils.py:253-268 | for two runs the closest last run makes the larger of the two as small as in any cut that fits |
| `Placement.GapIsFurthest` | sllm_store/sllm_store/device_map_utils.py:256-262 | the gap of a cut to a new run is how far that run lies from the one it differs from most |
| `Placement.SizesAdd` | sllm_store/sllm_store/device_map_utils.py:247-250 | the size of a run is that of its parts, down to single modules |
| `Placement.CutCovers` | sllm_store/sllm_store/device_map_utils.py:272-277 | the runs of a cut, one after the other, are the modules in order |
| `Placement.BalancedPlacement` | sllm_store/sllm_store/device_map_utils.py:213-278 | finds a placement exactly when the modules can be cut into one non-empty run per device, each fitting; every module is on the device of its run; for two devices and non-negative sizes no fitting cut has a smaller larger run |
| `WeightArena.PackTensors` | tools/layerpipe/layerpipe_bench.py:333-369 | every tensor can be read back from its place, places share no element, an arena exceeds the target only if it is a single tensor, and a new one is opened only for a tensor the one before has no room for |
| `WeightArena.PackedStore` | tools/layerpipe/layerpipe_bench.py:362-369 | what packing produces is a valid store of all the tensors, whose views are the tensors |
| `WeightArena.MergeRanges` | tools/layerpipe/layerpipe_bench.py:438-444 | the merged ranges are separate, cover the same positions and have the same total length |
| `WeightArena.CpuWeightStore.Seen` | tools/layerpipe/layerpipe_bench.py:371-403 | whichever view a parameter is bound to, the module reads the master's values |
| `WeightArena.CpuWeightStore.EnsureGpuArenas` | tools/layerpipe/layerpipe_bench.py:405-412 | room for every arena; existing arenas are kept |
| `WeightArena.CpuWeightStore.CopyModules` | tools/layerpipe/layerpipe_bench.py:423-454 | only the missing tensors' positions are written, from their masters; exactly their bytes are counted; the modules' parameters are bound to GPU views, and every resident view equals its master |
| `WeightArena.CpuWeightStore.CopyAll` | tools/layerpipe/layerpipe_bench.py:456-466 | afterwards every tensor is resident, bound and equal to its master, and the bytes of all arenas are counted |
| `WeightArena.CpuWeightStore.RestoreCpu` | tools/layerpipe/layerpipe_bench.py:468-472 | afterwards nothing is resident and no GPU storage is held |
| `PackedFiles.Read` | tools/layerpipe/convert_rank0_to_safetensors.py:170-199 | a read is the slice of the concatenated partitions; the only request within bounds that fails is an empty read behind the last byte |
| `PackedFiles.GroupTensors` | sllm_store/sllm_store/torch.py:128-166 | grouping loses nothing, adding a group's offset back gives the original offsets, every group but the last reaches the chunk size, and none goes on after reaching it |
| `PackedIndex.ParseIndex` | tools/layerpipe/convert_rank0_to_safetensors.py:94-123 | the offset of a tensor is its group's plus its own, of the last ones named before its size; which lines raise the malformed or duplicate error, and that a text without tensors is refused |
| `PackedIndex.MeaningUnique` | tools/layerpipe/convert_rank0_to_safetensors.py:94-123 | a text means at most one outcome |
| `PackedIndex.SplitJoined` | tools/layerpipe/convert_rank0_to_safetensors.py:98 | lines without line breaks of their own, written out and split again, are the same lines |
| `PackedIndex.SplitAtBreak` | tools/layerpipe/convert_rank0_to_safetensors.py:98 | a line ends at any line break, and a carriage return takes a line feed behind it along |
| `PackedIndex.Breaks` | tools/layerpipe/convert_rank0_to_safetensors.py:98 | the characters a line ends at |
| `PackedFiles.Spaces` | tools/layerpipe/convert_rank0_to_safetensors.py:99-104 | the characters stripped from either end |
| `PackedIndex.IndexRoundTrip` | sllm_store/sllm_store/torch.py:170-187 | with fingerprints free of line breaks, parsing the written text gives every tensor's own offset and size back if and only if there is a tensor, the names are distinct, and none has a line break or space at either end |

## Left out

- Wall-clock solver and planner times, frontier peaks, options considered, summaries, percentiles, CSV/JSON output, argument parsing and file reading.
- Millisecond costs of loading, mapping and compaction: the memory models count bytes; the pipeline model takes load times as given.
- Over-release of a plan among equally cheap ones: states below the requirement are pruned on cost alone, so only cost is optimal.
- Page backends under policies other than prefix-MCKP, their touch order, and `_evict_pages`.
- Victim values of the frequency, pipeline and protected policies: any rule that picks a candidate is covered, none of them in particular.
- Extent objects updated in place and shared with the key index: extents are values, and the lazy rebuild of the index after tests replace the extent list is not modelled.
- `_placement_rank`, `naive_relocation_bytes`, `metrics` and `finish_request`.
- SegmentPool.SegmentMemory.constructor: a pool of capacity zero is not modelled, because every extent of the model has bytes.
- SegmentPlanner.MockAllocationSegmentMemory.PlanKv: for a prefix policy outside pools of whole blocks, success is characterised by the reclaims it makes one after the other, because what one frees decides whether the next is tried.
- SegmentPartition.PartitionRequests: free extents are not clipped at the weight limit, because the planner always works with the limit at the capacity, where clipping is the identity.
- OnlineTiming.ApplyOnlineTiming: the SLO fields and the summary are left out.
- StallTable.SimulateStall: where a load waits for a boundary before time zero, only the lower bound is stated; boundaries are elapsed times, so a row is built from non-negative ones.
- StallTable.Lookup: suffix curves present in only some rows are not modelled; memo dictionaries are not modelled.
- Placement.BalancedPlacement: for three devices or more that the gap between runs is minimal is not claimed, because the table ignores the gap carried from earlier runs.
- PackedIndex.ParseIndex: decimal digits other than ASCII, which Python's `int` also reads, are not modelled.
- `max_distance_tail`, `min_distance_tail`, `controlled_loss`, regression fitting, trace sampling, `_get_sequential_placement`, the serving stack, the store client and the C++/CUDA backends.
