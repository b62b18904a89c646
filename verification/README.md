# Breathe: decision kernels, modelled and proved

Breathe sizes workloads: it splits a pool's band among claimants, moves replica
counts and memory limits toward a target, and carves storage. This project models
the decision code of that fabric in Dafny and proves what its documentation
promises of it — or, where the code does less, exactly when the promise holds, with
an input on which it does not.

| component | modules |
|---|---|
| single-level fair share (`allocate_even`) | `WaterFill` (values), `WaterFillKernel` (the loops), `WaterFillLaws`, `WaterFillPasses`, `WaterFillLevel`, `WaterFillExact`, `WaterFillTwins`, `WaterFillMonotone`, `WaterFillUniform`, `WaterFillFields` |
| the claimant forest and the per-axis fabric | `Claimants`, `Forest`, `Hierarchy`, `Fabric`, `FabricKernel`, `FabricFields` |
| dominant resource fairness, flat and hierarchical | `Drf`, `DrfKernel`, `DrfLaws`, `DrfFabric`, `DrfFabricKernel`, `DrfGuarantee`, `DrfRounding`, `DrfAgreement`, `DrfIncentives`, `DrfFields` |
| the horizontal replica law | `Replica`, `ReplicaRuns`, `QuorumRuns`, `PlannedRuns`, `ReplicaFields` |
| the lifecycle breath | `Lifecycle`, `LifecycleRuns`, `LifecycleFields` |
| the config-line codec | `ConfigText`, `ConfigCodec`, `ConfigAnyKey`, `ConfigBytes`, `ConfigFields` |
| the Pareto auction | `Pareto` |
| dependency graphs and zones | `Acyclic`, `Zone` |
| the storage carve | `CarveSafety`, `CarveRuns` |
| machine integers, products, sums, ratios | `Machine`, `Arith`, `Sums`, `RealSums`, `Proportion` |

Code that updates variables in the source is a method with its loops here
(`AllocateEven`, `ParseForest`, `AllocateSubtree`, `AllocateDrfBand`,
`ParseConfigValue`, `RenderConfigValue`, the two searches, the graph builders) and is
proved equal to a function of its inputs, or to its meaning outright; the laws are
then lemmas about that function. The ledger the allocators write into, the
search state and the config file are classes. Pure source code stays pure.

Integers are mathematical with the source's ranges as subset types: a value stored in
a `u128` in the source is declared `u128` here, so verification includes that it
never overflows. Floating point is `real` with explicit floors and ceilings.

## Where the code and its documentation disagree

The model follows the code; these are the differences, each with its exact condition
or a concrete input.

- Equal claims do not always get equal grants: crumbs go one by one
  (`EqualClaimsUnequalGrants`). Twins agree exactly under `EqualGrantsIff`
  (`SettledTwinsIff` and `UniformIsEvenIff` on the inputs), and differ by at most one
  unit per pass, in index order (`IdenticalClaims`).
- Adding a sibling can raise another's grant, by rounding (`MonotoneAddFails`).
  Whatever the band, it raises it by at most 160 units per other claim
  (`NearlyMonotoneAdd`, `MonotoneAddIsLinear`), and among identical claims by nothing
  (`UniformMonotoneAdd`).
- A grant exceeds `min(max, demand)` exactly when the (possibly scaled) floor does
  (`ClampOnFieldsIff`, `FloorBeyondCap`).
- An axis without a band is skipped when the shared dominant share is computed but
  still granted on (`OvershootsWithoutBand`, `AxisBoundedIff`), so a child can exceed its
  parent even under a pool of everything (`ChildOvershootsParent`,
  `DrfTreeRespectingIff`), unless the demands guarantee every demanded axis a unit
  (`GuaranteeBoundsTree`).
- After flooring, dominant shares differ (`FlooredSharesDiffer`), by less than a unit
  (`FlooredShareWithin`), on exactly the pools of `AlwaysAgreeIff`, and a grant need not
  be a multiple of its demand (`GrantIsNoMultiple`, `GrantStaysMultipleIff`).
- The quorum law can alternate between two rungs under a constant load
  (`QuorumFlapsIff`, `QuorumFlaps`, over runs `ReversesOnInputsIff`). The core law never
  reverses (`NeverReverses`).
- A quorum's resting count need not be one: an even start that nothing moves stays even
  (`EndsOnQuorumIff`, `EvenCountRests`).
- A quorum whose floor is an even ceiling scales above that ceiling
  (`NeverAboveCeilingIff`, `ScalesAboveCeiling`).
- A spot scale-out lowers a count that is above the ceiling (`ReclaimLowersIff`,
  `ReclaimLowers`), and a quorum shrink keeps a majority exactly when that majority
  fits under the ceiling (`ShrinkKeepsMajorityIff`, `ShrinkLosesMajority`).
- The lifecycle goes from Wake straight to Steady when there is nothing to tighten,
  which is not a declared edge (`LegalTransitionIff`, `WakeSkipsSettle`); a reading
  whose proven floor exceeds the ceiling seats a limit above it
  (`OvershootsCeilingIff`), from where a doubtful reading panics in a `clamp`
  (`PanicsIff`, `OvershootThenPanic`).
- Wake and Idle can trap: doubtful readings hold them past their timers (`DoubtTraps`,
  `LeavesIff`), and a use of nothing is doubtful, so a workload that idles at nothing
  never reaches Zero (`UnusedNeverSleeps`).
- Frontier filtering loses the best risk-adjusted score when a dearer candidate is
  safer (`RiskIgnoresDropped`); `RiskOptimalIff` says exactly when it cannot.
- A key that is untrimmed, spans lines, holds `=` or starts like a comment is written
  but never read back (`ReadBackIff`), and may set another key instead
  (`HarmlessIff`, `TrailingSpaceIsAnotherKey`).
- A write drops the carriage returns before newlines, and ends the last line, of config
  it is not about (`CarriageReturnIsDropped`, `KeepsCleanLines`, `LinesLosslessIff`).
- A claimant reported as part of a parent cycle may only lead into one
  (`ReportsOutsideCycle`, `ReportedOnCycleIff`).
- The not-in-use proof and the grow step do not name the volume they were read for, so
  a block in use can be released on another's proof (`InUseIsReleased`) and a step
  outrun within its tick shrinks a volume (`OutrunStepShrinks`). Commands rest on their
  own volume's readings exactly when the caller pairs them (`ReadForTargetIff`), and
  nothing shrinks exactly when every step committed orders no less than its volume has
  (`NothingShrinksIff`).

## Model

| member | source | states |
|---|---|---|
| WaterFillKernel.AllocateEven | breathe-auction/src/quinhao.rs:192-299 | the grants are the specification's and sum to at most the band; where floors fit they sum to the lesser of the band and everybody's due, and a claim whose floor is within its maximum and its demand gets no more than either; every `u128` intermediate is in range and no `u64` narrowing loses anything |
| WaterFillKernel.FillToFixpoint | breathe-auction/src/quinhao.rs:229-296 | the pass loop terminates and reaches the specification's fixpoint from any valid state |
| WaterFillKernel.FloorShares | breathe-auction/src/quinhao.rs:246-255 | every active claim's add is the floor of its exact weighted share and frozen claims get none |
| WaterFillKernel.HandCrumbs | breathe-auction/src/quinhao.rs:256-270 | the rounding remainder is handed out completely, one unit each to the first claims of the weight-then-index order |
| WaterFillKernel.ApplyAdds | breathe-auction/src/quinhao.rs:272-295 | grants, freezes and the freed total after applying the adds, and the flag says exactly whether something froze |
| WaterFill.SharesSum | breathe-auction/src/quinhao.rs:248-259 | floored shares sum to at most what remained, and the remainder is less than the number of active claims, so one crumb each suffices |
| WaterFill.AddsSum | breathe-auction/src/quinhao.rs:256-270 | shares and crumbs of a pass sum to exactly what remained |
| WaterFill.InsertKeepsOrder | breathe-auction/src/quinhao.rs:261-262 | the crumb order is strictly heavier-first then lower-index, and contains exactly the inserted indices |
| WaterFill.PassConserves | breathe-auction/src/quinhao.rs:229-296 | a pass keeps grants plus remainder constant, frozen claims at saturation and active ones between floor and cap |
| WaterFill.PassProgress | breathe-auction/src/quinhao.rs:224-228 | a pass that freezes nothing leaves nothing; any other leaves fewer active claims |
| WaterFillLaws.GrantsInRange | breathe-auction/src/quinhao.rs:183-187 | when floors fit, every grant is between its floor and its saturation |
| WaterFillLaws.FloorsMetIff | breathe-auction/src/quinhao.rs:183-186 | every claim gets its floor exactly when the floors sum to at most the band |
| WaterFillLaws.Conservation | breathe-auction/src/quinhao.rs:182-299 | when floors fit, the grants sum to exactly the smaller of the band and the total saturation |
| WaterFillLaws.AtMostOnePassPerClaim | breathe-auction/src/quinhao.rs:225-228 | at most one pass per claim |
| WaterFillPasses.PassFrees | breathe-auction/src/quinhao.rs:272-295 | what a pass frees is at most the freezing claims' weighted part of what it handed out |
| WaterFillPasses.PassesLogarithmic | breathe-auction/src/quinhao.rs:224-296 | from any state, four to the passes less one is at most the remainder times the active weight |
| WaterFillPasses.AtMostEightyPasses | breathe-auction/src/quinhao.rs:225-228 | no slice of claims on any 64-bit band takes more than eighty passes, however many claims there are |
| WaterFillLaws.ScaledFloorsBounds | breathe-auction/src/quinhao.rs:195-212 | when floors do not fit: within the band, nobody above its floor, and less than one unit per claim lost |
| WaterFillLaws.BandBounded | breathe-auction/src/quinhao.rs:182 | the grants never sum to more than the band |
| WaterFillFields.ClampOnFieldsIff | breathe-auction/src/quinhao.rs:165-187 | a grant stays within both the maximum and the demand exactly when the floor does, or, where floors do not fit, the scaled floor |
| WaterFillFields.ConservationOfDues | breathe-auction/src/quinhao.rs:165-299 | where floors fit the grants sum to the lesser of the band and the dues: a claim's floor at weight zero, otherwise the larger of the floor and the lesser of maximum and demand |
| WaterFillFields.FloorsScaleInProportion | breathe-auction/src/quinhao.rs:195-212 | where they do not, each is granted its part of the band among the floors, rounded down |
| WaterFillFields.RestGoesToTheOther | breathe-auction/src/quinhao.rs:187 | what one of two claims leaves, the other is granted |
| WaterFillFields.IdleFreesItsShare | breathe-auction/src/quinhao.rs:187 | a claim that wants 5 of a maximum of 100 leaves 15 of a band of 20 to its sibling |
| WaterFillLaws.FloorBeyondCap | breathe-auction/src/quinhao.rs:187 | a claim with a floor of 10 that may hold 5 is granted 10 of a band of 20 |
| WaterFillLaws.WeightedFairness | breathe-auction/src/quinhao.rs:174-180 | weighted max-min fairness: a claim left below its cap is outdone above the floors, weight for weight, by nobody beyond one rounding per pass, nor per claim |
| WaterFillLevel.OneLevelForAll | breathe-auction/src/quinhao.rs:229-296 | there is one water level for the whole list from which every grant is within one unit per pass of its exact fill |
| WaterFillExact.ExactLevelExists | breathe-auction/src/quinhao.rs:229-296 | every total between the floors and saturation is the sum of some level's exact fills |
| WaterFillExact.ExactFillIsUnique | breathe-auction/src/quinhao.rs:229-296 | no other fills sum to it, so a list has one exact fill |
| WaterFillExact.NearExactFill | breathe-auction/src/quinhao.rs:229-296 | no grant is off its list's exact fill by more than one unit per pass and other claim |
| WaterFillLaws.CrumbsInOrder | breathe-auction/src/quinhao.rs:256-270 | no active claim gets a crumb that a heavier one, or an equally heavy one before it, did not get |
| WaterFillLaws.IdenticalClaims | breathe-auction/src/quinhao.rs:186 | of two identical claims the lower index never gets less and leads by at most the number of passes, by nothing when floors are scaled |
| WaterFillTwins.EqualGrantsIff | breathe-auction/src/quinhao.rs:186 | in any list, two equal claims get equal grants exactly when floors do not fit, the higher one starts frozen or reaches its cap, or no pass separates them |
| WaterFillTwins.CrumbByRank | breathe-auction/src/quinhao.rs:256-270 | an active claim gets one of the crumbs exactly when fewer active claims than crumbs come before it by weight and index |
| WaterFillTwins.SettledTwinsIff | breathe-auction/src/quinhao.rs:186 | in a list that one pass settles, two equal claims get equal grants exactly when the crumbs do not run out between their ranks |
| WaterFillMonotone.NearlyMonotoneAdd | breathe-auction/src/quinhao.rs:560-561 | inserting a claim anywhere raises another's grant by at most one rounding per other old claim and pass of either list |
| WaterFillMonotone.MonotoneAddIsLinear | breathe-auction/src/quinhao.rs:560-561 | on a 64-bit band that is at most 160 units per other old claim, whatever the band |
| WaterFillUniform.UniformSplit | breathe-auction/src/quinhao.rs:186 | identical claims get the floored surplus share, the first `surplus mod n` one more, capped |
| WaterFillUniform.UniformIsEvenIff | breathe-auction/src/quinhao.rs:186 | a list of identical claims is granted evenly exactly when it starts frozen, its floors do not fit, the surplus divides evenly, or all reach the cap |
| WaterFillUniform.UniformMonotoneAdd | breathe-auction/src/quinhao.rs:560-561 | one more identical claim never raises anybody's grant |
| WaterFillUniform.EqualClaimsUnequalGrants | breathe-auction/src/quinhao.rs:186 | three equal claims over a band of 10 get 4, 3 and 3 |
| WaterFillUniform.MonotoneAddFails | breathe-auction/src/quinhao.rs:560-561 | adding weight 9 to weights 10 and 11 over a band of 2 raises the first grant |
| Forest.ParseForest | breathe-auction/src/quinhao.rs:600-645 | accepts exactly the lists with unique ids, resolving parents and no ancestor cycle; each refusal kind holds exactly when its cause does, in that order, and names a culprit: for a cycle the first claimant whose chain never ends |
| Forest.WalkIsCyclic | breathe-auction/src/quinhao.rs:619-633 | the bounded walk reports exactly the chains that repeat a node |
| Forest.IndexChildren | breathe-auction/src/quinhao.rs:635-642 | each parent's bucket holds exactly its children in claimant order, and only non-empty buckets exist |
| Forest.LongChainRepeats | breathe-auction/src/quinhao.rs:619-633 | a chain with as many steps as claimants visits some node twice |
| Forest.RepeatIsCycle | breathe-auction/src/quinhao.rs:619-633 | a chain that repeats contains a claimant that is its own ancestor, even when the start is not on the cycle |
| Forest.ReportedOnCycleIff | breathe-auction/src/quinhao.rs:619-633 | in every ordering of a list the reported claimant is on a cycle exactly when every claimant whose chain never ends is |
| Forest.ReportsOutsideCycle | breathe-auction/src/quinhao.rs:472-479 | a claimant under one that is its own parent is reported although it is on no cycle |
| Hierarchy.AntichainBounded | breathe-auction/src/quinhao.rs:555-558 | in any tree-respecting ledger, claimants that are not each other's ancestors sum to at most the pool |
| Hierarchy.BelowIsAncestor | breathe-auction/src/quinhao.rs:600-645 | descent in the forest is exactly the ancestor relation of the parent chains |
| Hierarchy.KidsInOrder | breathe-auction/src/quinhao.rs:635-642 | a parent's children are listed at increasing places, and at every place whose claimant names it |
| FabricFields.SiblingsSplitTheWhole | breathe-auction/src/quinhao.rs:650-675 | siblings are granted exactly the single-level split, by their own demand fields on the axis, of their parent's whole grant, or of the pool |
| FabricFields.SiblingsHoldTheWhole | breathe-auction/src/quinhao.rs:665 | where their floors fit, they hold together exactly the lesser of that grant and all that is due to them |
| FabricFields.OnlyChildInherits | breathe-auction/src/quinhao.rs:665 | an only child that takes anything is granted all its parent was |
| FabricFields.DeliveredOnFields | breathe-auction/src/quinhao.rs:569-594 | each field of a returned vector is the grant on its own axis of its own band |
| FabricFields.SiblingsSplitTheVector | breathe-auction/src/quinhao.rs:863-882 | joint siblings are granted the flat kernel's answer to their own demands on all of their parent's vector |
| Fabric.FabricRespectsTree | breathe-auction/src/quinhao.rs:557-558 | children never sum to more than their parent's grant, at any depth |
| Fabric.FabricAntichainBounded | breathe-auction/src/quinhao.rs:555-558 | on every axis claimants that are not each other's ancestors sum to at most the pool's band |
| Fabric.AxisIndependence | breathe-auction/src/quinhao.rs:546-550 | a grant on one axis depends only on the demands on that axis and the forest |
| FabricKernel.AllocateSubtree | breathe-auction/src/quinhao.rs:650-675 | the recursion terminates and sets exactly the axis of exactly the descendants to what they are owed, touching nothing else |
| FabricKernel.AllocateFabric | breathe-auction/src/quinhao.rs:569-594 | refuses exactly the malformed forests; otherwise one vector per claimant, holding what it is owed on all four axes |
| FabricKernel.PoolBand | breathe-auction/src/quinhao.rs:575-590 | the band is the whole units of the capacity times the setpoint, and never exceeds the capacity |
| FabricKernel.Setpoint | breathe-auction/src/quinhao.rs:575-590 | the setpoint itself exactly inside (0, 1], and one elsewhere |
| DrfFabricKernel.PoolBands | breathe-auction/src/quinhao.rs:908-924 | every axis of the joint pool rounds down to the per-axis band; at a setpoint of one it is the capacity |
| DrfFields.TakesPartIff | breathe-auction/src/quinhao.rs:711-730 | a claimant takes part exactly when it asks, for more than nothing and less than everything, on an axis with a band |
| DrfFields.UnaskedGetsNothing | breathe-auction/src/quinhao.rs:722-844 | an axis asked for without bound or not at all is granted nothing |
| DrfFields.AskedGetsSome | breathe-auction/src/quinhao.rs:773-844 | a finite demand on an axis with a band is given a positive amount of it, before flooring |
| DrfFields.NothingAskedNothingGranted | breathe-auction/src/quinhao.rs:722-844 | a claimant with no finite demand is granted nothing at all |
| DrfFields.NothingAskedNothingChanged | breathe-auction/src/quinhao.rs:722-844 | removing such a claimant from the list changes nobody else's vector |
| DrfFields.UnboundedTakesNothing | breathe-auction/src/quinhao.rs:722 | next to a claimant that asks without bound, one that asks for 50 of storage is granted the whole of its band |
| Drf.PerShareBounds | breathe-auction/src/quinhao.rs:715-730 | per unit of dominant share no axis is taken beyond its band and the dominant one exactly up to it |
| Drf.SomeoneShares | breathe-auction/src/quinhao.rs:809-817 | there is a finite share exactly when somebody participates |
| Drf.FirstSaturation | breathe-auction/src/quinhao.rs:781-808 | before flooring no axis with a band is over-allocated, and some axis is handed out to the last unit |
| DrfKernel.AllocateDrfBand | breathe-auction/src/quinhao.rs:773-844 | the kernel with its loops computes the specified vectors |
| DrfLaws.ShareBetween | breathe-auction/src/quinhao.rs:781-808 | with m participants the equalized share is between 1/m and 1 |
| DrfLaws.EqualDominantShares | breathe-auction/src/quinhao.rs:745-748 | before flooring every participant ends at the same dominant share, all others at none |
| DrfLaws.Proportional | breathe-auction/src/quinhao.rs:749-751 | before flooring a bundle is the claimant's demand vector scaled, axis against axis |
| DrfLaws.ExactIsTasks | breathe-auction/src/quinhao.rs:819-840 | an amount is the number of tasks at the share times the demand |
| DrfLaws.EnvyFree | breathe-auction/src/quinhao.rs:732-751 | whatever number of its tasks a claimant could run on another's bundle it can run on its own |
| DrfLaws.SharingIncentive | breathe-auction/src/quinhao.rs:732-751 | whatever a claimant could run on an m-th of every band it can run on its bundle |
| DrfIncentives.StrategyProof | breathe-auction/src/quinhao.rs:732-751 | whatever demand a participant reports instead of its own, it cannot run more of its own tasks on the bundle it then gets |
| DrfIncentives.FlooredEnvy | breathe-auction/src/quinhao.rs:828-840 | what a claimant could run on another's grant it can run on its own, less at most an m-th of a task, m its smallest contended demand |
| DrfIncentives.FlooredReport | breathe-auction/src/quinhao.rs:828-840 | what a participant could run on its grant for another report it can run on its own grant, less no more than that |
| DrfIncentives.ParetoEfficientIff | breathe-auction/src/quinhao.rs:781-808 | nobody could run more tasks at nobody's expense exactly when every participant contends on an axis handed out to the last unit |
| DrfIncentives.RoundLeavesRoom | breathe-auction/src/quinhao.rs:732-735 | two claimants saturate storage while the cpu claimant stops at half of an idle axis |
| DrfLaws.AxisBounded | breathe-auction/src/quinhao.rs:743-744 | the floored grants never exceed a positive band |
| DrfLaws.FlooringLosesLessThanOne | breathe-auction/src/quinhao.rs:828-840 | flooring takes less than one unit per claimant and axis |
| DrfLaws.FlooredShareIff | breathe-auction/src/quinhao.rs:745-748 | of the floored grants: a participant's dominant share is at most the shared one, and meets it exactly when that is a whole number of units of a dominant axis |
| DrfRounding.FlooredShareWithin | breathe-auction/src/quinhao.rs:745-748 | a floored dominant share is above the shared one less a unit of the claimant's dominant axis |
| DrfRounding.FlooredSharesDiffer | breathe-auction/src/quinhao.rs:745-748 | of two storage claimants and a cpu claimant due half each, the first two get a third and the last half |
| DrfAgreement.AlwaysAgreeIff | breathe-auction/src/quinhao.rs:745-748 | the grants of all participants of every list have the same dominant share exactly on the pools where all axes with a band have the same, or none has a whole unit |
| DrfRounding.GrantIsMultipleIff | breathe-auction/src/quinhao.rs:749-751 | a floored grant is a multiple of the demand exactly when what the number of tasks leaves of the demands' greatest common divisor buys no unit of the largest demand |
| DrfRounding.GrantStaysMultipleIff | breathe-auction/src/quinhao.rs:749-751 | the same for every claimant, whose greatest common and largest demand always exist |
| DrfRounding.GrantIsNoMultiple | breathe-auction/src/quinhao.rs:749-751 | half of ten storage and three cpu is granted as five and one |
| DrfLaws.AxisBoundedIff | breathe-auction/src/quinhao.rs:743-744 | an axis stays within its band exactly when it has one or nobody is due a whole unit of it |
| DrfLaws.OvershootsWithoutBand | breathe-auction/src/quinhao.rs:828-840 | a claimant is granted cpu although the cpu band is zero |
| DrfFabric.SiblingsSplitJointly | breathe-auction/src/quinhao.rs:863-882 | siblings hold exactly the flat kernel's answer on their parent's vector; the top level is the flat kernel on the pool |
| DrfFabric.DrfTreeRespectingIff | breathe-auction/src/quinhao.rs:893-896 | on an axis children stay within parents everywhere exactly when every level has a band there, out of its parent's grant, or is due less than a unit each |
| DrfFabric.DrfAntichainBounded | breathe-auction/src/quinhao.rs:893-896 | where every demanded axis has a band at its level, claimants that are not each other's ancestors sum to at most the pool |
| DrfGuarantee.GuaranteeHolds | breathe-auction/src/quinhao.rs:863-882 | down any tree every claimant is granted at least an m-th of its parent's guarantee in its own shape, a bound on the pool and the demands alone |
| DrfGuarantee.GuaranteeBoundsTree | breathe-auction/src/quinhao.rs:893-896 | where that guarantee gives every demanded axis a unit at its level, children stay within parents on every axis |
| DrfGuarantee.GuaranteeBoundsAntichains | breathe-auction/src/quinhao.rs:893-896 | and claimants that are not each other's ancestors sum to at most the pool |
| DrfGuarantee.ChildOvershootsParent | breathe-auction/src/quinhao.rs:893-896 | over a pool of a hundred of everything, a child asking for cpu is granted some under a parent granted none |
| DrfFabricKernel.AllocateDrfSubtree | breathe-auction/src/quinhao.rs:863-882 | the recursion inserts exactly the vectors the descendants are owed and touches nothing else |
| DrfFabricKernel.AllocateDrfFabric | breathe-auction/src/quinhao.rs:908-924 | refuses exactly the malformed forests; otherwise the ledger is exactly what every claimant is owed |
| Replica.AtLeast | breathe-control/src/replica.rs:164-171 | the result is a quorum covering the count, overshooting by at most one above three |
| Replica.AtMost | breathe-control/src/replica.rs:179-188 | the result is a quorum within the ceiling, short of it by at most one, never below three |
| Replica.StepUp | breathe-control/src/replica.rs:193-195 | the next quorum is strictly above, by at most two |
| Replica.StepDown | breathe-control/src/replica.rs:201-204 | the previous quorum is strictly below, by at most two, down to three |
| ReplicaRuns.TickTowardsGoal | breathe-control/src/replica.rs:770-833 | under a constant load a tick moves strictly toward the goal and never past it |
| ReplicaRuns.FullStepOrGoal | breathe-control/src/replica.rs:789-833 | a carve lands on the goal or moves by exactly the configured step |
| ReplicaRuns.WindowHolds | breathe-control/src/replica.rs:818-833 | a scale-in never undercuts the highest recommendation in the window, as far as the ceiling allows |
| ReplicaRuns.UtilizationIsRate | breathe-control/src/replica.rs:78-122 | a constant total load read as per-replica utilization decides exactly as the total does |
| ReplicaRuns.RestsIff | breathe-control/src/replica.rs:770-833 | exact condition under which the core law leaves the count alone |
| ReplicaRuns.RestsAtGoalOrInBand | breathe-control/src/replica.rs:770-833 | a resting count inside the envelope is at the goal or inside the dead-band |
| ReplicaRuns.RunConverges | breathe-control/src/replica.rs:735-833 | over a run under constant load every carve is paid for by distance to the goal, and the run stays on its side of it |
| ReplicaRuns.NeverReverses | breathe-control/src/replica.rs:735-833 | no run under constant load contains both a scale-up and a scale-down |
| ReplicaRuns.RestsWithinDistance | breathe-control/src/replica.rs:735-833 | after as many ticks as the distance to the goal the law rests for good |
| PlannedRuns.PlannedRunSettles | breathe-control/src/replica.rs:735-833 | over planned ticks of a stateless or master-slave workload: the count moves towards the least count within the envelope that carries the load, never past it, and after as many ticks as the distance rests there or where the load is within the tolerances of the count times the target |
| PlannedRuns.TickIsCore | breathe-control/src/replica.rs:735-760 | a live planned tick under a constant load does what the core law says, except that a persistent workload is left where it would fall |
| PlannedRuns.RunIsQuorum | breathe-control/src/replica.rs:848-909 | a run of planned ticks of a quorum is the quorum law's run |
| PlannedRuns.PersistentRunIs | breathe-control/src/replica.rs:735-760 | a persistent workload's run is the core law's from below the goal, and stays from above |
| PlannedRuns.UtilizationPlansAlike | breathe-control/src/replica.rs:78-122 | a utilization reading plans the tick that the total load it stands for does |
| ReplicaFields.RawIsLeast | breathe-control/src/replica.rs:101-122 | a count is at least the raw desired one exactly when it times the target carries the load |
| ReplicaFields.WantsUpIff | breathe-control/src/replica.rs:78-92 | a count is to rise exactly when the load exceeds it times the target by more than the tolerance up; at none, when there is any load |
| ReplicaFields.WantsDownIff | breathe-control/src/replica.rs:78-92 | it is to fall exactly when the load is short by more than the tolerance down; at none, never |
| ReplicaFields.VelocityUp | breathe-control/src/replica.rs:770-833 | a tick adds no more than the pods, the percentage, or one |
| ReplicaFields.VelocityDown | breathe-control/src/replica.rs:770-833 | a tick removes no more than the pods, the percentage, or one |
| ReplicaFields.StepsAre | breathe-control/src/replica.rs:770-833 | the step is the largest of the three |
| ReplicaFields.ReportsAre | breathe-control/src/replica.rs:735-909 | exactly when a count is reported at its ceiling, at its floor, held for rebalancing, or held |
| ReplicaFields.AboveFloorIff | breathe-control/src/replica.rs:451-472 | a count is above the topology's floor exactly when it is above the configured floor, the availability floor and what the topology needs |
| ReplicaFields.ValidIff | breathe-control/src/replica.rs:482-529 | exactly which configurations are valid, and which cause is named |
| ReplicaFields.PlannedIff | breathe-control/src/replica.rs:1019-1067 | exactly when a tick is planned, and which error it is otherwise |
| ReplicaFields.ForcedLands | breathe-control/src/replica.rs:1019-1067 | a live forced tick lands on the forced count, brought inside the envelope |
| ReplicaRuns.RunStaysInside | breathe-control/src/replica.rs:1019-1067 | any run of planned ticks, forced or reactive, with any signals, stays between the topology floor and the larger of that floor and the ceiling |
| ReplicaRuns.FloorAboveCeilingIff | breathe-control/src/replica.rs:465-529 | a valid configuration has its topology floor above its ceiling exactly for a quorum whose floor is an even ceiling |
| ReplicaRuns.NeverAboveCeilingIff | breathe-control/src/replica.rs:347 | all runs of a valid configuration from under the ceiling stay under it exactly when it is not such a quorum |
| ReplicaRuns.ScalesAboveCeiling | breathe-control/src/replica.rs:347 | a quorum of floor and ceiling four is scaled from 4 to 5 |
| ReplicaRuns.QuietTicksLeaveNoTrace | breathe-control/src/replica.rs:1048-1066 | over any run, dropping the ticks in shadow or cooldown changes no count |
| ReplicaRuns.LastWriteStands | breathe-control/src/replica.rs:1019-1067 | the count after any run is the carve its last writing tick decided, that tick was live and not deferred, and no later tick writes; without one it is the starting count |
| ReplicaRuns.LiveTickLands | breathe-control/src/replica.rs:1019-1067 | a live tick writes its decision unless it is a scale-in the policy refuses, and says which |
| ReplicaRuns.RefusedRunsNeverShrink | breathe-control/src/replica.rs:1019-1067 | where scale-ins are refused no run lowers the count or passes the wall |
| ReplicaRuns.ReclaimIsCovered | breathe-control/src/replica.rs:778-787 | a pending reclaim is covered, and what the load needs, as far as the wall allows, and no further than the floor asks or a quorum rounds up |
| ReplicaRuns.ReclaimLowersIff | breathe-control/src/replica.rs:778-787 | a reclaim lowers the count exactly when the count is above the wall |
| ReplicaRuns.ReclaimLowers | breathe-control/src/replica.rs:778-787 | ten replicas over a ceiling of five, one being reclaimed, are scaled out to five |
| ReplicaRuns.PersistentNeverShrinks | breathe-control/src/replica.rs:735-760 | unforced runs of a persistent workload never lower its count |
| ReplicaRuns.QuorumTargetsAreQuorums | breathe-control/src/replica.rs:848-909 | from any count, every quorum carve, forced or reactive, goes to an odd count of at least three |
| ReplicaRuns.EndsOnQuorumIff | breathe-control/src/replica.rs:848-909 | from any count, odd or even, a run ends on a quorum exactly when it started on one or some tick wrote |
| ReplicaRuns.EvenCountRests | breathe-control/src/replica.rs:848-909 | an even count inside the dead-band is left where it is |
| ReplicaRuns.ShrinkKeepsMajorityIff | breathe-control/src/replica.rs:895-904 | a reactive shrink keeps a majority of the old membership exactly when that majority fits under the quorum ceiling |
| ReplicaRuns.ShrinkLosesMajority | breathe-control/src/replica.rs:836-845 | nine members over a ceiling of three shrink to three at once |
| ReplicaRuns.QuorumFlapsIff | breathe-control/src/replica.rs:879-904 | exact condition for the quorum law to alternate between two rungs under a constant load |
| ReplicaRuns.QuorumFlaps | breathe-control/src/replica.rs:879-904 | a load of 3.9 targets alternates a default quorum between 3 and 5 |
| QuorumRuns.OneRung | breathe-control/src/replica.rs:848-909 | from a quorum in the envelope a tick moves one odd rung up, one down, or not at all, each with its exact condition |
| QuorumRuns.ReversesIff | breathe-control/src/replica.rs:848-909 | a quorum run under constant load steps both up and down exactly when, before its last tick, it stands on the one rung below the desired count where the dead-bands answer each other, or on the next |
| QuorumRuns.ReversesOnInputsIff | breathe-control/src/replica.rs:848-909 | on the inputs: it steps both up and down exactly when there is such a rung and the run is two ticks longer than the way to it |
| Lifecycle.LegalEdges | breathe-control/src/lifecycle.rs:194-202 | the list holds exactly the declared exits of every phase |
| Lifecycle.Parse | breathe-control/src/lifecycle.rs:649-668 | a confirmed reading has positive use and capacity and a peak no smaller than its use |
| Lifecycle.PlanStep | breathe-control/src/lifecycle.rs:722-746 | there is no step exactly at or below the bottom; otherwise it is strictly down and never below the target or the floor |
| LifecycleRuns.PanicsIff | breathe-control/src/lifecycle.rs:1160-1173 | a tick panics exactly on a doubtful or struggling reading outside Zero with the limit above the ceiling |
| LifecycleRuns.WritesBelowIff | breathe-control/src/lifecycle.rs:1366-1411 | a tick writes below the seated limit exactly in Settle, healthy, live, out of cooldown, not timed out, shadow-confirmed from that limit, with room above the bottom |
| LifecycleRuns.WritesAboveBottom | breathe-control/src/lifecycle.rs:1225-1262 | such a write is at or above both the steady target and the proven floor of this tick's reading |
| LifecycleRuns.ZeroWakesIff | breathe-control/src/lifecycle.rs:1098-1117 | Zero wakes exactly on load, schedule, readiness or dependency, and then seats a limit inside the band's range, at least one byte |
| LifecycleRuns.DoubtExpands | breathe-control/src/lifecycle.rs:1119-1173 | outside Zero doubt or struggle seats at least the expansion factor times the limit, as far as the ceiling allows |
| LifecycleRuns.ActiveLoadProtects | breathe-control/src/lifecycle.rs:1267-1302 | under active load nothing scales to zero, idling needs an exceeded budget, and Idle reloads |
| LifecycleRuns.LegalTransitionIff | breathe-control/src/lifecycle.rs:1051-1064 | the planner's phase changes are declared edges exactly except from a healthy Wake that is ready to settle with its limit at or below the bottom |
| LifecycleRuns.WakeSkipsSettle | breathe-control/src/lifecycle.rs:1051-1064 | a Wake seated at 50 bytes with 40 in use goes straight to Steady, not a declared exit |
| LifecycleRuns.OnlyGuardedDescents | breathe-control/src/lifecycle.rs:1366-1411 | over any run the limit falls only by a guarded tightening to no less than the bottom, or by the scale to zero |
| LifecycleRuns.EffectsWereShadowed | breathe-control/src/lifecycle.rs:1225-1262 | every tightening that takes effect was shadowed cleanly from the same limit at an earlier tick of the run |
| LifecycleRuns.RunStaysUnderCeiling | breathe-control/src/lifecycle.rs:1160-1262 | while readings fit under the ceiling no run exceeds it and no tick panics |
| LifecycleRuns.OvershootsCeilingIff | breathe-control/src/lifecycle.rs:1205-1262 | exact condition for a tick to take the limit above the ceiling |
| LifecycleRuns.OvershootThenPanic | breathe-control/src/lifecycle.rs:1160-1218 | a run from Zero on a valid configuration seats 1250 bytes over a ceiling of 100 and panics on the next restart |
| LifecycleRuns.ReachesRest | breathe-control/src/lifecycle.rs:2543-2644 | from any phase healthy readings on an advancing clock reach Steady or Zero within as many ticks as the timers have seconds, waking and settling together or draining, and one more |
| LifecycleRuns.RestsInTime | breathe-control/src/lifecycle.rs:2543-2644 | with ticks at most g seconds apart, rest is reached at a clock no later than those timers and 2g after the first |
| LifecycleRuns.LeavesIff | breathe-control/src/lifecycle.rs:1175-1302 | Wake and Idle are left exactly on a healthy reading that settles, reloads, is over budget, or finds the timer run out |
| LifecycleFields.SteadyTickIs | breathe-control/src/lifecycle.rs:1267-1285 | a planned tick leaves Steady for Wake exactly on an unsound reading, and for Idle exactly on a sound one that uses less than the threshold's part of the capacity without load, is over budget, or is off schedule without load |
| LifecycleFields.InUseStaysSteady | breathe-control/src/lifecycle.rs:1267-1285 | a workload whose sound readings stay at or above the threshold, in budget and on schedule, is still Steady after any run, at the same limit |
| LifecycleFields.UnusedReachesZero | breathe-control/src/lifecycle.rs:1267-1302 | one that stays below it without load reaches Zero within the drain timer and one gap between ticks |
| LifecycleFields.IdleTickIs | breathe-control/src/lifecycle.rs:1290-1302 | Idle reloads exactly on load or schedule, and otherwise goes to Zero exactly when the drain timer has run out or the budget is exceeded |
| LifecycleFields.SettleTickIs | breathe-control/src/lifecycle.rs:1225-1262 | Settle rests exactly when the limit is at or below the bottom or time is up, and wakes exactly on an unsound reading |
| LifecycleFields.WakeLeavesIff | breathe-control/src/lifecycle.rs:1179-1218 | Wake is left exactly when less than the setpoint's part of the capacity is used or time is up, on a sound reading |
| LifecycleFields.SoundIff | breathe-control/src/lifecycle.rs:649-668 | a reading counts as healthy exactly when something of some capacity is used, it is warmed up, and nothing restarted, was killed, failed a probe or is unready |
| LifecycleFields.ReportsAre | breathe-control/src/lifecycle.rs:543-580 | a wake and an expansion name their first cause, and going idle names the drain timer |
| LifecycleFields.RestsSeated | breathe-control/src/lifecycle.rs:1205-1262 | a workload that comes to rest is seated at the limit it had, or where that is less at the least that covers use, peak and every floor |
| LifecycleFields.AtBottomIff | breathe-control/src/lifecycle.rs:934-950 | the descent may reach a limit exactly when its setpoint covers use and peak and it is at or above the requested, configured and startup floors |
| LifecycleFields.WakingSeats | breathe-control/src/lifecycle.rs:916-932 | waking seats the expansion factor over the setpoint of what is used and requested, to the byte, as far as the range allows |
| LifecycleFields.UnsoundSeats | breathe-control/src/lifecycle.rs:1160-1173 | an unsound reading seats the expansion factor times the limit or the floor, to the byte, as far as the ceiling allows |
| LifecycleFields.StepsNoFurther | breathe-control/src/lifecycle.rs:722-746 | a step of the descent goes as far as the factor and no further, to the byte |
| LifecycleFields.ValidIff | breathe-control/src/lifecycle.rs:885-905 | exactly which configurations are valid, and the first cause named |
| LifecycleRuns.DoubtTraps | breathe-control/src/lifecycle.rs:1175-1178 | however long a run of doubtful readings, Wake and Idle stay what they are |
| LifecycleRuns.UnusedNeverSleeps | breathe-control/src/lifecycle.rs:1281-1284 | an idle workload read as using nothing is never scaled to Zero |
| LifecycleRuns.DescentBound | breathe-control/src/lifecycle.rs:722-746 | after k steps the limit is at most the larger of the bottom and factor^k of the start, and never below the bottom |
| LifecycleRuns.DescentStopsAtBottom | breathe-control/src/lifecycle.rs:722-746 | steps are strict until the bottom, which is hit exactly and kept |
| ConfigText.LinesOfUnlines | breathe-configreload/src/lib.rs:307-340 | splitting joined lines gives them back, up to one carriage return each |
| ConfigText.ParseDecimal | breathe-configreload/src/lib.rs:187-199 | a rendered 64-bit value parses back to itself |
| ConfigFields.ParseIff | breathe-configreload/src/lib.rs:187-199 | a text is a 64-bit integer exactly when it is an optional plus and at least one digit, whose positional value fits and is the value |
| ConfigCodec.ParseConfigValue | breathe-configreload/src/lib.rs:274-299 | returns the value of the first line that sets the key, or none |
| ConfigFields.FirstValueIff | breathe-configreload/src/lib.rs:274-299 | a value is read exactly when some line sets the key to it and none before sets the key |
| ConfigFields.EqualsLineMeans | breathe-configreload/src/lib.rs:277-295 | a line with an `=` sets what stands before the first one, trimmed, to what stands between it and the next `#` or `;`, trimmed |
| ConfigFields.SpaceLineMeans | breathe-configreload/src/lib.rs:277-295 | a line without one sets its first word to what stands between it and the next `#` or `;`, trimmed |
| ConfigFields.CommentLineMeans | breathe-configreload/src/lib.rs:276-279 | a line that begins with `#` or `;` sets nothing |
| ConfigFields.BareLineMeans | breathe-configreload/src/lib.rs:282-288 | nor does a blank line or a single word |
| ConfigFields.TrimCuts | breathe-configreload/src/lib.rs:276 | trimming cuts whitespace off both ends and nothing else |
| ConfigCodec.RenderConfigValue | breathe-configreload/src/lib.rs:307-340 | writes the lines read, the first that sets the key rewritten or one appended, each with a newline |
| ConfigCodec.ReadBackIff | breathe-configreload/src/lib.rs:274-340 | reading after writing gives the written value exactly for keys that are trimmed, on one line, without `=` and not read as comments |
| ConfigCodec.KeepsSeparator | breathe-configreload/src/lib.rs:322-330 | the rewritten line has an `=` exactly when the old one had |
| ConfigAnyKey.RewritesOneLine | breathe-configreload/src/lib.rs:307-340 | for any key, of the lines as read, every one is kept in order but the first that sets the key, which is rewritten, or one is appended |
| ConfigBytes.KeepsCleanLines | breathe-configreload/src/lib.rs:301-340 | for any key, the text and the text written agree byte for byte on every line but the rewritten one exactly where it ends in a newline with no carriage return before it |
| ConfigBytes.LinesLosslessIff | breathe-configreload/src/lib.rs:301-340 | a text survives being read as lines and written back exactly when it has no carriage return before a newline and ends in a newline, if it has anything |
| ConfigBytes.CarriageReturnIsDropped | breathe-configreload/src/lib.rs:301-306 | writing one key drops the carriage return of another line |
| ConfigAnyKey.OtherKeyUntouchedIff | breathe-configreload/src/lib.rs:274-340 | for any two keys, writing one leaves what the other reads exactly when it is writable, the other read already, or the appended text does not set the other |
| ConfigAnyKey.AppendedSets | breathe-configreload/src/lib.rs:274-340 | for any key, the text appended for it sets exactly the keys of the lines inside it and what its last line has before the first `=`, trimmed, unless that reads as a comment |
| ConfigAnyKey.HarmlessIff | breathe-configreload/src/lib.rs:274-340 | writing a key leaves every other key in every text exactly when it is writable or its appended text sets nothing |
| ConfigAnyKey.TrailingSpaceIsAnotherKey | breathe-configreload/src/lib.rs:274-340 | after writing the key "a " to an empty text it reads as nothing and "a" reads |
| ConfigAnyKey.OverwriteAnyKeyIff | breathe-configreload/src/lib.rs:307-340 | for any key, writing twice gives the text of the last write alone exactly when the key is writable and no other line still ends in a carriage return; with equal values, rewriting changes nothing |
| ConfigAnyKey.OverwriteReadsIff | breathe-configreload/src/lib.rs:274-340 | for any two keys, exactly when a second write reads like that write alone; always for writable ones |
| ConfigCodec.ConfigFile.ReadConfigValue | breathe-configreload/src/lib.rs:187-199 | the value, or which of the two errors, leaving the text alone |
| ConfigCodec.ConfigFile.WriteConfigValue | breathe-configreload/src/lib.rs:200-211 | afterwards the key reads as the value exactly when it is writable, and every other key as before |
| Pareto.DroppedIsBeaten | breathe-auction/src/lib.rs:531-547 | every candidate is kept or beaten on both axes by a kept one |
| Pareto.KeptIff | breathe-auction/src/lib.rs:531-547 | a candidate is kept exactly when every one at most as dear and as slow is exactly as dear and as slow |
| Pareto.FrontierNonEmpty | breathe-auction/src/lib.rs:541-547 | the frontier of a non-empty list is non-empty |
| Pareto.FrontierIsAntichain | breathe-auction/src/lib.rs:541-547 | kept candidates are candidates and none dominates another |
| Pareto.MinCostOptimal | breathe-auction/src/lib.rs:603-657 | the winner is the cheapest of all candidates and the fastest of the cheapest |
| Pareto.TiesGoFirst | breathe-auction/src/lib.rs:603-606 | of candidates equal on both axes the cheapest pick is the first one listed |
| Pareto.DeadlineOptimal | breathe-auction/src/lib.rs:603-657 | the winner is the cheapest of all that meet the deadline, else the fastest of all |
| Pareto.LexicographicOptimal | breathe-auction/src/lib.rs:603-657 | the winner is the fastest of all and the cheapest of those as fast |
| Pareto.RiskFreeIsMinCost | breathe-auction/src/lib.rs:603-657 | without risk data or weight the risk-adjusted pick is the cheapest |
| Pareto.RiskOptimalWhenAligned | breathe-auction/src/lib.rs:603-657 | when being dominated never means being safer the risk-adjusted winner scores best of all candidates |
| Pareto.RiskOptimalIff | breathe-auction/src/lib.rs:603-657 | the risk-adjusted winner scores best of all candidates, whatever weight and risk data, exactly when every candidate's forma keeps one at most as dear |
| Pareto.RiskIgnoresDropped | breathe-auction/src/lib.rs:603-657 | otherwise a dropped candidate can score better than the winner |
| Acyclic.Search.VisitDoneFirst | breathe-catalog/src/lib.rs:606-634 | the recursive search terminates; success means no cycle ahead and an intact stack, refusal a cycle reachable from the stack's first node |
| Acyclic.Search.VisitStackFirst | breathe-catalog/src/forma.rs:68-87 | the same with the checks swapped, and the stack is restored either way |
| Acyclic.DependencyGraphIsAcyclic | breathe-catalog/src/lib.rs:606-634 | for any finite dependency map, true exactly when no cycle is reachable from the listed roots |
| Acyclic.CascataIsAcyclic | breathe-catalog/src/forma.rs:68-87 | the same for the second variant with its shared stack |
| Zone.DimensionTickDag | breathe-auction/src/zone.rs:71-85 | the graph has one job per dimension and one edge per dependency the zone also carries |
| Zone.Validate | breathe-auction/src/zone.rs:185-205 | a zone passes exactly when its gates are enrolled and its restricted graph is acyclic, as the search over its own dependencies finds; each refusal names its cause |
| Zone.ZoneTickDag | breathe-auction/src/zone.rs:215-226 | builds the graph exactly for valid zones; its jobs are the zone's dimensions and formas, its edges run from each dependency the zone carries and from every forma to every gated dimension, and it is acyclic |
| Zone.SortableIff | breathe-auction/src/zone.rs:190-205 | the search over the dependencies restricted to the zone says exactly whether the job graph has a cycle |
| Zone.SourcesKeepAcyclic | breathe-auction/src/zone.rs:215-226 | forma jobs only have outgoing edges, so adding them keeps an acyclic graph acyclic |
| Zone.CatalogCoversZones | breathe-auction/src/zone.rs:185-205 | where the whole catalog is acyclic no zone drawn from it is refused for a cycle |
| CarveSafety.PlanGrow | breathe-control/src/carve_safety.rs:589-609 | there is a step exactly when more is wanted and a fifth of the size is at least a byte; it goes up to what is wanted, or by the lesser of a fifth and two gibibytes |
| CarveRuns.GrowsIff | breathe-control/src/carve_safety.rs:205-732 | from any reachable state, reading a volume and growing it resizes it exactly when it is tagged, labelled with the owner's role or in an owned namespace, has at least five bytes, is wanted larger and has no resize in flight; to the size wanted or by the capped step |
| CarveRuns.ReleasesIff | breathe-control/src/carve_safety.rs:358-489 | and reading a volume and releasing it drops or recreates it exactly when it is in the footprint, declared rebuildable, and read with no live pod and not attached |
| CarveRuns.GoesThroughIff | breathe-control/src/carve_safety.rs:704-732 | an act with its witnesses goes through exactly when both are of the current tick and no resize is in flight, or the volume is declared rebuildable |
| CarveSafety.GrowRefusals | breathe-control/src/carve_safety.rs:704-732 | a refused grow names its first cause with the ticks of minting and presenting |
| CarveSafety.ReleaseRefusals | breathe-control/src/carve_safety.rs:366-412 | so does a refused release or recreation |
| CarveRuns.NothingShrinksIff | breathe-control/src/carve_safety.rs:39-51 | over any run, no event drops or shrinks a volume it does not release exactly when every committed step orders no less than its volume then has |
| CarveRuns.SizesNeverFall | breathe-control/src/carve_safety.rs:515-732 | over any run whose committed steps were read for their volume, at no more than its present size, and order no less, a volume that is not released never shrinks, and no event grows it by more than a fifth or two gibibytes |
| CarveRuns.HitsTarget | breathe-control/src/carve_safety.rs:589-609 | a constant target is hit exactly within the ceiling of the distance over the first cap, and held |
| CarveRuns.ReachableIff | breathe-control/src/carve_safety.rs:589-609 | a larger target is ever reached exactly from a size of at least five bytes |
| CarveRuns.CommittedTicks | breathe-control/src/carve_safety.rs:589-732 | ticking the autonomous loop from any reachable state leaves the volume at exactly the size the plans lead to |
| CarveRuns.EveryCommandIsWitnessed | breathe-control/src/carve_safety.rs:205-732 | in every run each command acts on a volume read in its tick as tagged, labelled or in an owned namespace, and rests on a capped step with no resize in flight or on a reading of no live pods and no attachment of that tick, and no witness backs two commands |
| CarveRuns.ReadForTargetIff | breathe-control/src/carve_safety.rs:358-489 | every command of a run rests on what was read for its own volume exactly when the caller pairs the witnesses it presents |
| CarveRuns.PairedCommandsAreTrue | breathe-control/src/carve_safety.rs:358-489 | where the caller pairs, a released volume was read as an orphan in that tick and a step starts at the size the volume then had |
| CarveRuns.InUseIsReleased | breathe-control/src/carve_safety.rs:24-37 | a proof read for an idle volume releases another, read in the same tick as attached and in use by three pods |
| CarveRuns.OutrunStepShrinks | breathe-control/src/carve_safety.rs:39-51 | two steps planned from one size in one tick: the second orders a size below the first |

## Left out

- Floating point: `f64` rounding and casts are not modelled (reals with explicit floors and ceilings). A non-finite metric reading is a value of its own; a non-finite target or setpoint is left out.
- Aliasing and in-place update of the allocator's local vectors: `grant`, `frozen` and `adds` are sequences reassigned by the loops.
- Library calls: `sort_by` is the insertion-order function `Order`, string trimming, line splitting and decimal parsing are the functions of `ConfigText`.
- List lengths above 2^63 - 1, which no slice reaches: without that bound the `u128` sums could overflow.
- WaterFillLaws.IdenticalClaims: bounds the lead of a twin by the passes; the exact condition for equality is EqualGrantsIff, on the course of the fill, and on the inputs alone SettledTwinsIff for lists one pass settles and UniformIsEvenIff for lists of identical claims.
- WaterFillMonotone.NearlyMonotoneAdd: bounds the rise by the roundings instead of giving an exact condition for none, because the exact failure depends on every remainder of every division; it is none for lists of identical claims (UniformMonotoneAdd).
- DrfLaws.EqualDominantShares: speaks of the exact bundles; FlooredShareIff, FlooredShareWithin and AlwaysAgreeIff are its forms after flooring, on bands that 64 bits hold.
- DrfLaws.Proportional: speaks of the exact bundles; GrantStaysMultipleIff is its form after flooring, where no axis saturates the cast to 64 bits.
- DrfIncentives.StrategyProof: speaks of the exact bundles, as EnvyFree and SharingIncentive do; FlooredEnvy and FlooredReport say by how much of a task the floored grants can miss.
- DrfFabric.DrfTreeRespectingIff: below the top level its condition reads the parents' own grants; on the pool and the demands alone the sufficient condition is GuaranteeBoundsTree, and the input on which the bound fails ChildOvershootsParent.
- Pareto.RiskOptimalWhenAligned: for one given risk table this condition suffices but is not necessary, since a dropped candidate far from the minimum does not matter; over all weights and tables the exact condition is RiskOptimalIff.
- LifecycleRuns.ReachesRest: for timers the saturating signed age can reach (a clock past the epoch, or timers below 2^63 seconds); with an earlier clock a longer timer never elapses.
- The external graph crate: its graph is node and edge sets, and its sort the verified search over the zone's own dependencies.
- The lifecycle's controller loop: `Drive` follows the typestate transitions and the end-to-end scenario at breathe-control/src/lifecycle.rs:2543-2644 (a Wake that decides to tighten settles; an in-phase expansion seats its limit; whether a shadow window closed cleanly is an input). `spot_reclaim_pending` is carried by the source's signals but read by no decision, and is omitted.
- PlannedRuns.PlannedRunSettles: from at most 100000 replicas, the most the code ever recommends; a larger count can rest above what it recommends.
- The auction's sizing of grow candidates and its price and latency oracles: the model starts from the candidate list.
- CarveRuns.EveryCommandIsWitnessed: the role a volume is released under and the in-flight state a grow is committed under are the caller's word; a reading is true when it is taken, and what changes within its tick is not modelled. Sizes are those the commands order.
- Move-only witnesses are serial numbers spent at most once; that the source's types prevent a second use at compile time is not modelled as such.
- Clocks, metrics, Kubernetes, storage back ends, signals to processes, file access and configuration loading: their readings are inputs.
- Static catalog rows, presets, `steer_diff`, `partition_narrow`, `allocate_for_zone`, the admission crate, `lapidar` and the trend predictor: finite tables or one-branch claims that would only add easy members.
