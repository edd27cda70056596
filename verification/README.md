# Verified core of the city controller

This project models the decision logic of a controller that keeps a "city" of
agent sessions in step with its configuration and its issue stores (beads), and
proves what that logic guarantees. One module follows one component:

| module | component |
|---|---|
| `ConfigReload`, `ControllerReload`, `StoreReuse` | config mutations, late runtime reloads, store handles |
| `ConfigRollback`, `SnapshotPaths` | file snapshot and rollback of a failed mutation, formula sources |
| `DependencyFloors`, `DependencyEdges` | `depends_on` traversal |
| `Rotation`, `RouteRepair` | bounded, rotating repair of control-dispatcher routes |
| `PoolSlots`, `PoolSlotName` | pool slot allocation, the `-N` suffix of pool names |
| `ReadyCache`, `ReadyReplies` | per-pass cache of ready reads |
| `AdoptionBarrier`, `OneSession` | adoption of running sessions under identifier locks |
| `ScaleDemand`, `DemandFields` | default scale demand |
| `AssignedWork`, `CollectedFields`, `WorkScope` | collection, readiness and reach of assigned work |
| `RunStamping`, `StampResults` | assignee index and session stamps |
| `BundledImports`, `LandingCases`, `ManifestMigration`, `MigrationCases`, `ImportFix` | landing of bundled imports, manifest migration, the repair over both manifests |
| `PathContainment`, `WorktreeReaper` | reaping of closed-bead worktrees |
| `DoltAuth`, `BackendEnv`, `BackendEntries`, `ChildEnv` | credentials, backend projection and child environments |
| `RecoverCooldown`, `OneCheck` | health checks and recover attempts |

Code that updates fields, maps or slices in place is a class or a method with
loops, proved against functions on values; protocols are state machines whose
runs are sequences of steps. Beside each operation stand theorems that give its
answer in the fields of its inputs, without the functions it is built from. Go's map iteration order is an arbitrary choice, so
a result holds for every order. File contents, store answers, subprocess
results, clocks and the process environment are inputs.

`dafny verify dfyconfig.toml` checks everything.

## Where the code keeps less than it promises

Each of these is a theorem: a failing input or family, and the exact condition.

- A runtime delivery without a revision, outside a pending mutation, installs
  whatever it carries; it moves the installed config back exactly when its
  content is older. A store-metadata reload calls `update` directly and skips the
  pending check, so it can undo an API mutation that is still pending; it keeps
  the pending guarantee exactly when no non-empty revision is pending or it
  carries that revision. A mutation without a city path leaves an empty pending
  revision that refuses every later delivery.
- Route repair serves a backlog of n refused rows within k = ceil(n/5) passes
  exactly when the 64-bit cursor does not wrap before the last of them, or 2^64
  mod n is at most 5k - n. Eleven rows at cursor 2^64 - 5 miss row ten; 2k passes
  always suffice.
- `ensureBundledImportBinding` takes the least binding so that map order does not
  matter; this holds exactly when the empty binding name does not compete with
  another, as the code uses the empty string for "none found yet". Its comment
  promises no second pin; a landing leaves one exactly when the source was pinned
  elsewhere, which only a conflict under the empty binding gets past, alone or
  with others.
- The batched borrow veto stops at the first of a bead's two work-dir keys that
  names a candidate, so a live bead whose keys name two candidates protects only
  one of them.
- Skipping an assignee is meant for identities of a session that has ready work.
  The single pass over sessions extends through shared identities, so it keeps
  that meaning, for every session order, exactly when no session overlaps one with
  ready work indirectly.
- Stamping is idempotent, as its comment says, exactly when no run root that is
  itself executed work is asked for another name or work dir by the first step
  that back-fills it.
- The backend projection overwrites the Dolt keys instead of clearing them, and
  the credentials resolver reads the map: an old credentials file, and with city
  credentials an old password, survive. The connection is independent of the
  starting map exactly when another backend is chosen or the two maps agree on
  the effective file and the picked password.
- The pool-name strip removes the slot as printed, not as read, and is exact only
  without leading zeros; the strict containment test also rejects children whose
  name begins with two dots, which is the safe side.

## Model

| member | source | states |
|---|---|---|
| `ConfigReload.BootHasInv` | cmd/gc/api_state.go:152-222 | A controller that has just started meets every invariant the runs keep |
| `ConfigReload.RunKeepsHandles` | cmd/gc/api_state.go:700-764 | Over every interleaving of external edits, API mutations, deliveries and metadata reloads: each handle ever installed is installed or scheduled for close exactly once, and bound rigs keep a store entry |
| `ConfigReload.RunKeepsRevision` | cmd/gc/api_state.go:833-859 | Over every run whose metadata reloads carry the pending revision while one is pending: a pending revision is the installed one; if also deliveries are revisioned and reloads current, the installed disk content never gets older |
| `ConfigReload.InstalledNeverMovesBack` | cmd/gc/api_state.go:1073-1104 | Between any two points of such an up-to-date run the later installed content is at least as new |
| `ConfigReload.DeliveryMovesBackExactlyWhen` | cmd/gc/api_state.go:1098-1104 | A delivery moves the installed config back if and only if no mutation is pending, it carries no revision and its content is older |
| `ConfigReload.UnrevisionedDeliveryMovesBack` | cmd/gc/api_state.go:1098-1104 | A run from start-up whose last step, a revisionless delivery, goes back to the first disk content |
| `ConfigReload.MetadataReloadKeepsPendingExactlyWhen` | cmd/gc/city_runtime.go:1781-1798 | The unguarded update keeps the pending guarantee if and only if no non-empty revision is pending or it carries that revision |
| `ConfigReload.CurrentReloadMovesForward` | cmd/gc/city_runtime.go:1781-1798 | A metadata reload that carries the revision on disk or the pending one never moves the installed config back |
| `ConfigReload.MetadataReloadUndoesMutation` | cmd/gc/city_runtime.go:1781-1798 | A run from start-up in which a metadata reload reinstalls the config from before a mutation that is still pending |
| `ControllerReload.ControllerState.ReloadStoreMetadata` | cmd/gc/api_state.go:1021-1028 | The in-place method updates exactly when a known signature differs, and then takes the state to the protocol's Update |
| `ConfigReload.EmptyPendingRefusesDeliveries` | cmd/gc/api_state.go:1080-1096 | With an empty pending revision no sequence of deliveries installs anything |
| `ConfigReload.CurrentDeliverySettles` | cmd/gc/api_state.go:833-859 | Progress: the delivery of the content on disk is installed and ends the pending phase unless it is the pending one and loses a binding |
| `ConfigReload.DropsExactlyLostBindings` | cmd/gc/api_state.go:1193-1210 | The refusal test is the loss of a rig binding, exactly when the next config names each rig once; it never misses one |
| `ConfigReload.PendingDeliveryKeepsBindings` | cmd/gc/api_state.go:1073-1078 | A delivery of the pending revision changes nothing or keeps every bound rig |
| `ConfigReload.StepKeepsHandles` | cmd/gc/api_state.go:700-764 | Every step keeps: each handle ever installed is installed, or scheduled for close exactly once and never both, also with shared handles and a failed city reopen |
| `ConfigReload.StepKeepsRevision` | cmd/gc/api_state.go:1133-1145 | A step keeps the pending revision equal to the installed one unless it is a metadata reload of another, and an up-to-date step moves forward |
| `ConfigReload.UpdateKeepsHandles` | cmd/gc/api_state.go:700-764 | Replacing rig handles and, after a good reopen, the city handle retires exactly the handles it schedules |
| `ConfigReload.RolledBackMutationIsInvisible` | cmd/gc/api_state.go:2568-2596 | A mutation whose refresh fails and whose restore works leaves disk, config, stores and pending state as they were |
| `ControllerReload.ControllerState.UpdateFromRuntime` | cmd/gc/api_state.go:833-859 | The in-place method takes the state to the protocol's Deliver: refused, config only, or rebuilt |
| `StoreReuse.AcceptedDeliveryKeepsStoresExactlyWhen` | cmd/gc/api_state.go:993-1019 | An accepted delivery keeps every store and closes none exactly when both providers and the prefix agree, every rig name has entries in both configs whose last ones agree in root and prefix, the signature is compatible and every bound rig has an open store; in every other case the rig stores become the opened ones |
| `StoreReuse.RigsAgreeIsTopology` | cmd/gc/api_state.go:1152-1191 | The per-rig maps are equal exactly when the rigs agree so |
| `StoreReuse.AcceptedExactlyWhen` | cmd/gc/api_state.go:1073-1104 | When a delivery is accepted: by pending state, revisions and whether a bound rig loses its path |
| `StoreReuse.RebuildCloses` | cmd/gc/api_state.go:700-823 | A rebuild schedules one close for each rig handle no new entry reuses and one for a replaced city handle, and no other |
| `StoreReuse.MutationOutcome` | cmd/gc/api_state.go:2568-2616 | What a mutation installs and leaves pending in each of its cases |
| `StoreReuse.MutationWrites` | cmd/gc/api_state.go:2568-2596 | What a mutation leaves on disk in each of its cases |
| `ControllerReload.ControllerState.MutateAndPoke` | cmd/gc/api_state.go:2568-2616 | The in-place method takes the state to the protocol's Mutate and reports an error exactly when nothing new is pending |
| `ControllerReload.ControllerState.ReplaceStores` | cmd/gc/api_state.go:700-764 | Swapping and closing in place is the protocol's Update |
| `ControllerReload.ControllerState.ScheduleCloseReplaced` | cmd/gc/api_state.go:800-823 | In any map order, schedules each old handle that no new entry reuses once, however many rigs share it |
| `ControllerReload.ControllerState.RuntimeUpdateCanReuseCurrentStores` | cmd/gc/api_state.go:993-1019 | True exactly for an equal topology, a compatible metadata signature and an open store for every bound rig |
| `ControllerReload.ControllerState.SameStoreTopology` | cmd/gc/api_state.go:1152-1191 | The two scans decide equality of providers, prefix and per-rig roots |
| `ControllerReload.ControllerState.RuntimeUpdateDropsPendingRigs` | cmd/gc/api_state.go:1193-1210 | The path-map loop decides whether a bound rig loses its path, the last entry of a name winning |
| `ConfigRollback.Capture` | cmd/gc/api_state.go:2457-2542 | The snapshot holds content or absence of exactly the files its paths lead to through links, and the agents tree; it fails exactly on an unreadable path, an unresolvable link chain or a failed tree copy |
| `SnapshotPaths.CapturedPathsAre` | cmd/gc/api_state.go:2457-2542 | The captured paths are city.toml, .gc/site.toml and every agents/name/agent.toml that is a link |
| `SnapshotPaths.ResolvesExactlyWhen` | cmd/gc/api_state.go:2457-2542 | A path resolves exactly to the end of a chain of links from it; a cycle has none |
| `SnapshotPaths.ReadsExactlyWhen` | cmd/gc/api_state.go:2457-2542 | A reader sees exactly the bytes of the file at the end of such a chain |
| `SnapshotPaths.TreeIs` | cmd/gc/api_state.go:2457-2542 | The captured tree is everything below agents |
| `ConfigRollback.Disk.Restore` | cmd/gc/api_state.go:2544-2566 | Goes on after failures, also when the tree restore leaves anything behind: a path whose own restore works is right, no other path outside the tree changes, and without failures the whole disk is the restored one |
| `ConfigRollback.RestoreUndoesMutation` | cmd/gc/api_state.go:2544-2566 | Whatever happened in between, every captured path and the agents tree gets back its content or absence and no other path changes |
| `ConfigRollback.RestoreUndoesReads` | cmd/gc/api_state.go:2457-2566 | Readers of city.toml, site.toml and each agent.toml see the prior bytes again through any chain of links the mutation left in place |
| `ConfigRollback.FormulaStore.UpsertFormula` | cmd/gc/api_state.go:1625-1663 | A failed upsert whose rollback works leaves the prior source or its absence; it fails exactly when a stage fails, the rollback exactly when there was something to roll back and its edit fails; no other formula changes |
| `ConfigRollback.FormulaStore.DeleteFormula` | cmd/gc/api_state.go:1670-1684 | A failed delete whose rollback works leaves the prior source; a success removes exactly it; when the rollback fails, exactly; no other formula changes |
| `DependencyFloors.Traversal.RealizeDependencyFloors` | cmd/gc/build_desired_state.go:2641-2678 | Terminates on cyclic graphs and ensures exactly the templates a non-empty chain of configured, unsuspended dependencies leads to from a root, in any order of the roots |
| `DependencyEdges.EdgeExactlyWhen` | cmd/gc/build_desired_state.go:2641-2678 | An edge: the agent that answers to u depends on v and the one that answers to v is suspended neither itself nor with its rig |
| `DependencyEdges.FoundExactlyWhen` | cmd/gc/session_reconcile.go:362-378 | Who answers to a template: the first agent with that identity, else the first that still answers to it as a bound name, nobody for a blank one |
| `DependencyEdges.ContributesExactlyWhen` | cmd/gc/build_desired_state.go:2680-2758 | A dependency adds the qualified name of that agent if it is an ephemeral pool whose session can be had |
| `DependencyFloors.Traversal.Visit` | cmd/gc/build_desired_state.go:2641-2678 | The recursive walk keeps: everything visited and closed has all its live dependencies visited and ensured, nothing else is ensured |
| `DependencyFloors.Traversal.EnsureDependencyOnlyTemplate` | cmd/gc/build_desired_state.go:2680-2758 | Adds the dependency's template exactly when it is ephemeral, absent and resolvable |
| `DependencyFloors.FloorsComplete` | cmd/gc/build_desired_state.go:2641-2678 | A finished walk has ensured exactly the floors |
| `DependencyFloors.ClosedHoldsChain` | cmd/gc/build_desired_state.go:2641-2678 | A set closed under dependencies holds every chain from its roots |
| `RouteRepair.RepairRoutes` | cmd/gc/build_desired_state.go:4609-4634 | Snapshot and stores after a pass row by row, misaligned input, missing config, and a cursor advance of this domain only |
| `RouteRepair.RepairPass` | cmd/gc/build_desired_state.go:4609-4634 | The rotating loop attempts exactly the first five rows in need and leaves every row as specified |
| `RouteRepair.Repair.RepairBead` | cmd/gc/build_desired_state.go:4674-4755 | One row: a needed write is attempted while the budget lasts; a row that cannot be persisted loses its route from the snapshot only |
| `RouteRepair.Cursors.Advance` | cmd/gc/build_desired_state.go:4591-4596 | Reads the start and advances one domain's cursor modulo 2^64 |
| `RouteRepair.BudgetRespected` | cmd/gc/build_desired_state.go:4576-4634 | At most five distinct rows per pass are attempted, all in need |
| `RouteRepair.RoutesAreHonest` | cmd/gc/build_desired_state.go:4674-4755 | After a pass a scoped control row has no route or its own scope's dispatcher, and its durable route changes only towards it |
| `RouteRepair.ContextOfReference` | cmd/gc/build_desired_state.go:4798-4804 | A reference rig:n names rig n, city, city:x and blank name the city, a bare reference names itself |
| `RouteRepair.RigsNeverShareAContext` | cmd/gc/build_desired_state.go:4462-4471 | As the collection writes them, two references share a scope exactly when they name one rig, and none is the city's |
| `RouteRepair.ControlBeads` | cmd/gc/build_desired_state.go:4783-4789 | The kinds of bead that lose their route from a misaligned snapshot |
| `RouteRepair.NeedsExactlyWhen` | cmd/gc/build_desired_state.go:4674-4697 | A row of rig n needs a write exactly when it is a control bead of a scoped graph, n has a dispatcher and the row is routed elsewhere or marked |
| `RouteRepair.RepairedRow` | cmd/gc/build_desired_state.go:4727-4770 | An attempted row of rig n whose write works ends routed to n's dispatcher and unmarked, in snapshot and store, otherwise as it was |
| `RouteRepair.UnrepairedRow` | cmd/gc/build_desired_state.go:4674-4781 | Every other row keeps its store content; one routed elsewhere, or whose rig has no dispatcher, loses its snapshot route |
| `RouteRepair.AttemptedExactlyWhen` | cmd/gc/build_desired_state.go:4609-4634 | A pass attempts a row exactly when it needs a write and fewer than five rows in need come before it in the rotation |
| `RouteRepair.FrontIsAttempted` | cmd/gc/build_desired_state.go:4609-4634 | A row in need among the first five of the rotation is attempted |
| `Rotation.OneRoundExactlyWhen` | cmd/gc/build_desired_state.go:4591-4634 | ceil(n/5) passes bring every row into the first five if and only if the cursor does not wrap before the last of them or 2^64 mod n is at most 5 ceil(n/5) - n |
| `RouteRepair.EveryRowGetsItsTurn` | cmd/gc/build_desired_state.go:4609-4634 | Under that condition a row that stays in need is attempted within ceil(n/5) passes whatever other rows do |
| `RouteRepair.BacklogServedExactlyWhen` | cmd/gc/build_desired_state.go:4609-4634 | For a backlog that is all in need and whose stores refuse every write, each row is attempted within ceil(n/5) passes if and only if the condition holds |
| `RouteRepair.RefusedRow` | cmd/gc/build_desired_state.go:4674-4755 | Such a backlog exists at every length |
| `RouteRepair.RefusedStays` | cmd/gc/build_desired_state.go:4674-4755 | A pass leaves such rows as they were in their stores, so the next pass reads the same backlog |
| `RouteRepair.EveryRowGetsItsTurnAcrossWrap` | cmd/gc/build_desired_state.go:4609-4634 | From any cursor, within twice that |
| `RouteRepair.WrapBreaksSingleBound` | cmd/gc/build_desired_state.go:4609-4634 | Eleven refused rows at cursor 2^64-5: row ten is attempted in none of the three passes |
| `RouteRepair.RowConverges` | cmd/gc/build_desired_state.go:4609-4755 | Under the same condition a row whose store takes writes needs no repair after ceil(n/5) passes, even if every other row fails for ever |
| `PoolSlots.RealizePool` | cmd/gc/build_desired_state.go:2820-3017 | One pass: distinct session ids, distinct positive slots, at most one per request, within budget, in bounds when the requests fit the limits; every session is created or comes from the pool or a request and stands on its stamp if that holds; requests that all resume get exactly their sessions on their stamps in order; the first available session serves a fresh first request on its stamp; unhindered fresh demand is realised in full |
| `PoolSlots.PoolPass.PlanAll` | cmd/gc/build_desired_state.go:2820-3017 | Phase A: each item is what its request gets given what the earlier items took (own session, first available one, create); slots and reused sessions pairwise distinct, persisted slots kept, fresh slots at most the item number, budget conserved |
| `PoolSlots.PoolPass.Finish` | cmd/gc/build_desired_state.go:2820-3017 | Phases B and C: each result is its item's reused or created session on its slot, in order, no session twice; no reused session whose template resolves is lost, and nothing is lost when nothing fails |
| `PoolSlots.PoolPass.Select` | cmd/gc/build_desired_state.go:3866-3949 | The preferred session, else the first reusable one whose slot is free, else a create; a skip only for a slot conflict, a block or an empty budget |
| `PoolSlots.PoolPass.ClaimSlot` | cmd/gc/build_desired_state_pool_info.go:77-100 | The persisted slot unless taken; without one the least free slot |
| `PoolSlots.LeastFreeIsSmall` | cmd/gc/build_desired_state_pool_info.go:77-92 | The least free slot is at most one past the number of used ones |
| `PoolSlots.ExistingSlotIsUsable` | cmd/gc/build_desired_state.go:3756-3816 | A persisted slot is never one the configuration rules out |
| `PoolSlots.StampIsKept` | cmd/gc/build_desired_state.go:3756-3816 | A stamp the limits allow is the persisted slot, unless the agent name resolves to another allowed slot or nothing ties the session to the pool |
| `PoolSlots.SlotWithoutStamp` | cmd/gc/build_desired_state.go:3756-3816 | Every other case: singleton pool, renamed agent, foreign session, stamp outside the limits, no stamp, each with the slot it gives |
| `PoolSlotName.PoolNameRoundTrip` | cmd/gc/adoption_barrier.go:303-355 | For every base and every machine integer n from 1, parsing base-n gives n and the strip gives the base |
| `PoolSlotName.SlotDigitsIsTheMatch` | cmd/gc/adoption_barrier.go:37-39 | The recursive scan finds exactly what the pattern matches |
| `PoolSlotName.StripInRange` | cmd/gc/adoption_barrier.go:303-322 | For every name, leading zeros and overflow included, the strip stays inside the name |
| `PoolSlotName.StripIsExactWithoutLeadingZero` | cmd/gc/adoption_barrier.go:303-341 | The strip is exact if and only if the number has no leading zero |
| `ReadyCache.ReadyDemandCache.ReadAll` | cmd/gc/build_desired_state.go:2120-2223 | Any sequence of live and demand reads returns what the uncached functions return and reads each store at most once per tier |
| `ReadyCache.ReadyDemandCache.ReadDemand` | cmd/gc/build_desired_state.go:2193-2223 | The cached demand read equals readyForControllerDemand in all branches: unavailable cache, no handles, live failure with merged rows and joined errors |
| `ReadyCache.ReadyDemandCache.ReadLive` | cmd/gc/build_desired_state.go:2178-2184 | Filtering the snapshot equals the store's own filtered and limited answer |
| `ReadyCache.FilterReadySnapshot` | cmd/gc/build_desired_state.go:2231-2251 | The early-exit scan returns rows at increasing positions, all of the queried assignee, none skipped, as many as match or exactly `limit` |
| `ReadyCache.LiveSelects` | cmd/gc/build_desired_state.go:2178-2184 | The store's own answer is such a selection, with its error |
| `ReadyReplies.RepliesAre` | cmd/gc/build_desired_state.go:2178-2223 | Every reply of a pass: a live read is the store's selection, a demand read its demand reply |
| `ReadyReplies.DemandReply` | cmd/gc/build_desired_state.go:2193-2223 | The live tier when the cache is unavailable anywhere in the error chain or the live read is complete, the cached tier without handles, else the usable rows of both with both errors, marked partial when there are rows |
| `ReadyCache.MergeReadyRowsById` | cmd/gc/build_desired_state.go:2263-2290 | The two loops with a seen set compute live rows first, then uncovered cached rows once each |
| `ReadyCache.MergePrefersLive` | cmd/gc/build_desired_state.go:2263-2290 | No named bead is lost, and one the live read lists appears only as it has it |
| `ReadyReplies.MergeMerges` | cmd/gc/build_desired_state.go:2263-2290 | The named live rows in their order, then the named cached rows that no live row has, each id at its first position; an empty side yields the other unchanged |
| `ReadyCache.DemandPhase` | cmd/gc/build_desired_state.go:714-770 | With a second cache, demand is read from the rewritten routes |
| `ReadyCache.DemandReroutes` | cmd/gc/build_desired_state.go:761-768 | Rewriting routes and the demand read commute, through the merge of live and cached rows and every error branch |
| `ReadyCache.StaleDemandExactlyWhen` | cmd/gc/build_desired_state.go:761-768 | A demand read memoised before the rewrites would be stale exactly when a row it returns was rewritten to another route |
| `ReadyCache.StaleLiveExactlyWhen` | cmd/gc/build_desired_state.go:761-768 | The same for the unfiltered live read |
| `AdoptionBarrier.BarriersNeverDuplicate` | cmd/gc/adoption_barrier.go:54-288 | Any interleaving of barriers at lock granularity: no name gets a second open bead, counters stay accounted for, served sessions keep a bead unless one is closed |
| `AdoptionBarrier.FinishedBarrierConserves` | cmd/gc/adoption_barrier.go:54-288 | A barrier at its gate has Total = Adopted + AlreadyHadBead + Skipped |
| `AdoptionBarrier.GateMeansOpen` | cmd/gc/adoption_barrier.go:54-288 | In every interleaving without a close, a barrier at its gate without skips has an open bead for every session it observed alive |
| `OneSession.SessionIsServed` | cmd/gc/adoption_barrier.go:54-288 | Undisturbed, a barrier takes the head off its list: dead sessions leave the total, one with a bead counts as such, one without gets a bead if lookup and create work and is skipped otherwise; no lock is left and nothing else changes |
| `OneSession.BarrierStarts` | cmd/gc/adoption_barrier.go:54-120 | A barrier starts with the listed sessions, the names with an open bead and the full total |
| `AdoptionBarrier.LocksExclude` | cmd/gc/adoption_barrier.go:54-288 | Two barriers never hold locks of one identifier |
| `AdoptionBarrier.StepNeverDuplicates` | cmd/gc/adoption_barrier.go:54-288 | A step that adds an open bead for a name adds the first |
| `AdoptionBarrier.SessionStore.RunAdoptionBarrier` | cmd/gc/adoption_barrier.go:54-288 | Conservation, Total = live sessions, pass exactly without skips and partial listing, a non-dry pass leaves every live session open, dry runs create nothing; alone, the open beads grow by exactly Adopted |
| `AdoptionBarrier.SessionStore.RerunAfterPass` | cmd/gc/adoption_barrier.go:54-288 | A rerun after a pass adopts and skips none |
| `ScaleDemand.DefaultScaleCheck` | cmd/gc/build_desired_state.go:1600-1726 | In any group order, a template's ids are exactly the distinct demanded ones, its count is their number, store refs are right and partial marks exact |
| `DemandFields.DemandedExactlyWhen` | cmd/gc/build_desired_state.go:1600-1726 | A bead is demand for a template exactly when the store of the first target with the key of one of its targets did not fail hard and lists the bead unassigned, no workflow root, routed to the template or to an instance of it |
| `DemandFields.PartialExactlyWhen` | cmd/gc/build_desired_state.go:1600-1670 | A template is partial exactly when a target of it has an error or no store, or such a store failed, even in part |
| `ScaleDemand.GroupTargets` | cmd/gc/build_desired_state.go:1600-1660 | One group per store key with its first store and all its templates; a target with an error or without a store marks its template |
| `ScaleDemand.CountRows` | cmd/gc/build_desired_state.go:1660-1726 | A group adds exactly its ready, unassigned, non-root, routed and not yet counted beads |
| `ScaleDemand.DemandIsFoundByProbe` | cmd/gc/build_desired_state.go:1600-1726 | With one store per key, demand is what any probe of the template finds |
| `ScaleDemand.AliasedStoreCountsOnce` | cmd/gc/build_desired_state.go:1600-1726 | Probing a store again under another key adds no demand |
| `ScaleDemand.CountIsDistinctBeads` | cmd/gc/build_desired_state.go:1600-1726 | The count is the cardinality of the set of demanded ids |
| `AssignedWork.CollectAssignedWork` | cmd/gc/build_desired_state.go:1297-1455 | A (store, id) key is ready exactly when the in-progress, molecule or ready pass admitted it from that store; rows stay aligned with the source they came from; every admitted row is collected; the probe asks exactly the unskipped identities and is left out only when all are skipped |
| `CollectedFields.ReadyExactlyWhen` | cmd/gc/build_desired_state.go:1320-1365 | A key is ready after the first round exactly when its own store lists it as work in progress that is assigned or recoverable, or as an open assigned turn, and it is no session |
| `CollectedFields.SeenExactlyWhen` | cmd/gc/build_desired_state.go:1320-1365 | The first round collects those and open routed work that is assigned |
| `CollectedFields.ProbedExactlyWhen` | cmd/gc/build_desired_state.go:1405-1455 | The probe adds exactly assigned work of its reads: the limited one without assignees, else those of the assignees |
| `CollectedFields.RowsAreWork` | cmd/gc/build_desired_state.go:1297-1455 | Every collected row is such work of the store and ref beside it |
| `CollectedFields.CapturedExactlyWhen` | cmd/gc/build_desired_state.go:1473-1497 | The captured assignees are exactly those of open or in-progress rows that are ready in their own store |
| `CollectedFields.SharersAreSkipped` | cmd/gc/build_desired_state.go:1499-1519 | Every identity of a session that shares one with ready work is skipped |
| `CollectedFields.IdentitiesAre` | cmd/gc/build_desired_state.go:1521-1558 | The identities to choose from are those of sessions and on-demand names, trimmed |
| `AssignedWork.CollectFirst` | cmd/gc/build_desired_state.go:1297-1455 | The open-routed pass collects without making ready |
| `AssignedWork.CollectReady` | cmd/gc/build_desired_state.go:1297-1455 | The second round adds exactly the keys the probe admits |
| `AssignedWork.Scan.Append` | cmd/gc/build_desired_state.go:2317-2422 | A pass over a list adds each admitted unseen id once, keeps the three slices aligned, and marks readiness only for ids it added |
| `AssignedWork.Scan.AppendWorkUnique` | cmd/gc/build_desired_state.go:2399-2422 | Adds a bead exactly when it is no session and unseen |
| `AssignedWork.ReadyCapturedAssignees` | cmd/gc/build_desired_state.go:1473-1497 | The assignees with a ready bead in its own store |
| `AssignedWork.SkipIsDirectExactlyWhen` | cmd/gc/build_desired_state.go:1499-1519 | For every session order a skipped assignee shares an identity list with ready work, if and only if no list overlaps such a list indirectly |
| `AssignedWork.IndirectSkip` | cmd/gc/build_desired_state.go:1499-1519 | Two sessions that share an identity: the second's own assignee is skipped although it shares no list with ready work |
| `AssignedWork.AssigneesToProbe` | cmd/gc/build_desired_state.go:1521-1558 | Exactly the non-blank unskipped identities, each once |
| `WorkScope.BuildTables` | cmd/gc/assigned_work_scope.go:181-237 | The cross-store set and the per-identity refs built from named sessions and open sessions hold exactly the pairs some owner serves |
| `WorkScope.WakeDemand` | cmd/gc/assigned_work_scope.go:173-288 | Kept beads, refs and flags come from the same rows, and a flag is readiness in the row's own store; without a config every row is kept |
| `WorkScope.KeptEntry` | cmd/gc/assigned_work_scope.go:240-288 | The k-th kept bead and ref are those of the k-th row that passes, the flag its readiness in that row's store |
| `WorkScope.KeptExactlyReachable` | cmd/gc/assigned_work_scope.go:173-265 | Exactly the rows some owner of their assignee serves are kept |
| `WorkScope.KeptInOrder` | cmd/gc/assigned_work_scope.go:173-265 | Each kept row appears once, in order |
| `RunStamping.BuildSessionAssigneeIndex` | cmd/gc/build_desired_state.go:4147-4164 | The loop's index is the claimant resolution of every identity |
| `RunStamping.UsableExactlyWhenOneClaims` | cmd/gc/build_desired_state.go:4126-4164 | For every session order, an identity is usable if and only if one distinct session id claims it, and then names that session |
| `RunStamping.Stores.StampRunSessionIdentity` | cmd/gc/build_desired_state.go:4208-4292 | The in-place pass, with its once-per-root set and stale bead reads, is the specified fold |
| `RunStamping.ChangesComeFromOneClaimant` | cmd/gc/build_desired_state.go:4208-4292 | Metadata changes only through a row whose assignee one session claims, with that session's stamp |
| `StampResults.ExecutedRowStamps` | cmd/gc/build_desired_state.go:4208-4256 | A row in progress whose assignee names one session stamps its bead and its root with the first of session name, alias and configured identity that has text, and the work dir |
| `StampResults.OtherRowsStampNothing` | cmd/gc/build_desired_state.go:4219-4240 | Rows in other states, without store or assignee, with no session or sessions of two ids stamp nothing |
| `StampResults.ExecutedBeadCarriesItsSession` | cmd/gc/build_desired_state.go:4208-4256 | After the pass the bead of such a row has exactly the fields that differed replaced |
| `StampResults.RootAfter` | cmd/gc/build_desired_state.go:4264-4292 | A root that no row executes gets the stamp of the first row of its store that has it as root, whatever later rows do |
| `RunStamping.SecondPassWritesNothingExactlyWhen` | cmd/gc/build_desired_state.go:4203-4292 | With successful writes a second pass in the same order writes nothing if and only if no executed root contradicts the stamp of the first step that back-fills it, in name or work dir |
| `RunStamping.QuietExactlyWhen` | cmd/gc/build_desired_state.go:4203-4292 | The same for any trimmed jobs and any starting metadata |
| `RunStamping.SharedRootNeverSettles` | cmd/gc/build_desired_state.go:4264-4292 | A step and its executed root with different names: whatever the metadata was, the second pass writes again |
| `BundledImports.EnsureBundledImportBinding` | cmd/gc/builtin_include_doctor_check.go:762-798 | The loop, in any map order, computes stand-in, pin-in-place, fresh binding or refusal |
| `LandingCases.LandingOutcome` | cmd/gc/builtin_include_doctor_check.go:762-798 | Without an empty binding: a plain pinned binding of the source leaves all as it is; else a clash refuses and names the smallest; else the smallest unpinned plain binding gains the pin; else the import gets a binding of its own |
| `LandingCases.OwnBinding` | internal/config/config.go:1007-1020 | The name itself, import without one, or the name with the smallest free number from 2 |
| `LandingCases.BeforeIsLess` | cmd/gc/builtin_include_doctor_check.go:775-790 | The order of bindings is by the first difference, a prefix first |
| `BundledImports.SameForEveryOrderExactlyWhen` | cmd/gc/builtin_include_doctor_check.go:762-798 | One outcome for every map order if and only if the empty binding does not compete with another |
| `BundledImports.EmptyBindingMakesOrderMatter` | cmd/gc/builtin_include_doctor_check.go:762-798 | Two unpinned bindings, one of them empty, and the two outcomes of the two orders |
| `BundledImports.LandingComposes` | cmd/gc/builtin_include_doctor_check.go:762-798 | A success keeps every binding's source and options, leaves a pinned default import of the source, and landing again changes nothing |
| `BundledImports.SecondPinExactlyWhen` | cmd/gc/builtin_include_doctor_check.go:752-798 | A landing leaves the source at one pin if and only if no other binding pins it elsewhere; only a conflict under the empty binding gets past |
| `BundledImports.EmptyConflictLandsSecondPin` | cmd/gc/builtin_include_doctor_check.go:752-798 | One non-default empty binding at another version, and the landing that adds a second pin |
| `BundledImports.FoldFindsLeast` | cmd/gc/builtin_include_doctor_check.go:762-798 | The running minimum is the least binding whatever the order |
| `BundledImports.UniqueBinding` | internal/config/config.go:1007-1020 | Terminates with a binding not in use |
| `ManifestMigration.Manifest.Migrate` | cmd/gc/builtin_include_doctor_check.go:651-731 | A success leaves a clean manifest: sources relocated, exactly the retired workspace includes stripped, rigs and the default rig scope compose what they did; a clean manifest does not change |
| `MigrationCases.WorkspaceAfter` | cmd/gc/builtin_include_doctor_check.go:651-690 | The workspace: each import whose source is a builtin and no public pack moves to its canonical source and pin, the others stay; the includes left are exactly those not retired, in order |
| `MigrationCases.RigAfter` | cmd/gc/builtin_include_doctor_check.go:700-731 | A rig: imports move likewise and none is lost, the includes left are exactly those of no builtin pack, in order, and each of the others is imported plain and pinned |
| `ManifestMigration.MigrateTwice` | cmd/gc/builtin_include_doctor_check.go:651-731 | The second run reports no change |
| `ImportFix.Files.Fix` | cmd/gc/builtin_include_doctor_check.go:495-604 | Wherever the repair stops, also between its two writes, every builtin pack a workspace include composed is still included or imported pinned in pack.toml; city.toml is untouched or migrated; each stop is due to the read, write, clash or resync it names; a success also imports every missing pack, and a repair of its result writes nothing |
| `ImportFix.ImportsToLand` | cmd/gc/builtin_include_doctor_check.go:514-526 | Exactly the missing packs with a canonical source and the packs of the workspace includes |
| `ImportFix.LandAll` | cmd/gc/builtin_include_doctor_check.go:546-551 | On success every name has a pinned import and no binding is lost; nothing changes when all are there already; it stops only at a binding with options of its own and another pin |
| `ImportFix.FixTwice` | cmd/gc/builtin_include_doctor_check.go:495-604 | After a success the second repair changes neither file and succeeds when its reads and resync do |
| `ManifestMigration.MigrateRig` | cmd/gc/builtin_include_doctor_check.go:651-731 | A rig keeps relocated bindings, every converted include is imported in the same rig, other includes stay in order |
| `ManifestMigration.ConvertIncludes` | cmd/gc/builtin_include_doctor_check.go:651-731 | Each converted include keeps its pack imported in the scope, the rest stays in order |
| `ManifestMigration.RewriteLegacySources` | cmd/gc/builtin_include_doctor_check.go:821-841 | In any map order, rewrites exactly the stale sources and reports whether there were any |
| `PathContainment.AtOrUnderIsContainment` | cmd/gc/bead_worktree_liveness.go:138-150 | The relative-path test is containment of components, for all clean paths |
| `PathContainment.StrictlyUnderIsContainment` | cmd/gc/bead_worktree_reaper.go:446-461 | The guard is strict containment, short of children named with two leading dots |
| `WorktreeReaper.ReapRig` | cmd/gc/bead_worktree_reaper.go:81-326 | A dry run removes nothing and lists exactly what a real run attempts; protected are exactly the closed-bead worktrees that are not planned |
| `WorktreeReaper.PlannedMeetsEveryGate` | cmd/gc/bead_worktree_reaper.go:81-326 | What is attempted meets all gates together: strictly inside, no session home, closed bead, age known and sufficient, scanned, nothing live at or beneath, nothing uncommitted, unpushed or stashed |
| `WorktreeReaper.PlannedExactlyWhen` | cmd/gc/bead_worktree_reaper.go:81-326 | A worktree of the list is planned exactly when it meets every gate, field by field, and the batch charges no bead to it |
| `WorktreeReaper.UnborrowedIsPlanned` | cmd/gc/bead_worktree_reaper.go:81-326 | A worktree that meets every gate and in which no bead that is neither closed nor a tombstone works is planned |
| `WorktreeReaper.VetoedExactlyWhen` | cmd/gc/bead_worktree_reaper.go:359-389 | The batched veto in the fields of the beads: a live bead names the path by either key and its first key names no other candidate, and no later candidate is the same path |
| `WorktreeReaper.ReapedIs` | cmd/gc/bead_worktree_reaper.go:290-320 | A real run reaps exactly the planned worktrees whose removal works |
| `WorktreeReaper.NoBorrowedWorktreeIsPlanned` | cmd/gc/bead_worktree_reaper.go:81-326 | Without split borrowers and with distinct paths, nothing a live bead borrows is attempted |
| `WorktreeReaper.ScanBorrowVeto` | cmd/gc/bead_worktree_reaper.go:359-389 | The indexed scan charges each live bead to its first hit, in listing order |
| `WorktreeReaper.BatchedVetoExactlyWhen` | cmd/gc/bead_worktree_reaper.go:359-389 | A candidate is vetoed if and only if it is the last of its normalised path and some borrower is not charged elsewhere |
| `WorktreeReaper.BatchedVetoIsPerCandidate` | cmd/gc/bead_worktree_reaper.go:359-389 | Then the batch equals asking about each candidate alone |
| `WorktreeReaper.SingleVetoIsBorrow` | cmd/gc/bead_worktree_reaper.go:359-389 | Asking about one candidate is the borrow test |
| `WorktreeReaper.SplitBorrowerIsMissed` | cmd/gc/bead_worktree_reaper.go:359-389 | A live bead whose keys name two candidates leaves the second unprotected |
| `BackendEnv.Env.ApplyCanonicalScopeBackend` | cmd/gc/bd_env.go:354-435 | Outcome and every entry of the map, on success and on each failure |
| `BackendEntries.ChosenExactlyWhen` | cmd/gc/bd_env.go:354-435 | Which backend a scope gets, from its own files, the city's and whether it inherits |
| `BackendEntries.OutcomeExactlyWhen` | cmd/gc/bd_env.go:346-435 | When the projection succeeds, passes the scope on or fails unhandled |
| `BackendEntries.DoltTargetEntries` | cmd/gc/bd_env.go:305-333 | Towards Dolt: host under both names, absent for a managed local one, the port as given and trimmed |
| `BackendEntries.DoltAuthEntries` | cmd/gc/dolt_auth.go:9-28 | User, password and credentials file under both names, by precedence of process, store, map and credentials file |
| `BackendEntries.DoltAlone` | cmd/gc/bd_env.go:386-390 | and no key of another backend |
| `BackendEntries.DoltliteEntries` | cmd/gc/bd_env.go:376-408 | Towards Doltlite: its name twice, no server address, an empty port |
| `BackendEntries.PostgresEntries` | cmd/gc/bd_env.go:486-514 | Towards Postgres: its address and password, or no Postgres key without a password; no Dolt address |
| `BackendEntries.SharedEntries` | cmd/gc/bd_env.go:1597-1707 | TLS only towards an external host that is not local, the credential command by precedence, every other key as before |
| `BackendEntries.FailureEntries` | cmd/gc/bd_env.go:354-435 | What a failure leaves: the map as it was, or for a Dolt scope without target only the other backends' keys gone |
| `BackendEntries.FileIsAskedAbout` | internal/doltauth/auth.go:60-120 | The credentials file, the default one where none is named, is asked about the host, 127.0.0.1 where only a port is known, and the port as a number |
| `BackendEntries.FileIsNotAsked` | internal/doltauth/auth.go:60-120 | A port that is no number, zero or too large leaves the file unasked |
| `BackendEnv.ProjectionIsExclusive` | cmd/gc/bd_env.go:354-435 | From any starting map, a success leaves non-empty connection keys of the chosen backend only, and TLS only towards an external non-local endpoint |
| `BackendEnv.SameConnectionExactlyWhen` | cmd/gc/bd_env.go:354-435 | Two starting maps give the same connection keys if and only if another backend is chosen or the maps agree on the effective credentials file and the picked password |
| `BackendEnv.CredentialsFileSurvives` | cmd/gc/dolt_auth.go:9-28 | A credentials file in the starting map ends in the connection, which from the empty map has none |
| `BackendEnv.PasswordSurvives` | cmd/gc/dolt_auth.go:9-28 | With city credentials an old password in the map becomes the connection's |
| `BackendEnv.ProjectionTwice` | cmd/gc/bd_env.go:354-435 | Projecting again, with credentials resolved from the projected map, changes nothing |
| `DoltAuth.ResolveAgain` | internal/doltauth/auth.go:60-120 | Resolving from a map that holds the last answer gives that answer |
| `DoltAuth.SameAnswerExactlyWhen` | internal/doltauth/auth.go:60-120 | Two maps give the same credentials if and only if the effective file agrees and the process or store fixes the password or the picked ones agree |
| `BackendEnv.ProjectionShadows` | cmd/gc/bd_env.go:1597-1707 | The port and TLS keys are always present, to shadow inherited ones |
| `BackendEnv.Env.ProjectDolt` | cmd/gc/bd_env.go:305-343 | Target, credentials read from the map being written, and mirror together give the connection's entries |
| `BackendEnv.Env.ProjectPostgres` | cmd/gc/bd_env.go:486-514 | Postgres entries, or no connection at all when the password is not found |
| `BackendEnv.Env.ApplyDoltAuth` | cmd/gc/dolt_auth.go:9-28 | Credentials are resolved from the map and set trimmed or removed |
| `BackendEnv.Env.MirrorServer` | cmd/gc/bd_env.go:1597-1707 | The bd names mirror the GC names |
| `ChildEnv.MergeRuntimeEnv` | cmd/gc/bd_env.go:1740-1837 | For override keys without '=', the entries of every key: each override once, a passthrough key at most once from its first ambient entry, no other stripped key, and the inherited entries of every other key in their order |
| `ChildEnv.OverlayEnvEntries` | cmd/gc/bd_env.go:1722-1738 | The same without stripping; without overrides only the filter applies |
| `ChildEnv.PreserveHosted` | cmd/gc/bd_env.go:1861-1876 | A passthrough key that is not overridden ends with its first ambient entry alone |
| `ChildEnv.RemoveEnvKey` | cmd/gc/bd_env.go:1878-1887 | For a key without '=', removes exactly its entries |
| `ChildEnv.FilterInherited` | internal/execenv/execenv.go:83-93 | Keeps, for every key that is not sensitive, exactly its entries in their order |
| `ChildEnv.PrefixIsKey` | cmd/gc/bd_env.go:1878-1887 | For a key without '=', the prefix test is equality of keys |
| `ChildEnv.ChildSeesOneBackend` | cmd/gc/bd_env.go:1740-1837 | A child spawned with a projected map sees non-empty connection keys of the chosen backend only and TLS only for a hosted gateway, whatever the ambient environment holds |
| `RecoverCooldown.RecoversAreSpaced` | cmd/gc/beads_provider_lifecycle.go:1106-1168 | Over every interleaving of health checks, attempts on an owned bd provider are a cooldown apart per city, k+1 span k cooldowns, and none follows an open breaker |
| `RecoverCooldown.RecoversNeverOverlap` | cmd/gc/beads_provider_lifecycle.go:2214-2228 | Two checks are never inside one city together |
| `RecoverCooldown.StepKeepsInv` | cmd/gc/beads_provider_lifecycle.go:1106-1168 | Every step keeps mutual exclusion, recorded times and distances |
| `RecoverCooldown.Provider.DecideRecover` | cmd/gc/beads_provider_lifecycle.go:1125-1157 | Starts a recover if and only if the provider is outside the bd contract, or owned, breaker closed and cooldown over; records only then |
| `OneCheck.OpenExactlyWhen` | cmd/gc/beads_provider_lifecycle.go:85-97 | The breaker counts as open exactly when the text contains one of the two messages |
| `OneCheck.WholeCheck` | cmd/gc/beads_provider_lifecycle.go:1106-1168 | A check nobody disturbs, from its wait to its release: it leaves an attempt, and if it is ours its time, exactly when the probe failed and the provider is outside the bd contract, or ours with the breaker closed and the cooldown over; otherwise no trace |
| `OneCheck.TimesAre` | cmd/gc/beads_provider_lifecycle.go:1106-1168 | The spaced times are those of all our attempts on the city, in order |
| `RecoverCooldown.DecisionOfOneCheck` | cmd/gc/beads_provider_lifecycle.go:1125-1157 | The steps of an undisturbed check decide exactly so |

## Left out

- Subprocesses, sockets, SQL, git, `/proc`, parsing of TOML, JSON and YAML, logging, tracing and events: their results are inputs.
- Real concurrency inside a step: a runtime delivery is one atomic step, although the code checks outside the lock that covers its swap.
- Links in the middle of a path: ConfigRollback resolves links at the final component only.
- Pools with the canonical singleton identity, and the ordering of reusable sessions: `pool` is given in reuse order.
- How sessions become identity lists, owners with a resolved agent, slots and reusable flags: these are fields of the inputs.
- filterAssignedWorkBeadsForPoolDemand, and the twins of modelled functions that differ only in field access.
- extractBeadIDFromWorktreeName, worktree discovery and the age computation: the bead and age of a worktree are observations.
- Titles, packs and workspaces carried along with scale demand; only ids, counts and store refs are modelled.
- Adoption metadata: pool-slot bounds, base resolution and details of a session, apart from the suffix arithmetic.
- ManifestMigration.Manifest.Migrate: the imports that replace stripped workspace includes are landed before it, in ImportFix.Files.Fix; it does not claim one pin per source, because rewriting a legacy source has no guard against another binding of it.
- DependencyFloors.Traversal.EnsureDependencyOnlyTemplate: selection and creation of the session are one `ready` flag; the pool selection itself is PoolSlots.
- ReadyCache.DemandPhase: takes the rewritten routes as an input; how route repair chooses them is RouteRepair, the canonicalisation of legacy bound routes is not part of this model.
- ImportFix: which packs are missing, and the lockfile resync after both writes, are inputs.
- BackendEnv.ProjectionIsExclusive: says nothing of the legacy host and port path of non-authoritative rigs, which does not clear backend keys.
- The order of entries of different keys: the code appends overrides sorted by key, ChildEnv states the entries of each key and holds for every order.
- ChildEnv.MergeRuntimeEnv: says nothing for override keys that contain '=', whose entries name another key.
- recoverManagedBDCommand, which does not consult the cooldown; the publication of a healthy runtime.
- RecoverCooldown.RecoversAreSpaced: measures decision times; a recover may start later than its decision.
- Presentation, command-line plumbing and identity wrappers, which would only add easy members.
