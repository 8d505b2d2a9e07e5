# Sandstorm, verified

A Dafny 4.11 model of the Sandstorm control plane and of the self-contained
algorithms around it, with proofs of what they promise. Run
`dafny verify dfyconfig.toml` from this directory.

## What is modelled

**The master.** `Tables` holds the rows of the store and `State` the class
`Store` whose methods change them. Around it, one module a concern:

- `Pools`, `PoolRuns`, `PoolHistory`: which pool a node is in, from its
  registration through every fingerprint it reports to the merge that ends a
  rolling upgrade; the history of it, and the console's per-pool lines that read
  the history.
- `Placement`, `Slots`, `Creates`: admission, the least loaded node, the even
  spread of a fork, the least free network slot and gateway port, and the batch
  that writes every child or none.
- `Switching`, `SwitchRuns`: changing a node's backend while creates go on, as an
  interleaving of the steps that hold the store and those that do not, and the
  handlers as such steps.
- `Protocol`, `Reconcile`, `Asking`, `DiffTwice`, `Convergence`, `Failures`: what a
  node reports, the diff of desired state against it, exactly which commands that
  comes to and what it leaves in each table, that a second diff changes nothing and
  asks the same, that a node which carries out what it is told comes to hold what is
  wanted in three rounds, and quarantine.
- `Dispatch`, `Looks`: commands someone waits on, through the two ways they are
  handed over: the answer to a node's poll and the batch of the driver that calls
  it; and a whole look, from the report taken in to the commands given back.
- `Wakeup`: looking, parking, writing and notifying as interleaved steps.
- `TierRuns`, `Tiers`: the idle sweep, traffic, evictions, requests and pauses.
- `Paging`, `SandboxId`, `Egresses`: cursor paging and ids of the E2B surface,
  and the canonical form of egress rules.

**Beside the master.** `Charts` is the monotone cubic path of the benchmark
charts, and `Tangents` says what that path is in terms of the data. `Histogram` and
`Quantile` are the latency histograms with the load test's own reading of them,
`LineReader` the agent's buffered line reader. `Reals`, `Powers`, `Text` and
`Wrappers` hold the arithmetic and text they share.

Handlers are methods on classes whose fields are the tables, each proved equal to
a function on values; the theorems over whole runs are lemmas about those
functions. Interleavings are machines with one step for every stretch the code
runs under one lock. A query's row order is a parameter listing the rows it
returns, each once, so that what is proved holds for any order.

## What is assumed

- Ids in one report are distinct where a lemma asks for `UniqueIds`, and tokens,
  result ids and random sandbox ids are never drawn twice.
- The clock does not go back. `now` is a parameter; the handlers that read the
  clock twice take it twice.
- Choosing a pool and writing the node are one step. The source takes the store's
  lock once for each, so two registrations could interleave there.
- For the pool grouping, names asked for contain no `#` and no node is revoked. That
  nodes register once or that fingerprints differ early enough is not assumed:
  `Pools.JoinKeepsGroups` and `Pools.RefingerprintKeepsGroups` say exactly when the
  grouping survives. The history of pools needs none of this.
- A node has one waiter: its one open poll or its one driver.
- Network and gateway ranges fit in 32 bits, as their types do.
- A create sent to a node by name passes neither admission nor the switch check,
  so cap and switch laws are about creates the scheduler places;
  `Switching.NamedClear` says exactly when such a create breaks the switch's law.
- The node is abstract: carrying a command out gets at least one colder step
  nearer, or to Hot and no colder than asked; how is its own affair.

## Where the code and its words differ

- A wake is said never to be lost. The failures of a report are taken for any
  sandbox it names, on whatever node, and wake no one, so a node can stay parked
  while one of its sandboxes is let out of quarantine:
  `Wakeup.FailureLosesAWakeup`. `Wakeup.FailuresWakeAll` gives the exact condition
  on a report, and `Wakeup.NoLostWakeup` holds of every run that keeps to it.
- A pool is said to be keyed by its fingerprint. A node alone in its pool that
  registers again with a new one leaves the name empty, and two fingerprints that
  agree in eight characters share a derived pool:
  `PoolRuns.LoneNodeEmptiesItsName`, `PoolRuns.EightCharactersClash`.
- The load test reads quantiles without the clamp the master applies and looks at
  the first line rather than the first bucket with a count at or below nought:
  `Quantile.ReadingsAgreeExactly` gives all the `q` where they still agree.
- The idle sweep looks only at sandboxes idle for the freezing threshold. With a
  smaller threshold for a colder tier it does not reach it in time:
  `TierRuns.ThreeSufficeIffOrdered`.
- The cursor parser accepts tokens the API does not print, a plus sign for one:
  `Paging.CursorCanonical`.

## Model

| member | source | states |
|---|---|---|
| `Pools.JoinKeepsGroups` | crates/sandstorm-core/src/master/api.rs:1600-1626 | A registration under a plain name, first or not, keeps the grouping -- same base name, same pool if and only if same fingerprint, base never empty -- exactly when the node may leave where it was (same base, or someone else holds that name or nobody is left in its family) and may come in (no mismatch, or another node holds the name and no other fingerprint is in the derived pool) |
| `Pools.FirstJoinKeepsGroups` | crates/sandstorm-core/src/master/api.rs:1600-1626 | For a first registration: exactly when nothing mismatches, or no node in the derived pool has a different fingerprint, which two that agree in eight characters could |
| `Pools.RefingerprintKeepsGroups` | crates/sandstorm-core/src/state.rs:522-582 | A changed fingerprint keeps the grouping, through the merge that brings a derived group back, exactly when no other node in the pool it derives has a different fingerprint |
| `Pools.DerivedKeepsGroups` | crates/sandstorm-core/src/state.rs:537-555 | A node put in `<base>#<fp8>` because another holds the name keeps the grouping if and only if it may leave where it was and nobody there has another fingerprint |
| `Pools.HomeKeepsGroups` | crates/sandstorm-core/src/state.rs:539-579 | The move to the name and the merge of the group ahead, taken together, keep the grouping under the same condition, both ways |
| `Pools.DerivedNames` | crates/sandstorm-core/src/state.rs:537-538 | A derived name is never the base, and two fingerprints derive one name exactly when they are equal or agree in their first eight characters |
| `Pools.JoinedRow` | crates/sandstorm-core/src/state.rs:446-468 | A registration writes pool, fingerprint, cap, time and connection, keeps the readings of a node already known, lifts a revocation, and touches no other row |
| `Pools.NothingLeftBehind` | crates/sandstorm-core/src/state.rs:537-582 | A node whose fingerprint leaves its name all alike comes back under it and takes every node, sandbox and token of the pool it derives along; all else stays |
| `Pools.GoesAhead` | crates/sandstorm-core/src/state.rs:537-555 | A node whose name still holds another fingerprint goes to the derived pool with its own sandboxes, and nothing else moves |
| `PoolRuns.RunKeeps` | crates/sandstorm-core/src/state.rs:446-582 | Over every run of tokens, registrations that may be, fingerprint reports, creates and deletes with a clock that does not go back: the grouping, every sandbox in its registered node's pool, and every node's history one chain whose open stretch names its pool |
| `PoolRuns.StepKeeps` | crates/sandstorm-core/src/state.rs:522-582 | Each event of such a run keeps the grouping, the sandboxes' pools and the histories |
| `PoolRuns.HistoryRuns` | crates/sandstorm-core/src/state.rs:446-582 | Over every run whatever -- second registrations, clashing fingerprints and odd pool names included -- each node has exactly one open stretch, the last of one chain, and it names the pool it is in |
| `PoolRuns.ConsoleAddsUp` | web/console/src/series.ts:17-37 | So after any run from an empty store the console's per-pool lines add up to the fleet's per-node total, from the first stretch of every node that reported |
| `PoolRuns.JoinSandboxes` | crates/sandstorm-core/src/state.rs:446-468 | A registration does not touch sandboxes, so they are in their node's pool afterwards exactly when those already placed on that node carry the pool it joins |
| `PoolRuns.OneFingerprintIsHome` | crates/sandstorm-core/src/state.rs:514-521 | Once every node of a base name has one fingerprint, all are in the pool of that name |
| `PoolRuns.UpgradeComesHome` | crates/sandstorm-core/src/state.rs:514-582 | A rolling upgrade in any order ends with every node of the base back under the base name |
| `PoolRuns.LoneNodeEmptiesItsName` | crates/sandstorm-core/src/state.rs:670-676 | A run that breaks the grouping: a node alone under a name registers again under it with a new fingerprint, finds its own old row there, and leaves the name empty |
| `PoolRuns.EightCharactersClash` | crates/sandstorm-core/src/master/api.rs:1614 | A run that breaks it otherwise: two fingerprints that agree in eight characters are put in one derived pool |
| `PoolRuns.SpentStaysSpent` | crates/sandstorm-core/src/state.rs:1225-1247 | A redeemed token stays redeemed, by the same node, whatever follows |
| `PoolRuns.RegisterNeedsToken` | crates/sandstorm-core/src/master/api.rs:1632-1660 | With an unspent token that has not run out the node joins, connected, under the pool chosen for it, and the token is spent by it then; with any other nothing at all changes |
| `PoolRuns.MintedLetsIn` | crates/sandstorm-core/src/state.rs:1225-1247 | A token newly minted lets a node in, under the pool it was minted for, if and only if it has not run out |
| `PoolRuns.TokensSpentInTime` | crates/sandstorm-core/src/state.rs:1225-1247 | Over every run each spent token was spent by someone and before it ran out |
| `PoolRuns.ExpiredStaysUnspent` | crates/sandstorm-core/src/state.rs:1225-1247 | A token that ran out unspent stays unspent over every run |
| `State.Store.NotePool` | crates/sandstorm-core/src/state.rs:471-493 | The node's rows become exactly the old ones closed now plus one open row, or stay as they are when the open row already names the pool |
| `State.Store.UpsertNode` | crates/sandstorm-core/src/state.rs:446-468 | Whole new node row: an insert has reported nothing, an update keeps health and revocation; the pool is noted |
| `State.Store.RefingerprintNode` | crates/sandstorm-core/src/state.rs:522-582 | The loop and updates of one transaction equal the specified move-and-merge, and the answer says whether and where the node moved |
| `State.Store.BringBack` | crates/sandstorm-core/src/state.rs:560-579 | The loop over the group ahead renames exactly that group, with its history, sandboxes and tokens |
| `State.Store.Register` | crates/sandstorm-core/src/master/api.rs:1632-1660 | Redeeming, choosing the pool, writing the node and vouching for it are one step of the run; refused when the token grants nothing |
| `State.Store.AddNode` | crates/sandstorm-core/src/master/api.rs:1379-1399 | The same step for a node the master will drive: its address stored, a revocation lifted, not connected yet |
| `State.Store.SetNodeAgent` | crates/sandstorm-core/src/state.rs:600-615 | The address and secret of a known node, and its revocation lifted |
| `State.Store.RedeemNodeToken` | crates/sandstorm-core/src/state.rs:1225-1247 | Grants the pool of an unspent, unexpired token once and marks it spent |
| `State.Store.PutImageTemplate` | crates/sandstorm-core/src/state.rs:1350-1380 | A retry is a new attempt that forgets earlier outcomes; a name that means another image is refused unchanged |
| `State.Store.AllocateSlot` | crates/sandstorm-core/src/state.rs:973-997 | The walk over the sorted column gives the least free value of the range, None exactly when the range is full |
| `State.Store.SelectSlots` | crates/sandstorm-core/src/state.rs:974-984 | The query's answer: the values in use on the node within the range, ascending |
| `PoolHistory.NotedKeepsChain` | crates/sandstorm-core/src/state.rs:471-493 | A move leaves a node's rows one chain, each ending where the next begins, only the last open and naming the pool |
| `PoolHistory.NotedKeepsThePast` | crates/sandstorm-core/src/state.rs:471-493 | Recording a move changes nothing about any earlier moment |
| `PoolHistory.Partition` | web/console/src/series.ts:17-19 | Under the console's half-open test every moment from the first row on lies in exactly one row, and no earlier one in any |
| `PoolHistory.InOnePool` | web/console/src/series.ts:17-19 | At each moment from its first row on a node is in exactly one pool, and before it in none |
| `PoolHistory.AddPoints` | web/console/src/series.ts:31-34 | The inner loop adds exactly the points whose node was in the pool then |
| `PoolHistory.PoolLine` | web/console/src/series.ts:23-37 | The nested loops compute, at every time, the sum over the nodes in the pool then, with a point wherever the base line has one or a node of the pool reported |
| `PoolHistory.PoolsAddUp` | web/console/src/series.ts:23-37 | The lines of all pools add up to the line of any pool |
| `PoolHistory.PoolsAreTheFleet` | web/console/src/series.ts:20-37 | From the first stretch of every reporting node on, the per-pool lines summed over all pools are the fleet's per-node total |
| `Slots.Lowest` | crates/sandstorm-core/src/state.rs:967-997 | The least value of the range not in use; None if and only if all are |
| `Slots.FirstGap` | crates/sandstorm-core/src/state.rs:984-997 | Walking the sorted values with a moving candidate, stopping at the largest 32-bit value, finds that least value |
| `Slots.BatchKeepsSlots` | crates/sandstorm-core/src/master/api.rs:3199-3286 | A batch that goes through leaves network slots distinct and in the plan, gateway ports absent or distinct and in range, per node |
| `Slots.BatchAdds` | crates/sandstorm-core/src/master/api.rs:3199-3286 | A batch that goes through puts its children where they were placed, under their pools, and changes no other row |
| `Slots.BatchRows` | crates/sandstorm-core/src/master/api.rs:3199-3286 | Every row it writes, whole: the request with the child's own id, place and token, the least network slot of the plan that no earlier sandbox or child of its node has, and the least such port, none only when every one is had |
| `Slots.FirstRefusal` | crates/sandstorm-core/src/master/api.rs:3199-3286 | A batch is refused for its first child that does not go in after those before it: its node is out of slots, or else its id is taken |
| `Slots.BatchFits` | crates/sandstorm-core/src/master/api.rs:3199-3286 | A batch goes through if and only if its ids are new and every node has a network slot for each child placed on it |
| `Slots.SlotsThroughout` | crates/sandstorm-core/src/master/api.rs:3199-3286 | Over every run of batches and deletes the slots stay distinct and in range |
| `Creates.CreateBatch` | crates/sandstorm-core/src/master/api.rs:3199-3286 | The transaction: the whole batch or, on a missing slot or a taken id partway, the store exactly as before with that refusal |
| `Creates.BatchCounts` | crates/sandstorm-core/src/master/api.rs:3199-3286 | Each node's count grows by exactly the children placed on it |
| `Creates.BatchIsRun` | crates/sandstorm-core/src/master/api.rs:3199-3286 | A batch placed under its nodes' pools is a run of single creates, so what holds over every run of the master holds of it |
| `Creates.CreateFork` | crates/sandstorm-core/src/master/api.rs:3175-3286 | A fork finds no place only when the matching nodes open at every pick cannot hold it, and a place only when those open at some pick can; any refusal leaves the store as it was; else every child is on a matching node its pick did not find being switched, with its own token and its node's least free slots, what is stored passes no cap and is even to within one, and every earlier row is untouched |
| `Creates.CreateInPool` | crates/sandstorm-core/src/master/api.rs:3149-3163 | A template's children are all on the least loaded node of the pool that can start it and has room for every one, each row whole as asked with its own token and slots; refused exactly when there is none, with nothing changed |
| `Creates.CreateOnNode` | crates/sandstorm-core/src/master/api.rs:3164-3174 | A create sent to a node by name asks only for ids and slots: it goes through if and only if those are there, each row whole as asked with its own token and slots, under the node's pool, or for a node not registered the pool named or `default` |
| `Placement.EligibleIsNoReason` | crates/sandstorm-core/src/master/api.rs:159-190 | Admission's reasons in order, the switching check and the batch cap pass exactly the nodes called eligible |
| `Placement.ReasonIsTrue` | crates/sandstorm-core/src/master/api.rs:159-190 | A reason given against a node is true of it: at its cap, short of memory, under pressure, restarting, or without room for the whole batch |
| `Placement.PickNodeWhere` | crates/sandstorm-core/src/master/api.rs:3379-3429 | The scan answers the least loaded eligible node, the first listed of ties; refused exactly when none is eligible, with the reason of every node that is up, and says "no connected node" exactly when none is |
| `Placement.PickIsLeast` | crates/sandstorm-core/src/master/api.rs:3372-3378 | The pick is eligible and no eligible node is less loaded |
| `Placement.PickNode` | crates/sandstorm-core/src/master/api.rs:3323-3366 | The pool's pick with room for the whole batch; "no template" exactly when nodes are up and none can start it |
| `Placement.InPoolIsBase` | crates/sandstorm-core/src/master/api.rs:3342 | Under a plain name the pool and its host groups are exactly the nodes with that base name |
| `Placement.PlaceFork` | crates/sandstorm-core/src/master/api.rs:3175-3196 | The child-by-child loop, each pick looking switches up anew, succeeds when the matching nodes open at every pick have room for all and only when those open at some pick do; no cap is passed; a node that took a child is at most one above any always open that could take another |
| `Placement.PickKeepsEven` | crates/sandstorm-core/src/master/api.rs:3179-3195 | One more child keeps the spread even over the nodes open at every pick |
| `Placement.PickKeepsCaps` | crates/sandstorm-core/src/master/api.rs:3179-3195 | One more child passes no cap and goes to a node its pick did not find being switched |
| `Placement.SteadySwitching` | crates/sandstorm-core/src/master/api.rs:3391-3396 | While no switch begins or ends the two bounds are one, and the fork succeeds if and only if there is room |
| `Placement.PickTakesRoom` | crates/sandstorm-core/src/master/api.rs:3179-3195 | A child given to an eligible capped node takes exactly one from the room of the fleet |
| `Switching.SetNodeBackend` | crates/sandstorm-core/src/master/api.rs:1053-1168 | Only an empty, connected node that can switch and is not there already comes to be asked, and only it stays out of placement; every refusal puts it back; and the whole is the begin, count and release moves of the interleaving |
| `Switching.AskedWhenEmpty` | crates/sandstorm-core/src/master/api.rs:1090-1150 | A node is asked if and only if it is known, connected and able to switch, no sandbox and no snapshot is on it, and its engine is not the one wanted |
| `Switching.RefusedForWhat` | crates/sandstorm-core/src/master/api.rs:1101-1140 | A node that holds anything is refused with how many of each; an empty one on that backend already is told so, whether it can switch or not |
| `Switching.EngineTells` | crates/sandstorm-core/src/master/api.rs:364-375 | An engine text, trimmed and in letters of either case, is read as the backend whose name it begins with, and as none otherwise |
| `Switching.Switchboard.Begin` | crates/sandstorm-core/src/master/api.rs:1072-1082 | A node is out of placement for the next 120 seconds and no longer, unless a switch of it was live; every other node is as it was |
| `SwitchRuns.SwitchBackend` | crates/sandstorm-core/src/master/api.rs:1053-1190 | To the answer: the command, with the name of the backend wanted, is queued once exactly when the node is known, connected, empty, able to switch, on another backend and not switching; a node that declines is placeable again, one that accepts or says nothing stays out |
| `SwitchRuns.NameReadsBack` | crates/sandstorm-core/src/master/api.rs:364-375 | The name a node is sent, reported back with any version after it, is read as that backend |
| `SwitchRuns.ReportEndsSwitch` | crates/sandstorm-core/src/master/api.rs:2566-2570 | A report naming that backend ends the switch of its node; one naming the other backend ends none |
| `SwitchRuns.FindSwitching` | crates/sandstorm-core/src/master/api.rs:347-351 | Looking the listed nodes up one by one finds exactly the live ones, and pruning changes which are live for none |
| `SwitchRuns.CreateIsRun` | crates/sandstorm-core/src/master/api.rs:3175-3297 | A create that adds rows only on nodes it found not being switched is the open, choose and write moves of the interleaving |
| `SwitchRuns.ForkBeside` | crates/sandstorm-core/src/master/api.rs:3175-3297 | So a fork that looks the switches up keeps every node counted empty and still being switched without a sandbox |
| `Switching.Switchboard.SwitchingTo` | crates/sandstorm-core/src/master/api.rs:347-351 | Expired entries go; answers the backend exactly while the entry is live |
| `Switching.Switchboard.Reported` | crates/sandstorm-core/src/master/api.rs:2566-2570 | A report that names the backend asked for ends the switch |
| `Switching.ClearThroughout` | crates/sandstorm-core/src/master/api.rs:1069-1133 | However switches, scheduler-placed creates, deletes, reports and the clock interleave, a node whose switch passed its count and is still live holds no sandbox, and none is on its way |
| `Switching.StepClear` | crates/sandstorm-core/src/master/api.rs:3392-3396 | Each interleaved step keeps that for every node |
| `Switching.NamedClear` | crates/sandstorm-core/src/master/api.rs:3164-3174 | A create sent to a node by name keeps it exactly when that node is not one found empty and still live |
| `Switching.FirstCreateRefusesSwitch` | crates/sandstorm-core/src/master/api.rs:1101-1126 | A create that committed first makes every later count of its node refuse while its sandboxes are there |
| `Reconcile.Reconciler.Diff` | crates/sandstorm-core/src/master/api.rs:2546-2713 | The whole handler: the state after it and every command, in order, are as specified, and the Asking rows say what that state and those commands are |
| `Reconcile.Reconciler.Record` | crates/sandstorm-core/src/master/api.rs:2548-2594 | Health, features, templates, host, fingerprint and addresses recorded, nothing else |
| `Reconcile.Reconciler.RecordHost` | crates/sandstorm-core/src/master/api.rs:2527-2542 | Written only when it differs from the last host seen |
| `Reconcile.Reconciler.PullsFor` | crates/sandstorm-core/src/master/api.rs:3647-3684 | The loop records each reported pull, finishes pending specs, and asks exactly for the pulls that are due |
| `Reconcile.Reconciler.AskFor` | crates/sandstorm-core/src/master/api.rs:2605-2691 | One sandbox's commands; looking each tag's source up once changes nothing |
| `Reconcile.Reconciler.DestroyOrphans` | crates/sandstorm-core/src/master/api.rs:2694-2701 | Destroys exactly what is held and not wanted on this node |
| `Reconcile.DiffedKeepsIds` | crates/sandstorm-core/src/master/api.rs:2546-2713 | A diff changes nothing of what is wanted: only pools and addresses of sandboxes |
| `Asking.TagsDropped` | crates/sandstorm-core/src/master/api.rs:2702-2711 | For every desk and report a tag is to be dropped if and only if the node reports it and no record names it |
| `Asking.PullsAsked` | crates/sandstorm-core/src/master/api.rs:3647-3684 | A pull is asked for if and only if the node reports templates, that image and attempt are the latest, no pull of them is reported, none failed there, and the template is not installed or not finished |
| `Asking.TiersAsked` | crates/sandstorm-core/src/master/api.rs:2606-2691 | A tier is asked for if and only if the sandbox is wanted on this node at that tier, has fewer than five failures, and is shown at another |
| `Asking.RulesAsked` | crates/sandstorm-core/src/master/api.rs:2606-2691 | Rules are asked for if and only if the sandbox is wanted on this node with them, has fewer than five failures, and is shown with others |
| `Asking.DestroysAsked` | crates/sandstorm-core/src/master/api.rs:2694-2701 | A sandbox is destroyed if and only if it is shown, with that slot, and not wanted on this node |
| `Asking.CreatesAsked` | crates/sandstorm-core/src/master/api.rs:2606-2668 | A sandbox is created if and only if it is wanted on this node with fewer than five failures, not shown, not detached and of a known template |
| `Asking.CreateIsRow` | crates/sandstorm-core/src/master/api.rs:2616-2668 | Every field of a create is its row's; the port falls back to 8080, the memory ceiling to the template's, and the image is fetched exactly from another, known, unrevoked node, with its address, certificate and secret |
| `Asking.AskedOnceInTurn` | crates/sandstorm-core/src/master/api.rs:2546-2713 | A report that names each sandbox and tag once is answered with each command once: pulls, then what wanted sandboxes need, then destructions, then tags |
| `Asking.ByKind` | crates/sandstorm-core/src/master/api.rs:2546-2713 | Each kind of command comes from one part of the diff alone, and no run-once command from any |
| `Asking.NodeIsMeasured` | crates/sandstorm-core/src/state.rs:779-786 | The reporting node is up from then with the readings and the fingerprint it reports; every other node keeps its own, caps and revocations included |
| `Asking.ReportIsKept` | crates/sandstorm-core/src/master/api.rs:2548-2570 | Features, templates and host are kept for the reporting node alone, and only when it says something |
| `Asking.HostIsKept` | crates/sandstorm-core/src/master/api.rs:2527-2542 | A host reported is the host stored, whether or not it was written again |
| `Asking.AddressIsTaken` | crates/sandstorm-core/src/master/api.rs:2588-2594 | A sandbox has the address the report gives it, and else the one it had |
| `Asking.PullIsTaken` | crates/sandstorm-core/src/master/api.rs:3652-3673 | The first pull of the latest attempt is recorded, a failure too when it names no program; a pending spec is finished unless it failed, the caller's program and port over the image's and its environment after it |
| `Asking.NoPullNoChange` | crates/sandstorm-core/src/master/api.rs:3652-3673 | With no such pull neither the outcome nor the template changes, and no report changes the outcome of another node |
| `Asking.FinishedHasProgram` | crates/sandstorm-core/src/master/api.rs:3661-3673 | A template is never finished by a completed pull that leaves it no program to run |
| `Asking.RefingerprintTouches` | crates/sandstorm-core/src/state.rs:522-582 | A fingerprint report changes pools of nodes and one fingerprint, and no other column |
| `Reconcile.FetchExpiryBounds` | crates/sandstorm-core/src/tag.rs:47-49 | Whatever the clock reads, a token minted then has more than 600 and at most 900 seconds left |
| `Reconcile.FetchExpiryArithmetic` | crates/sandstorm-core/src/tag.rs:47-49 | The same of the arithmetic over all numbers, exactly from 600 seconds before nought on or on a bucket's edge, for the division rounds towards nought |
| `Reconcile.FetchExpiryGrows` | crates/sandstorm-core/src/tag.rs:39-49 | The expiry is the same within a bucket and later in the next |
| `Reconcile.FetchIsGood` | crates/sandstorm-core/src/tag.rs:75-93 | The token a create carries is good for its tag, its fetching node and until its expiry, and for nothing else |
| `DiffTwice.DiffIsIdempotent` | crates/sandstorm-core/src/master/api.rs:2546-2713 | Running a diff again on one report changes nothing but when the node was last seen |
| `DiffTwice.DiffAsksTheSame` | crates/sandstorm-core/src/master/api.rs:2546-2713 | Running a diff again within one expiry bucket asks for exactly the same commands |
| `DiffTwice.PulledTwice` | crates/sandstorm-core/src/master/api.rs:3661-3673 | A pull finishes a pending spec at most once, and judges it the same afterwards |
| `DiffTwice.RecordedAllTwice` | crates/sandstorm-core/src/master/api.rs:3662-3668 | Recording the same pulls again writes the rows they wrote |
| `DiffTwice.WithIpsTwice` | crates/sandstorm-core/src/master/api.rs:2588-2594 | Addresses taken twice are as taken once, ids named twice included |
| `Convergence.QuietIffAgrees` | crates/sandstorm-core/src/master/api.rs:2604-2701 | The diff asks for nothing about sandboxes if and only if every one not quarantined agrees in tier and reported rules -- detached not held, template gone let be -- and nothing undesired is held |
| `Convergence.ThreeRoundsSettle` | crates/sandstorm-core/src/master/api.rs:2596-2701 | With desired state left alone, after any three rounds carried out in full the next diff asks for nothing about any sandbox |
| `Convergence.RoundsNearer` | crates/sandstorm-core/src/master/api.rs:2596-2701 | Each such round takes one from how far off each sandbox is, at most three to begin with |
| `Convergence.MeasureFalls` | crates/sandstorm-core/src/master/api.rs:2596-2701 | A round that got to any sandbox it was asked about strictly lowers the total; none raises it |
| `Convergence.SettledUntouched` | crates/sandstorm-core/src/master/api.rs:2606-2691 | A sandbox that was as wanted is left exactly as it is |
| `Convergence.DetachedStaysGone` | crates/sandstorm-core/src/master/api.rs:2611-2615 | A detached sandbox the node does not hold is never made again |
| `Convergence.InSandboxCommands` | crates/sandstorm-core/src/master/api.rs:2604-2701 | Every command about a sandbox is what is asked for it, or its destruction when held and not wanted |
| `Convergence.CreateIsWanted` | crates/sandstorm-core/src/master/api.rs:2616-2668 | A create is only for what is wanted and not held, and carries that row's own slots, token, rules and tag, with the caller's memory ceiling over the template's |
| `Convergence.CreatesApart` | crates/sandstorm-core/src/master/api.rs:2652-2668 | No two creates of one answer share a network slot or a gateway port |
| `Convergence.Nearer` | crates/sandstorm-core/src/proto.rs:416-430 | A node that goes at least one colder step, or straight to Hot, gets nearer |
| `Failures.RecordFailures` | crates/sandstorm-core/src/master/api.rs:2404-2436 | Errors that are over are dropped, then each failure is noted, the last of an id standing |
| `Failures.FailuresLeave` | crates/sandstorm-core/src/master/api.rs:2404-2436 | The last failure of a sandbox becomes its error, and its attempts unless held back; an error of a sandbox the report shows up without a failure is dropped; every other row and column stays |
| `Failures.QuarantinedIff` | crates/sandstorm-core/src/master/api.rs:2404-2436 | Quarantined afterwards exactly when the report says it failed five times or more and was not held back, or says nothing of it and it was |
| `Failures.QuarantineSticks` | crates/sandstorm-core/src/master/api.rs:2606-2609 | A quarantined sandbox no report mentions stays so over every run of reports, and is asked nothing |
| `Dispatch.Dispatcher.TakeExecs` | crates/sandstorm-core/src/master/api.rs:1808-1814 | Drains one node's queue, whole and in order, and no other |
| `Dispatch.Dispatcher.Deliver` | crates/sandstorm-core/src/master/api.rs:1990-1999 | A result goes to its caller once |
| `Dispatch.LeaveOutDeferred` | crates/sandstorm-core/src/master/api.rs:1764-1778 | A command stays in if and only if no entry of the report names its id or the last that does gave a wait that is over |
| `Dispatch.LeftInIsDue` | crates/sandstorm-core/src/master/api.rs:1764-1778 | Kind by kind: what is named by sandbox, template, tag or result id is left in only once the last wait given for that name is over |
| `Dispatch.LeftInConcat` | crates/sandstorm-core/src/master/api.rs:1773-1777 | What is left in keeps its order |
| `Dispatch.LookAnswers` | crates/sandstorm-core/src/master/api.rs:1738-1740 | A look hands over what the diff asked for and is due, in full, then all that was queued, in order, and nothing else |
| `Dispatch.LeftInMeans` | crates/sandstorm-core/src/master/api.rs:1773-1777 | A command stays in if and only if its id was not put off or its time has passed |
| `Dispatch.Look` | crates/sandstorm-core/src/master/api.rs:1738-1740 | A diff that fails takes nothing from the queue; else the answer is what was asked for and is due by the report, then the queue |
| `Dispatch.Poll` | crates/sandstorm-core/src/master/api.rs:1738-1756 | Answered at once exactly when something asked for is not put off or something is queued, with just that; else, after the park, with what is due of the second diff and what was queued meanwhile |
| `Dispatch.Driver.NextBatch` | crates/sandstorm-core/src/master/drive.rs:78-82 | Takes the queue only when the diff went well |
| `Dispatch.Driver.Turn` | crates/sandstorm-core/src/master/drive.rs:177-203 | It waits exactly when the diff failed, or there is nothing to do or only what was just sent; the batch it then holds, and what stays queued |
| `Dispatch.DiffIsDeclarative` | crates/sandstorm-core/src/master/api.rs:2546-2713 | A diff never asks for a run-once command |
| `Dispatch.DriverSettles` | crates/sandstorm-core/src/master/drive.rs:186-200 | The same report within a bucket, with nothing queued, is nothing new to the driver, so it waits |
| `Dispatch.NothingDropped` | crates/sandstorm-core/src/master/drive.rs:192-200 | A look overwritten because it equalled what was sent, or was empty, had taken nothing from the queue |
| `Dispatch.ConservedThroughout` | crates/sandstorm-core/src/master/api.rs:1738-1756 | Over every run of both delivery paths: all ever queued is what was handed over, in queue order, followed by what is still queued |
| `Dispatch.HandedOnce` | crates/sandstorm-core/src/master/api.rs:1808-1814 | Each command ever queued is handed over or still queued, exactly once in all |
| `Dispatch.TurnIsRun` | crates/sandstorm-core/src/master/drive.rs:177-203 | A turn of the driver is such a run: same batch, same queue |
| `Dispatch.PollIsRun` | crates/sandstorm-core/src/master/api.rs:1738-1756 | A poll is such a run, and its answer is the last thing handed over |
| `Dispatch.TurnConserves` | crates/sandstorm-core/src/master/drive.rs:177-203 | A turn of the driver, whatever is queued during its wait under new ids, is a run that may be, so it loses and repeats nothing |
| `Dispatch.PollConserves` | crates/sandstorm-core/src/master/api.rs:1738-1756 | A poll, whatever is queued while it is parked under new ids, loses and repeats nothing |
| `Dispatch.DiffOutcome` | crates/sandstorm-core/src/master/api.rs:2546-2713 | The outcome of a diff is one that conservation asks for: no run-once command in it |
| `Looks.FirstLook` | crates/sandstorm-core/src/master/api.rs:1733-1743 | The first look whole: failures, traffic and evictions taken, the diff, what is put off left out, then all that was queued |
| `Looks.AnswerNeverBounces` | crates/sandstorm-core/src/master/api.rs:1733-1743 | The answer to a report never asks for another tier of a sandbox whose tier that report just moved |
| `Looks.HalvesApart` | crates/sandstorm-core/src/master/api.rs:1733-1736 | Failures and traffic do not interfere: every row ends with the error its failures leave and the tier and idle clock its traffic and evictions do |
| `Wakeup.NoLostWakeup` | crates/sandstorm-core/src/master/api.rs:325-344 | Over every interleaving of writes, notifies, looks and parks in which no report changes the attempts of another node's sandbox: a parked node no writer is about to notify last looked at exactly what is wanted of it now, with nothing queued |
| `Wakeup.ParkedSeesWrite` | crates/sandstorm-core/src/master/api.rs:325-344 | A parked node that a write notifies looks again and sees exactly what was written |
| `Wakeup.LateParkSeesWrite` | crates/sandstorm-core/src/master/api.rs:325-344 | One notified between its look and its park takes the permit left for it and looks again at once |
| `Wakeup.StepCurrent` | crates/sandstorm-core/src/master/api.rs:1738-1756 | Each step of such an interleaving keeps that for every node |
| `Wakeup.FailuresWakeAll` | crates/sandstorm-core/src/master/api.rs:2404-2436 | A report's failures, which wake no one, leave every other node's wishes alone if and only if it names no other node's sandbox whose attempts it changes |
| `Wakeup.FailsCurrentIff` | crates/sandstorm-core/src/master/api.rs:2404-2436 | The law survives a report's failures exactly when the wishes of every node that has looked, with nothing on its way to make it look again, do |
| `Wakeup.FailureLosesAWakeup` | crates/sandstorm-core/src/master/api.rs:2404-2436 | The failing input: a held-back failure reported for another node's quarantined sandbox makes it due for creation while that node stays parked |
| `Wakeup.ChangeWakes` | crates/sandstorm-core/src/master/api.rs:333-344 | Once every notify owed is paid, no node is parked on anything but the current state |
| `Wakeup.SameWishesSameAsks` | crates/sandstorm-core/src/master/api.rs:2604-2701 | A diff's commands about sandboxes depend only on the wishes of its node |
| `Wakeup.CreateWakesAll` | crates/sandstorm-core/src/master/api.rs:3290-3298 | A batch wakes every node whose wishes it changed |
| `Wakeup.DeleteWakesAll` | crates/sandstorm-core/src/master/api.rs:3540-3566 | A delete wakes the node whose wishes it changed |
| `Wakeup.TierWakesAll` | crates/sandstorm-core/src/master/api.rs:1826-1855 | A request for a tier wakes the node whose wishes it changed |
| `Wakeup.TouchWakesAll` | crates/sandstorm-core/src/master/api.rs:3512-3538 | A touch wakes the node whose wishes it changed, which is none when the sandbox was wanted running |
| `Wakeup.RetryWakesAll` | crates/sandstorm-core/src/master/api.rs:1858-1881 | A retry wakes the node whose wishes it changed |
| `Wakeup.EgressWakesAll` | crates/sandstorm-core/src/master/api.rs:3619-3638 | A change of rules wakes the node whose wishes it changed |
| `Wakeup.SweepWakesAll` | crates/sandstorm-core/src/master/demote.rs:53-58 | The idle sweep wakes every node whose wishes it changed |
| `Wakeup.TrafficWakesAll` | crates/sandstorm-core/src/master/api.rs:1789-1806 | A report out of turn changes the wishes of its own node alone |
| `TierRuns.Sweep` | crates/sandstorm-core/src/master/demote.rs:28-60 | The sweep moves exactly the rows it should and wakes exactly the nodes with a sandbox that moved |
| `TierRuns.SweepIsOneStep` | crates/sandstorm-core/src/master/demote.rs:35-44 | At most one step, only colder, never past what the idleness earned |
| `TierRuns.SweepMoves` | crates/sandstorm-core/src/master/demote.rs:28-60 | For thresholds in any order: a sweep moves a sandbox to a tier if and only if it has been idle for freezing, the tier is the next colder, and the idle time has reached that tier's threshold or a colder one's |
| `TierRuns.SweepsSettle` | crates/sandstorm-core/src/master/demote.rs:28-60 | Three sweeps at one moment leave a running sandbox Detached, Snapshot, Frozen or Hot exactly by which threshold its idle time was the last to reach, for thresholds in order |
| `TierRuns.EarnedGrows` | crates/sandstorm-core/src/tier.rs:133-143 | Longer idle never earns a warmer tier, whatever the order of the thresholds |
| `TierRuns.ThreeSufficeIffOrdered` | crates/sandstorm-core/src/master/demote.rs:28-60 | Three sweeps, however far apart, bring every sandbox of every store left alone to at least the tier its idleness earned when the first began, and no colder than earned by the end of the last unless it was, if and only if nothing is earned sooner than freezing |
| `TierRuns.ApplyTraffic` | crates/sandstorm-core/src/master/api.rs:2458-2489 | The loop over the report's traffic: each sandbox its node holds is used, and one shown running is wanted so unless its pause is on hold |
| `TierRuns.ApplyEvictions` | crates/sandstorm-core/src/master/api.rs:2497-2520 | The loop over the report's evictions: each sandbox its node holds goes to the observed tier when that is colder |
| `TierRuns.ReportMoves` | crates/sandstorm-core/src/master/api.rs:2458-2520 | What a report makes of each row: used exactly when its holder says so, wanted running when it is also shown running and no pause of the last fifteen seconds holds it, wanted at the colder tier it was evicted to, and otherwise unmoved |
| `TierRuns.TrafficAndEvictionsCommute` | crates/sandstorm-core/src/master/api.rs:2458-2520 | The traffic and the evictions of one report can be taken in either order when its observed ids are unique |
| `TierRuns.DiffNeverBounces` | crates/sandstorm-core/src/master/api.rs:2444-2450 | A tier the report moved is asked no change of by the diff that follows |
| `TierRuns.EveryMove` | crates/sandstorm-core/src/master/api.rs:2458-2520 | A desired tier gets warmer only by touch, request or a report from its holder showing it running outside a hold; colder only by request, one earned step of a sweep, or to the tier its holder evicted it to |
| `TierRuns.PausedStays` | crates/sandstorm-core/src/master/api.rs:395-409 | While the hold lasts no traffic, sweep or other sandbox's request wakes a paused one |
| `TierRuns.PauseSandbox` | crates/sandstorm-core/src/master/e2b.rs:902-920 | A pause puts the sandbox on hold and then asks it to disk; one already paused is refused |
| `TierRuns.BringBackSandbox` | crates/sandstorm-core/src/master/e2b.rs:886-892 | The hold is released and the sandbox wanted running |
| `TierRuns.TouchSandbox` | crates/sandstorm-core/src/master/api.rs:3512-3532 | The sandbox is used and wanted running, and its node woken exactly when it was not |
| `TierRuns.RequestTier` | crates/sandstorm-core/src/master/api.rs:1826-1855 | The sandbox is wanted at the tier asked for, with its idle clock moved for Hot, and its node woken |
| `TierRuns.Pauses.Hold` | crates/sandstorm-core/src/master/api.rs:299-303 | The sandbox is on hold for the next fifteen seconds and no longer; every other sandbox is on hold exactly when it was; what ran out is dropped |
| `Charts.LimitedSlopes` | bench/fleet/charts.py:172-183 | After the whole loop every segment's slope ratios are at least 0 with squares adding to at most 9, or both slopes 0 where the data is flat |
| `Charts.LimitedInCircles` | bench/fleet/charts.py:175-183 | Every segment's two slopes, after the whole loop, run with its secant inside the circle of radius three secants |
| `Charts.LoopKeepsInv` | bench/fleet/charts.py:175-183 | The loop keeps every earlier segment's slopes in its circle although it changes slopes they use |
| `Charts.VisitKeepsInv` | bench/fleet/charts.py:176-183 | One turn of the loop puts its segment's slopes in the circle and leaves every earlier segment's there |
| `Charts.VisitShrinks` | bench/fleet/charts.py:176-183 | A visit multiplies both slopes by one factor of at most 1: it leaves a pair inside the circle as it is and brings any other exactly onto it |
| `Charts.SegmentMonotone` | bench/fleet/charts.py:184-193 | Every drawn segment stays between its end points' values and never turns back |
| `Charts.CurveEven` | bench/fleet/charts.py:186-192 | Along x a drawn segment keeps an even pace |
| `Charts.RateNotNegative` | bench/fleet/charts.py:180-182 | Inside the circle of radius 3 a segment's rate is never negative |
| `Charts.ProgressRises` | bench/fleet/charts.py:184-193 | Inside the circle a segment's progress from one end to the other only rises |
| `Charts.Limit` | bench/fleet/charts.py:175-183 | The in-place loop over the slopes computes the specified list |
| `Charts.Draw` | bench/fleet/charts.py:184-192 | The path loop writes one cubic a segment with its control points |
| `Charts.Monotone` | bench/fleet/charts.py:166-193 | The whole function: the path through the points with the limited slopes |
| `Tangents.StartIsTangent` | bench/fleet/charts.py:175-176 | Through evenly spaced data on a parabola the slope at a point where the data goes on rising or falling is the parabola's own |
| `Tangents.StartIsLevel` | bench/fleet/charts.py:176 | Where the data turns or is flat on one side the slope is 0, whatever the spacing |
| `Tangents.StartAtEnds` | bench/fleet/charts.py:176 | At each end the slope is that of the step there |
| `Tangents.StartMirrors` | bench/fleet/charts.py:176 | The starting slopes of the secants read backwards are the starting slopes read backwards |
| `Tangents.NoWidthIsNarrow` | bench/fleet/charts.py:175 | A step of no width has the slope of one a billionth wide |
| `Tangents.NothingLimited` | bench/fleet/charts.py:177-183 | When every segment's slopes are in its circle the whole loop changes nothing |
| `Tangents.LevelStays` | bench/fleet/charts.py:177-183 | A slope of 0 is 0 after the loop |
| `Tangents.LevelAtTurns` | bench/fleet/charts.py:166-193 | At every turn of the data the drawn path is level, however far it was limited |
| `Tangents.PathIsTangent` | bench/fleet/charts.py:166-193 | Through evenly spaced data on a parabola with no segment limited the path is tangent to the parabola at every inner point: both control points and the point lie on its tangent there |
| `Tangents.LineIsDrawn` | bench/fleet/charts.py:166-193 | Data on a line, however spaced, is drawn as that line |
| `Histogram.Histogram.Observe` | crates/sandstorm-core/src/master/metrics.rs:71-80 | One more duration, counted in the first bucket whose inclusive bound it does not exceed, and in the sum and the count |
| `Histogram.Histogram.Render` | crates/sandstorm-core/src/master/metrics.rs:82-97 | Each rendered bucket counts exactly the durations, in nanoseconds, of at most its edge in seconds, +Inf all of them; the sum and the count are of all durations |
| `Histogram.BelowIsAtMost` | crates/sandstorm-core/src/master/metrics.rs:83-91 | Cumulative counts are the observations at or below an edge |
| `Histogram.AddMerges` | crates/sandstorm-core/src/master/metrics.rs:132-137 | Adding snapshots is observing both lists |
| `Histogram.SinceRemovesPrefix` | crates/sandstorm-core/src/master/metrics.rs:139-145 | Taking an earlier snapshot away leaves what came since |
| `Histogram.SinceLaterIsNothing` | crates/sandstorm-core/src/master/metrics.rs:139-145 | Taking a later snapshot from an earlier leaves an empty one |
| `Histogram.ApiSnap` | crates/sandstorm-core/src/master/metrics.rs:318-329 | Every route but the node routes folded into one, with their server errors added |
| `Histogram.ApiRoutesAre` | crates/sandstorm-core/src/master/metrics.rs:318-329 | Exactly the routes not under /v1/node/ are folded in, each as often as it is there |
| `Histogram.BucketsAreEdges` | crates/sandstorm-core/src/master/metrics.rs:46-49 | The bucket table is fourteen positive edges in strict order |
| `Quantile.SnapshotQuantile` | crates/sandstorm-core/src/master/metrics.rs:152-168 | The master's loop computes the specified reading |
| `Quantile.HistogramQuantile` | bench/fleet/loadtest.py:170-196 | The load test's loop computes the specified reading of the scraped rows |
| `Quantile.ReadingsAgree` | bench/fleet/loadtest.py:170-196 | For 0 < q <= 1 and a nonempty histogram the two agree |
| `Quantile.ReadingsAgreeExactly` | bench/fleet/loadtest.py:170-196 | Over every snapshot, exactly the q for which the two readings agree |
| `Quantile.ScrapeMatchesMaster` | bench/fleet/loadtest.py:170-196 | What the load test reads off the rendered rows is what the master reports |
| `Quantile.QuantileInBucket` | crates/sandstorm-core/src/master/metrics.rs:147-168 | The value lies in the bucket of the q-th smallest observation, or is the last edge past them all |
| `Quantile.QuantileInterpolates` | crates/sandstorm-core/src/master/metrics.rs:152-168 | In its bucket the value divides the edges as the rank asked for divides the counts |
| `Quantile.QuantileMonotone` | crates/sandstorm-core/src/master/metrics.rs:152-168 | The master's reading grows with q |
| `LineReader.BufferedLineReader.ReadLine` | rootfs-init/sandstorm-agent.py:434-449 | The next line of the stream, or what is left at its end; line and remainder are the stream |
| `LineReader.BufferedLineReader.TryReadLine` | rootfs-init/sandstorm-agent.py:461-474 | The same from the buffer alone; None, with nothing lost, exactly when no newline is buffered |
| `LineReader.LinesFrameTheStream` | rootfs-init/sandstorm-agent.py:434-449 | Cutting after each newline loses nothing |
| `LineReader.FramingIsUnique` | rootfs-init/sandstorm-agent.py:434-449 | There is no other way to cut a stream into lines |
| `LineReader.FramingIndependentOfChunks` | rootfs-init/sandstorm-agent.py:422-474 | Any mix of calls over any chunking returns the stream's lines in order |
| `LineReader.ReadsReachTheEnd` | rootfs-init/sandstorm-agent.py:434-449 | As many reads as there are lines return all of them |
| `SandboxId.NewSandboxId` | crates/sandstorm-core/src/master/e2b.rs:364-383 | The loop emits exactly the base32 digits of the input (section 6 of RFC 4648, lower case), 26 of them for enough bytes |
| `SandboxId.ShiftIn` | crates/sandstorm-core/src/master/e2b.rs:374-375 | Shifting a byte in appends its bits to what is pending |
| `SandboxId.ShiftOut` | crates/sandstorm-core/src/master/e2b.rs:376-381 | Each digit out is the next five bits, and masking leaves the rest |
| `SandboxId.AccBound` | crates/sandstorm-core/src/master/e2b.rs:371-381 | The accumulator stays below 4096, far inside 32 bits |
| `SandboxId.IdsInjective` | crates/sandstorm-core/src/master/e2b.rs:357-363 | Two inputs give one id exactly when their first 130 bits agree |
| `Egresses.EgressCanonical` | crates/sandstorm-core/src/proto.rs:315-337 | The function: too many entries, the first entry that is no block, or both lists canonical |
| `Egresses.ListCanonical` | crates/sandstorm-core/src/proto.rs:322-331 | The loop keeps first occurrences of canonical texts and stops at the first bad entry |
| `Egresses.CidrRoundTrip` | crates/sandstorm-core/src/proto.rs:340-350 | Every block's text reads back as that block, prefix 0 included |
| `Egresses.EntryIs` | crates/sandstorm-core/src/proto.rs:340-346 | An entry is, space around it aside, exactly the one text of an address, for that address alone, or that text, a stroke and a number to 32 |
| `Egresses.AddressIsText` | crates/sandstorm-core/src/proto.rs:343 | An address that parses is written in the one way addresses are |
| `Egresses.BareAddressIsItself` | crates/sandstorm-core/src/proto.rs:341 | A bare address is the block of that address and no other |
| `Egresses.SpaceAround` | crates/sandstorm-core/src/proto.rs:341 | Space around an entry does not matter |
| `Egresses.CanonicalKeepsBlock` | crates/sandstorm-core/src/proto.rs:340-350 | A canonical entry denotes the same addresses |
| `Egresses.CanonicalIffSameBlock` | crates/sandstorm-core/src/proto.rs:340-350 | Two entries have one canonical text if and only if they denote one block (section 3.1 of RFC 4632) |
| `Egresses.CanonicalListLaws` | crates/sandstorm-core/src/proto.rs:322-331 | No duplicates, the same addresses covered, and canonical already |
| `Egresses.CanonicalLaws` | crates/sandstorm-core/src/proto.rs:315-337 | A policy has a canonical form if and only if it has at most 64 entries, all CIDRs; the form keeps the internet flag and both sets of addresses, has no copies, and is its own |
| `Egresses.RefusalNamesFirst` | crates/sandstorm-core/src/proto.rs:315-337 | A refusal gives the count when there are over 64 entries, and else the first entry that is no CIDR, those let through looked at before those kept out |
| `Paging.ListV2` | crates/sandstorm-core/src/master/e2b.rs:717-787 | A page is the right page of what matches after the cursor, newest first and ties by id, with the cursor of its last sandbox as token exactly when there is more; a token never issued is refused |
| `Paging.MatchesMeans` | crates/sandstorm-core/src/master/e2b.rs:266-270 | Running is in memory, frozen or not, paused is on disk or detached; an entry matches exactly when one of the states asked for is its own and it carries every pair asked for |
| `Paging.LimitMeans` | crates/sandstorm-core/src/master/e2b.rs:735-745 | The page limit is what was asked for, between 1 and 100, and 100 when nothing was |
| `Paging.CursorRoundTrip` | crates/sandstorm-core/src/master/e2b.rs:779-793 | Every cursor printed is read back |
| `Paging.CursorCanonical` | crates/sandstorm-core/src/master/e2b.rs:789-793 | A token that parses prints back exactly when its number was written plainly |
| `Paging.NeverTwice` | crates/sandstorm-core/src/master/e2b.rs:743-787 | No sandbox is on two pages, whatever is created or deleted between |
| `Paging.ExactlyOnce` | crates/sandstorm-core/src/master/e2b.rs:743-787 | One present and matching throughout is on exactly one |
| `Paging.PagesAreTheList` | crates/sandstorm-core/src/master/e2b.rs:743-787 | On a store that does not change the pages are exactly the matching list, newest first, ties by id |
| `Paging.PagingEnds` | crates/sandstorm-core/src/master/e2b.rs:743-787 | A store that does not change gives out no more tokens than it has matching sandboxes |
| `Paging.TokenIsCursor` | crates/sandstorm-core/src/master/e2b.rs:763-787 | The token a caller sends back is read as the last key of the page it came with |
| `Paging.FollowingIsWalk` | crates/sandstorm-core/src/master/e2b.rs:743-787 | A caller that starts without a token and sends back each one it is given makes such a walk |
| `Paging.TokensGiveTheList` | crates/sandstorm-core/src/master/e2b.rs:743-787 | Following the tokens to the end gives, in order and once each, exactly what matches while the list does not change, and whatever matches throughout when it does |

## Left out

- Floating point: `Charts`, `Histogram` and `Quantile` compute over the reals, and
  the square root in the slope limit is any function that is one.
- Charts.Monotone: the text of the path -- one decimal and the SVG letters -- is not
  modelled, only its points; a list of one point is outside it, as the source
  indexes the first secant.
- Histogram.Histogram.Observe: counters do not wrap.
- Quantile.HistogramQuantile: takes the rows already parsed; the exposition's text
  and its label splitting are not modelled.
- PoolHistory.PoolLine: gives the line as a map; its cache and the sort by time are
  not modelled.
- Paging.ListV2: takes the `state` and `metadata` filters as parsed and does not
  model a header value refusing an odd id.
- LineReader.Conn: a receive that fails is not modelled, only chunks and the end.
- Egresses.EgressCanonical: masking is clearing the low bits arithmetically, and
  the refusal carries the entry, not its message.
- Spec: a template's JSON is a record of the fields the master reads; text that does
  not parse, or fields it passes through, are not modelled.
- FetchToken: the signature is the tuple it signs, so two tokens are equal exactly
  when all four fields are; that is what the keyed hash is for.
- Switching.SetNodeBackend: stops where the command is queued; `SwitchRuns.SwitchBackend`
  goes on to the answer, and leaves out the message that goes back.
- Dispatch.Poll: takes its two diffs and what is queued meanwhile as given;
  `Looks.FirstLook` runs the first look whole. The certificate check, the caller's
  address and the length of the hold are not modelled.
- Dispatch.Driver.Turn: takes its diffs as given; results delivered, the wait's length,
  the back-off and connecting are not modelled.
- TierRuns.BringBackSandbox: the new deadline and what is sent to the sandbox's own
  daemon are not modelled.
- Placement.PickNode: the text of refusals is their reasons; counters of creates
  placed and refused are not modelled.
- Creates.CreateOnNode: how an explicit node and a tag's fingerprint are checked
  before placement is not modelled.
- Wakeup.NoLostWakeup: covers create, delete, tier, touch, retry, rules, sweep,
  traffic and queued commands; deleting a snapshot and storing a template wake no
  node in the source, and pulling an image wakes every one.
- Dispatch.ConservedThroughout: is about handing over; a drained batch whose
  connection drops, a replaced driver and a restart of the master lose it, and its
  caller times out.
- Failures.QuarantineSticks: is about sandboxes no report mentions; a node forgets
  failures the master stopped asking about, so quarantine of an observed one ends.
- Convergence.ThreeRoundsSettle: desired state is left alone; retries the node puts
  off only delay a round, as `Convergence.MeasureFalls` says.
- Certificates, pairing codes, bearer tokens and the API's token check: other
  people's cryptography.
- Routing, SQL and JSON as text: tables are maps, a transaction is a copy taken and
  put back.
- The node's runtime, its gateway and the images on its disk.
- The console but for its pool lines, the SDKs, the MCP server, the front door's
  host and path parsing, and the benchmarks but for the two functions named.
