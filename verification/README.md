# Models and proofs for the tile search

A Dafny model of the two components the self-play system stands on, with proofs of what they
promise.

**The batched search engine** (`mcts-core/src/mcts.rs`, `node.rs`). Nodes live in an arena vector; a
transposition table maps state hashes to arena indices, so the search graph may contain cycles.
`select_leaf` walks it from the root and charges one virtual loss per edge; a whole batch of walks
stays pending while inference runs; `expand` and `backpropagate` then settle them, terminal and
repeated states being settled in the middle of the batch; `advance_root` drops what the new root
cannot reach. `Mcts.Search` is that struct with the source's fields and methods. Each method is proved
to turn the graph (`GraphOf` of the arena and the table) into a function of the graph before, and the
theorems are about those functions and about the invariant `Valid`, which every public method keeps:
table and arena in bijection, every child stored under the hash of the stepped state, every
virtual-loss counter equal to the number of its edge's occurrences on pending paths, and every node
off the pending paths with a settled visit count.

| file | what it holds |
|---|---|
| `Environment.dfy` | the game as functions; the index contract and the faithful-hash assumption |
| `SearchNode.dfy`, `SearchGraph.dfy` | nodes, the in-place updates as functions of the graph, the invariants |
| `Backpropagation.dfy`, `CurrentValues.dfy` | one settled path: conservation, settled counts, value bounds; the values it leaves are averages over final child values |
| `Puct.dfy`, `Selection.dfy` | scoring and choice at a node; the walk to a leaf |
| `PuctNumbers.dfy` | scores and root priors in numbers; every step of a walk is the best choice |
| `Expansion.dfy` | prior normalisation, node creation, linking |
| `Arena.dfy`, `Pruning.dfy` | the index bijection; reachability and why pruning is invisible |
| `Accounting.dfy` | visits, flow and bounds over a stretch of search |
| `SearchTrace.dfy` | a search as a sequence of selections, client calls, settled answers and turns; which answer each node holds |
| `PolicyTarget.dfy` | the training target |
| `Mcts.dfy` | the class `Search` with all methods and whole sessions |

**The shared-memory inference protocol** (`mcts-core/src/ipc_core.rs`, `mcts-tilers/src/client.rs`,
`slot.rs`, `py_ipc.rs`, `mcts-tilers/python/mcts_tilers/handler.py`). Clients acquire a slot from the
free queue, fill it, push it on the ready queue and wait; handlers pop batches of slots, infer once
over all of them, write the answers back and mark the slots done.

| file | what it holds |
|---|---|
| `RingQueue.dfy` | the ring as one thread sees it inside the lock (a class over an array) |
| `SpinQueue.dfy` | any number of threads on the spinlocked ring, one step per atomic access: linearizable |
| `Protocol.dfy` | clients, slots and handlers as an interleaved transition system |
| `ProtocolSafety.dfy`, `ProtocolResults.dfy` | the invariant, and what it gives for every run |
| `ProtocolProgress.dfy` | no stuck state, a measure every effective step decreases, completion under fair schedules |
| `FineProtocol.dfy` | the protocol on taken-apart queue operations refines the protocol |
| `Slot.dfy` | packing and unpacking of observations, in place in the slot's arrays |
| `Batching.dfy` | concatenate, infer, split; trimming to the batch's largest grid |
| `Responses.dfy` | the strided write of the answers and the client's read-back |
| `EndToEnd.dfy` | the protocol carrying packed observations to the network and prior maps back |

**The frontier search** of the reverse curriculum (`mcts-tilers/src/gatherer.rs`) is in `Frontier.dfy`.
`Sums.dfy` and `Wrappers.dfy` are shared helpers.

## How the source is read

- Floats are reals and `usize` is unbounded. `sqrt` and `powf` are arbitrary functions; a lemma that
  needs a sign assumption states it. Scores have the two infinities the source uses.
- The environment is a record of functions with the index contract of
  `mcts-core/src/environment.rs:43-49`. States with equal hashes are assumed to have equal `done`,
  valid actions and `num_actions`, and to step to states with equal hashes.
- The inference client is any function of the call number and the observations; `AnswersAll` says it
  returns one prior map and one value per observation, and what happens without it is stated too.
- A node's stored actions may be in any duplicate-free order, since the source reads them from a
  hash map.
- Concurrency is a state machine whose steps are the atomic accesses, sequentially consistent; a
  schedule is any sequence of steps, and theorems quantify over all of them. Queue operations are
  single steps in `Protocol`; `FineProtocol` takes them apart into the atomic accesses of `SpinQueue`
  and proves that every such run is a run of `Protocol`. The fields `place`, `owner` and `log` record
  history and influence no step.
- An inference call answers each row of its batch, possibly depending on the whole batch. `EndToEnd`
  fixes the call to what the handler does: every row cut at the batch's largest grid, always the same
  number of layers. There the network is assumed to ignore cells past a row's own grid (`PadBlind`).
- In the protocol each handler marks a popped slot done exactly once: the normal path of `do_work`.
- `WAITING` is a slot state the source defines and never stores.

Where the code and its own comments differ the model follows the code:

- `run` is documented to clear the root noise at its end (`mcts-core/src/mcts.rs:942-943`); a terminal
  start returns earlier and keeps it. `Mcts.Search.Run` states both cases.
- `policy_target` is documented to drop actions pruned to exactly one visit
  (`mcts-core/src/mcts.rs:809`); the code drops one or none.
- A comment in it promises a score strictly below the best after pruning
  (`mcts-core/src/mcts.rs:894`); the code guarantees at most the best (`PolicyTarget.PruningBound`).
  `PolicyTarget.PruningTies` says exactly when the two are level, and `PolicyTarget.TieExample` is a
  root where they are.

What the gatherer relies on is the upper value bound (`mcts-tilers/src/gatherer.rs:79-80`), and it
holds whenever terminal values are at most 1. The lower one, to which estimates are clamped (`mcts-core/src/mcts.rs:323`), can be lost:
`Backpropagation.RepeatLeavesLowerBand` is a two-playout search that ends at -5/3.
`Backpropagation.BackpropBand` says exactly when a playout keeps it in a graph penalised in any way,
and `Backpropagation.RepeatBand` gives the condition for a repeat as one inequality over what is stored
before the call.

## Model

| member | source | states |
|---|---|---|
| SearchNode.NewNode | mcts-core/src/node.rs:54-92 | a new node stores exactly the prior map's actions in some order, their priors at their dense indices, and no visits, losses, penalties or children |
| SearchGraph.CoherentUpdate | mcts-core/src/mcts.rs:714-758 | changing only counters, penalties and values keeps every node well formed and every child stored under the hash of the stepped state |
| SearchGraph.AddLossKeeps | mcts-core/src/mcts.rs:683-692 | charging an edge adds exactly one occurrence of it to the pending edges the counters account for |
| SearchGraph.RevertLossKeeps | mcts-core/src/node.rs:121-126 | on a pending edge the counter is positive, so the saturating subtraction subtracts; one occurrence leaves the pending edges |
| SearchGraph.RevertPathKeeps | mcts-core/src/mcts.rs:764-769 | reverting a pending path takes exactly its edges off the pending edges, also when other pending paths share them |
| SearchGraph.RevertPathOnlyLosses | mcts-core/src/mcts.rs:764-769 | reverting a path changes nothing but virtual-loss counters |
| SearchGraph.ClearIffNotPending | mcts-core/src/mcts.rs:683-692 | a node's virtual losses are all zero exactly when no pending path leaves it |
| SearchGraph.VisitsViaAll | mcts-core/src/mcts.rs:368-381 | the visits summed over stored actions with a child are all visits of the node |
| SearchGraph.WeightedIsDense | mcts-core/src/mcts.rs:394-401 | the backed-up total counts every action once, so the stored order does not matter |
| SearchGraph.RecomputedIsAverage | mcts-core/src/mcts.rs:354-408 | the stored count is one plus all settled and pending visits, and the stored value is the estimate plus every edge's visit-weighted penalised child value, over that count |
| SearchGraph.VisitEdgeKeeps | mcts-core/src/mcts.rs:780-788 | settling one edge raises that count by one, refreshes the node's total and value, touches no other node and keeps coherence |
| SearchGraph.VisitPathKeeps | mcts-core/src/mcts.rs:779-788 | settling a path keeps coherence, the links and all virtual losses |
| SearchGraph.VisitPathCounts | mcts-core/src/mcts.rs:779-788 | settling a path adds to the edge visits exactly the path's edges, with multiplicity |
| SearchGraph.VisitPathSettles | mcts-core/src/mcts.rs:760-789 | after a path is settled every node off the pending paths has count 1 + its edge visits, or 0 when never visited |
| Backpropagation.BackpropKeeps | mcts-core/src/mcts.rs:760-789 | one backpropagation takes exactly its path off the virtual losses, adds exactly its path to the visits, settles its nodes, and keeps coherence and all links |
| Backpropagation.UnsettledKeeps | mcts-core/src/mcts.rs:764-777 | between reverting and visiting, only the path's own nodes may be unsettled |
| Backpropagation.PenalizeUpper | mcts-core/src/node.rs:128-137 | a penalty keeps each edge's total penalty between minus (visits + 1) over actions and zero on the penalised edge, and minus visits over actions elsewhere |
| Backpropagation.RecomputeUpper | mcts-core/src/mcts.rs:381-406 | recomputing a node in a graph of values at most 1 yields a value at most 1 |
| Backpropagation.BackpropUpper | mcts-core/src/mcts.rs:760-789 | backpropagation keeps all values at most 1 and every penalty between minus visits over actions and zero |
| Backpropagation.BackpropLower | mcts-core/src/mcts.rs:760-789 | without a repeat, values at least -1 stay at least -1 |
| Backpropagation.VisitEdgeBand | mcts-core/src/mcts.rs:779-788 | settling an edge leaves its node at -1 or above exactly when estimate, backed-up total, the edge's penalised child value and 2 + settled and pending visits come to at least zero |
| Backpropagation.PenaltyMargin | mcts-core/src/node.rs:128-137 | a penalty takes (visits + 1) / actions off that sum |
| Backpropagation.BackpropBand | mcts-core/src/mcts.rs:760-789 | a playout, repeat or not and whatever was penalised before, keeps all values at least -1 exactly when no such sum on its way back is negative |
| Backpropagation.RepeatBand | mcts-core/src/mcts.rs:771-788 | when the path's earlier nodes are unpenalised, a penalised repeat keeps the bound exactly when one inequality over the last node's stored numbers holds before the call |
| Backpropagation.UnrepeatedBand | mcts-core/src/mcts.rs:760-789 | a playout without a repeat over unpenalised nodes keeps the bound, whatever is penalised elsewhere |
| Backpropagation.RepeatLeavesLowerBand | mcts-core/src/mcts.rs:771-777 | two playouts of a state that leads to itself: expanded with estimate -1, then the repeat takes it to -5/3 |
| CurrentValues.RecomputeMakesCurrent | mcts-core/src/mcts.rs:354-408 | a recomputed node holds what its counts and its children's stored values make, unless it is its own child |
| CurrentValues.CurrentInNumbers | mcts-core/src/mcts.rs:381-406 | such a node's count is one plus all settled and pending visits, and its value the estimate plus every visit-weighted penalised child value, over that count |
| CurrentValues.VisitPathCurrent | mcts-core/src/mcts.rs:779-788 | because the walk back starts at the leaf, a node of a settled path holds that average over its children's final values, if none of its children lies before or at it on the path |
| CurrentValues.BackpropCurrent | mcts-core/src/mcts.rs:760-789 | the same for a whole backpropagation, repeat or not |
| Puct.LastBest | mcts-core/src/mcts.rs:588-594 | the chosen action has a maximal score and is the last listed among the maximal ones |
| Puct.Choose | mcts-core/src/mcts.rs:572-595 | an action is chosen exactly when the node is stored with an action, and it is one of the node's own |
| Puct.ChooseReadsLocally | mcts-core/src/mcts.rs:450-595 | the choice depends only on the node and its children's values |
| Puct.NormaliseBuffer | mcts-core/src/mcts.rs:496-519 | the in-place division loop divides exactly the listed entries by their original total |
| Puct.EffectiveBuffer | mcts-core/src/mcts.rs:484-524 | the buffer edits for noise and temperature compute the effective priors |
| Puct.ScoreLoop | mcts-core/src/mcts.rs:529-569 | the scoring loop gives every stored action its score and minus infinity to the rest |
| Puct.PickLastBest | mcts-core/src/mcts.rs:588-594 | the maximum loop picks the last best action |
| Puct.RootPriorsAreDistribution | mcts-core/src/mcts.rs:484-520 | with the temperature on, noise or not, the effective root priors are positive and sum to one |
| Puct.UntriedNeverAboveNode | mcts-core/src/mcts.rs:463-475 | an untried, unpenalised action is valued like the node at the root and at most like it elsewhere |
| Puct.LossLowersScore | mcts-core/src/mcts.rs:531-568 | a virtual loss strictly lowers its own action's score and no other |
| Puct.ForcedChoice | mcts-core/src/mcts.rs:542-553 | while a root action is under its forced floor, a forced search picks an action under its floor |
| PuctNumbers.RootPriorInNumbers | mcts-core/src/mcts.rs:484-524 | at the root the scored prior is (1-eps) times the stored one plus eps times the noise over its total on the stored actions, or the stored one without noise; with a temperature more than 1e-6 from one, its power 1/T, from at least 1e-30, over the total of those powers; elsewhere the stored one |
| PuctNumbers.ScoreInNumbers | mcts-core/src/mcts.rs:463-569 | a stored action scores infinity exactly when forced at a visited root with fewer visits than the root of k_forced·P·N, and otherwise its child's stored value, or the node's less c_fpu times the root of the explored mass (nothing at the root), plus the penalty, plus c_puct·P·(√N + 1e-8)/(1 + visits + losses); any other action minus infinity |
| PuctNumbers.PenaltyLowersScore | mcts-core/src/mcts.rs:559-568 | a repeat lowers the finite score of the action it ended with by one over the stored actions, and no other score |
| PuctNumbers.ChoiceIsBest | mcts-core/src/mcts.rs:577-594 | the choice at a node has the best score with the root settings exactly at the root, and is the last listed with it |
| PuctNumbers.RootSettingsAtRootOnly | mcts-core/src/mcts.rs:673-678 | noise, temperature and forced playouts change no choice off the root, and the first-play reduction none at it |
| PuctNumbers.WalkGreedy | mcts-core/src/mcts.rs:661-705 | every entry of a walk is the best choice in the graph charged with the entries before it, and the walk leaves the graph charged with its path |
| PuctNumbers.SelectionGreedy | mcts-core/src/mcts.rs:645-708 | the same for a selection from the root |
| Selection.Choice | mcts-core/src/mcts.rs:677-680 | in a coherent graph the chosen edge is always a stored one |
| Selection.WalkMove | mcts-core/src/mcts.rs:661-705 | one turn of the loop: charge, step, then stop at a missing child or go on from a child whose hash is the new state's, with fewer unvisited table entries left |
| Selection.WalkRoute | mcts-core/src/mcts.rs:645-708 | on any cyclic graph the walk ends with pairwise distinct stored nodes linked by child pointers, at the state reached by playing the path, at a repeat, a terminal state or an edge to expand, having changed only virtual losses |
| Selection.WalkCharges | mcts-core/src/mcts.rs:683-692 | the walk adds exactly its path to the pending edges |
| Selection.WalkStarts | mcts-core/src/mcts.rs:661-680 | from a stored non-terminal state the walk moves exactly when the node has a stored action |
| Selection.SimplePathFits | mcts-core/src/mcts.rs:710-712 | pigeonhole: a path of distinct table nodes is no longer than the table |
| Selection.WalkSound | mcts-core/src/mcts.rs:645-712 | all of the above together for a walk from the root with other paths pending |
| Expansion.NormalizePrior | mcts-core/src/mcts.rs:616-637 | the two loops compute the normalised prior |
| Expansion.NormalizedMass | mcts-core/src/mcts.rs:616-637 | whatever the client answered, the normalised prior has mass one over a non-empty action list |
| Expansion.NormalizedKeys | mcts-core/src/mcts.rs:616-637 | the normalised prior names only valid actions, and at least one when there is one |
| Expansion.Clamp | mcts-core/src/mcts.rs:323 | the stored estimate lies in [-1, 1] and is the given one when that does |
| Expansion.CreatedCoherent | mcts-core/src/mcts.rs:311-327 | a created node agrees with every state of its hash and starts without children, visits or losses |
| Expansion.WithNodeKeeps | mcts-core/src/mcts.rs:723-726 | storing a new node keeps coherence, conservation and settled counts |
| Expansion.LinkedChildIsLeaf | mcts-core/src/mcts.rs:731-736 | a child already linked is the hash of the stepped state: the mismatched-ids branch never fires |
| Expansion.LinkKeeps | mcts-core/src/mcts.rs:728-738 | linking the leaf keeps coherence, conservation and settled counts |
| Expansion.ExpandKeeps | mcts-core/src/mcts.rs:714-758 | expanding the end of a pending route keeps every invariant and leaves all its edges expanded |
| Expansion.ExpandUpper | mcts-core/src/mcts.rs:714-758 | values stay at most 1 if the terminal value is |
| Expansion.ExpandLower | mcts-core/src/mcts.rs:714-758 | values stay at least -1 if the terminal value is |
| Arena.GraphUpdate | mcts-core/src/mcts.rs:330-336 | writing through a node reference keeps the bijection and changes one node of the graph |
| Arena.GraphInsert | mcts-core/src/mcts.rs:347-351 | inserting under a fresh id keeps the bijection and adds one node |
| Arena.KeptStep | mcts-core/src/mcts.rs:291-297 | one turn of the rebuild loop keeps order, bijection and contents |
| Accounting.NodeTotal | mcts-core/src/mcts.rs:779-788 | a settled simple path adds one visit to each node on it and none elsewhere |
| Accounting.FlowSettle | mcts-core/src/mcts.rs:779-788 | settling a route from the root keeps every other node's outgoing visits at most the visits on edges into it |
| Accounting.FlowIdle | mcts-core/src/mcts.rs:714-758 | selection and expansion keep that flow bound |
| Accounting.ProgressSettle | mcts-core/src/mcts.rs:760-789 | one settled path counts one playout at the root and keeps flow and value bounds |
| Accounting.ProgressExpand | mcts-core/src/mcts.rs:714-758 | an expansion settles nothing and keeps flow and value bounds |
| Accounting.ProgressCreate | mcts-core/src/mcts.rs:158-167 | creating the root settles nothing and keeps every invariant |
| Accounting.ProgressChain | mcts-core/src/mcts.rs:173-224 | two stretches of search add up: edges settled, playouts and repeats |
| Accounting.SelectedFromRoot | mcts-core/src/mcts.rs:178-207 | a selection in a search yields a route from the root that needs settling, and a repeat's route is fully expanded |
| Accounting.RepeatExpanded | mcts-core/src/mcts.rs:667-670 | a walk that ends at a repeat has children on all its edges |
| Accounting.EdgesOfWaiting | mcts-core/src/mcts.rs:215-223 | waiting playouts leave no pending edge exactly when there are none |
| Accounting.ClearIffSettled | mcts-core/src/mcts.rs:173-224 | all virtual losses are zero exactly when no selected path is unsettled |
| Accounting.AllSettled | mcts-core/src/mcts.rs:354-408 | with nothing pending every node's count is 0, or 1 + its edge visits |
| SearchTrace.CreatedJudged | mcts-core/src/mcts.rs:311-327 | a created node holds the value cut to [-1, 1] and each prior over the client's total on the valid actions, or one over their number when that total is zero; a terminal one the evaluator's value |
| SearchTrace.ExpandedStores | mcts-core/src/mcts.rs:714-758 | expanding and backing up with an answer stores exactly that answer at a missing leaf, and no other node |
| SearchTrace.BackpropPenalties | mcts-core/src/mcts.rs:771-777 | only a repeat changes a penalty, and only its last edge's |
| SearchTrace.RepeatPenalty | mcts-core/src/mcts.rs:771-777 | that one drops by one over the stored actions of its node |
| SearchTrace.ExpandDrops | mcts-core/src/mcts.rs:714-758 | a new node starts without penalties, and expansion changes none |
| SearchTrace.SelectLearns | mcts-core/src/mcts.rs:178-207 | a selection that stores a node stores a terminal one with the evaluator's value |
| SearchTrace.SettleLearns | mcts-core/src/mcts.rs:216-223 | settling answer i stores at its leaf that answer, the first about that state, and nothing else |
| SearchTrace.CallsFollow | mcts-core/src/mcts.rs:205-214 | every call sends the states of exactly the waiting leaves, one each, in order, reached by playing their paths and not terminal |
| SearchTrace.StartSound | mcts-core/src/mcts.rs:154-167 | a missing root holds the first answer to its own state, or the evaluator's value |
| SearchTrace.SettlesLead | mcts-core/src/mcts.rs:216-223 | settling the answers of a call in order, each at the leaf with its number, is a stretch of the search |
| SearchTrace.LeadsTrans | mcts-core/src/mcts.rs:173-224 | stretches of search compose |
| SearchTrace.SearchSound | mcts-core/src/mcts.rs:173-224 | every sequence of selections, calls, settled answers and turns keeps all of this |
| SearchTrace.SearchedMeans | mcts-core/src/mcts.rs:143-231 | after a search every new node holds the evaluator's value or the first answer about its state, every call is the client's answer to exactly the leaves reached, and every penalty has dropped by one share per repeat its edge ended |
| Pruning.ClosedHoldsReachable | mcts-core/src/mcts.rs:263-285 | a set closed under children holds everything reachable from its members |
| Pruning.RestrictedKeeps | mcts-core/src/mcts.rs:287-299 | pruning to a closed set keeps coherence, settled counts and conservation of the surviving pending edges |
| Pruning.RestrictedBounds | mcts-core/src/mcts.rs:287-299 | pruning keeps the value bounds |
| Pruning.WalkAgrees | mcts-core/src/mcts.rs:645-708 | two graphs equal on a closed set give the same walk from any of its nodes |
| Pruning.PruningInvisible | mcts-core/src/mcts.rs:257-299 | selection from a kept node returns the same path, final state and repeat flag on the pruned and the unpruned graph |
| Pruning.AdvancingInvisible | mcts-core/src/mcts.rs:257-299 | the same with the kept set exactly the ids reachable from the new root |
| PolicyTarget.FirstMost | mcts-core/src/mcts.rs:852-862 | the best action has the most visits and is the first listed among such |
| PolicyTarget.PruningBound | mcts-core/src/mcts.rs:876-915 | each other action kept its count, or its Q + c·P·√N/(1+pruned) is at most the best score; it lost at most the floor of its forced visits |
| PolicyTarget.PruningTies | mcts-core/src/mcts.rs:894-914 | an action that lost visits ends level with the best score exactly when its weight is a whole multiple k of the gap, 1 <= k <= visits, and its forced visits cover visits + 1 - k |
| PolicyTarget.TieExample | mcts-core/src/mcts.rs:894-914 | a root with 12 and 4 visits whose second action loses two of its forced visits and ends level with the best |
| PolicyTarget.PruningIsMaximal | mcts-core/src/mcts.rs:894-914 | an action that keeps visits lost all its forced ones, or with one visit fewer would beat the best score |
| PolicyTarget.PrunedInNumbers | mcts-core/src/mcts.rs:876-915 | only a visited action other than the best, with a prior and at least one forced visit, loses visits: the lesser of floor(√(k_forced·P·N)) and floor(visits - (c_puct·P·√N/(best score - Q) - 1)), and never more than it has |
| PolicyTarget.TargetSupport | mcts-core/src/mcts.rs:917-923 | the target's actions are exactly the visited ones left more than one visit, or the most visited alone when there is none |
| PolicyTarget.TargetShares | mcts-core/src/mcts.rs:925-927 | any two of them share the mass in the ratio of their pruned counts |
| PolicyTarget.TargetIsDistribution | mcts-core/src/mcts.rs:917-927 | the masses are positive, sum to one and lie on stored actions |
| PolicyTarget.TargetFavoursBest | mcts-core/src/mcts.rs:917-927 | only visited actions carry mass, and the most visited action is present with the largest |
| PolicyTarget.TargetExists | mcts-core/src/mcts.rs:823-826 | a target exists exactly when the root has been visited |
| PolicyTarget.PruneCounts | mcts-core/src/mcts.rs:868-915 | the in-place edit, in any order of the map, leaves every visited action its pruned count |
| PolicyTarget.ComputeTarget | mcts-core/src/mcts.rs:819-928 | the whole computation yields the target the lemmas are about |
| Mcts.Search.constructor | mcts-core/src/mcts.rs:96-108 | a new engine is at rest with an empty graph, no root, no noise and the source's coefficients |
| Mcts.Search.SetNode | mcts-core/src/mcts.rs:330-336 | one node changes, the arena order does not |
| Mcts.Search.InsertNode | mcts-core/src/mcts.rs:347-351 | appends the node and points its id at it; with a fresh id the bijection stays |
| Mcts.Search.CreateNode | mcts-core/src/mcts.rs:311-327 | stores a terminal node, or one with the clamped value, under the state's hash |
| Mcts.Search.RecomputeValue | mcts-core/src/mcts.rs:354-408 | the loops compute the recomputed node, and nothing else changes |
| Mcts.Search.RevertLosses | mcts-core/src/mcts.rs:764-769 | the backward loop reverts each entry of the path |
| Mcts.Search.VisitAll | mcts-core/src/mcts.rs:779-788 | the backward loop settles each entry of the path, leaf first |
| Mcts.Search.ApplyPenalty | mcts-core/src/mcts.rs:771-777 | the last edge is penalised |
| Mcts.Search.Backpropagate | mcts-core/src/mcts.rs:760-789 | keeps the invariant, takes exactly the path off the pending edges, and has the effect the backpropagation lemmas describe |
| Mcts.Search.PuctScores | mcts-core/src/mcts.rs:450-570 | the scores of the node, or none when it is not stored |
| Mcts.Search.SelectActionPuct | mcts-core/src/mcts.rs:572-595 | the choice the selection lemmas are about |
| Mcts.Search.TakeStep | mcts-core/src/mcts.rs:661-705 | one turn of the loop agrees with one turn of the walk |
| Mcts.Search.WalkLoop | mcts-core/src/mcts.rs:661-707 | the loop terminates and returns the walk; parent and action are the path's last entry |
| Mcts.Search.SelectLeaf | mcts-core/src/mcts.rs:645-708 | keeps the invariant, charges exactly its path, each entry the best choice given those before it, and the path is no longer than the table |
| Mcts.Search.Expand | mcts-core/src/mcts.rs:714-758 | the graph gains the leaf when it is missing, and the parent its pointer when it has none |
| Mcts.Search.ExpandAndSettle | mcts-core/src/mcts.rs:221-222 | an answered playout is expanded with its answer and settled as one playout without a repeat |
| Mcts.Search.SettleRepeat | mcts-core/src/mcts.rs:194-204 | a repeat is one playout, and of all penalties exactly its last edge's drops, by one over the node's stored actions |
| Mcts.Search.SettleNow | mcts-core/src/mcts.rs:194-204 | in the middle of the batch a repeat is penalised and backed up, a terminal leaf stored with the evaluator's value and backed up |
| Mcts.Search.Simulate | mcts-core/src/mcts.rs:178-207 | each selection from a root with a stored action is either settled or waits with its path pending |
| Mcts.Search.CollectBatch | mcts-core/src/mcts.rs:175-207 | settled plus waiting playouts are the batch size, exactly the waiting paths are pending, and the selections follow each other as the search trace says |
| Mcts.Search.SettleBatch | mcts-core/src/mcts.rs:214-223 | as many waiting playouts as there are answers are settled, in order, leaf i with prior map i and value i |
| Mcts.Search.BlockingInfer | mcts-core/src/mcts.rs:213-214 | what comes back is the client's answer to the states of exactly the waiting leaves, in order |
| Mcts.Search.AnswerBatch | mcts-core/src/mcts.rs:213-223 | one call for the waiting leaves, then its answers, as the search trace says |
| Mcts.Search.RunBatch | mcts-core/src/mcts.rs:173-223 | a batch settles its size in playouts, less those the client left unanswered, whose edges stay pending, and follows the search trace to the next batch |
| Mcts.Search.EnsureRoot | mcts-core/src/mcts.rs:154-167 | afterwards the root is stored, from the answer to its own state or the terminal evaluator when it was missing; nothing is settled |
| Mcts.Search.PlayoutsRoundUp | mcts-core/src/mcts.rs:171-172 | the playouts of a run are the steps asked for, rounded up by less than a batch |
| Mcts.Search.RunBatches | mcts-core/src/mcts.rs:171-224 | the batches add up and follow each other |
| Mcts.Search.Run | mcts-core/src/mcts.rs:143-231 | adds batch_size·ceil(num_steps/batch_size) to the root's visits on a non-terminal root with an action, less unanswered playouts; nothing stays pending exactly when every playout was answered; every new node holds the evaluator's value or the first answer about its state, every call is the client's answer to exactly the waiting leaves, and penalties count repeats; flow and value bounds are kept; noise is cleared unless the start is terminal |
| Mcts.Search.Reach | mcts-core/src/mcts.rs:263-285 | the breadth-first search terminates on cycles with exactly the reachable ids, a closed set |
| Mcts.Search.Prune | mcts-core/src/mcts.rs:287-299 | the arena keeps exactly the wanted nodes, unchanged and in order, and the table is rebuilt |
| Mcts.Search.AdvanceRoot | mcts-core/src/mcts.rs:239-305 | from a stored root with a child in the action's slot that child becomes the root, the hash of the state the action leads to, and exactly the nodes reachable from it are kept; otherwise the root is forgotten and the tree kept |
| Mcts.Search.SearchCommand | mcts-core/src/mcts.rs:143-231 | with a client that answers everything a search leads from rest to rest, step by step with its own arguments, and adds exactly its playouts |
| Mcts.Search.AdvanceCommand | mcts-core/src/mcts.rs:239-305 | advancing leads from rest to rest, to the action's child and what it reaches |
| Mcts.Search.Session | mcts-core/src/mcts.rs:143-305 | in any sequence of searches and advances each has its effect, in order; after it nothing is pending, all virtual losses are zero, every count is settled and every value at most 1 |
| Mcts.Search.PolicyTarget | mcts-core/src/mcts.rs:819-928 | the target of the current root, none without a stored root |
| RingQueue.StoreInvisible | mcts-core/src/ipc_core.rs:110-114 | writing the slot at the tail does not change the queue |
| RingQueue.TailMoves | mcts-core/src/ipc_core.rs:104-116 | the full test holds exactly at QCAP - 1 elements; moving the tail appends the written element |
| RingQueue.HeadMoves | mcts-core/src/ipc_core.rs:123-134 | the empty test is exact; moving the head drops the oldest element |
| RingQueue.Ring.TryPush | mcts-core/src/ipc_core.rs:101-120 | appends, and fails exactly at QCAP - 1 elements leaving the queue as it was |
| RingQueue.Ring.TryPop | mcts-core/src/ipc_core.rs:123-138 | returns the oldest element and fails exactly when empty |
| SpinQueue.StepIsAtomicOrSilent | mcts-core/src/ipc_core.rs:101-138 | every atomic access leaves the queue alone, except the one that decides an operation, which changes it as the atomic operation does |
| SpinQueue.StepKeeps | mcts-core/src/ipc_core.rs:51-138 | every step of every thread keeps the lock and log invariant |
| SpinQueue.RunKeeps | mcts-core/src/ipc_core.rs:51-138 | the invariant holds in every reachable state of any number of threads |
| SpinQueue.MutualExclusion | mcts-core/src/ipc_core.rs:57-75 | at most one thread is between lock and unlock |
| SpinQueue.Linearizable | mcts-core/src/ipc_core.rs:92-138 | the decided operations form a history of the atomic queue ending in its contents, and each thread's results are its part of that history |
| SpinQueue.ReplayConserves | mcts-core/src/ipc_core.rs:92-138 | in any such history the pushed sequence is the popped sequence followed by the contents |
| SpinQueue.NothingLost | mcts-core/src/ipc_core.rs:92-138 | hence in every run |
| SpinQueue.LockIsReleased | mcts-core/src/ipc_core.rs:57-75 | the lock is free or its holder leaves within five of its own steps |
| ProtocolSafety.ClientMoveKeeps | mcts-tilers/src/client.rs:38-110 | a client's step disturbs no other client, handler or slot |
| ProtocolSafety.LocalFills | mcts-tilers/src/client.rs:41-52 | each write of a request completes one more part of it |
| ProtocolSafety.LocalReads | mcts-tilers/src/client.rs:61-110 | reading an answered slot never meets a mismatch and yields the agent's answers |
| ProtocolSafety.ClientStepKeeps | mcts-tilers/src/client.rs:32-111 | every client step keeps the protocol invariant |
| ProtocolSafety.ServeKeeps | mcts-tilers/python/mcts_tilers/handler.py:148-197 | a handler's step disturbs no other handler, no client and no slot it has not popped |
| ProtocolSafety.NothingSkipped | mcts-tilers/python/mcts_tilers/handler.py:73-76 | no handler ever meets a slot without observations |
| ProtocolSafety.InferredOwn | mcts-tilers/python/mcts_tilers/handler.py:176-197 | one inference call over a batch gives every slot what the call said about its own rows |
| ProtocolSafety.HandlerStepKeeps | mcts-tilers/python/mcts_tilers/handler.py:148-197 | every handler step keeps the protocol invariant |
| ProtocolSafety.RunKeeps | mcts-core/src/ipc_core.rs:392-450 | the invariant holds in every state reachable from a fresh arena |
| ProtocolResults.EachSlotInOnePlace | mcts-core/src/ipc_core.rs:392-450 | every slot is always in exactly one place and nowhere twice |
| ProtocolResults.PushHasRoom | mcts-core/src/ipc_core.rs:233-239 | a client about to push finds fewer elements than the queue holds |
| ProtocolResults.NoPushRetries | mcts-core/src/ipc_core.rs:155-168 | hence no push is ever refused in any run |
| ProtocolResults.PopSeesReady | mcts-core/src/ipc_core.rs:435-450 | a popped slot is READY, so the assertion on it never fails |
| ProtocolResults.RequestsAndAnswersAreFrozen | mcts-tilers/src/client.rs:42-73 | while a slot is not FREE its request never changes, while it is DONE its answers do not, and its state only moves FREE, READY, DONE, FREE |
| ProtocolResults.EveryCallGetsItsOwnAnswers | mcts-tilers/src/client.rs:32-111 | every returned call was refused for its size or got what one inference call said about exactly its own rows; packing never fails and no response is mismatched |
| ProtocolResults.AtRestAllSlotsAreFree | mcts-core/src/ipc_core.rs:417-421 | when no call holds a slot, every slot is FREE and in the free queue exactly once |
| ProtocolResults.RequestsAreFresh | mcts-tilers/src/client.rs:41-47 | a client's request carries the number just drawn, and it draws at most one per call |
| ProtocolResults.BatchesAreBounded | mcts-tilers/python/mcts_tilers/handler.py:155-165 | a handler never holds more than 64 slots |
| ProtocolProgress.StepWorks | mcts-core/src/ipc_core.rs:140-168 | every step is a vain poll that changes nothing or decreases the remaining work |
| ProtocolProgress.NotStuck | mcts-core/src/ipc_core.rs:392-440 | with a slot and a handler, some step is possible while any client is unfinished |
| ProtocolProgress.WorkBudget | mcts-core/src/ipc_core.rs:392-440 | effective steps so far and work left never exceed the initial work |
| ProtocolProgress.EveryRequestCompletes | mcts-tilers/python/mcts_tilers/handler.py:148-197 | a finite workload admits boundedly many effective steps, and when none is left every call of every client has its answer |
| ProtocolProgress.EveryStateCanFinish | mcts-core/src/ipc_core.rs:392-440 | from every reachable state some continuation, no longer than the work left, answers every call |
| ProtocolProgress.FairSchedulesFinish | mcts-core/src/ipc_core.rs:392-440 | every schedule in which each client and handler moves again and again answers every call |
| FineProtocol.LocalIgnoresQueues | mcts-tilers/src/client.rs:41-110 | a step away from the queues neither reads nor writes them |
| FineProtocol.FreeDecides | mcts-core/src/ipc_core.rs:392-421 | the access that decides an operation on the free queue does to the protocol what the atomic operation does |
| FineProtocol.ReadyDecides | mcts-core/src/ipc_core.rs:396-450 | likewise on the ready queue |
| FineProtocol.FineStepRefines | mcts-core/src/ipc_core.rs:51-168 | each atomic access of each client and handler is invisible in the protocol or one of its steps |
| FineProtocol.FineRunRefines | mcts-core/src/ipc_core.rs:51-168 | every interleaving of atomic accesses is a run of the protocol |
| FineProtocol.FreshArena | mcts-core/src/ipc_core.rs:283-291 | a fresh arena is such a starting point: its creator's pushes leave every slot in the free ring |
| FineProtocol.FineCallsGetTheirOwnAnswers | mcts-tilers/src/client.rs:32-111 | hence own responses hold on the spinlocked rings too |
| Slot.CellRoundTrip | mcts-tilers/src/slot.rs:91-121 | the two cell conversions are inverse to each other |
| Slot.Offsets | mcts-tilers/src/slot.rs:140-144 | layer, cell and channel can be read off a board offset, so no two overlap |
| Slot.CellSurvives | mcts-tilers/src/slot.rs:138-146 | every cell within the limits is read back as it was packed |
| Slot.PaddingAfter | mcts-tilers/src/slot.rs:138-146 | past a layer's kept cells a packed board is zero |
| Slot.UnpackedIsWellFormed | mcts-tilers/src/slot.rs:161-199 | whatever lies in a slot, unpacking yields a well-formed observation |
| Slot.RoundTrip | mcts-tilers/src/slot.rs:124-199 | unpacking undoes packing exactly when dimensions fit a byte, the layer count is the board's length and at most three, every layer is full and the mask has 301 entries |
| Slot.TripIsIdempotent | mcts-tilers/src/slot.rs:124-199 | a second trip through a slot changes nothing, for any observation |
| Slot.TilersSlot.PackLayer | mcts-tilers/src/slot.rs:139-145 | one layer is written in its place, the rest of the board and the other boards kept |
| Slot.TilersSlot.PackBoard | mcts-tilers/src/slot.rs:138-146 | zero-filling and the nested loops leave the packed board |
| Slot.TilersSlot.PackMask | mcts-tilers/src/slot.rs:148-156 | the mask's row holds a one exactly at allowed actions below 301; other rows kept |
| Slot.TilersSlot.PackObservations | mcts-tilers/src/slot.rs:124-159 | each row becomes its observation's packed form whatever the slot held; a wrong batch size changes nothing |
| Slot.TilersSlot.UnpackObservations | mcts-tilers/src/slot.rs:161-199 | the loops read back every row |
| Slot.TilersSlot.PackThenUnpack | mcts-tilers/src/slot.rs:124-199 | a whole request survives the slot exactly when each observation is well formed |
| Batching.PartInConcat | mcts-tilers/python/mcts_tilers/handler.py:95-103 | each slot's rows lie in the concatenation at the sum of the sizes before it |
| Batching.SplitUndoesConcat | mcts-tilers/python/mcts_tilers/handler.py:188-192 | cutting by the slot sizes gives back the parts |
| Batching.AnswerIsOwn | mcts-tilers/python/mcts_tilers/handler.py:176-197 | concatenate, infer once, split delivers to each slot what the call said about its own rows, in order |
| Batching.RowWiseIsTransparent | mcts-tilers/python/mcts_tilers/handler.py:176-197 | when answers do not depend on the batch, sharing one is invisible to every slot |
| Batching.BuildBatch | mcts-tilers/python/mcts_tilers/handler.py:68-98 | the loop concatenates the non-empty slots in order with their sizes and marks exactly the empty ones |
| Batching.CutAnswers | mcts-tilers/python/mcts_tilers/handler.py:188-192 | the running index cuts at the slot sizes |
| Batching.CutKeepsGrid | mcts-tilers/python/mcts_tilers/handler.py:100-103 | cutting boards at the batch's largest area or at any larger one leaves a row's own grid the same |
| Batching.MaxAreaAttained | mcts-tilers/python/mcts_tilers/handler.py:100-102 | the cut is one of the batch's grid areas, or one when all are empty |
| Batching.BatchingIsTransparent | mcts-tilers/python/mcts_tilers/handler.py:100-103 | an agent that ignores padding answers a row as if it were alone in the batch |
| Batching.AgentSeesObservation | mcts-tilers/python/mcts_tilers/handler.py:57-126 | for any observation the agent gets its height, width and ancilla count modulo 256, the wanted number of layers, each of at most 400 cells, its own cells with the ten channels in their places and zeros where it sent none, and a one at exactly its allowed actions among 301 |
| Responses.OwnRowExactly | mcts-tilers/src/client.rs:77-91 | the read-back of an element depends on its own row alone exactly when its mask allows no action past 300 |
| Responses.Outputs.ClearOutputs | mcts-tilers/src/py_ipc.rs:82-86 | no earlier answer is left |
| Responses.Outputs.CopyRows | mcts-tilers/src/py_ipc.rs:321-328 | each row lies in place with zeros after its columns; later rows kept |
| Responses.Outputs.WritePriorsValues | mcts-tilers/src/py_ipc.rs:285-335 | accepts exactly matching rows and values and at most 301 columns, and a refused write changes nothing |
| Responses.Outputs.WriteThenRead | mcts-tilers/src/client.rs:75-94 | the client reads, for each allowed action, the handler's prior of that element and action, zero past the written columns, and the handler's values |
| EndToEnd.HandlerIsRowWise | mcts-tilers/python/mcts_tilers/handler.py:80-103 | cutting every row at the whole batch's largest grid gives each row the answer it has alone |
| EndToEnd.WriteStores | mcts-tilers/src/py_ipc.rs:321-330 | an accepted write leaves a network row in the slot with zeros after its columns |
| EndToEnd.ReadBackIsOwn | mcts-tilers/src/client.rs:77-91 | flat priors that hold a row at i·301 read back as that row's priors of exactly the allowed actions |
| EndToEnd.ClientsGetTheirOwnPriors | mcts-tilers/src/client.rs:32-111 | in every run a returned call was refused for its size or holds, for each of its observations, the network's value and priors for exactly what the agent sees of that observation alone, and the client reads those priors of exactly the actions that observation allows |
| Frontier.CeilLog2IsCeiling | mcts-tilers/src/gatherer.rs:618-623 | the bound's logarithm is the ceiling of the binary logarithm |
| Frontier.ProbeStep | mcts-tilers/src/gatherer.rs:624-633 | the next probe is twice the last, capped at the plan, while nothing failed, and the middle of the bracket afterwards; it lies strictly inside the new bracket with a smaller budget, and the search ends only when the edge is pinned or the plan solved |
| Frontier.Search | mcts-tilers/src/gatherer.rs:643-683 | for any outcomes every probe is strictly inside the bracket and doubles or bisects, `lo` and `hi` are the largest solved and smallest failed tails with their episodes kept, and 2·ceil(log2 len) + 1 probes settle the edge |
| Frontier.BracketsFrontier | mcts-tilers/src/gatherer.rs:635-642 | if exactly the tails up to F are solvable, every log has lo <= F < hi |
| Frontier.FindFrontier | mcts-tilers/src/gatherer.rs:643-683 | then enough probes end with lo = F |

## Left out

- f32 rounding, NaN and u64/u32/usize wrap-around: numbers are reals and unbounded integers. `Slot` keeps the `as u8` truncation.
- Mcts.Search.ApplyPenalty: requires a stored action at the penalised node; the source divides by zero otherwise, and every caller penalises an edge of a stored action.
- Mcts.Search.SelectLeaf: requires the root id to be the hash of the environment, as its one caller passes it.
- Mcts.Search.Run: excluded are a root softmax temperature of zero (an infinite exponent in the source), no steps together with an empty batch (the batch count underflows), and a client whose very first answer is empty or an error (a panic).
- Accounting.FlowSettle: the flow bound is over edges of the nodes stored at the time, so it is not claimed across `advance_root`, which drops edges into kept nodes.
- Nodes are values: the arena vector owns them and no two references to one node exist, so aliasing is not at stake. `repr`, cloning and the alias warning of `expand` (mcts-core/src/mcts.rs:738-753) are not modelled.
- `revert_penalty`, `perturb_root_prior`, `Node::select_action` and diagnostics: single assignments or unused by the engine.
- Clients and handlers of the protocol are state-machine values rather than classes, since their steps interleave; the sequential parts that work in place (ring, slot codec, output arrays) are classes.
- Weak memory order, spin back-off, sleeps and timing fields: steps are sequentially consistent. Completion is proved for queue operations as single steps; on the taken-apart queues a thread may starve at the lock.
- Arena file creation, initialisation and `force_reset` (mcts-core/src/ipc_core.rs:229-366): runs start from a fresh, quiescent arena, and nothing is claimed about initialisation happening once.
- The handler's exception and interrupt paths (mcts-tilers/python/mcts_tilers/handler.py:209-225), which mark slots that may already be marked; an agent or a write that fails is likewise outside the protocol model.
- The gathering timeout is a free choice of the schedule; `BATCH_TIMEOUT` itself is not modelled.
- Responses.Outputs.WritePriorsValues: contiguity errors of numpy arrays are not modelled.
- The `tilers` crate, torch, pyo3 and numpy beyond slicing and reshaping, Dirichlet noise sampling, JSONL writing, rewards, gold banking, demos, the evaluator and the orchestrator.
- Frontier.Search: an episode is reduced to whether it was solved; a plan of length zero, on which `clamp` panics, is excluded.
