# The decision core of hw_ai_roguelike, in Dafny

This project models the parts of the roguelike that decide what its agents do, and
proves properties of that model:

- **Behaviour trees.**
  - The node protocol: `running_`, `execute`, `cancel`, `succeed` and `fail`.
  - The composites Sequence, Select, Parallel and Race, the Predicate adapter, and the
    leaves WaitEvent and Fail.
  - The library leaves `get_closest` and `move_to`.
  - The per-entity registries ActingNodes and ReactingNodes, and the `BehTree` wrapper
    with its re-entrancy flag and root callback.
- **The state-machine compiler and runtime.**
  - Event expressions (`not`, `and`, `or`, event names) compiled from YAML.
  - `load`, which builds transition rules and one applier per machine.
  - The transition systems, the event-cache cleaner and `addSmToEntity`.
- **The blackboard.** A string-to-index interner and growable per-type slot pools.
- **The movement helpers.** `move_towards` and `inverse_move`.
- **The dungeon.** The grid, its walkability query, `find_walkable_tile` and the
  drunk-walk generator with its corridor carving.

## Files

| file | module | what it holds |
|---|---|---|
| actions.dfy | Actions | ActionType, `move_towards`, `inverse_move` and their geometry |
| blackboard.dfy | Blackboard | NameMap (interner), NamedDataPool, Blackboard |
| event_expr.dfy | Yaml, EventExpressions | parsed YAML; expression compiler, evaluator, round trip |
| state_machine.dfy | StateMachine | `load` against its specification, appliers, transitions, cleaner |
| dungeon_utils.dfy | DungeonUtils | the grid class, walkability, `find_walkable_tile` |
| dungeon_generator.dfy | DungeonGenerator | `gen_drunk_dungeon` over an array, with its draws as inputs |
| wrappers.dfy | Wrappers | the `Option` datatype shared by the other modules |
| behtree_library.dfy | BehTreeLibrary | the closest-candidate scan and the `move_to` step choice |
| behtree_shape.dfy | BehTreeShape | tree templates, the preorder arena built by clone + connect |
| behtree_semantics.dfy | BehTreeSemantics | execute / signal / cancel / act as functions on a state snapshot |
| behtree.dfy | BehTree | the imperative tree (`class Tree`); each method equals its semantic function |
| behtree_props.dfy | BehTreeProperties | what each node kind promises, proved on the semantics |

**How the behaviour tree is modelled.**

- The tree built by the factory functions is a `Template`. `BehTree` constructs,
  clones and connects it.
- The model lays the tree out as an arena. Nodes are stored in preorder; each entry
  holds its kind, its children, the end of its subtree and its owner (the root callback
  or a parent's slot).
- The mutable fields live in `Tree`:
  - each node's `running_`, `current`, `finished` and `running` vector;
  - ActingNodes, a set;
  - ReactingNodes, a multiset of (event, node) pairs;
  - the blackboard's vector pool;
  - the tree's `running_`.
- Every method of `Tree` is proved equal to a function in BehTreeSemantics. The
  properties are proved about those functions.

**How outcomes travel to the owner.** A child's `succeed()`/`fail()` reaches its owner
as the Outcome of the call that caused it.

- When a child finishes at once, `Exec` returns Success or Failure, and the parent then
  runs its `succeeded`/`failed` body (`Done`).
- A node still waiting returns Pending.
- A later `act` sends the outcome up the owners (`Propagate`) until a node keeps
  waiting or the root callback clears the tree's flag.

**Aborts.** Three source situations are treated as the outcome Aborted: a failed
`NG_ASSERT`, the exception of `std::vector::at`, and an out-of-range `operator[]`
(undefined behaviour in C++, not a guaranteed end). Nothing is promised about the
state after one.

**A consequence for the game's own tree.** The bandit's tree at
roguelike/sources/Game.hpp:91-99 starts with `race(sequence(get_closest_enemy, ...),
sequence(wait_event(hp_low), fail))`. When no enemy exists, `get_closest` fails at
once (GetClosestFails), so the first sequence fails during the Race's execute loop,
before the second child has started. RaceInstantFirstChildAborts then shows that the
Race's cancel of that idle second child fails `stop`'s assertion: the tree aborts.

## Model

| member | source | states |
|---|---|---|
| Actions.MoveTowards | roguelike/sources/gameplay/actions.hpp:22-29 | always one of the four moves; horizontal exactly when abs(dx) > abs(dy); RIGHT exactly when horizontal and dx > 0; UP exactly when not horizontal and dy > 0 |
| Actions.InverseMove | roguelike/sources/gameplay/actions.hpp:31-37 | a move maps to a move and every other action is returned unchanged |
| Actions.MoveTowardsSelf | roguelike/sources/gameplay/actions.hpp:28 | standing on the target, the tie rule yields MOVE_DOWN |
| Actions.InverseMoveInvolution | roguelike/sources/gameplay/actions.hpp:31-36 | inverting twice gives the action back |
| Actions.InverseMoveOpposite | roguelike/sources/gameplay/actions.hpp:33-36 | the inverse move is the opposite grid offset (LEFT/RIGHT and UP/DOWN swap), non-moves stay still |
| Actions.MoveTowardsApproaches | roguelike/sources/gameplay/actions.hpp:22-29 | from any cell other than the target, the chosen move brings the agent exactly one step (Manhattan) closer |
| Actions.InverseMoveRetreats | roguelike/sources/gameplay/actions.hpp:31-37 | the inverted move (fleeing) takes the agent exactly one step farther away |
| Blackboard.Assign | roguelike/sources/blackboard.hpp:58-63 | after `set(idx, v)` the pool has max(size, idx+1) slots, slot idx reads v, every other old slot keeps its value and every newly grown slot holds the default |
| Blackboard.NameMap.constructor | roguelike/sources/blackboard.hpp:27-28 | the interner starts empty |
| Blackboard.NameMap.GetId | roguelike/sources/blackboard.hpp:15-25 | a known name gets the id it had and nothing changes; a new name gets the number of names interned before it; ids stay a bijection onto 0..n-1 |
| Blackboard.NamedDataPool.constructor | roguelike/sources/blackboard.hpp:40-41 | a pool starts with no slots |
| Blackboard.NamedDataPool.Get | roguelike/sources/blackboard.hpp:36 | a const read inside the pool yields the slot, past the end it is the out-of-range error |
| Blackboard.NamedDataPool.Expand | roguelike/sources/blackboard.hpp:38 | the pool never shrinks, keeps its old slots, ends with at least idx+1 slots and fills new ones with the default |
| Blackboard.NamedDataPool.Set | roguelike/sources/blackboard.hpp:58-63 | the pool becomes Assign of its old slots |
| Blackboard.Blackboard.constructor | roguelike/sources/blackboard.hpp:46-51 | four distinct, empty pools with value-initialised defaults |
| Blackboard.Blackboard.SetPosition | roguelike/sources/blackboard.hpp:58-63 | only the vector pool changes, and it becomes Assign of its old slots; the float, int and entity pools are unchanged |
| Blackboard.Blackboard.GetPosition | roguelike/sources/blackboard.hpp:65-69 | reads the vector slot, or the out-of-range error past the end |
| EventExpressions.EvalAnd | roguelike/sources/stateMachine.cpp:109-118 | the left fold of logical and from true holds exactly when every operand holds |
| EventExpressions.EvalOr | roguelike/sources/stateMachine.cpp:120-129 | the left fold of logical or from false holds exactly when some operand holds |
| EventExpressions.TrackedAll | roguelike/sources/stateMachine.cpp:104-107 | the events tracked for an operand list include those of every operand |
| EventExpressions.Parse | roguelike/sources/stateMachine.cpp:84-145 | a scalar compiles to that event; a null or a sequence is rejected as not scalar; a map without exactly one key is rejected |
| EventExpressions.ParseAll | roguelike/sources/stateMachine.cpp:102-107 | the operands compile exactly when each one does, and then in order, one result per operand |
| EventExpressions.EmptyOperands | roguelike/sources/stateMachine.cpp:109-129 | `and` of no operands is true and `or` of none is false |
| EventExpressions.UnknownOperatorRejected | roguelike/sources/stateMachine.cpp:132 | an operator other than not/and/or, over a well-formed operand list, is the fatal error |
| EventExpressions.OperandsMustBeSequence | roguelike/sources/stateMachine.cpp:101 | any operator other than `not` whose data is not a sequence is the fatal error |
| EventExpressions.ParseToYaml | roguelike/sources/stateMachine.cpp:84-145 | compiling the YAML form of any expression gives that expression back |
| EventExpressions.ParseToYamlAll | roguelike/sources/stateMachine.cpp:102-107 | the same round trip for an operand list |
| EventExpressions.ToYamlParse | roguelike/sources/stateMachine.cpp:84-145 | every accepted YAML node is exactly the YAML form of what it compiles to, so compilation is injective |
| EventExpressions.EvalOnlyTracked | roguelike/sources/stateMachine.cpp:134-143 | an expression's truth depends only on the events it tracks |
| EventExpressions.EvalAllOnlyTracked | roguelike/sources/stateMachine.cpp:104-107 | the same for each operand against the list's tracked events |
| StateMachine.FoldStops | roguelike/sources/stateMachine.cpp:23-81 | once one step of the load fails, the whole load fails with that error |
| StateMachine.TransitionsExtend | roguelike/sources/stateMachine.cpp:48-68 | compiling a state's transitions only appends rules of this machine and adds exactly the events those rules mention |
| StateMachine.StatesExtend | roguelike/sources/stateMachine.cpp:39-69 | the same for all the states of a machine |
| StateMachine.MachineApplier | roguelike/sources/stateMachine.cpp:35-79 | compiling a new machine keeps the old rules, appends only its own, and registers an applier that enters the first declared state and tags exactly the events of its rules |
| StateMachine.StateMachineTracker.constructor | roguelike/sources/stateMachine.cpp:8-21 | the tracker starts with no appliers and no rules |
| StateMachine.StateMachineTracker.Load | roguelike/sources/stateMachine.cpp:23-81 | the nested loops register exactly what the fold LoadSpec computes, or fail with LoadSpec's error |
| StateMachine.StateMachineTracker.AddSmToEntity | roguelike/sources/stateMachine.cpp:147-152 | an unknown machine is the fatal error and changes nothing; otherwise the entity becomes Apply of that machine's applier |
| StateMachine.Agent.Transition | roguelike/sources/stateMachine.cpp:61-67 | the entity becomes Fire of the rule |
| StateMachine.Agent.ClearEvents | roguelike/sources/stateMachine.cpp:14-20 | the entity's event list becomes empty (Clean) |
| StateMachine.FireChangesOnlyItsMachine | roguelike/sources/stateMachine.cpp:56-67 | events, tags, the set of machines and every other machine's state are unchanged; the entity changes exactly when it has an event list, is in the rule's source state, the target differs and the predicate holds |
| StateMachine.FirePhaseFrame | roguelike/sources/stateMachine.cpp:56-67 | the transition phase adds or removes no machine and leaves a machine no rule names in its state |
| StateMachine.LoadRegistersAll | roguelike/sources/stateMachine.cpp:27-80 | after a successful load every non-empty machine of the document has an applier |
| StateMachine.FoldAllSkipped | roguelike/sources/stateMachine.cpp:32-33 | machines that are all already loaded or empty change nothing |
| StateMachine.LoadIdempotent | roguelike/sources/stateMachine.cpp:32-33 | loading the same document again registers nothing new |
| StateMachine.TwoStateScenario | roguelike/sources/stateMachine.cpp:23-81 | a two-state document yields one rule and an applier entering `A` and tracking `e`; a quiet turn keeps `A`, a turn with `e` moves to `B`, and the cleaner empties the event list |
| DungeonUtils.Dungeon.MakeDungeon | roguelike/sources/gameplay/dungeon/dungeonUtils.cpp:39-47 | width*height zero tiles, viewed with extent(0) = width and extent(1) = height |
| DungeonUtils.Dungeon.RowFloors | roguelike/sources/gameplay/dungeon/dungeonUtils.cpp:21-23 | the cells listed for one row are exactly its Floor cells |
| DungeonUtils.Dungeon.FloorsBefore | roguelike/sources/gameplay/dungeon/dungeonUtils.cpp:20-23 | the cells listed for the first rows are exactly their Floor cells |
| DungeonUtils.Dungeon.AppendRowFloors | roguelike/sources/gameplay/dungeon/dungeonUtils.cpp:21-23 | the inner loop appends exactly the row's Floor cells, in column order, to the list built so far |
| DungeonUtils.Dungeon.FindWalkableTile | roguelike/sources/gameplay/dungeon/dungeonUtils.cpp:9-29 | the nested loops build the row-major Floor list, and the result is its entry at the drawn index, which is walkable; a draw outside the list yields nothing |
| DungeonUtils.FloorCellsAreWalkable | roguelike/sources/gameplay/dungeon/dungeonUtils.cpp:31-37 | a cell is in the Floor list exactly when is_tile_walkable holds for it (in bounds and Floor) |
| DungeonUtils.FreshGridNotWalkable | roguelike/sources/gameplay/dungeon/dungeonUtils.cpp:39-47 | a freshly made grid has no walkable tile, because its zero tiles are not Floor |
| DungeonGenerator.DirOffset | roguelike/sources/gameplay/dungeon/dungeonGenerator.cpp:28 | each of the four directions is a unit step |
| DungeonGenerator.Clamp | roguelike/sources/gameplay/dungeon/dungeonGenerator.cpp:49-50 | min(max(v, lo), hi) lies in [lo, hi] and is v when v already does |
| DungeonGenerator.WalkStep | roguelike/sources/gameplay/dungeon/dungeonGenerator.cpp:48-52 | a walk step always lands in [1, extent-2] on both axes, moves at most one cell, and moves exactly by the drawn offset when that stays inside |
| DungeonGenerator.CorridorStep | roguelike/sources/gameplay/dungeon/dungeonGenerator.cpp:65-69 | a corridor step is the move_towards step and brings the cursor one cell closer to the target |
| DungeonGenerator.PathShape | roguelike/sources/gameplay/dungeon/dungeonGenerator.cpp:63-71 | a corridor writes one cell per unit of Manhattan distance and ends on the target, so the loop terminates there |
| DungeonGenerator.PathInterior | roguelike/sources/gameplay/dungeon/dungeonGenerator.cpp:59-71 | a corridor between interior cells stays in the interior |
| DungeonGenerator.PathAdvance | roguelike/sources/gameplay/dungeon/dungeonGenerator.cpp:63-71 | one loop iteration consumes exactly the next cell of the corridor |
| DungeonGenerator.CarvedStable | roguelike/sources/gameplay/dungeon/dungeonGenerator.cpp:42-45 | when tiles only ever become Floor, Floor cells stay Floor |
| DungeonGenerator.CarvedExtend | roguelike/sources/gameplay/dungeon/dungeonGenerator.cpp:70 | writing Floor to a cell adds it to the carved cells |
| DungeonGenerator.DigStep | roguelike/sources/gameplay/dungeon/dungeonGenerator.cpp:42-46 | digging a Wall cell of the interior is one more excavation: one Wall fewer, one Floor more, border untouched |
| DungeonGenerator.DrunkWalk | roguelike/sources/gameplay/dungeon/dungeonGenerator.cpp:39-53 | the excavation count is exactly the Wall-to-Floor conversions and never exceeds 200; the border is untouched and the start cell ends Floor; the walk stops short only when its draws run out |
| DungeonGenerator.CarveCorridor | roguelike/sources/gameplay/dungeon/dungeonGenerator.cpp:62-71 | every cell of the corridor is Floor afterwards, tiles only become Floor, and the border is untouched |
| DungeonGenerator.FillWalls | roguelike/sources/gameplay/dungeon/dungeonGenerator.cpp:14 | every tile becomes Wall |
| DungeonGenerator.RunWalks | roguelike/sources/gameplay/dungeon/dungeonGenerator.cpp:33-54 | the drawn start cells are recorded in order; after all 4 walks they are Floor and exactly 4 * 200 tiles are Floor |
| DungeonGenerator.CarveAll | roguelike/sources/gameplay/dungeon/dungeonGenerator.cpp:59-72 | a corridor is carved between every ordered pair of start cells, and the border stays Wall |
| DungeonGenerator.FloorsFitInterior | roguelike/sources/gameplay/dungeon/dungeonGenerator.cpp:40-52 | with the outer ring all Wall, the grid holds at most (extent0 - 2) * (extent1 - 2) Floor tiles, so 4 walks of 200 excavations fit only in an interior of at least 800 cells |
| DungeonGenerator.GenDrunkDungeon | roguelike/sources/gameplay/dungeon/dungeonGenerator.cpp:12-73 | the grid holds only Wall and Floor, its outer ring is Wall, and the start cells drawn so far are recorded in order; when every walk completes, all 4 start cells are Floor, every pair is joined by a carved corridor, at least 800 tiles are Floor, and the interior (extent0 - 2) * (extent1 - 2) has room for those 800 |
| BehTreeLibrary.Closest | roguelike/sources/gameplay/behTreeLibrary.cpp:35-48 | no index exactly when no candidate passes the filter; otherwise an accepted candidate of least distance, strictly closer than every earlier accepted one (a tie keeps the first) |
| BehTreeLibrary.ClosestPos | roguelike/sources/gameplay/behTreeLibrary.cpp:35-54 | no position exactly when no candidate passes; otherwise the position of an accepted candidate no farther than any other |
| BehTreeLibrary.FindClosest | roguelike/sources/gameplay/behTreeLibrary.cpp:35-48 | the scan with `closest`/`closest_length` computes ClosestPos |
| BehTreeLibrary.MoveToStep | roguelike/sources/gameplay/behTreeLibrary.cpp:91-100 | no action exactly on the target; otherwise a move one step closer, or one step farther when fleeing |
| BehTreeShape.FlattenAllForest | roguelike/sources/behTree.cpp:25-32 | connecting a node's children makes each child report to that node's slot, the children's subtrees lying side by side |
| BehTreeShape.FlattenBlock | roguelike/sources/behTree.cpp:16-23 | the layout of a cloned subtree is a self-contained block rooted at its first entry |
| BehTreeShape.BuildWellFormed | roguelike/sources/behTree.hpp:153-157 | the arena of any buildable tree is well formed: the root reports to the callback, every child reports to its parent's slot, and the root keeps its kind and number of children |
| BehTreeSemantics.OwnerOf | roguelike/sources/behTree.cpp:25-32 | the root reports to the tree and every other node to an earlier node that lists it in the named slot |
| BehTreeSemantics.Finish | roguelike/sources/behTree.hpp:88-93 | succeed/fail of a running node clears its flag and delivers the signal; of an idle node it is the failed assertion |
| BehTreeSemantics.Exec | roguelike/sources/behTree.hpp:58-62 | executing changes no node outside the node's subtree, nor any registration of such a node, and never the tree flag (the blackboard may change); a running node is the failed assertion; Pending leaves the node running and a finished node has stopped |
| BehTreeSemantics.ExecSequence | roguelike/sources/behTree.cpp:60-71 | the same frame (no node or registration outside the subtree changes) and running guarantees for a Sequence's execute body |
| BehTreeSemantics.ExecSelect | roguelike/sources/behTree.cpp:108-119 | the same frame, registrations included, and running guarantees for a Select's execute body |
| BehTreeSemantics.ExecParallel | roguelike/sources/behTree.cpp:158-172 | the same frame, registrations included, and running guarantees for a Parallel's execute body |
| BehTreeSemantics.ExecPredicate | roguelike/sources/behTree.cpp:274-282 | the same frame, registrations included, and running guarantees for a Predicate's execute body |
| BehTreeSemantics.ExecFrom | roguelike/sources/behTree.cpp:168-171 | the child loop changes no node or registration outside the parent's subtree, and once the parent has signalled it never reports Pending |
| BehTreeSemantics.Done | roguelike/sources/behTree.hpp:43-44 | handling a child's signal changes no node or registration outside the parent's subtree; Pending keeps the parent's flag and a finished parent has stopped |
| BehTreeSemantics.DoneSequence | roguelike/sources/behTree.cpp:79-95 | the same frame, registrations included, for Sequence's succeeded/failed |
| BehTreeSemantics.DoneSelect | roguelike/sources/behTree.cpp:127-143 | the same frame, registrations included, for Select's succeeded/failed |
| BehTreeSemantics.DoneParallel | roguelike/sources/behTree.cpp:188-217 | the same frame, registrations included, for Parallel's succeeded/failed |
| BehTreeSemantics.Cancel | roguelike/sources/behTree.hpp:64-68 | cancelling changes no node outside the node's subtree, nor any registration of such a node, and never the tree flag; an idle node is the failed assertion; otherwise the node ends idle |
| BehTreeSemantics.CancelCurrent | roguelike/sources/behTree.cpp:73-77 | the Sequence/Select cancel body changes no node or registration outside the subtree and leaves the node's own flag |
| BehTreeSemantics.CancelRunning | roguelike/sources/behTree.cpp:174-179 | Parallel's cancelChildren changes no node or registration outside the Parallel's subtree, nor the Parallel's own fields |
| BehTreeSemantics.CancelOthers | roguelike/sources/behTree.cpp:237-242 | Race's cancelChildren changes no node or registration outside the Race's subtree, nor the Race's own fields |
| BehTreeSemantics.Act | roguelike/sources/behTree.hpp:49-53 | act changes no node outside the node's own subtree, nor any registration of such a node (the blackboard may change); Pending keeps it running and a finished node has stopped |
| BehTreeSemantics.Propagate | roguelike/sources/behTree.hpp:132-148 | an outcome that reaches the root callback clears the tree flag; one still pending leaves it as it was |
| BehTreeSemantics.TreeExecute | roguelike/sources/behTree.hpp:179-183 | a running tree ignores execute; otherwise a pending root leaves it running and a finished root leaves it idle |
| BehTree.InitialNodes | roguelike/sources/behTree.cpp:220-223 | a new tree has every node idle with zero counters; Parallel's `running` vector has one entry per child |
| BehTree.ClonedNodes | roguelike/sources/behTree.cpp:16-23 | clone builds composite and adapter nodes anew with default fields, and copies each leaf action node whole |
| BehTree.Tree.FromTemplate | roguelike/sources/behTree.hpp:129-162 | the arena is the connected tree, all nodes are initial, and the registries, blackboard and flag are empty |
| BehTree.Tree.Clone | roguelike/sources/behTree.hpp:174-177 | copy_to keeps the shape, takes the cloned node fields and gives the new entity fresh, empty components |
| BehTree.Tree.FinishNode | roguelike/sources/behTree.hpp:88-89 | equals Finish |
| BehTree.Tree.NodeExecute | roguelike/sources/behTree.hpp:58-62 | equals Exec, for every kind, with FindClosest and the blackboard write inside |
| BehTree.Tree.SequenceExecute | roguelike/sources/behTree.cpp:60-71 | equals ExecSequence |
| BehTree.Tree.SelectExecute | roguelike/sources/behTree.cpp:108-119 | equals ExecSelect |
| BehTree.Tree.ParallelExecute | roguelike/sources/behTree.cpp:158-172 | equals ExecParallel |
| BehTree.Tree.PredicateExecute | roguelike/sources/behTree.cpp:274-282 | equals ExecPredicate |
| BehTree.Tree.ExecuteChildren | roguelike/sources/behTree.cpp:168-171 | the loop over the children equals ExecFrom from the first child |
| BehTree.Tree.Signal | roguelike/sources/behTree.hpp:43-44 | equals Done |
| BehTree.Tree.SequenceSignal | roguelike/sources/behTree.cpp:79-95 | equals DoneSequence |
| BehTree.Tree.SelectSignal | roguelike/sources/behTree.cpp:127-143 | equals DoneSelect |
| BehTree.Tree.ParallelSignal | roguelike/sources/behTree.cpp:197-217 | equals DoneParallel |
| BehTree.Tree.ChildFinished | roguelike/sources/behTree.cpp:188-195 | the loop clears exactly the signalling child's `running` entry and nothing else |
| BehTree.Tree.NodeCancel | roguelike/sources/behTree.hpp:64-68 | equals Cancel |
| BehTree.Tree.CancelCurrentChild | roguelike/sources/behTree.cpp:73-77 | equals CancelCurrent |
| BehTree.Tree.ParallelCancelChildren | roguelike/sources/behTree.cpp:174-179 | the loop equals CancelRunning from the first child |
| BehTree.Tree.RaceCancelChildren | roguelike/sources/behTree.cpp:237-242 | the loop, comparing children by identity, equals CancelOthers except the signalling slot |
| BehTree.Tree.NodeAct | roguelike/sources/behTree.cpp:328-332 | equals Act (WaitEvent, and MoveTo with its blackboard read) |
| BehTree.Tree.Report | roguelike/sources/behTree.hpp:132-148 | equals Propagate |
| BehTree.Tree.Execute | roguelike/sources/behTree.hpp:179-183 | equals TreeExecute |
| BehTree.Tree.ActOn | roguelike/sources/behTree.hpp:49-53 | equals TreeAct |
| BehTreeProperties.SiblingsDisjoint | roguelike/sources/behTree.cpp:16-23 | a later child's subtree starts after an earlier child's subtree ends |
| BehTreeProperties.ExecRunningAborts | roguelike/sources/behTree.hpp:92 | executing a running node is the failed `start` assertion and changes nothing |
| BehTreeProperties.CancelNeverSignals | roguelike/sources/behTree.hpp:64-68 | cancelling a node leaves its owner's fields and the tree flag unchanged: no signal is sent |
| BehTreeProperties.InstantCancel | roguelike/sources/behTree.hpp:117-121 | cancelling Fail or get_closest only clears the flag (and asserts it was set) |
| BehTreeProperties.EmptyComposites | roguelike/sources/behTree.cpp:60-119 | an empty Sequence succeeds and an empty Select fails on execute, both ending where they started |
| BehTreeProperties.SequenceStep | roguelike/sources/behTree.cpp:79-88 | a success before the last child runs the next child with `current` advanced and the parent's other fields kept; the Sequence continues only if that child finished at once, and otherwise reports the child's outcome |
| BehTreeProperties.SequenceEnd | roguelike/sources/behTree.cpp:79-95 | a failure, or a success of the last child, finishes the Sequence stopped with `current` reset to 0 |
| BehTreeProperties.SequenceProgress | roguelike/sources/behTree.cpp:79-95 | while waiting, `current` strictly grows and stays a child index; when the Sequence finishes it has stopped and reset `current` to 0 |
| BehTreeProperties.SelectStep | roguelike/sources/behTree.cpp:133-143 | a failure before the last child runs the next child with `current` advanced and the parent's other fields kept; the Select continues only if that child finished at once |
| BehTreeProperties.SelectEnd | roguelike/sources/behTree.cpp:127-143 | a success, or a failure of the last child, finishes the Select stopped with `current` reset to 0 |
| BehTreeProperties.SelectProgress | roguelike/sources/behTree.cpp:127-143 | the same for Select |
| BehTreeProperties.DecisiveChild | roguelike/sources/behTree.cpp:91-131 | a failure fails the Sequence at once and a success succeeds the Select at once, executing nothing further and resetting `current` |
| BehTreeProperties.LastChild | roguelike/sources/behTree.cpp:79-143 | after its last child a Sequence succeeds (a Select fails) once and resets `current` |
| BehTreeProperties.ParallelSuccessCounts | roguelike/sources/behTree.cpp:197-207 | a child's success finishes the Parallel exactly when it brings `finished` to the number of children; otherwise it counts and waits |
| BehTreeProperties.CancelRunningBefore | roguelike/sources/behTree.cpp:174-179 | cancelling the children from child i on leaves every node before child i unchanged |
| BehTreeProperties.CancelRunningSkips | roguelike/sources/behTree.cpp:174-179 | a child whose running entry is clear keeps every node of its subtree unchanged |
| BehTreeProperties.CancelRunningStops | roguelike/sources/behTree.cpp:174-179 | without a failed assertion, a child whose running entry is set has stopped at the end |
| BehTreeProperties.CancelRunningEffect | roguelike/sources/behTree.cpp:174-179 | cancelChildren leaves children whose entry is clear untouched and stops every child whose entry is set |
| BehTreeProperties.ParallelFailure | roguelike/sources/behTree.cpp:209-217 | a failure cancels exactly the other children still marked running, fails and clears `finished` and `running` |
| BehTreeProperties.ParallelCancelResets | roguelike/sources/behTree.cpp:181-186 | a cancelled Parallel has `finished` = 0 and no child marked running |
| BehTreeProperties.CancelOthersBefore | roguelike/sources/behTree.cpp:237-242 | Race's cancelChildren from child i on leaves every node before child i unchanged |
| BehTreeProperties.CancelOthersSpares | roguelike/sources/behTree.cpp:237-242 | the excepted child keeps every node of its subtree unchanged |
| BehTreeProperties.CancelOthersFrame | roguelike/sources/behTree.cpp:237-242 | Race's cancelChildren never touches the excepted child |
| BehTreeProperties.CancelOthersStopsHere | roguelike/sources/behTree.cpp:237-242 | without a failed assertion, the child cancelled at this step was running and stays stopped to the end |
| BehTreeProperties.CancelOthersStops | roguelike/sources/behTree.cpp:237-242 | without a failed assertion, any later child other than the excepted one was running and has stopped |
| BehTreeProperties.CancelOthersEffect | roguelike/sources/behTree.cpp:237-242 | without a failed assertion, every other child was running and has stopped |
| BehTreeProperties.RaceFinishes | roguelike/sources/behTree.cpp:237-259 | the first signalling child decides the Race's outcome and every other child is stopped; a cancelled Race stops every child |
| BehTreeProperties.RaceInstantFirstChildAborts | roguelike/sources/behTree.cpp:231-253 | when the first child finishes during execute, with success or failure, cancelling the not-yet-started second child fails `stop`'s assertion |
| BehTreeProperties.PredicateGate | roguelike/sources/behTree.cpp:274-282 | a false predicate fails without touching the adapted node; a true one forwards the adapted node's outcome |
| BehTreeProperties.PredicateCancel | roguelike/sources/behTree.cpp:284 | cancelling a Predicate only clears its own flag |
| BehTreeProperties.PredicateStaleChild | roguelike/sources/behTree.cpp:274-284 | after cancelling a Predicate whose adapted node waits, executing the Predicate again fails that node's `start` assertion |
| BehTreeProperties.WaitEventExecute | roguelike/sources/behTree.cpp:316-326 | an event already present succeeds without registering; otherwise exactly one (event, node) entry is added |
| BehTreeProperties.WaitEventCancel | roguelike/sources/behTree.cpp:334-341 | cancel succeeds exactly when the entry exists and removes exactly one copy of it |
| BehTreeProperties.WaitEventAct | roguelike/sources/behTree.cpp:328-341 | act removes the entry, stops the node and succeeds; a missing entry is the failed assertion |
| BehTreeProperties.WaitEventRoundTrip | roguelike/sources/behTree.cpp:316-341 | waiting and then being woken restores the exact starting state, ReactingNodes included |
| BehTreeProperties.GetClosestFails | roguelike/sources/gameplay/behTreeLibrary.cpp:50-54 | with no accepted candidate the node fails and the blackboard is untouched |
| BehTreeProperties.GetClosestStores | roguelike/sources/gameplay/behTreeLibrary.cpp:30-58 | otherwise it succeeds and stores the first accepted candidate of least distance; every other slot and node is unchanged |
| BehTreeProperties.MoveToRegisters | roguelike/sources/gameplay/behTreeLibrary.cpp:80-83 | execute registers the node in ActingNodes and signals nothing |
| BehTreeProperties.MoveToAct | roguelike/sources/gameplay/behTreeLibrary.cpp:85-107 | act never fails; on the target it deregisters and succeeds; elsewhere it writes move_towards (inverted when fleeing) and stays registered |
| BehTreeProperties.MoveToCancel | roguelike/sources/gameplay/behTreeLibrary.cpp:109-112 | cancel erases the node from ActingNodes |
| BehTreeProperties.TreeActFlag | roguelike/sources/behTree.hpp:132-148 | after an act, an outcome that reached the root leaves the tree idle and a pending one leaves its flag unchanged |

## Left out

- **I/O, the ECS and the UI.** YAML file reading is out. The expression compiler and
  `load` take an already-parsed `Yaml.Node`; map keys are strings.
- **flecs.** Entities, Union pairs and system scheduling are out.
  - A machine or state name stands for its entity.
  - An entity's machine states are a map, one state per machine.
  - The transition phase runs the rules in registration order, each seeing the effect
    of the previous one.
- **WaitEvent tagging.** `WaitEventNode::connect` tags the entity with its event. That
  extra tag is not modelled.
- **The blackboard's interner.** It is a process-wide singleton in the source. The
  model has it as an explicit `NameMap` object, and `Blackboard.getId` is not a
  separate member.
- **Float and entity slots.** The float and entity pools exist in the blackboard, but
  only the vector pool is used by the modelled leaves.
- **Randomness and the clock.**
  - `find_walkable_tile` takes its index as `draw`.
  - `gen_drunk_dungeon` takes its start cells and direction draws as sequences.
- **DungeonGenerator.DrunkWalk:** when its direction draws run out before 200
  excavations, the walk stops and `complete` is false. The source would keep drawing.
  Its `while (numExcavations < maxExcavations)` loop (dungeonGenerator.cpp:40) ends only
  once 200 fresh Wall tiles were dug, and walks are clamped to the interior, where Floor
  never turns back into Wall. So on a grid whose interior (extent0 - 2) * (extent1 - 2)
  is below 800, such as 30 by 30 or any 3-by-3 grid, the source never returns whatever
  the draws. The model ends there with `complete` false: GenDrunkDungeon ensures that
  a complete run implies an interior of at least 800 cells, by FloorsFitInterior.
- **DungeonGenerator.GenDrunkDungeon:** requires both extents to be at least 3. A
  smaller grid gives `uniform_int_distribution` an empty range, which is undefined.
- **DungeonUtils.Dungeon.FindWalkableTile:** with no Floor tile the source computes
  `size() - 1` and reads out of range (undefined). The model returns None for any draw
  outside the list.
- **DungeonUtils.Dungeon.MakeDungeon:** takes natural numbers, so `int` overflow of
  `width * height` and negative sizes are not modelled.
- **BehTreeLibrary.Closest:** ranks candidates by integer squared distance instead of
  float `glm::length`. The two orders agree exactly, but float rounding of nearly equal
  lengths is not modelled.
- **Where a synchronous finish is handled.** Assume a Parallel or Race child finishes
  during the parent's execute loop, and the parent finishes because of it. The source
  signals the parent's owner from inside the loop; the model does so after the loop
  (BehTreeSemantics.ExecFrom carries that signal as `sig`). Every other execute call of
  a child is the last action of its caller, so elsewhere the two orders coincide.
- **The header's `RunParams`.** It is an empty struct and is dropped. The node bodies
  follow behTree.cpp, wrapped in the header's `running_` checks. Inside `act`, the
  node's own `cancel()` call is read as its cancel body; the wrapper would otherwise
  clear the flag twice and always fail its assertion.
- **Undefined behaviour.** A failed `NG_ASSERT`, `NG_PANIC`, the exception of
  `bb.get` on an unset slot, and indexing a cloned Parallel's empty `running` vector
  all become Aborted. Nothing is stated about the state afterwards.
- **Untaken branches.** A null root (`BehTree()` default constructor, the `root_`
  test in `execute`) is not modelled. Neither is the sharing of a root between copies
  of a `BehTree` through `shared_ptr`.
- **Other nodes.** `utility_select`, `repeat`, `succeed`, `get_pair_target`,
  `broadcast`, `calculate`, `move_to_once`, `wander` and `wander_once` are only
  declared; their bodies are not part of this model. `debugDraw` is drawing only.
- **Duplicates in gameplay/aiSystems.cpp.** Its copies of `move_towards` and
  `inverse_move` are not part of this model; actions.hpp is. The conflicting ActionType
  of gameplay/components.hpp is not used.
- **`move()`.** Its body is not part of this model. The offset of a move is taken
  from `move_towards`: RIGHT raises x and UP raises y.
- **YAML shapes the source does not check.**
  - In `load`, a non-empty description that is not a map, or a transition that is not
    a non-empty map, is iterated as if it were a map, which is undefined. The model
    reports them as the errors StatesNotMap and TransitionNotMap.
  - Every other load-time failure is the source's own assertion.
