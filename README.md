# ArcherGame agents and open-set heap, modelled in Dafny

ArcherGame is a 2-D Unity archery platformer. This project models the parts of its scripts that
decide what the agents do from frame to frame, and the priority queue behind their path searches:

- `priority_queue.dfy` (module `PriorityQueues`): the binary min-heap `PriorityQueue<T>` over a
  caller-supplied comparator. It is a class over a `seq<T>` with the heap invariant as `Valid()`.
  The comparator is a function `(T, T) -> int` that obeys the `IComparer` laws (`IsComparer`).
  `HeapifyUp`/`HeapifyDown` are the source's sift loops, and each swap goes through `Swap`.
- `walking_enemy_ai.dfy` (module `WalkingEnemyAI`): the waypoint-list utilities of the walking
  enemy. These are the per-coordinate tolerance test, the element-wise list comparison, and the
  longest-overlap merge with its exact tie-breaking.
- `enemies.dfy` (module `Enemies`): the enemy state machine as class `Enemy`. It covers aggression
  with hysteresis, the path timer, re-planning and path following, arrow hits, damage, death,
  stagger, contact damage to the player and `Reset`. The constant `walks` selects between the
  walking enemy's overrides and the base behaviour.
- `player.dfy` (module `Players`): the player state machine as class `Player`. It covers the
  frame timers, coyote-time jump, dash cooldown, damage with invulnerability, death, the
  dead-player guard on every input handler, and `Restart`.
- `geometry.dfy` (module `Geometry`): `Vector2` over reals and `Vector2.Distance(a, b) <= d`
  stated without a square root.

Engine inputs are parameters of the methods: frame times, ground contact, rigid-body position and
velocity, the distance to the player, the platform rays and the path planner (a function from
the goal to an optional path). Engine outputs are returned as values: the jump velocity, the dash
impulse, bow requests and the enemy's move for the physics step.

A Unity coroutine runs synchronously up to its first `yield`. The model therefore includes the
part of each coroutine before its first `yield`:

- the dash and damage invulnerability windows begin;
- death stops steering and releases rotation;
- the knock-back suspends steering.

The part after the `yield` is left out (see below).

## Model

| member | source | states |
|---|---|---|
| PriorityQueues.PriorityQueue.constructor | Assets/Scripts/Utils/PriorityQueue.cs:10-14 | a new queue is empty, a valid heap, and keeps the comparer |
| PriorityQueues.PriorityQueue.Count | Assets/Scripts/Utils/PriorityQueue.cs:16 | the count is the number of stored items, duplicates included |
| PriorityQueues.PriorityQueue.Enqueue | Assets/Scripts/Utils/PriorityQueue.cs:18-22 | the stored multiset gains exactly the item, Count grows by one, the heap invariant is kept |
| PriorityQueues.PriorityQueue.Clear | Assets/Scripts/Utils/PriorityQueue.cs:24-27 | Count is 0 afterwards and the (empty) heap is valid |
| PriorityQueues.PriorityQueue.Dequeue | Assets/Scripts/Utils/PriorityQueue.cs:29-39 | on an empty queue: the EmptyQueue error, contents unchanged; otherwise it returns the old root, which is not after any stored item, removes exactly that one item, Count drops by one, the heap stays valid |
| PriorityQueues.PriorityQueue.Peek | Assets/Scripts/Utils/PriorityQueue.cs:41-46 | on an empty queue: the EmptyQueue error; otherwise the root, the same item Dequeue would return, not after any stored item; contents unchanged |
| PriorityQueues.PriorityQueue.HeapifyUp | Assets/Scripts/Utils/PriorityQueue.cs:48-59 | from a heap broken only at index (too small for its parent), the loop restores the heap invariant and only permutes the items; the index strictly decreases |
| PriorityQueues.PriorityQueue.HeapifyDown | Assets/Scripts/Utils/PriorityQueue.cs:61-84 | from a heap broken only at index (too large for its children), the loop restores the heap invariant and only permutes the items; the index strictly increases within Count |
| PriorityQueues.PriorityQueue.Swap | Assets/Scripts/Utils/PriorityQueue.cs:86-89 | the two slots exchange their items and nothing else changes |
| PriorityQueues.Swapped | Assets/Scripts/Utils/PriorityQueue.cs:86-89 | exchanging two slots keeps the length and the multiset and changes no other slot |
| PriorityQueues.HeapRootIsLeastAt | Assets/Scripts/Utils/PriorityQueue.cs:33 | in a heap, under a lawful comparer, the root is not after the item at any index (induction up the parent chain) |
| PriorityQueues.HeapRootIsLeast | Assets/Scripts/Utils/PriorityQueue.cs:33 | in a non-empty heap the root is not after any stored item |
| PriorityQueues.RootReplacedByLast | Assets/Scripts/Utils/PriorityQueue.cs:33-36 | moving the last item to the root and dropping the last slot leaves a heap broken only at the root, holding the old multiset minus the root |
| PriorityQueues.SiftUpStep | Assets/Scripts/Utils/PriorityQueue.cs:52-57 | swapping a child that is before its parent moves the only defect one level up |
| PriorityQueues.SiftDownStep | Assets/Scripts/Utils/PriorityQueue.cs:65-82 | swapping a node with its smallest child, when that child is before it, moves the only defect down to the child's slot |
| WalkingEnemyAI.AreApproximatelySame | Assets/Scripts/Enemies/WalkingEnemyAI.cs:178-181 | the per-coordinate test: a negative tolerance matches nothing, a point matches itself exactly when the tolerance is not negative, and a match puts each coordinate of the second point within the tolerance of the first's |
| Geometry.DistanceAtMost | Assets/Scripts/Enemies/WalkingEnemyAI.cs:207-209 | the Distance comparisons (here and at line 76) without a square root: never met for a negative bound, met by a point and itself exactly when the bound is not negative, and a met bound caps each coordinate difference |
| WalkingEnemyAI.ApproximatelySameIsSymmetric | Assets/Scripts/Enemies/WalkingEnemyAI.cs:178-181 | the per-coordinate tolerance test does not depend on the order of its two points |
| WalkingEnemyAI.WithinDistanceIsApproximatelySame | Assets/Scripts/Enemies/WalkingEnemyAI.cs:76 | two points within Euclidean distance d of each other are also within d on each coordinate |
| WalkingEnemyAI.AreListsAlmostEqual | Assets/Scripts/Enemies/WalkingEnemyAI.cs:68-82 | false for lists of different lengths; otherwise true exactly when every pair at the same index is within the tolerance distance |
| WalkingEnemyAI.ListsWithinIsSymmetric | Assets/Scripts/Enemies/WalkingEnemyAI.cs:68-82 | the element-wise comparison does not depend on the order of the two lists |
| WalkingEnemyAI.ListsWithinMatchPairwise | Assets/Scripts/Enemies/WalkingEnemyAI.cs:68-82 | lists that compare almost equal also match index by index under the per-coordinate test |
| WalkingEnemyAI.RunLength | Assets/Scripts/Enemies/WalkingEnemyAI.cs:147-152 | the run from (i, j) stays inside both lists, every pair in it matches, and it is maximal: the next pair, if inside both lists, does not match |
| WalkingEnemyAI.MatchingRun | Assets/Scripts/Enemies/WalkingEnemyAI.cs:147-152 | the inner while loop counts exactly the maximal run from (i, j) |
| WalkingEnemyAI.FindOverlap | Assets/Scripts/Enemies/WalkingEnemyAI.cs:139-161 | the scan yields the longest run over all start pairs, with ties going to the first pair in row-major order (the strict comparison), and (-1, -1) when nothing matches |
| WalkingEnemyAI.BestOverlapIsUnique | Assets/Scripts/Enemies/WalkingEnemyAI.cs:139-161 | the best overlap, tie-breaking included, is determined by the two lists and the tolerance |
| WalkingEnemyAI.NoOverlapIffNoMatch | Assets/Scripts/Enemies/WalkingEnemyAI.cs:163 | the best run is empty exactly when no element of the first list matches any element of the second |
| WalkingEnemyAI.ScanStep | Assets/Scripts/Enemies/WalkingEnemyAI.cs:154-159 | one step of the scan keeps "best so far" correct for every start pair already visited |
| WalkingEnemyAI.NextRow | Assets/Scripts/Enemies/WalkingEnemyAI.cs:143-145 | finishing a row of the scan carries "best so far" to the start of the next row |
| WalkingEnemyAI.MergeListsWithOverlap | Assets/Scripts/Enemies/WalkingEnemyAI.cs:137-176 | with no overlap the result is the first list followed by the second; otherwise it is the first list up to the end of the best run followed by the second list after its copy of the run, of length bestI + \|list2\| - bestJ |
| Enemies.RoundToInt | Assets/Scripts/Enemies/EnemyAI.cs:174 | the result is within one half of the argument, and an exact half goes to the even neighbour; only one integer meets both |
| Enemies.NextAggression | Assets/Scripts/Enemies/EnemyAI.cs:110-128 | a dead player is never chased; a live player nearer than the aggro distance always is; beyond three times that distance the enemy is calm; in between the previous state is kept |
| Enemies.StaysAggressiveWithinBand | Assets/Scripts/Enemies/EnemyAI.cs:120-127 | an aggressive enemy stays aggressive over any run of frames in which a live player stays within three times the aggro distance |
| Enemies.StaysCalmOutsideRange | Assets/Scripts/Enemies/EnemyAI.cs:112-119 | a calm enemy stays calm over any run of frames in which the player stays at least the aggro distance away |
| Enemies.PathAfterPlan | Assets/Scripts/Enemies/WalkingEnemyAI.cs:103-128 | the path and index change only to the new path from waypoint 2; that happens exactly when the planner returned a path (an empty one when the search failed; None stands for the null the source checks for, which the walking planner never returns) that is not almost equal to the current one and the walker is grounded; a path almost equal to the current one changes nothing |
| Enemies.FailedSearchStopsWalker | Assets/Scripts/Enemies/WalkingEnemyAI.cs:103-128 | an empty plan, the planner's answer to a failed search, replaces a non-empty path of a grounded walker with the empty path at waypoint 2, so the walker stops following |
| Enemies.PathUpdateDue | Assets/Scripts/Enemies/WalkingEnemyAI.cs:55-63 | a path update goes through only once the lowered timer has run out; a walker off the ground never re-plans; a run-out timer re-plans a grounded walker and the base enemy (EnemyAI.cs:101-106) |
| Enemies.PlanIsIdempotent | Assets/Scripts/Enemies/WalkingEnemyAI.cs:103-128 | receiving the same plan twice has the effect of receiving it once |
| Enemies.Enemy.constructor | Assets/Scripts/Enemies/EnemyAI.cs:15-63 | the field initialisers and Start: alive, calm, steerable, facing right, empty path at index 0, timer 0, StartHitpoints = hitpoints |
| Enemies.Enemy.Reset | Assets/Scripts/Enemies/EnemyAI.cs:65-78 | alive, calm, hitpoints back to StartHitpoints, no arrow stuck, steerable, empty path at index 0, rotation frozen; the corpse invariant holds |
| Enemies.Enemy.Update | Assets/Scripts/Enemies/EnemyAI.cs:80-95 | the hit clock advances and the base enemy turns with its velocity; a corpse only gets gravity 4; a dead or staggered enemy neither re-plans nor re-evaluates aggression; otherwise the path timer and plan follow UpdatePath and aggression follows NextAggression |
| Enemies.Enemy.UpdatePath | Assets/Scripts/Enemies/WalkingEnemyAI.cs:53-66 | the timer drops by dt; an update is due only when it has run out (and, for a walker, on the ground), and then the timer is reset to 0.333 and the walker re-plans toward the player when aggressive, its spawn point otherwise |
| Enemies.Enemy.PerformPathUpdate | Assets/Scripts/Enemies/WalkingEnemyAI.cs:84-135 | the new path and index are exactly PathAfterPlan of the old ones |
| Enemies.Enemy.UpdateAggro | Assets/Scripts/Enemies/EnemyAI.cs:110-128 | the new aggression is NextAggression of the old one |
| Enemies.Enemy.TryRotateSprite | Assets/Scripts/Enemies/EnemyAI.cs:130-146 | a live base enemy turns to face the way its body moves; a walker (WalkingEnemyAI.cs:230) and a corpse never turn here |
| Enemies.Enemy.OnArrowHit | Assets/Scripts/Enemies/EnemyAI.cs:148-170 | an arrow already stuck here is ignored; otherwise it sticks, and the enemy is hurt exactly when no contact is on a shield; a hurt enemy dies exactly when the hit kills (one OnDeath if it was alive, rotation frozen only for targets), and a surviving one turns aggressive and is staggered; nothing else changes |
| Enemies.Enemy.HitKills | Assets/Scripts/Enemies/EnemyAI.cs:174-180 | whether a hit leaves at most 0.01 hitpoints after the rounded damage: it surely does when hitpoints minus damage is half a point below 0.01, and never when more than half a point above it |
| Enemies.Enemy.TakeDamage | Assets/Scripts/Enemies/EnemyAI.cs:172-189 | hitpoints drop by the rounded damage; at or below 0.01 a live enemy dies (hitpoints 0, one OnDeath, rotation frozen only for targets); otherwise it turns aggressive and is staggered; a corpse hit by non-negative damage stays dead with no second OnDeath |
| Enemies.Enemy.Die | Assets/Scripts/Enemies/EnemyAI.cs:205-219 | dying again changes nothing; the first death zeroes the hitpoints, raises OnDeath once, and frees rotation unless the enemy is a target |
| Enemies.Enemy.Stagger | Assets/Scripts/Enemies/EnemyAI.cs:221-230 | a target keeps moving; any other enemy stops moving |
| Enemies.Enemy.OnPlayerContact | Assets/Scripts/Enemies/EnemyAI.cs:191-203 | a corpse does nothing; a live enemy deals its attack damage through Player.TakeDamage (health, death, i-frames, steering and rotation as that method says) and calms down when the player is then dead; nothing else of either changes |
| Enemies.Enemy.FixedUpdate | Assets/Scripts/Enemies/WalkingEnemyAI.cs:183-218 | with the path not yet finished, a live, steerable walker faces its next waypoint; it snaps onto the waypoint and advances pathIndex by one when this step's travel covers the distance, and otherwise steps that far toward it without advancing; in every other case nothing moves; only walkers run this step |
| Players.Player.constructor | Assets/Scripts/Player/Player.cs:11-64 | the field initialisers and Start: MaxHealth = health, dash timer 2, coyote timer 0.075, can dash, alive, steerable, facing right; the rigid body's freezeRotation is whatever it was set to, as Start leaves it alone |
| Players.Player.Update | Assets/Scripts/Player/Player.cs:66-90 | the run clock runs after the first input; on the ground the dash recharges and the coyote timer is 0; the dash timer grows only while below the cooldown; in the air the coyote timer grows only while below the forgiveness; the sprite turns as TryRotateSprite says |
| Players.Player.TryRotateSprite | Assets/Scripts/Player/Player.cs:217-229 | a live player turns exactly when the horizontal input points the way it faces; a dead player never turns |
| Players.Player.FixedUpdate | Assets/Scripts/Player/Player.cs:92-99 | the horizontal velocity is set to input times speed exactly when the player is alive and steerable |
| Players.Player.HorizontalMovement | Assets/Scripts/Player/Player.cs:106-114 | a dead player is unchanged; otherwise the input is stored and a non-zero input counts as the first input |
| Players.Player.LookCallback | Assets/Scripts/Player/Player.cs:122-126 | the bow is aimed exactly when the player is alive |
| Players.Player.ChargeBow | Assets/Scripts/Player/Player.cs:128-143 | a dead player is unchanged and asks nothing; otherwise a performed press starts charging and counts as first input, a cancel releases the charge |
| Players.Player.RetrieveArrowInput | Assets/Scripts/Player/Player.cs:145-152 | the arrow is recalled exactly on a performed press by a live player |
| Players.Player.DropThroughPlatform | Assets/Scripts/Player/Player.cs:154-186 | a dead player is unchanged; the player drops exactly on a performed press while not dropping, grounded, with the same platform under both feet |
| Players.Player.Dash | Assets/Scripts/Player/Player.cs:188-215 | a dead player is unchanged; a dash fires exactly on a performed press when the cooldown has elapsed and the dash is recharged, and then uses up the recharge, resets the timer, suspends steering, starts the i-frames and pushes against the facing flag |
| Players.Player.Jump | Assets/Scripts/Player/Player.cs:244-260 | a dead player is unchanged; a jump fires exactly on a performed press within the coyote time, sets the vertical velocity to the jumping power and sets the timer to the forgiveness, so a second jump before touching ground does not fire |
| Players.Player.TakeDamage | Assets/Scripts/Player/Player.cs:262-300 | while invulnerable nothing changes; otherwise health drops by the damage, the player dies when health reaches 0, steering is suspended and the i-frames start; a dead player is hit again unless invulnerable (no guard on death); the player's facing, drop state, timers and input are untouched |
| Players.Player.Die | Assets/Scripts/Player/Player.cs:279-291 | the player is dead, not steerable and free to rotate |
| Players.Player.Interact | Assets/Scripts/Player/Player.cs:322-329 | the interactable is triggered exactly on a performed press by a live player next to one |
| Players.Player.Restart | Assets/Scripts/Player/Player.cs:363-372 | health back to MaxHealth, alive, steerable, rotation frozen, no horizontal input |

## Left out

- The path planners behind `ShortestPath`, the A* search and the platform graph are not part of this model. The planner is a parameter of `Enemies.Enemy.Update`.
- The flying enemy's own `PerformPathUpdate` is not part of this model. For the base behaviour, `Enemies.Enemy.UpdatePath` reports that an update is due but leaves the path unchanged.
- Ground checks, platform rays and every other raycast are boolean inputs. Forces, `MovePosition`, torque and collision ignoring are left out, or recorded as results where the source's decision depends on them.
- `Enemies.Enemy.FixedUpdate`: `StepToward` records the target and the travel distance, not the new position. Computing the position needs a normalised vector, which needs a square root. Unity's `normalized` also returns zero below a tiny magnitude; the model reads the facing from the sign of the x difference instead.
- Coroutine resumptions are left out: the end of the dash and damage i-frames, the end of the knock-back slow motion, `EnableMovement` after a stagger and `DestroySelf`. They are deferred, interleaved execution, and the model keeps only the part of each coroutine that runs at once.
- `Time.timeScale` and `fixedDeltaTime` changes made by the slow-motion knock-back are left out. Frame times are parameters.
- Float rounding is left out: times, health and coordinates are reals. `Mathf.RoundToInt` is modelled exactly on reals.
- `PriorityQueues.PriorityQueue.constructor`: the default `Comparer<T>.Default` used for a null comparer is not modelled. A comparer is always given, and it is required to obey the `IComparer` laws.
- `PriorityQueues.PriorityQueue.HeapifyUp`, `HeapifyDown` and `Swap` are private in the source. Their preconditions state what the public operations that call them establish.
- Hit audio, the `OnDeath` subscribers (only counted), sprite flipping of the transform, the bow's aiming and charging (returned as requests), and the save-game reload in `Restart` are left out.
- `RestartAction` (holding the restart key for 2 seconds) and `Quit` are left out: they are coroutine timing and editor glue around `Restart`.
- Editor-only debug line drawing in `FixedUpdate` is left out.
- The flying enemy's `FixedUpdate` (FlyingEnemyAI.cs) is not part of this model; `Enemies.Enemy.FixedUpdate` is the walker's and requires `walks`.
- Because coroutine resumptions are left out, the model does not capture that the end of the knock-back (Player.cs:314) and of the dash i-frames (Player.cs:214) re-enable steering even for a player who died in between; the model promises nothing about that state.
- `Players.Player.TakeDamage` does not model the knock-back direction and force; only their effect on the flags is modelled.
- `Enemies.Enemy.TakeDamage`: the corpse invariant (`Valid`) is promised only for non-negative damage. A negative damage can lift a corpse's hitpoints above 0, as the source allows.
