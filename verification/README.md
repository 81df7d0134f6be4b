# Runner game: the per-frame simulation in Dafny

This project models the simulation core of a browser side-scrolling runner
(`game_project/js/game.js`). A player runs in one of three lanes, jumps,
collects coins, lands on enemies and must avoid obstacles. Spawn rate and
scroll speed grow with a difficulty value that rises every frame.

The source keeps this state in global variables and draws to a canvas while
it updates. The model turns one frame into a pure function `GameLoop.Tick`.
It maps a `World` (canvas size, `gameState` counters, the player, and the
obstacle, coin and enemy lists) and a record of random draws to the next
`World`. Positions and velocities are exact `real`s in place of JavaScript
doubles. No rule here depends on rounding.

Modules, leaf first:

- `Settings` holds the `gameSettings` constants and the fixed entity sizes.
- `Geometry` holds rectangles and the strict box-overlap test (`checkCollision`).
- `WorldState` holds the data: `Entity`, `Player`, `GameState`, `Canvas`, `World`, and `Draws` for the random inputs. The player is always 50×80 (game.js:35-36), so its size is a constant of `Player` rather than a field.
- `PlayerMotion` covers `calculateLanePosition`, `moveLeft`, `moveRight`, `jump`, and the physics half of `updateAndDrawPlayer`.
- `Spawner` covers `generateObjects` and the three `generate*` functions.
- `EntitySweep` is the update half of the three `updateAndDraw*` loops. It has a reference filter `Swept` and the source's backward splice loop `SweepBackward`, which is proved equal to that filter.
- `Collisions` covers `checkCollisions`: the forward obstacle scan, the backward coin loop, and the forward enemy scan with stomps.
- `GameLoop` covers `updateGameState`, `updateScore`, `gameLoop` (as `Tick`), `resetGame`, the start/pause/resume/quit flag changes, and the invariant `Valid` that every reachable world keeps.

The model follows the code's quirks:

- `calculateLanePosition` (game.js:104) places the player at lane·w − w/2 − playerWidth/2, where w is the lane width. The spawners centre entities at lane·w + w/2 − halfWidth. So the player in lane k stands exactly one lane width left of where an equally wide obstacle in lane k appears (`GameLoop.PlayerOneLaneLeftOfObstacle`).
- `falling` is never set to true. There is no falling phase after a jump: every operation keeps `!falling` (part of `Valid`), and the integrator only clears it.
- A stomp sets the velocity to -6. So a second overlapping enemy in the same pass ends the game (`Collisions.ResolveEnemiesFirstThreat`, `Collisions.AtMostOneStomp`).
- The score is recomputed after the collision pass, even on the frame that ended the game. This also discards the +100 stomp bonus (`GameLoop.Tick`).
- `resetGame` leaves `running` false, so frames after a reset change nothing (`GameLoop.ResetThenRunIsIdle`). Only `startGame` and `restartGame` set `running`, and from then on the distance grows every frame.
- The sweeps scroll by 5 × the difficulty after this frame's increase, while the distance grows by 5 × the difficulty before it (`GameLoop.MoveStep`).

## Model

| member | source | states |
|---|---|---|
| `Geometry.OverlapsSymmetric` | game_project/js/game.js:675-680 | the box test gives the same answer with its two rectangles swapped |
| `Geometry.EdgeContactIsNotOverlap` | game_project/js/game.js:675-680 | rectangles that only share a vertical or horizontal edge do not collide |
| `Geometry.OverlapIffSharedInteriorPoint` | game_project/js/game.js:675-680 | for rectangles of positive size, the test holds exactly when some point lies strictly inside both |
| `PlayerMotion.LanePositionStep` | game_project/js/game.js:102-105 | neighbouring lanes put the player exactly one lane width (canvas width / 3) apart |
| `PlayerMotion.MoveLeft` | game_project/js/game.js:288-294 | lane drops by exactly 1 iff running, not paused and lane > 0; then x is set to that lane's position and nothing else changes; otherwise the world is unchanged; lanes stay within [0, 2] |
| `PlayerMotion.MoveRight` | game_project/js/game.js:297-303 | lane rises by exactly 1 iff running, not paused and lane < 2; then x is set to that lane's position and nothing else changes; otherwise the world is unchanged; lanes stay within [0, 2] |
| `PlayerMotion.MoveLeftThenRight` | game_project/js/game.js:288-303 | away from the edges, a right move undoes a left move |
| `PlayerMotion.Jump` | game_project/js/game.js:306-311 | the jump flag changes iff running, not paused, not jumping and not falling; then only jumping := true and velocity := -12 change; otherwise the world is unchanged |
| `PlayerMotion.UpdatePlayer` | game_project/js/game.js:597-610 | a grounded player is unchanged; an airborne player ends at or above the ground line; reaching the line clamps y to it with velocity 0 and both flags false; otherwise gravity is integrated; only y, velocity and the flags change; no flag is ever set |
| `PlayerMotion.FlyClosedForm` | game_project/js/game.js:597-610 | after n ≤ 46 frames of a jump from rest, velocity is -12 + n/2 and height above ground is 12n − n(n+1)/4 |
| `PlayerMotion.JumpAirtime` | game_project/js/game.js:597-610 | without a stomp, a jump from rest is airborne for frames 1–46 and lands back at rest on frame 47 |
| `Spawner.NewObstacle` | game_project/js/game.js:458-470 | an obstacle is 50×30, centred on its lane's centre line, resting on the ground, undefeated |
| `Spawner.NewCoin` | game_project/js/game.js:473-486 | a coin is 30×30, centred on its lane, with y = H − 50 − 50 − lift, so its bottom floats between 20 and 120 units above the ground |
| `Spawner.NewEnemy` | game_project/js/game.js:489-502 | an enemy is 50×60, centred on its lane, resting on the ground, undefeated |
| `Spawner.Spawn` | game_project/js/game.js:437-455 | each kind independently gains exactly one new entity (in the drawn lane) and records the current frame iff frameCount − last ≥ frequency/difficulty; otherwise its list and marker are untouched; nothing else changes |
| `Spawner.DueMonotoneInDifficulty` | game_project/js/game.js:439-453 | the spawn interval frequency/difficulty does not grow as difficulty grows, so a due kind stays due |
| `Spawner.NotDueRightAfterSpawn` | game_project/js/game.js:439-442 | a kind whose interval exceeds one frame is never due on the frame right after it spawned |
| `EntitySweep.Swept` | game_project/js/game.js:517-594 | a sweep never grows the list, and every survivor is on screen (and, for enemies, undefeated) |
| `EntitySweep.SweepBackward` | game_project/js/game.js:517-538 | the backward scroll-and-splice loop produces exactly the reference sweep |
| `EntitySweep.SweepStep` | game_project/js/game.js:518-528 | one loop iteration, whether it keeps or splices element i, leaves the same list as sweeping from i: nothing skipped or visited twice |
| `EntitySweep.SweptAppend` | game_project/js/game.js:517-594 | sweeping distributes over concatenation, so survivors keep their original order |
| `EntitySweep.SweptMembers` | game_project/js/game.js:567-594 | an entity survives iff it is the scrolled copy of some listed entity and is retained |
| `EntitySweep.SweptKeepsAll` | game_project/js/game.js:541-564 | when nothing leaves the screen, the k-th survivor is the k-th entity moved left by the scroll distance |
| `EntitySweep.SweptDropsUnretained` | game_project/js/game.js:574-584 | an off-screen (or defeated enemy) entity is dropped whatever surrounds it |
| `Collisions.HitsObstacle` | game_project/js/game.js:632-639 | the obstacle scan reports a hit iff some obstacle overlaps the player's box |
| `Collisions.UncollectedMembers` | game_project/js/game.js:642-653 | the remaining coins are exactly the coins not touching the player |
| `Collisions.UncollectedCount` | game_project/js/game.js:644-651 | the number of coins removed equals the number of touched coins, counted with repetition |
| `Collisions.UncollectedSubMultiset` | game_project/js/game.js:644-651 | collection only removes coins: every coin occurs at most as often as before |
| `Collisions.CollectCoinsBackward` | game_project/js/game.js:642-653 | the backward coin loop leaves the reference remainder and counts exactly the touched coins |
| `Collisions.ResolveEnemies` | game_project/js/game.js:656-671 | the list keeps its length; the velocity changes only to -6 and only while jumping; the score never drops |
| `Collisions.ResolveEnemiesMarks` | game_project/js/game.js:659-664 | an enemy changes only by being marked defeated, and only if it was undefeated and overlapped the player |
| `Collisions.StompOnFirst` | game_project/js/game.js:659-668 | a stomp on the first enemy marks it, sets velocity -6, adds 100 once, and ends the game iff some later enemy threatens |
| `Collisions.ResolveEnemiesNoThreat` | game_project/js/game.js:656-671 | with no undefeated overlapping enemy, the enemy pass changes nothing and does not end the game |
| `Collisions.ResolveEnemiesRising` | game_project/js/game.js:659-669 | a player not moving down cannot stomp: the pass ends the game iff some enemy threatens, marking nothing |
| `Collisions.ResolveEnemiesFirstThreat` | game_project/js/game.js:656-671 | closed form decided by the first threatening enemy: a stomp marks only it, sets velocity -6 and adds 100, and ends the game iff a later enemy threatens; any other contact ends the game with nothing changed |
| `Collisions.AtMostOneStomp` | game_project/js/game.js:661-668 | one pass defeats at most one enemy and adds the bonus at most once |
| `Collisions.ResolveCollisions` | game_project/js/game.js:622-672 | an obstacle hit only stops the game; otherwise the coins become the reference remainder (exactly the untouched ones), the coin count rises by the number of touched coins, then enemies are resolved; obstacles and canvas are unchanged |
| `GameLoop.ScoreFor` | game_project/js/game.js:683-689 | the score is the greatest integer s with 10s ≤ distance |
| `GameLoop.ScoreForExample` | game_project/js/game.js:685 | a distance of 237 gives a score of 23 |
| `GameLoop.UpdateScore` | game_project/js/game.js:683-689 | only the score changes, to the floor of distance/10 |
| `GameLoop.AdvanceState` | game_project/js/game.js:430-434 | frameCount rises by 1, distance by 5 × the old difficulty, difficulty by exactly 0.0001; nothing else changes |
| `GameLoop.AdvanceTimesClosedForm` | game_project/js/game.js:430-434 | after n frames, frameCount grew by n, difficulty is d + n·0.0001, distance grew by 5(n·d + 0.0001·n(n−1)/2), and nothing else changed |
| `GameLoop.MoveStep` | game_project/js/game.js:373-383 | the state is the advanced counters plus the spawn markers; each list is the spawned list swept at dx = 5 × the increased difficulty; the player is one step of the integrator; flags, coin count, lane, x and canvas are unchanged |
| `GameLoop.Tick` | game_project/js/game.js:363-393 | a frame is a no-op unless running and not paused; otherwise frameCount +1, difficulty +0.0001, distance + 5 × old difficulty, and the score at the end of the frame is floor(distance/10), even after game over or a stomp |
| `GameLoop.PlayerOneLaneLeftOfObstacle` | game_project/js/game.js:102-105 | the player in lane k stands exactly one lane width left of a new obstacle in lane k, because the lane position subtracts half a lane width where the spawner adds it |
| `GameLoop.TickEndsOnObstacleHit` | game_project/js/game.js:631-639 | an obstacle hit ends the game with coins, enemies and player untouched by the collision pass |
| `GameLoop.TickCollectsCoins` | game_project/js/game.js:641-653 | without an obstacle hit, the remaining coins are the reference remainder (exactly the untouched ones, none duplicated) and the coin count rises by the number of touched coins, before enemies are resolved |
| `GameLoop.ResetGame` | game_project/js/game.js:209-226 | a reset world is stopped and unpaused, with zero counters, difficulty 1, empty lists, the player grounded at lane 1's position, and satisfies the invariant |
| `GameLoop.Start` | game_project/js/game.js:183-193 | a start is exactly a reset followed by running := true, so it is fresh, active and satisfies the invariant |
| `GameLoop.TogglePause` | game_project/js/game.js:234-242 | flips only the pause flag, and only while running |
| `GameLoop.Resume` | game_project/js/game.js:251-255 | clears only the pause flag |
| `GameLoop.Quit` | game_project/js/game.js:258-264 | quitting is a reset: stopped, unpaused and fresh |
| `GameLoop.TickPreservesValid` | game_project/js/game.js:363-393 | a frame keeps the lane in range, the player at its lane position and not below the ground, a grounded player at rest, difficulty ≥ 1, score = floor(distance/10) and spawn markers ≤ frameCount |
| `GameLoop.InputPreservesValid` | game_project/js/game.js:288-311 | lane moves, jump, pause toggle and resume keep the invariant |
| `GameLoop.RunPreservesValid` | game_project/js/game.js:363-393 | any number of frames keeps the invariant |
| `GameLoop.ResetThenRunIsIdle` | game_project/js/game.js:209-226 | frames after a reset leave the reset world unchanged (player home, distance 0, score 0) |
| `GameLoop.StoppedGameStaysPut` | game_project/js/game.js:363-365 | once the game is not running, frames change nothing |

## Left out

- Drawing is not modelled: `clearRect`, `drawImage`, `fillRect`, `arc`, the per-entity image fallbacks and the player sprite. They are rendering, not simulation.
- The background parallax scroll and its wrap (game.js:396-427) are not modelled. The scroll only runs once the background image has loaded, so it depends on asset state.
- DOM and UI plumbing is not modelled: `initGame`, `resizeCanvas`, `setupEventListeners`, the `handleKeyDown` key mapping, panel visibility, the custom image handlers and every `textContent` write. This includes the coin count display and the final score shown by `gameOver`. Only their flag effects are kept (`Start`, `TogglePause`, `Resume`, `Quit`).
- `resizeCanvas` also resets the player's position. Because it is not modelled, the canvas size is fixed within a world.
- `requestAnimationFrame` scheduling is not modelled; a run of frames is repeated application of `Tick`. This leaves out the case where pausing and resuming between two frames leaves two loops scheduled.
- The asynchronous image loads and all of game_project/js/customization.js are not modelled. They do not touch game state.
- `Math.random` is replaced by the `Draws` parameter, constrained to what `floor(random·3)` and `random·100` can produce.
- IEEE-754 doubles are replaced by exact rationals.
- The settings `playerSpeed` and `laneWidth` are not modelled. The source never reads them: lane width is always the canvas width divided by the lane count.
- `GameLoop.Tick`: requires difficulty > 0 so that the spawn interval frequency/difficulty is defined. Every world reachable from a reset has difficulty ≥ 1. The JavaScript division by zero for other values is not modelled.
- `Spawner.Spawn`: requires difficulty > 0 for the same reason.
