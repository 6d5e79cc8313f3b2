# Flappy Bird game state, in Dafny

A model of the game logic of a terminal Flappy Bird clone written in Rust with
`bracket-lib` (`src/main.rs`). The player is a bird in a fixed column. Gravity pulls it
down and Space makes it flap two rows up. Walls with one gap scroll in from the right
edge. Passing a wall scores a point and spawns the next wall, whose gap is one row
narrower, down to two rows. Falling below row 50 (row 50 itself is off screen but does
not end the game) or hitting the newest wall ends the game. A small state machine
(menu, playing, end) handles P (play again) and Q (quit).

Modules, one per component of `src/main.rs`:

- `Config` (`config.dfy`): the constants (80 x 50 screen, 55 ms scroll step, gravity
  0.3, initial speed 1.0, spawn point (40, 25), gap range [10, 40), gap sizes 20 down to 2).
- `Obstacles` (`obstacle.dfy`): the `Obstacle` value, `Obstacle::new` as `New`,
  `move_left` as `MovedLeft`, `hit_obstacle` as `Hit`, the wall rows drawn by `render`
  as `PaintedAt`.
- `Players` (`player.dfy`): the `Player` class with `Flap` and `ApplyGravity`, which
  update it in place.
- `Queue` (`queue.dfy`): the `Vec<Obstacle>` used as a queue. It has the scroll of
  `obstacles_move_left` (`Scroll`) and the pass rule of `play` (`PassRule`) as pure
  functions. The invariant `Formation` says the list is non-empty, ordered left to right,
  on screen and well formed, with every obstacle but the tail behind the player and the
  tail at or right of the player. Lemmas show that each frame keeps this invariant.
- `Game` (`game.dfy`): `GameMode` as `Mode` and the `State` class with `restart`,
  `main_menu`, `dead`, `game_over`, `obstacles_move_left`, `play` and `tick`. Each method
  changes the fields in place and is proved against the functions of `Queue`, `Obstacles`
  and `Players`.

The invariant `State.Valid()` holds between frames in every mode. The player stays in
column 40 and the obstacle list is in formation. So the list is never empty, and the
`unwrap()` calls on its tail in `play` (src/main.rs:140 and :148) never fail. So does
`remove(0)` after `[0]` in `obstacles_move_left`. `Play` requires `Valid()` and ensures it.

Facts proved about the queue:
- A scroll moves every obstacle exactly one column left and keeps its gap. At most one
  obstacle goes, only the head, and only when its new column is negative. The survivors
  keep their order (`Scroll`, `ScrollAt`).
- Thanks to the strict left-to-right order, that single head removal keeps every
  obstacle on screen (`ScrollStaysOnScreen`).
- The pass rule adds exactly one point and appends exactly one obstacle at column 80,
  sized for the new score. Otherwise it changes nothing. The points scored equal the
  obstacles appended (`PassRule`).
- Only the tail can share the player's column, so testing the tail alone for a
  collision misses nothing (`TailCheckSuffices`, `LostMissesNothing`): the other
  obstacles are never checked for a collision, and never need to be.

Three behaviours of the code that a quick reading can miss, all modelled:
- When the player loses, `game_over` runs the end screen's key handling in the same
  frame, so a P held in that frame restarts the game at once (`CheckLoss`, `GameOver`).
- `play` still applies the pass rule after a loss in that frame (`Play`).
- The screen's rows are 0 to 49, but the loss test is `player.y > SCREEN_HEIGHT`: a bird
  on row 50 is off screen and still playing, and can flap back up (`Lost`).

The drawn gap and the collision-free band are one row apart. The row `gapY + size/2` is
painted as wall, but the player can fly through it (`WallRowWithoutHit`).

Inputs of a frame are parameters: the key pressed (`Key`), the elapsed milliseconds
`elapsedMs`, and `gapY`, the value the random generator would return for a new
obstacle. At most one obstacle is created per frame, so one value suffices. After a
restart caused by P in the frame of a loss, the pass rule cannot fire, since the new
tail is at column 80. The quit request (`ctx.quitting = true`) is the returned
`quit` flag.

## Model

| member | source | states |
|---|---|---|
| `Config.Max` | src/main.rs:204 | `i32::max`: the result is at least both arguments and equals one of them |
| `Obstacles.Obstacle.MovedLeft` | src/main.rs:241-243 | `move_left` moves the obstacle exactly one column left and keeps gap centre and size |
| `Obstacles.Half` | src/main.rs:210 | `size / 2` on `i32` truncates toward zero: remainder 0 or 1 for non-negative sizes, 0 or -1 for negative ones |
| `Obstacles.New` | src/main.rs:199-205 | a new obstacle is in the given column, with the drawn gap centre and size `max(2, 20 - score)`, so at least 2, and at most 20 for a non-negative score |
| `Obstacles.GapNarrowsWithScore` | src/main.rs:204 | a higher score never gives a wider gap, and up to a score of 18 each point removes exactly one row |
| `Obstacles.NewIsWellFormed` | src/main.rs:199-231 | an obstacle built for a non-negative score has its whole collision-free band on screen and always paints the bottom row as wall |
| `Obstacles.Hit` | src/main.rs:233-239 | `hit_obstacle` holds exactly when the player is in the obstacle's column and its row lies strictly outside [gapY - size/2, gapY + size/2], with truncating division |
| `Obstacles.PaintedAt` | src/main.rs:208-231 | the rows `render` paints as wall are never inside the drawn gap [gapY - size/2, gapY + size/2), and every on-screen row outside that gap is painted |
| `Obstacles.HitMatchesWalls` | src/main.rs:208-239 | on every screen row except `gapY + size/2`, `hit_obstacle` in the wall's column holds exactly when `render` paints that row as wall |
| `Obstacles.WallRowWithoutHit` | src/main.rs:222-237 | the row `gapY + size/2` is painted as wall but does not count as a hit |
| `Players.Trunc` | src/main.rs:53 | `len as i32`: truncation toward zero, within one row of the real value and on the zero side of it |
| `Players.Displacement` | src/main.rs:50-53 | the rows moved in one frame are the kinematic distance `speed * t + 0.15 * t * t` (t = elapsed / 80) truncated toward zero: within one row of it and on the zero side |
| `Players.Fall` | src/main.rs:53-56 | the row after the displacement is never negative, and equals `y + dy` unless that is above the top, where it is 0 |
| `Players.Player.constructor` | src/main.rs:25-32 | a new player is at the given column and row with the initial speed |
| `Players.Player.Flap` | src/main.rs:44-47 | `flap` lowers the row number by exactly 2 and resets the speed to 1.0 whatever came before; the column is unchanged |
| `Players.Player.ApplyGravity` | src/main.rs:49-58 | `gravity` moves the row by the truncated kinematic displacement and clamps it at 0, so the row is never negative; the speed grows by `0.3 * elapsed / 80`; the column is unchanged |
| `Queue.ShiftAll` | src/main.rs:109-111 | the `iter_mut` loop keeps the length and moves every obstacle one column left |
| `Queue.Scroll` | src/main.rs:108-115 | `obstacles_move_left` drops at most one obstacle, exactly when the head's new column is negative |
| `Queue.ScrollAt` | src/main.rs:108-115 | the survivors of a scroll are the shifted obstacles in their old order, minus at most the head |
| `Queue.PassRule` | src/main.rs:148-151 | the pass rule fires exactly when the player's column is right of the tail; it then adds one point and appends `Obstacle::new(80, score)` for the new score, keeping the old list as a prefix; otherwise nothing changes |
| `Queue.ScrollStaysOnScreen` | src/main.rs:108-115 | after a scroll of an ordered on-screen list, every remaining obstacle is still on screen and well formed |
| `Queue.ScrollKeepsSorted` | src/main.rs:108-115 | a scroll keeps the strict left-to-right order of the obstacles |
| `Queue.ScrollKeepsBehind` | src/main.rs:108-115 | a scroll keeps every obstacle but the tail left of the player |
| `Queue.ScrollKeepsOrder` | src/main.rs:108-115 | a scroll of an ordered list whose tail is right of column 0 leaves an ordered, non-empty list whose tail is the old tail moved left |
| `Queue.PassRestoresFormation` | src/main.rs:148-151 | after the pass rule the tail is at or right of the player, everything else is behind it, and the list is still ordered |
| `Queue.FrameKeepsFormation` | src/main.rs:129-151 | a frame of `play` on a list in formation, scrolling or not, keeps the list non-empty at the tail checks and leaves it in formation |
| `Queue.TailCheckSuffices` | src/main.rs:140 | when all but the tail are behind the player, the tail is hit exactly when some obstacle is hit |
| `Queue.LoneObstacleDrifts` | src/main.rs:108-115 | a lone obstacle at column x is at column x - n after n scroll steps (n <= x) |
| `Queue.NewObstacleReachesPlayer` | src/main.rs:108-115 | a lone obstacle spawned at the right edge is in the player's column 40 after exactly 40 scroll steps, and left of it after 41 |
| `Game.Lost` | src/main.rs:140 | the loss test holds whenever the player is below row 50, and otherwise exactly when the tail obstacle hits the player; it never holds for a player on screen outside the tail's column |
| `Game.LostMissesNothing` | src/main.rs:140-143 | the loss test (below the screen, or hitting the tail) equals "below the screen, or hitting any obstacle" on a queue in formation |
| `Game.State.constructor` | src/main.rs:71-79 | the game starts in the menu, player at (40, 25) with speed 1.0, time 0, score 0, one obstacle at column 80 |
| `Game.State.Restart` | src/main.rs:80-86 | `restart` enters Playing with player (40, 25) and speed 1.0, time 0, score 0, and exactly one obstacle, at column 80 with gap size 20, from any state |
| `Game.State.HandleKey` | src/main.rs:99-105 | P restarts, Q only sets the quit flag, any other key changes nothing |
| `Game.State.MainMenu` | src/main.rs:93-106 | the menu stays in Menu and changes nothing except on P (restart); Q only asks to quit |
| `Game.State.Dead` | src/main.rs:154-169 | the end screen stays in End and changes nothing except on P (restart); Q only asks to quit |
| `Game.State.GameOver` | src/main.rs:88-91 | `game_over` enters End and handles the frame's key at once |
| `Game.State.ObstaclesMoveLeft` | src/main.rs:108-115 | the in-place loop and the head removal leave exactly `Scroll` of the old list |
| `Game.State.AdvanceClock` | src/main.rs:127-132 | the elapsed time accumulates; when it exceeds 55 ms it is reset to 0 and the obstacles scroll once |
| `Game.State.MovePlayer` | src/main.rs:133-136 | Space flaps before gravity, so the flap's speed reset is used by the same frame's gravity |
| `Game.State.CheckLoss` | src/main.rs:140-143 | a player below row 50 or hitting the tail obstacle ends the game, with P restarting and Q quitting at once; otherwise nothing changes |
| `Game.State.PassObstacle` | src/main.rs:148-151 | the fields change exactly as `PassRule` says |
| `Game.State.Play` | src/main.rs:123-152 | one frame (`PlayedFrame`): the new clock, obstacles, player row and speed, mode, score and quit flag as a function of the old state and the inputs; the state invariant (non-empty ordered queue, player in column 40) is kept |
| `Game.State.Tick` | src/main.rs:174-186 | dispatch on the mode: menu and end screen restart on P, only quit on Q and change nothing on other keys; from Playing the new state is exactly the frame `Play` describes (`PlayedFrame`), so the mode is Playing or End and the score grows by at most one or a new game starts; the invariant is kept |

## Left out

- Floating point: `speed` and `frame_time` are `f32` in the source and exact `real`s in the
  model. f32 rounding, and the saturation of `as i32` for huge values, are not modelled.
- `Players.Player.ApplyGravity`: does not model f32 rounding of the displacement
  `speed * t + 0.15 * t * t`, which is computed exactly and then truncated.
- `Game.State.AdvanceClock`: compares exact real sums with 55.0, so a frame where f32
  accumulation rounds across the threshold scrolls at a different time than the source.
- 32-bit integers: `score`, rows and columns are unbounded `int`s. `score += 1` and
  `y += len` cannot overflow in the model. In the source they could only overflow after
  billions of points or rows.
- `RandomNumberGenerator` (src/main.rs:200-203) is a library call; its result is the
  `gapY` parameter, required to lie in [10, 40) as the generator's range promises.
- All drawing and text: `ctx.cls`, `cls_bg`, `print`, `print_centered`, `set`,
  `Player::render` and `render_obstacles`. For `Obstacle::render`, only which rows it
  paints is modelled (`PaintedAt`).
- `main`, `BTermBuilder` and `main_loop` (src/main.rs:246-251): window setup and the
  frame loop that calls `tick`.
- `ctx.quitting` is the `quit` result of the methods. The exit itself is done by the
  library.
- `Obstacle` is a value inside the `seq` field. `move_left` on an element is modelled
  by replacing that element with `MovedLeft()`. The Rust `Vec` owns its obstacles, so
  no aliasing is lost.
- `hit_obstacle` takes the player's column and row rather than a `Player`.
- The frame's elapsed time is the `elapsedMs` parameter. The source reads it from
  `ctx.frame_time_ms`.
- Q does not exit the process by itself: the code only sets `ctx.quitting`, which the
  model returns as `quit`.
