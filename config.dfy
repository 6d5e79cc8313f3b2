/** Fixed geometry and physics constants of the game (src/main.rs:9-16, 74, 77). */
module Config {
  /** The console is 80 columns by 50 rows. */
  const ScreenWidth: int := 80
  const ScreenHeight: int := 50

  /** Accumulated milliseconds after which the obstacles scroll one column. */
  const FrameDuration: real := 55.0
  /** Gravitational acceleration, in rows per scaled time unit squared. */
  const GravityAccel: real := 0.3
  /** Speed given to a new player and restored by every flap. */
  const InitialSpeed: real := 1.0
  /** Gravity measures elapsed time in units of this many milliseconds. */
  const TimeScale: real := 80.0

  /** Where the player spawns on every new game. */
  const PlayerStartX: int := 40
  const PlayerStartY: int := 25

  /** The random gap centre is drawn from the half-open range [GapLow, GapHigh). */
  const GapLow: int := 10
  const GapHigh: int := 40
  /** The gap height starts at WidestGap and shrinks by one per point, down to NarrowestGap. */
  const WidestGap: int := 20
  const NarrowestGap: int := 2

  /** `i32::max` */
  function Max(a: int, b: int): (m: int)
    ensures m >= a && m >= b
    ensures m == a || m == b
  {
    if a >= b then a else b
  }
}
