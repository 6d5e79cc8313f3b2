/** The bird: a fixed column, a row that gravity and flaps move, and a vertical
    speed (src/main.rs:18-59). */
module Players {
  import opened Config

  /** Rust's `as i32` on a float: truncation toward zero. */
  function Trunc(r: real): (n: int)
    ensures 0.0 <= r ==> n as real <= r < n as real + 1.0
    ensures r < 0.0 ==> n as real - 1.0 < r <= n as real
  {
    if r >= 0.0 then r.Floor else -((-r).Floor)
  }

  /** The whole rows fallen in `elapsedMs` milliseconds at speed `speed`:
      speed * t + GravityAccel * t * t / 2 with t = elapsedMs / TimeScale, truncated. */
  function Displacement(speed: real, elapsedMs: real): (dy: int)
    ensures var t := elapsedMs / TimeScale;
            var len := speed * t + 0.5 * GravityAccel * t * t;
            && (0.0 <= len ==> 0 <= dy && dy as real <= len < dy as real + 1.0)
            && (len < 0.0 ==> dy <= 0 && dy as real - 1.0 < len <= dy as real)
  {
    var t := elapsedMs / TimeScale;
    Trunc(speed * t + 0.5 * GravityAccel * t * t)
  }

  /** The row after moving `dy` rows from `y`, clamped at the top of the screen. */
  function Fall(y: int, dy: int): (r: int)
    ensures r >= 0
    ensures y + dy >= 0 ==> r == y + dy
    ensures y + dy < 0 ==> r == 0
  {
    if y + dy < 0 then 0 else y + dy
  }

  class Player {
    var x: int
    var y: int
    var speed: real

    /** `Player::new` */
    constructor (x0: int, y0: int)
      ensures x == x0 && y == y0 && speed == InitialSpeed
    {
      x, y, speed := x0, y0, InitialSpeed;
    }

    /** `flap`: two rows up and back to the initial speed, whatever came before. */
    method Flap()
      modifies this
      ensures x == old(x)
      ensures y == old(y) - 2
      ensures speed == InitialSpeed
    {
      y := y - 2;
      speed := InitialSpeed;
    }

    /** `gravity`: move by the kinematic displacement, never above row 0, then
        accelerate. */
    method ApplyGravity(elapsedMs: real)
      modifies this
      ensures x == old(x)
      ensures y >= 0
      ensures y == Fall(old(y), Displacement(old(speed), elapsedMs))
      ensures speed == old(speed) + GravityAccel * (elapsedMs / TimeScale)
    {
      var t := elapsedMs / TimeScale;
      var newSpeed := speed + GravityAccel * t;
      y := y + Displacement(speed, elapsedMs);
      if y < 0 {
        y := 0;
      }
      speed := newSpeed;
    }
  }
}
