/** The obstacle list of the game as a queue: scrolling shifts every obstacle and drops
    the head once it leaves the screen (src/main.rs:108-115); passing the tail scores a
    point and appends a fresh obstacle (src/main.rs:148-151). */
module Queue {
  import opened Config
  import opened Obstacles

  function Last(obs: seq<Obstacle>): (o: Obstacle)
    requires |obs| > 0
  {
    obs[|obs| - 1]
  }

  /** The `iter_mut` loop of `obstacles_move_left`. */
  function ShiftAll(obs: seq<Obstacle>): (r: seq<Obstacle>)
    ensures |r| == |obs|
    ensures forall i :: 0 <= i < |obs| ==> r[i] == obs[i].MovedLeft()
  {
    seq(|obs|, i requires 0 <= i < |obs| => obs[i].MovedLeft())
  }

  /** `obstacles_move_left`: shift every obstacle, then remove the head if it is now
      left of column 0. The source indexes the head, so the list must not be empty.
      At most one obstacle goes, and only when the head's new column is negative. */
  function Scroll(obs: seq<Obstacle>): (r: seq<Obstacle>)
    requires |obs| > 0
    ensures |r| == if obs[0].x < 1 then |obs| - 1 else |obs|
  {
    var shifted := ShiftAll(obs);
    if shifted[0].x < 0 then shifted[1..] else shifted
  }

  /** What remains after a scroll is the shifted list minus at most its head, in the
      same order: the i-th survivor is the shifted (i + removed)-th obstacle. */
  lemma ScrollAt(obs: seq<Obstacle>, i: int)
    requires |obs| > 0 && 0 <= i < |Scroll(obs)|
    ensures Scroll(obs)[i] == obs[i + |obs| - |Scroll(obs)|].MovedLeft()
  {
  }

  /** Score and obstacle list, the part of the game the pass rule changes. */
  datatype Progress = Progress(score: int, obstacles: seq<Obstacle>)

  /** The pass rule of `play`: once the player's column `px` is right of the tail
      obstacle, score a point and append an obstacle at the right edge whose gap
      reflects the new score. */
  function PassRule(px: int, p: Progress, gapY: int): (r: Progress)
    requires |p.obstacles| > 0
    requires GapLow <= gapY < GapHigh
    ensures r.score - p.score == |r.obstacles| - |p.obstacles|
    ensures r.score == p.score || r.score == p.score + 1
    ensures r.obstacles[..|p.obstacles|] == p.obstacles
    ensures r.score == p.score + 1 <==> px > Last(p.obstacles).x
    ensures r.score == p.score + 1 ==> Last(r.obstacles) == New(ScreenWidth, r.score, gapY)
  {
    if px > Last(p.obstacles).x then
      var score := p.score + 1;
      Progress(score, p.obstacles + [New(ScreenWidth, score, gapY)])
    else
      p
  }

  /** Every obstacle is well formed and on screen, and the list is ordered left to right
      (spawn order): strictly increasing columns. */
  predicate Orderly(obs: seq<Obstacle>)
  {
    && |obs| > 0
    && (forall i :: 0 <= i < |obs| ==> WellFormed(obs[i]) && 0 <= obs[i].x <= ScreenWidth)
    && (forall i, j :: 0 <= i < j < |obs| ==> obs[i].x < obs[j].x)
  }

  /** All obstacles but the tail lie left of the player's column `px`. */
  predicate Behind(obs: seq<Obstacle>, px: int)
  {
    forall i :: 0 <= i < |obs| - 1 ==> obs[i].x < px
  }

  /** The queue between frames: ordered, everything but the tail already passed, and the
      tail at or right of the player. */
  predicate Formation(obs: seq<Obstacle>, px: int)
  {
    Orderly(obs) && Behind(obs, px) && px <= Last(obs).x
  }

  /** After a scroll every remaining obstacle is still well formed and on screen: the
      single head removal is enough, since the list is strictly ordered. */
  lemma ScrollStaysOnScreen(obs: seq<Obstacle>)
    requires Orderly(obs)
    ensures forall i :: 0 <= i < |Scroll(obs)| ==>
      WellFormed(Scroll(obs)[i]) && 0 <= Scroll(obs)[i].x <= ScreenWidth
  {
    var r := Scroll(obs);
    var d := |obs| - |r|;
    forall i | 0 <= i < |r|
      ensures WellFormed(r[i]) && 0 <= r[i].x <= ScreenWidth
    {
      ScrollAt(obs, i);
      if i + d > 0 {
        assert obs[0].x < obs[i + d].x;
      }
    }
  }

  /** Scrolling keeps the left-to-right order. */
  lemma ScrollKeepsSorted(obs: seq<Obstacle>)
    requires |obs| > 0
    requires forall i, j :: 0 <= i < j < |obs| ==> obs[i].x < obs[j].x
    ensures forall i, j :: 0 <= i < j < |Scroll(obs)| ==> Scroll(obs)[i].x < Scroll(obs)[j].x
  {
    var r := Scroll(obs);
    forall i, j | 0 <= i < j < |r|
      ensures r[i].x < r[j].x
    {
      ScrollAt(obs, i);
      ScrollAt(obs, j);
    }
  }

  /** Scrolling keeps passed obstacles behind the player's column `px`. */
  lemma ScrollKeepsBehind(obs: seq<Obstacle>, px: int)
    requires |obs| > 0 && Behind(obs, px)
    ensures Behind(Scroll(obs), px)
  {
    var r := Scroll(obs);
    forall i | 0 <= i < |r| - 1
      ensures r[i].x < px
    {
      ScrollAt(obs, i);
    }
  }

  /** Scrolling keeps the queue ordered, non-empty and behind the player, and never
      removes the tail while it is right of column 0. */
  lemma ScrollKeepsOrder(obs: seq<Obstacle>, px: int)
    requires Orderly(obs) && Behind(obs, px)
    requires Last(obs).x >= 1
    ensures Orderly(Scroll(obs)) && Behind(Scroll(obs), px)
    ensures Last(Scroll(obs)) == Last(obs).MovedLeft()
  {
    ScrollStaysOnScreen(obs);
    ScrollKeepsSorted(obs);
    ScrollKeepsBehind(obs, px);
  }

  /** The pass rule restores the formation: afterwards the tail is at or right of the
      player, and every other obstacle is behind. */
  lemma PassRestoresFormation(px: int, p: Progress, gapY: int)
    requires Orderly(p.obstacles) && Behind(p.obstacles, px) && p.score >= 0
    requires px <= ScreenWidth
    requires GapLow <= gapY < GapHigh
    ensures Formation(PassRule(px, p, gapY).obstacles, px)
    ensures PassRule(px, p, gapY).score >= 0
  {
    var r := PassRule(px, p, gapY);
    if r.score == p.score + 1 {
      NewIsWellFormed(ScreenWidth, r.score, gapY);
      assert r.obstacles == p.obstacles + [New(ScreenWidth, r.score, gapY)];
    }
  }

  /** One frame of `play` on the queue: scroll when due, then the pass rule. A queue in
      formation stays in formation, so the `unwrap` of the tail never fails. */
  lemma FrameKeepsFormation(obs: seq<Obstacle>, score: int, px: int, due: bool, gapY: int)
    requires Formation(obs, px) && 1 <= px <= ScreenWidth && score >= 0
    requires GapLow <= gapY < GapHigh
    ensures var moved := if due then Scroll(obs) else obs;
            && |moved| > 0
            && Formation(PassRule(px, Progress(score, moved), gapY).obstacles, px)
  {
    if due {
      ScrollKeepsOrder(obs, px);
    }
    var moved := if due then Scroll(obs) else obs;
    PassRestoresFormation(px, Progress(score, moved), gapY);
  }

  /** Only the tail can share the player's column, so testing the tail alone for a
      collision is the same as testing every obstacle. */
  lemma TailCheckSuffices(obs: seq<Obstacle>, px: int, py: int)
    requires |obs| > 0 && Behind(obs, px)
    ensures Hit(Last(obs), px, py) <==> exists i :: 0 <= i < |obs| && Hit(obs[i], px, py)
  {
    if exists i :: 0 <= i < |obs| && Hit(obs[i], px, py) {
      var i :| 0 <= i < |obs| && Hit(obs[i], px, py);
      assert i == |obs| - 1;
    } else {
      assert !Hit(obs[|obs| - 1], px, py);
    }
  }

  /** `n` scroll steps (stopping early if the queue empties). */
  function ScrollTimes(obs: seq<Obstacle>, n: nat): (r: seq<Obstacle>)
    decreases n
  {
    if n == 0 || |obs| == 0 then obs else ScrollTimes(Scroll(obs), n - 1)
  }

  /** A lone obstacle at column x drifts to column x - n after n scroll steps for
      n <= x: a new obstacle at the right edge reaches the player's column after 40. */
  lemma {:induction false} LoneObstacleDrifts(o: Obstacle, n: nat)
    requires n <= o.x
    ensures ScrollTimes([o], n) == [o.(x := o.x - n)]
    decreases n
  {
    if n > 0 {
      var moved := o.(x := o.x - 1);
      ScrollAt([o], 0);
      assert Scroll([o]) == [moved];
      assert ScrollTimes([o], n) == ScrollTimes([moved], n - 1);
      LoneObstacleDrifts(moved, n - 1);
    }
  }

  /** A new obstacle at the right edge reaches the player's column after exactly
      ScreenWidth - PlayerStartX = 40 scroll steps, and is passed after one more. */
  lemma NewObstacleReachesPlayer(score: int, gapY: int)
    requires GapLow <= gapY < GapHigh
    ensures var o := New(ScreenWidth, score, gapY);
            ScrollTimes([o], ScreenWidth - PlayerStartX) == [o.(x := PlayerStartX)]
    ensures var o := New(ScreenWidth, score, gapY);
            ScrollTimes([o], ScreenWidth - PlayerStartX + 1) == [o.(x := PlayerStartX - 1)]
  {
    LoneObstacleDrifts(New(ScreenWidth, score, gapY), ScreenWidth - PlayerStartX);
    LoneObstacleDrifts(New(ScreenWidth, score, gapY), ScreenWidth - PlayerStartX + 1);
  }
}
