/** A scrolling wall with one passable gap (src/main.rs:189-244). */
module Obstacles {
  import opened Config

  /** Column `x`, gap centre row `gapY`, gap height `size`. */
  datatype Obstacle = Obstacle(x: int, gapY: int, size: int)
  {
    /** `move_left`: one column to the left, gap unchanged. */
    function MovedLeft(): (o: Obstacle)
      ensures o.x == x - 1 && o.gapY == gapY && o.size == size
    {
      this.(x := x - 1)
    }
  }

  /** `size / 2` on `i32`, which truncates toward zero (unlike Dafny's Euclidean `/`). */
  function Half(size: int): (h: int)
    ensures size >= 0 ==> 0 <= size - 2 * h <= 1
    ensures size < 0 ==> -1 <= size - 2 * h <= 0
  {
    if size >= 0 then size / 2 else -((-size) / 2)
  }

  /** `Obstacle::new(x, score)`, with the random gap centre passed in as `gapY`. */
  function New(x: int, score: int, gapY: int): (o: Obstacle)
    requires GapLow <= gapY < GapHigh
    ensures o.x == x && o.gapY == gapY
    ensures o.size == Max(NarrowestGap, WidestGap - score)
    ensures o.size >= NarrowestGap
    ensures score >= 0 ==> o.size <= WidestGap
  {
    Obstacle(x, gapY, Max(NarrowestGap, WidestGap - score))
  }

  /** The shape every obstacle the game creates has (for a non-negative score). */
  predicate WellFormed(o: Obstacle)
  {
    GapLow <= o.gapY < GapHigh && NarrowestGap <= o.size <= WidestGap
  }

  /** `hit_obstacle`: the player shares the column and is strictly outside the band
      [gapY - size/2, gapY + size/2]. */
  predicate Hit(o: Obstacle, px: int, py: int): (hit: bool)
    ensures hit <==> px == o.x && !(o.gapY - Half(o.size) <= py <= o.gapY + Half(o.size))
  {
    var half := Half(o.size);
    px == o.x && (py < o.gapY - half || py > o.gapY + half)
  }

  /** `render` paints row `y` of column `x` as wall: y lies in
      [0, gapY - size/2) or in [gapY + size/2, ScreenHeight). */
  predicate PaintedAt(o: Obstacle, y: int): (painted: bool)
    ensures painted ==> !(o.gapY - Half(o.size) <= y < o.gapY + Half(o.size))
    ensures 0 <= y < ScreenHeight && !(o.gapY - Half(o.size) <= y < o.gapY + Half(o.size)) ==> painted
  {
    var half := Half(o.size);
    (0 <= y < o.gapY - half) || (o.gapY + half <= y < ScreenHeight)
  }

  /** Each point scored narrows the next gap by one row until it reaches two rows. */
  lemma GapNarrowsWithScore(s1: int, s2: int, gapY: int)
    requires GapLow <= gapY < GapHigh
    requires s1 <= s2
    ensures New(0, s2, gapY).size <= New(0, s1, gapY).size
    ensures s2 <= WidestGap - NarrowestGap ==> New(0, s2, gapY).size == New(0, s1, gapY).size - (s2 - s1)
  {
  }

  /** An obstacle built for a non-negative score is well formed: its gap lies on the
      screen and leaves at least one wall row below it. */
  lemma NewIsWellFormed(x: int, score: int, gapY: int)
    requires GapLow <= gapY < GapHigh && score >= 0
    ensures WellFormed(New(x, score, gapY))
    ensures 0 <= gapY - Half(New(x, score, gapY).size)
    ensures gapY + Half(New(x, score, gapY).size) < ScreenHeight
    ensures PaintedAt(New(x, score, gapY), ScreenHeight - 1)
  {
  }

  /** On screen, a collision and a painted wall cell agree on every row except the
      row gapY + size/2. */
  lemma HitMatchesWalls(o: Obstacle, py: int)
    requires 0 <= py < ScreenHeight
    requires py != o.gapY + Half(o.size)
    ensures Hit(o, o.x, py) <==> PaintedAt(o, py)
  {
  }

  /** The row gapY + size/2 is painted as wall but lets the player through. */
  lemma WallRowWithoutHit(o: Obstacle)
    requires o.size >= 0
    requires 0 <= o.gapY + Half(o.size) < ScreenHeight
    ensures PaintedAt(o, o.gapY + Half(o.size))
    ensures !Hit(o, o.x, o.gapY + Half(o.size))
  {
  }
}
