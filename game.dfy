/** The game state machine: menu, play and end screens, and the per-frame `tick`
    (src/main.rs:3-7, 61-187). */
module Game {
  import opened Config
  import opened Obstacles
  import opened Players
  import opened Queue

  datatype Mode = Menu | Playing | End

  /** The key pressed this frame, if any: the keys the game reacts to, and every
      other key as `Other`. */
  datatype Key = NoKey | Space | P | Q | Other

  /** A collision ends the game when the player falls below row 50 (row 50 itself is
      off screen but does not end the game) or hits the tail obstacle, the only one
      `play` tests. */
  predicate Lost(obs: seq<Obstacle>, px: int, py: int): (lost: bool)
    requires |obs| > 0
    ensures py > ScreenHeight ==> lost
    ensures lost ==> py > ScreenHeight || px == Last(obs).x
    ensures py <= ScreenHeight ==> (lost <==> Hit(Last(obs), px, py))
  {
    py > ScreenHeight || Hit(Last(obs), px, py)
  }

  /** The loss test of `play` misses no collision: on a queue whose passed obstacles
      are behind the player, it is the same as testing every obstacle. */
  lemma LostMissesNothing(obs: seq<Obstacle>, px: int, py: int)
    requires |obs| > 0 && Behind(obs, px)
    ensures Lost(obs, px, py) <==>
      py > ScreenHeight || exists i :: 0 <= i < |obs| && Hit(obs[i], px, py)
  {
    TailCheckSuffices(obs, px, py);
  }

  class State {
    var mode: Mode
    var player: Player
    /** Milliseconds accumulated since the last scroll step. */
    var frameTime: real
    var score: int
    /** The obstacles in spawn order; the head is the leftmost, the tail the newest. */
    var obstacles: seq<Obstacle>

    /** Holds between frames in every mode: the player stays in its column and the
        obstacle queue is in formation, so it is never empty. */
    ghost predicate Valid()
      reads this, player
    {
      && player.x == PlayerStartX
      && score >= 0
      && Formation(obstacles, player.x)
    }

    /** The state `restart` leaves, with `gapY` as the new obstacle's gap centre. */
    ghost predicate NewGame(gapY: int)
      reads this, player
    {
      && GapLow <= gapY < GapHigh
      && mode == Playing
      && player.x == PlayerStartX && player.y == PlayerStartY && player.speed == InitialSpeed
      && frameTime == 0.0
      && score == 0
      && obstacles == [New(ScreenWidth, 0, gapY)]
    }

    /** `State::new`: the menu, with a player and one obstacle at the right edge. */
    constructor (gapY: int)
      requires GapLow <= gapY < GapHigh
      ensures Valid() && fresh(player)
      ensures mode == Menu
      ensures player.x == PlayerStartX && player.y == PlayerStartY && player.speed == InitialSpeed
      ensures frameTime == 0.0 && score == 0
      ensures obstacles == [New(ScreenWidth, 0, gapY)]
    {
      mode := Menu;
      player := new Player(PlayerStartX, PlayerStartY);
      frameTime := 0.0;
      score := 0;
      obstacles := [New(ScreenWidth, 0, gapY)];
    }

    /** `restart`: a new game, whatever the state before. */
    method Restart(gapY: int)
      requires GapLow <= gapY < GapHigh
      modifies this
      ensures NewGame(gapY) && Valid() && fresh(player)
      ensures |obstacles| == 1 && obstacles[0].x == ScreenWidth && obstacles[0].size == WidestGap
    {
      mode := Playing;
      player := new Player(PlayerStartX, PlayerStartY);
      frameTime := 0.0;
      score := 0;
      obstacles := [New(ScreenWidth, 0, gapY)];
    }

    /** The key handling shared by the menu and the end screen: P restarts, Q asks
        to quit, anything else does nothing. */
    method HandleKey(key: Key, gapY: int) returns (quit: bool)
      requires GapLow <= gapY < GapHigh
      modifies this
      ensures quit == (key == Q)
      ensures key == P ==> NewGame(gapY) && Valid() && fresh(player)
      ensures key != P ==> && mode == old(mode) && player == old(player)
                           && frameTime == old(frameTime) && score == old(score)
                           && obstacles == old(obstacles)
    {
      quit := false;
      match key {
        case P => Restart(gapY);
        case Q => quit := true;
        case _ =>
      }
    }

    /** `main_menu` */
    method MainMenu(key: Key, gapY: int) returns (quit: bool)
      requires GapLow <= gapY < GapHigh
      modifies this
      ensures quit == (key == Q)
      ensures key == P ==> NewGame(gapY) && Valid() && fresh(player)
      ensures key != P ==> && mode == Menu && player == old(player)
                           && frameTime == old(frameTime) && score == old(score)
                           && obstacles == old(obstacles)
    {
      mode := Menu;
      quit := HandleKey(key, gapY);
    }

    /** `dead`: the end screen. */
    method Dead(key: Key, gapY: int) returns (quit: bool)
      requires GapLow <= gapY < GapHigh
      modifies this
      ensures quit == (key == Q)
      ensures key == P ==> NewGame(gapY) && Valid() && fresh(player)
      ensures key != P ==> && mode == End && player == old(player)
                           && frameTime == old(frameTime) && score == old(score)
                           && obstacles == old(obstacles)
    {
      mode := End;
      quit := HandleKey(key, gapY);
    }

    /** `game_over`: enter the end screen and handle this frame's key at once. */
    method GameOver(key: Key, gapY: int) returns (quit: bool)
      requires GapLow <= gapY < GapHigh
      modifies this
      ensures quit == (key == Q)
      ensures key == P ==> NewGame(gapY) && Valid() && fresh(player)
      ensures key != P ==> && mode == End && player == old(player)
                           && frameTime == old(frameTime) && score == old(score)
                           && obstacles == old(obstacles)
    {
      mode := End;
      quit := Dead(key, gapY);
    }

    /** `obstacles_move_left`: shift every obstacle one column left, then drop the head
        if it has left the screen. */
    method ObstaclesMoveLeft()
      requires |obstacles| > 0
      modifies this`obstacles
      ensures obstacles == Scroll(old(obstacles))
    {
      var i := 0;
      while i < |obstacles|
        invariant 0 <= i <= |obstacles| == |old(obstacles)|
        invariant forall k :: 0 <= k < i ==> obstacles[k] == old(obstacles)[k].MovedLeft()
        invariant forall k :: i <= k < |obstacles| ==> obstacles[k] == old(obstacles)[k]
      {
        obstacles := obstacles[i := obstacles[i].MovedLeft()];
        i := i + 1;
      }
      assert obstacles == ShiftAll(old(obstacles));
      if obstacles[0].x < 0 {
        obstacles := obstacles[1..];
      }
    }

    /** The first half of `play`: accumulate the elapsed time and, once more than
        FrameDuration has accumulated, reset it and scroll the obstacles. */
    method AdvanceClock(elapsedMs: real)
      requires frameTime + elapsedMs > FrameDuration ==> |obstacles| > 0
      modifies this`frameTime, this`obstacles
      ensures var due := old(frameTime) + elapsedMs > FrameDuration;
              && frameTime == (if due then 0.0 else old(frameTime) + elapsedMs)
              && obstacles == (if due then Scroll(old(obstacles)) else old(obstacles))
    {
      frameTime := frameTime + elapsedMs;
      if frameTime > FrameDuration {
        frameTime := 0.0;
        ObstaclesMoveLeft();
      }
    }

    /** The pass rule at the end of `play`. */
    method PassObstacle(gapY: int)
      requires |obstacles| > 0
      requires GapLow <= gapY < GapHigh
      modifies this`score, this`obstacles
      ensures Progress(score, obstacles) == PassRule(player.x, Progress(old(score), old(obstacles)), gapY)
    {
      if player.x > obstacles[|obstacles| - 1].x {
        score := score + 1;
        obstacles := obstacles + [New(ScreenWidth, score, gapY)];
      }
    }

    /** The player's move in `play`: flap on Space, then gravity. */
    method MovePlayer(key: Key, elapsedMs: real)
      modifies player
      ensures var speed := if key == Space then InitialSpeed else old(player.speed);
              && player.x == old(player.x)
              && player.y == Fall(if key == Space then old(player.y) - 2 else old(player.y),
                                  Displacement(speed, elapsedMs))
              && player.speed == speed + GravityAccel * (elapsedMs / TimeScale)
    {
      if key == Space {
        player.Flap();
      }
      player.ApplyGravity(elapsedMs);
    }

    /** The loss test in `play`: below the screen or hitting the tail obstacle ends the
        game, and `game_over` handles this frame's key at once. */
    method CheckLoss(key: Key, gapY: int) returns (quit: bool)
      requires |obstacles| > 0
      requires GapLow <= gapY < GapHigh
      modifies this
      ensures var lost := Lost(old(obstacles), old(player.x), old(player.y));
              && quit == (lost && key == Q)
              && (lost && key == P ==> NewGame(gapY) && Valid() && fresh(player))
              && (!(lost && key == P) ==>
                    && mode == (if lost then End else old(mode)) && player == old(player)
                    && frameTime == old(frameTime) && score == old(score)
                    && obstacles == old(obstacles))
    {
      quit := false;
      if player.y > ScreenHeight || Hit(obstacles[|obstacles| - 1], player.x, player.y) {
        quit := GameOver(key, gapY);
      }
    }

    /** The state after one frame of `play` from the state before it, with `quit` the
        quit request of that frame: the clock and the scroll, the player's flap and fall,
        the loss test with the end screen's key handling, and the pass rule. */
    twostate predicate PlayedFrame(key: Key, elapsedMs: real, gapY: int, quit: bool)
      reads this, player
    {
      && GapLow <= gapY < GapHigh
      && |old(obstacles)| > 0
      && var due := old(frameTime) + elapsedMs > FrameDuration;
         var moved := if due then Scroll(old(obstacles)) else old(obstacles);
         var speed := if key == Space then InitialSpeed else old(player.speed);
         var row := Fall(if key == Space then old(player.y) - 2 else old(player.y),
                         Displacement(speed, elapsedMs));
         && |moved| > 0
         && var lost := Lost(moved, old(player.x), row);
         && quit == (lost && key == Q)
         && (lost && key == P ==> NewGame(gapY) && fresh(player))
         && (!(lost && key == P) ==>
               && player == old(player)
               && player.x == old(player.x) && player.y == row
               && player.speed == speed + GravityAccel * (elapsedMs / TimeScale)
               && frameTime == (if due then 0.0 else old(frameTime) + elapsedMs)
               && mode == (if lost then End else old(mode))
               && Progress(score, obstacles) == PassRule(player.x, Progress(old(score), moved), gapY))
    }

    /** `play`: one frame of the game. Scroll when enough time has accumulated, flap on
        Space, apply gravity, end the game on a collision (handling the key at once,
        so P restarts in the same frame), then apply the pass rule. */
    method Play(key: Key, elapsedMs: real, gapY: int) returns (quit: bool)
      requires Valid()
      requires GapLow <= gapY < GapHigh
      modifies this, player
      ensures Valid()
      ensures PlayedFrame(key, elapsedMs, gapY, quit)
    {
      ghost var due := frameTime + elapsedMs > FrameDuration;
      FrameKeepsFormation(obstacles, score, player.x, due, gapY);
      AdvanceClock(elapsedMs);
      MovePlayer(key, elapsedMs);
      quit := CheckLoss(key, gapY);
      PassObstacle(gapY);
    }

    /** `tick`: dispatch on the mode. Returns whether the player asked to quit. */
    method Tick(key: Key, elapsedMs: real, gapY: int) returns (quit: bool)
      requires Valid()
      requires GapLow <= gapY < GapHigh
      modifies this, player
      ensures Valid()
      ensures quit == (key == Q && (old(mode) != Playing || mode == End))
      ensures old(mode) != Playing && key == P ==> NewGame(gapY) && fresh(player)
      ensures old(mode) != Playing && key != P ==>
                && mode == old(mode) && player == old(player) && unchanged(player)
                && frameTime == old(frameTime) && score == old(score)
                && obstacles == old(obstacles)
      ensures old(mode) == Playing ==> PlayedFrame(key, elapsedMs, gapY, quit)
      ensures old(mode) == Playing ==> mode != Menu
      ensures old(mode) == Playing ==> score == old(score) || score == old(score) + 1 || NewGame(gapY)
    {
      match mode {
        case Menu => quit := MainMenu(key, gapY);
        case Playing => quit := Play(key, elapsedMs, gapY);
        case End => quit := GameOver(key, gapY);
      }
    }
  }
}
