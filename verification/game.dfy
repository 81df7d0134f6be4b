/** One frame of the game as a pure world-to-world step, the game's state
    transitions (start, pause, resume, quit), and the invariant every
    reachable world keeps. */
module GameLoop {
  import opened Settings
  import opened Geometry
  import opened WorldState
  import opened PlayerMotion
  import opened Spawner
  import opened EntitySweep
  import opened Collisions

  /** `floor(distance / 10)`. */
  function ScoreFor(distance: real): (score: int)
    ensures score as real * 10.0 <= distance < (score + 1) as real * 10.0
  {
    (distance / 10.0).Floor
  }

  lemma ScoreForExample()
    ensures ScoreFor(237.0) == 23
  {
  }

  /** Counting on: one frame more, the distance scrolled at the current
      difficulty, then a slightly higher difficulty. */
  function AdvanceState(s: GameState): (t: GameState)
    ensures t.frameCount == s.frameCount + 1
    ensures t.distance - s.distance == ObstacleSpeed * s.difficulty
    ensures t.difficulty == s.difficulty + DifficultyIncreaseRate
    ensures t == s.(frameCount := t.frameCount, distance := t.distance, difficulty := t.difficulty)
  {
    s.(frameCount := s.frameCount + 1,
       distance := s.distance + ObstacleSpeed * s.difficulty,
       difficulty := s.difficulty + DifficultyIncreaseRate)
  }

  function AdvanceTimes(s: GameState, n: nat): GameState
    decreases n
  {
    if n == 0 then s else AdvanceTimes(AdvanceState(s), n - 1)
  }

  /** The counters after n frames in closed form: difficulty grows linearly,
      so distance grows quadratically; nothing else changes. */
  function AfterFrames(s: GameState, n: nat): GameState {
    s.(frameCount := s.frameCount + n,
       difficulty := s.difficulty + n as real * DifficultyIncreaseRate,
       distance := s.distance + ObstacleSpeed * (n as real * s.difficulty
                     + DifficultyIncreaseRate * (n * (n - 1)) as real / 2.0))
  }

  /** n frames of counting on reach the closed form. */
  lemma {:induction false} AdvanceTimesClosedForm(s: GameState, n: nat)
    ensures AdvanceTimes(s, n) == AfterFrames(s, n)
    decreases n
  {
    if n > 0 {
      AdvanceTimesClosedForm(AdvanceState(s), n - 1);
      AfterFramesStep(s, n - 1);
    }
  }

  /** One frame of counting on, then m frames in closed form, is m + 1
      frames in closed form. */
  lemma AfterFramesStep(s: GameState, m: nat)
    ensures AfterFrames(AdvanceState(s), m) == AfterFrames(s, m + 1)
  {
    DistanceStep(s.distance, s.difficulty, m);
    assert s.difficulty + DifficultyIncreaseRate + m as real * DifficultyIncreaseRate
        == s.difficulty + (m + 1) as real * DifficultyIncreaseRate;
  }

  /** The arithmetic behind one step of the closed form: scrolling one frame
      at difficulty d, then m frames from d + rate, covers what n = m + 1
      frames from d cover. */
  lemma DistanceStep(distance: real, difficulty: real, m: nat)
    ensures var n := m + 1;
      distance + ObstacleSpeed * difficulty
        + ObstacleSpeed * (m as real * (difficulty + DifficultyIncreaseRate)
                           + DifficultyIncreaseRate * (m * (m - 1)) as real / 2.0)
      == distance + ObstacleSpeed * (n as real * difficulty
                           + DifficultyIncreaseRate * (n * (n - 1)) as real / 2.0)
  {
    var n := m + 1;
    assert n * (n - 1) == m * (m - 1) + 2 * m;
    assert (n * (n - 1)) as real == (m * (m - 1)) as real + 2.0 * m as real;
    assert m as real * (difficulty + DifficultyIncreaseRate)
        == m as real * difficulty + m as real * DifficultyIncreaseRate;
    assert n as real * difficulty == m as real * difficulty + difficulty;
  }

  /** The score is recomputed from the distance, discarding any bonus that
      was added to it earlier in the frame. */
  function UpdateScore(s: GameState): (t: GameState)
    ensures t.score as real * 10.0 <= s.distance < (t.score + 1) as real * 10.0
    ensures t == s.(score := t.score)
  {
    s.(score := ScoreFor(s.distance))
  }

  /** The three sweeps, all at the same scroll distance. */
  function SweepAll(w: World): (r: World)
    ensures var dx := ObstacleSpeed * w.state.difficulty;
      && r.obstacles == Swept(w.obstacles, dx, false)
      && r.coins == Swept(w.coins, dx, false)
      && r.enemies == Swept(w.enemies, dx, true)
    ensures r == w.(obstacles := r.obstacles, coins := r.coins, enemies := r.enemies)
  {
    var dx := ObstacleSpeed * w.state.difficulty;
    w.(obstacles := Swept(w.obstacles, dx, false),
       coins := Swept(w.coins, dx, false),
       enemies := Swept(w.enemies, dx, true))
  }

  /** The movement half of a frame: counters, spawning, sweeps, then the
      player's vertical motion. */
  function MoveStep(w: World, d: Draws): (r: World)
    requires w.state.difficulty > 0.0
    requires ValidDraws(d)
    ensures r.canvas == w.canvas
    ensures r.state.difficulty > w.state.difficulty
    ensures r.state.running == w.state.running && r.state.paused == w.state.paused
    ensures r.state.coins == w.state.coins
    ensures r.player.lane == w.player.lane && r.player.x == w.player.x
    ensures var s := Spawn(w.(state := AdvanceState(w.state)), d);
      var dx := ObstacleSpeed * (w.state.difficulty + DifficultyIncreaseRate);
      && r.state == s.state
      && r.obstacles == Swept(s.obstacles, dx, false)
      && r.coins == Swept(s.coins, dx, false)
      && r.enemies == Swept(s.enemies, dx, true)
    ensures r.state == AdvanceState(w.state).(lastObstacleFrame := r.state.lastObstacleFrame,
                                              lastCoinFrame := r.state.lastCoinFrame,
                                              lastEnemyFrame := r.state.lastEnemyFrame)
    ensures r.player == UpdatePlayer(w.player, w.canvas)
  {
    var w1 := w.(state := AdvanceState(w.state));
    var w2 := Spawn(w1, d);
    var w3 := SweepAll(w2);
    w3.(player := UpdatePlayer(w3.player, w3.canvas))
  }

  /** One frame. Nothing happens unless the game is running and not paused;
      otherwise the steps run in gameLoop's order: counters, spawning,
      sweeps, player physics, collisions, and finally the score, which is
      recomputed even when the collisions ended the game. */
  function Tick(w: World, d: Draws): (r: World)
    requires w.state.difficulty > 0.0
    requires ValidDraws(d)
    ensures !Active(w.state) ==> r == w
    ensures Active(w.state) ==>
      && r.state.frameCount == w.state.frameCount + 1
      && r.state.distance - w.state.distance == ObstacleSpeed * w.state.difficulty
      && r.state.difficulty - w.state.difficulty == DifficultyIncreaseRate
      && r.state.score == ScoreFor(r.state.distance)
      && !r.state.paused
      && r.player.lane == w.player.lane && r.player.x == w.player.x
    ensures r.state.difficulty >= w.state.difficulty
    ensures r.canvas == w.canvas
  {
    if !Active(w.state) then w
    else
      var w5 := ResolveCollisions(MoveStep(w, d));
      w5.(state := UpdateScore(w5.state))
  }

  /** The player's lane position subtracts half a lane width where the
      spawners add it, so the player in lane k stands exactly one lane width
      left of where an obstacle in lane k appears. */
  lemma PlayerOneLaneLeftOfObstacle(c: Canvas, k: int)
    ensures LanePosition(c.width, k, PlayerWidth) + c.width / LaneCount as real == NewObstacle(c, k).x
  {
  }

  /** An obstacle touching the moved player ends the game before any coin
      or enemy is looked at; the score shown is still the distance score. */
  lemma TickEndsOnObstacleHit(w: World, d: Draws)
    requires w.state.difficulty > 0.0 && ValidDraws(d) && Active(w.state)
    requires var m := MoveStep(w, d); HitsObstacle(m.player.Box(), m.obstacles)
    ensures var m, r := MoveStep(w, d), Tick(w, d);
      && !r.state.running
      && r.coins == m.coins && r.enemies == m.enemies && r.player == m.player
      && r.state.coins == w.state.coins
      && r.state.score == ScoreFor(r.state.distance)
  {
  }

  /** Without an obstacle hit, every coin the moved player touches is
      collected and counted, and enemies are resolved after that. */
  lemma TickCollectsCoins(w: World, d: Draws)
    requires w.state.difficulty > 0.0 && ValidDraws(d) && Active(w.state)
    requires var m := MoveStep(w, d); !HitsObstacle(m.player.Box(), m.obstacles)
    ensures var m, r := MoveStep(w, d), Tick(w, d);
      && (forall c :: c in r.coins <==> c in m.coins && !Overlaps(m.player.Box(), c.Box()))
      && r.coins == Uncollected(m.player.Box(), m.coins)
      && multiset(r.coins) <= multiset(m.coins)
      && r.state.coins == w.state.coins + Touched(m.player.Box(), m.coins)
      && r.enemies == ResolveEnemies(m.player, m.enemies, m.state.score).enemies
  {
    UncollectedSubMultiset(MoveStep(w, d).player.Box(), MoveStep(w, d).coins);
  }

  /** `resetGame`: fresh counters (not running), the player back in lane 1 on
      the ground, and no entities. The canvas is kept. */
  function ResetGame(w: World): (r: World)
    ensures !r.state.running && !r.state.paused
    ensures r.state.score == 0 && r.state.coins == 0 && r.state.distance == 0.0
    ensures r.state.frameCount == 0 && r.state.difficulty == InitialDifficulty
    ensures r.obstacles == [] && r.coins == [] && r.enemies == []
    ensures r.player.lane == 1 && Grounded(r.player, r.canvas)
    ensures r.player.x == LanePosition(r.canvas.width, 1, r.player.width)
    ensures r.canvas == w.canvas
    ensures Valid(r)
  {
    var p := w.player;
    var home := p.(lane := 1,
                   x := LanePosition(w.canvas.width, 1, p.width),
                   y := w.canvas.height - GroundHeight - p.height,
                   jumping := false,
                   falling := false,
                   velocity := 0.0);
    World(w.canvas,
          GameState(false, false, 0, 0, 0.0, InitialDifficulty, 0, 0, 0, 0),
          home, [], [], [])
  }

  /** `startGame` and `restartGame`: reset, then run. */
  function Start(w: World): (r: World)
    ensures r == ResetGame(w).(state := ResetGame(w).state.(running := true))
    ensures Active(r.state) && Valid(r)
    ensures r.state.frameCount == 0 && r.state.score == 0 && r.state.coins == 0
    ensures r.obstacles == [] && r.coins == [] && r.enemies == []
  {
    var r := ResetGame(w);
    r.(state := r.state.(running := true))
  }

  /** `togglePause`: flips the pause flag of a running game only. */
  function TogglePause(w: World): (r: World)
    ensures w.state.running ==> r.state.paused == !w.state.paused
    ensures r == w.(state := w.state.(paused := r.state.paused))
    ensures !w.state.running ==> r == w
  {
    if w.state.running then w.(state := w.state.(paused := !w.state.paused)) else w
  }

  /** `resumeGame`: clears the pause flag whatever the running flag says. */
  function Resume(w: World): (r: World)
    ensures !r.state.paused
    ensures r == w.(state := w.state.(paused := false))
  {
    w.(state := w.state.(paused := false))
  }

  /** `quitGame`: stop, unpause, then reset. */
  function Quit(w: World): (r: World)
    ensures !r.state.running && !r.state.paused && Valid(r)
    ensures r == ResetGame(w)
  {
    ResetGame(w.(state := w.state.(running := false, paused := false)))
  }

  /** Everything a world reachable from a reset satisfies. */
  predicate Valid(w: World) {
    && 0 <= w.player.lane < LaneCount
    && w.player.x == LanePosition(w.canvas.width, w.player.lane, w.player.width)
    && !w.player.falling
    && w.player.y <= GroundLine(w.canvas, w.player)
    && (!w.player.jumping ==> Grounded(w.player, w.canvas))
    && w.state.difficulty >= InitialDifficulty
    && w.state.distance >= 0.0
    && w.state.score == ScoreFor(w.state.distance)
    && w.state.coins >= 0
    && 0 <= w.state.lastObstacleFrame <= w.state.frameCount
    && 0 <= w.state.lastCoinFrame <= w.state.frameCount
    && 0 <= w.state.lastEnemyFrame <= w.state.frameCount
  }

  lemma TickPreservesValid(w: World, d: Draws)
    requires Valid(w) && ValidDraws(d)
    ensures Valid(Tick(w, d))
  {
    if Active(w.state) {
      var w1 := w.(state := AdvanceState(w.state));
      var w2 := Spawn(w1, d);
      var w3 := SweepAll(w2);
      var w4 := MoveStep(w, d);
      var w5 := ResolveCollisions(w4);
      assert w3.player == w.player && w3.canvas == w.canvas;
      assert w4.player.y <= GroundLine(w4.canvas, w4.player);
      assert !w4.player.jumping ==> Grounded(w4.player, w4.canvas);
      var box := w4.player.Box();
      if !HitsObstacle(box, w4.obstacles) {
        var o := ResolveEnemies(w4.player, w4.enemies, w4.state.score);
        assert w5.player == w4.player.(velocity := o.velocity);
      }
    }
  }

  /** Player input and the pause controls keep the invariant. */
  lemma InputPreservesValid(w: World)
    requires Valid(w)
    ensures Valid(MoveLeft(w)) && Valid(MoveRight(w)) && Valid(Jump(w))
    ensures Valid(TogglePause(w)) && Valid(Resume(w))
  {
  }

  /** A run of frames, one draw record per frame. */
  function Run(w: World, ds: seq<Draws>): (r: World)
    requires w.state.difficulty > 0.0
    requires forall i :: 0 <= i < |ds| ==> ValidDraws(ds[i])
    ensures r.state.difficulty >= w.state.difficulty
    ensures r.canvas == w.canvas
    decreases |ds|
  {
    if ds == [] then w else Run(Tick(w, ds[0]), ds[1..])
  }

  lemma {:induction false} RunPreservesValid(w: World, ds: seq<Draws>)
    requires Valid(w)
    requires forall i :: 0 <= i < |ds| ==> ValidDraws(ds[i])
    ensures Valid(Run(w, ds))
    decreases |ds|
  {
    if ds != [] {
      TickPreservesValid(w, ds[0]);
      RunPreservesValid(Tick(w, ds[0]), ds[1..]);
    }
  }

  /** A reset game is not running, so any number of frames leaves it
      exactly as reset: player home in lane 1, distance and score 0. */
  lemma ResetThenRunIsIdle(w: World, ds: seq<Draws>)
    requires forall i :: 0 <= i < |ds| ==> ValidDraws(ds[i])
    ensures Run(ResetGame(w), ds) == ResetGame(w)
  {
    StoppedGameStaysPut(ResetGame(w), ds);
  }

  /** A game that has ended stays ended: frames after game over change
      nothing. */
  lemma {:induction false} StoppedGameStaysPut(w: World, ds: seq<Draws>)
    requires !w.state.running && w.state.difficulty > 0.0
    requires forall i :: 0 <= i < |ds| ==> ValidDraws(ds[i])
    ensures Run(w, ds) == w
    decreases |ds|
  {
    if ds != [] {
      StoppedGameStaysPut(w, ds[1..]);
    }
  }
}
