/** Frame-counted spawning of obstacles, coins and enemies. */
module Spawner {
  import opened Settings
  import opened WorldState

  /** A kind is due when at least frequency/difficulty frames have passed
      since it last spawned. */
  predicate Due(frameCount: int, last: int, frequency: real, difficulty: real)
    requires difficulty > 0.0
  {
    (frameCount - last) as real >= frequency / difficulty
  }

  /** The spawners' x: the lane's centre minus half the entity's width. */
  function SpawnX(canvasWidth: real, lane: int, halfWidth: real): real {
    var laneWidth := canvasWidth / LaneCount as real;
    lane as real * laneWidth + laneWidth / 2.0 - halfWidth
  }

  function NewObstacle(c: Canvas, lane: int): (e: Entity)
    ensures e.lane == lane && !e.defeated
    ensures e.width == ObstacleWidth && e.height == ObstacleHeight
    ensures e.x + e.width / 2.0 == (lane as real + 0.5) * (c.width / LaneCount as real)
    ensures e.y + e.height == c.height - GroundHeight
  {
    Entity(SpawnX(c.width, lane, ObstacleWidth / 2.0), c.height - GroundHeight - ObstacleHeight,
           ObstacleWidth, ObstacleHeight, lane, false)
  }

  /** A coin floats 20 to 120 units above the ground, depending on `lift`. */
  function NewCoin(c: Canvas, lane: int, lift: real): (e: Entity)
    requires 0.0 <= lift < 100.0
    ensures e.lane == lane && !e.defeated
    ensures e.width == CoinSize && e.height == CoinSize
    ensures e.y == c.height - GroundHeight - 50.0 - lift
    ensures e.x + e.width / 2.0 == (lane as real + 0.5) * (c.width / LaneCount as real)
    ensures c.height - GroundHeight - 120.0 < e.y + e.height <= c.height - GroundHeight - 20.0
  {
    Entity(SpawnX(c.width, lane, CoinSize / 2.0), c.height - GroundHeight - 50.0 - lift,
           CoinSize, CoinSize, lane, false)
  }

  function NewEnemy(c: Canvas, lane: int): (e: Entity)
    ensures e.lane == lane && !e.defeated
    ensures e.width == EnemyWidth && e.height == EnemyHeight
    ensures e.x + e.width / 2.0 == (lane as real + 0.5) * (c.width / LaneCount as real)
    ensures e.y + e.height == c.height - GroundHeight
  {
    Entity(SpawnX(c.width, lane, EnemyWidth / 2.0), c.height - GroundHeight - EnemyHeight,
           EnemyWidth, EnemyHeight, lane, false)
  }

  /** Each kind, checked independently, gains exactly one entity when due
      and then records the current frame; otherwise its list and marker are
      untouched. Nothing else in the world changes. */
  function Spawn(w: World, d: Draws): (r: World)
    requires w.state.difficulty > 0.0
    requires ValidDraws(d)
    ensures var s := w.state;
      if Due(s.frameCount, s.lastObstacleFrame, ObstacleFrequency, s.difficulty)
      then r.obstacles == w.obstacles + [NewObstacle(w.canvas, d.obstacleLane)]
        && r.state.lastObstacleFrame == s.frameCount
      else r.obstacles == w.obstacles && r.state.lastObstacleFrame == s.lastObstacleFrame
    ensures var s := w.state;
      if Due(s.frameCount, s.lastCoinFrame, CoinFrequency, s.difficulty)
      then r.coins == w.coins + [NewCoin(w.canvas, d.coinLane, d.coinLift)]
        && r.state.lastCoinFrame == s.frameCount
      else r.coins == w.coins && r.state.lastCoinFrame == s.lastCoinFrame
    ensures var s := w.state;
      if Due(s.frameCount, s.lastEnemyFrame, EnemyFrequency, s.difficulty)
      then r.enemies == w.enemies + [NewEnemy(w.canvas, d.enemyLane)]
        && r.state.lastEnemyFrame == s.frameCount
      else r.enemies == w.enemies && r.state.lastEnemyFrame == s.lastEnemyFrame
    ensures r.canvas == w.canvas && r.player == w.player
    ensures r.state == w.state.(lastObstacleFrame := r.state.lastObstacleFrame,
                                lastCoinFrame := r.state.lastCoinFrame,
                                lastEnemyFrame := r.state.lastEnemyFrame)
  {
    var s := w.state;
    var w1 :=
      if Due(s.frameCount, s.lastObstacleFrame, ObstacleFrequency, s.difficulty)
      then w.(obstacles := w.obstacles + [NewObstacle(w.canvas, d.obstacleLane)],
              state := w.state.(lastObstacleFrame := s.frameCount))
      else w;
    var w2 :=
      if Due(s.frameCount, s.lastCoinFrame, CoinFrequency, s.difficulty)
      then w1.(coins := w1.coins + [NewCoin(w.canvas, d.coinLane, d.coinLift)],
               state := w1.state.(lastCoinFrame := s.frameCount))
      else w1;
    if Due(s.frameCount, s.lastEnemyFrame, EnemyFrequency, s.difficulty)
    then w2.(enemies := w2.enemies + [NewEnemy(w.canvas, d.enemyLane)],
             state := w2.state.(lastEnemyFrame := s.frameCount))
    else w2
  }

  /** A higher difficulty never makes a kind that is due stop being due:
      the effective interval frequency/difficulty does not grow. */
  lemma DueMonotoneInDifficulty(frameCount: int, last: int, frequency: real, d1: real, d2: real)
    requires 0.0 < d1 <= d2
    requires frequency >= 0.0
    requires Due(frameCount, last, frequency, d1)
    ensures frequency / d2 <= frequency / d1
    ensures Due(frameCount, last, frequency, d2)
  {
    var q1, q2 := frequency / d1, frequency / d2;
    assert q2 * d2 == q1 * d1;
    assert q1 * d1 <= q1 * d2;
  }

  /** A kind never spawns on two consecutive frames while its base interval
      is longer than one frame at the current difficulty. */
  lemma NotDueRightAfterSpawn(frameCount: int, frequency: real, difficulty: real)
    requires difficulty > 0.0
    requires frequency > difficulty
    ensures !Due(frameCount + 1, frameCount, frequency, difficulty)
  {
    var q := frequency / difficulty;
    assert q * difficulty > 1.0 * difficulty;
  }
}
