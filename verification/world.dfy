/** The game's data: entities, the player, the counters of `gameState`, and
    the whole world one frame works on. */
module WorldState {
  import opened Settings
  import opened Geometry

  /** An obstacle, coin or enemy. Only enemies ever become `defeated`. */
  datatype Entity = Entity(x: real, y: real, width: real, height: real, lane: int, defeated: bool)
  {
    function Box(): Rect { Rect(x, y, width, height) }
  }

  /** The player. Its size is fixed by the player record and never changes,
      so it is a constant rather than a field. */
  datatype Player = Player(
    x: real, y: real,
    lane: int,
    jumping: bool,
    falling: bool,
    velocity: real)
  {
    const width: real := PlayerWidth
    const height: real := PlayerHeight

    function Box(): Rect { Rect(x, y, width, height) }

    /** Vertical motion is integrated only in these states. */
    predicate Airborne() { jumping || falling }
  }

  datatype GameState = GameState(
    running: bool,
    paused: bool,
    score: int,
    coins: int,
    distance: real,
    difficulty: real,
    frameCount: int,
    lastObstacleFrame: int,
    lastCoinFrame: int,
    lastEnemyFrame: int)

  /** The drawing surface's size, fixed by the page layout. */
  datatype Canvas = Canvas(width: real, height: real)

  datatype World = World(
    canvas: Canvas,
    state: GameState,
    player: Player,
    obstacles: seq<Entity>,
    coins: seq<Entity>,
    enemies: seq<Entity>)

  /** The random draws one frame may consume: a lane per spawner and the
      coin's height offset. */
  datatype Draws = Draws(obstacleLane: int, coinLane: int, coinLift: real, enemyLane: int)

  /** What `floor(random * laneCount)` and `random * 100` can produce. */
  predicate ValidDraws(d: Draws) {
    && 0 <= d.obstacleLane < LaneCount
    && 0 <= d.coinLane < LaneCount
    && 0 <= d.enemyLane < LaneCount
    && 0.0 <= d.coinLift < 100.0
  }

  /** The y coordinate of a player standing on the ground. */
  function GroundLine(c: Canvas, p: Player): real {
    c.height - GroundHeight - p.height
  }

  /** Input is accepted and frames advance only while running and not paused. */
  predicate Active(s: GameState) {
    s.running && !s.paused
  }
}
