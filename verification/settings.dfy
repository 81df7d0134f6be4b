/** The fixed game configuration (the `gameSettings` record) and the fixed
    sizes the spawners and the player record use. Positions and speeds are
    exact rationals standing in for game.js's floating-point numbers. */
module Settings {

  const Gravity: real := 0.5
  const JumpForce: real := 12.0
  const GroundHeight: real := 50.0
  const ObstacleSpeed: real := 5.0

  /** Base spawn intervals, in frames, before division by the difficulty. */
  const ObstacleFrequency: real := 100.0
  const CoinFrequency: real := 150.0
  const EnemyFrequency: real := 200.0

  const LaneCount: int := 3
  const InitialDifficulty: real := 1.0
  const DifficultyIncreaseRate: real := 0.0001

  /** Sizes fixed by the player record and by each spawner. */
  const PlayerWidth: real := 50.0
  const PlayerHeight: real := 80.0
  const ObstacleWidth: real := 50.0
  const ObstacleHeight: real := 30.0
  const CoinSize: real := 30.0
  const EnemyWidth: real := 50.0
  const EnemyHeight: real := 60.0

  /** Score bonus for defeating an enemy by landing on it. */
  const StompBonus: int := 100
}
