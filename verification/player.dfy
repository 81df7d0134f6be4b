/** Player input (lane changes, jump) and the per-frame vertical integrator. */
module PlayerMotion {
  import opened Settings
  import opened WorldState

  /** The x at which the player is placed in a lane. `calculateLanePosition` subtracts
      half a lane width here, while the spawners add it. */
  function LanePosition(canvasWidth: real, lane: int, playerWidth: real): real {
    var laneWidth := canvasWidth / LaneCount as real;
    lane as real * laneWidth - laneWidth / 2.0 - playerWidth / 2.0
  }

  /** Moving one lane moves the player by exactly one lane width. */
  lemma LanePositionStep(canvasWidth: real, lane: int, playerWidth: real)
    ensures LanePosition(canvasWidth, lane + 1, playerWidth)
         == LanePosition(canvasWidth, lane, playerWidth) + canvasWidth / LaneCount as real
  {
  }

  function MoveLeft(w: World): (r: World)
    ensures r.player.lane != w.player.lane <==> Active(w.state) && w.player.lane > 0
    ensures r.player.lane == w.player.lane ==> r == w
    ensures r.player.lane != w.player.lane ==>
      && r.player.lane == w.player.lane - 1
      && r == w.(player := w.player.(lane := r.player.lane,
                                     x := LanePosition(w.canvas.width, r.player.lane, w.player.width)))
    ensures 0 <= w.player.lane < LaneCount ==> 0 <= r.player.lane < LaneCount
  {
    if !Active(w.state) then w
    else if w.player.lane > 0 then
      var lane := w.player.lane - 1;
      w.(player := w.player.(lane := lane, x := LanePosition(w.canvas.width, lane, w.player.width)))
    else w
  }

  function MoveRight(w: World): (r: World)
    ensures r.player.lane != w.player.lane <==> Active(w.state) && w.player.lane < LaneCount - 1
    ensures r.player.lane == w.player.lane ==> r == w
    ensures r.player.lane != w.player.lane ==>
      && r.player.lane == w.player.lane + 1
      && r == w.(player := w.player.(lane := r.player.lane,
                                     x := LanePosition(w.canvas.width, r.player.lane, w.player.width)))
    ensures 0 <= w.player.lane < LaneCount ==> 0 <= r.player.lane < LaneCount
  {
    if !Active(w.state) then w
    else if w.player.lane < LaneCount - 1 then
      var lane := w.player.lane + 1;
      w.(player := w.player.(lane := lane, x := LanePosition(w.canvas.width, lane, w.player.width)))
    else w
  }

  /** A left move undone by a right move (and vice versa) away from the edges. */
  lemma MoveLeftThenRight(w: World)
    requires Active(w.state) && 0 < w.player.lane < LaneCount
    requires w.player.x == LanePosition(w.canvas.width, w.player.lane, w.player.width)
    ensures MoveRight(MoveLeft(w)) == w
  {
  }

  function Jump(w: World): (r: World)
    ensures r.player.jumping != w.player.jumping <==>
      Active(w.state) && !w.player.jumping && !w.player.falling
    ensures r.player.jumping == w.player.jumping ==> r == w
    ensures r.player.jumping != w.player.jumping ==>
      r == w.(player := w.player.(jumping := true, velocity := -JumpForce))
  {
    if !Active(w.state) || w.player.jumping || w.player.falling then w
    else w.(player := w.player.(jumping := true, velocity := -JumpForce))
  }

  /** The physics half of the player update: gravity, then landing. */
  function UpdatePlayer(p: Player, c: Canvas): (q: Player)
    ensures !p.Airborne() ==> q == p
    ensures p.Airborne() ==> q.y <= GroundLine(c, p)
    ensures p.y <= GroundLine(c, p) ==> q.y <= GroundLine(c, q)
    ensures q == p.(y := q.y, velocity := q.velocity, jumping := q.jumping, falling := q.falling)
    ensures p.Airborne() && p.y + p.velocity + Gravity >= GroundLine(c, p) ==>
      q == p.(y := GroundLine(c, p), velocity := 0.0, jumping := false, falling := false)
    ensures p.Airborne() && p.y + p.velocity + Gravity < GroundLine(c, p) ==>
      q == p.(velocity := p.velocity + Gravity, y := p.y + p.velocity + Gravity)
    ensures q.jumping ==> p.jumping
    ensures q.falling ==> p.falling
  {
    if p.Airborne() then
      var velocity := p.velocity + Gravity;
      var y := p.y + velocity;
      if y >= GroundLine(c, p) then
        p.(y := GroundLine(c, p), jumping := false, falling := false, velocity := 0.0)
      else
        p.(y := y, velocity := velocity)
    else p
  }

  /** n frames of the integrator. */
  function Fly(p: Player, c: Canvas, n: nat): Player
    decreases n
  {
    if n == 0 then p else Fly(UpdatePlayer(p, c), c, n - 1)
  }

  /** A player standing on the ground with no motion. */
  predicate Grounded(p: Player, c: Canvas) {
    !p.jumping && !p.falling && p.y == GroundLine(c, p) && p.velocity == 0.0
  }

  /** How far above the ground line a jump from rest is after n frames
      without a stomp: 12n - n(n+1)/4. */
  function Rise(n: nat): real {
    JumpForce * n as real - (n * (n + 1)) as real / 4.0
  }

  lemma RiseStep(n: nat)
    ensures Rise(n + 1) == Rise(n) + JumpForce - (n + 1) as real * Gravity
  {
    assert (n + 1) * (n + 2) == n * (n + 1) + 2 * (n + 1);
  }

  lemma RisePositive(n: nat)
    requires 0 < n < 47
    ensures Rise(n) > 0.0
  {
    assert n * (n + 1) < n * 48;
  }

  /** The jump's trajectory in closed form. */
  lemma {:induction false} FlyClosedForm(p: Player, c: Canvas, n: nat)
    requires Grounded(p, c)
    requires n <= 46
    ensures Fly(p.(jumping := true, velocity := -JumpForce), c, n)
         == p.(jumping := true,
               velocity := -JumpForce + n as real * Gravity,
               y := GroundLine(c, p) - Rise(n))
  {
    var j := p.(jumping := true, velocity := -JumpForce);
    if n > 0 {
      FlyClosedForm(p, c, n - 1);
      FlyUnfoldLast(j, c, n);
      RiseStep(n - 1);
      RisePositive(n);
    }
  }

  lemma {:induction false} FlyUnfoldLast(p: Player, c: Canvas, n: nat)
    requires n > 0
    ensures Fly(p, c, n) == UpdatePlayer(Fly(p, c, n - 1), c)
    decreases n
  {
    if n > 1 {
      FlyUnfoldLast(UpdatePlayer(p, c), c, n - 1);
    }
  }

  /** Without a stomp, a jump from the ground stays in the air for 46 frames
      and lands back at rest on the 47th. */
  lemma JumpAirtime(p: Player, c: Canvas, n: nat)
    requires Grounded(p, c)
    ensures 0 < n < 47 ==> Fly(p.(jumping := true, velocity := -JumpForce), c, n).jumping
    ensures Fly(p.(jumping := true, velocity := -JumpForce), c, 47) == p
  {
    var j := p.(jumping := true, velocity := -JumpForce);
    if 0 < n < 47 {
      FlyClosedForm(p, c, n);
    }
    FlyClosedForm(p, c, 46);
    FlyUnfoldLast(j, c, 47);
  }
}
