/** The collision pass: obstacles first (any hit ends the game), then coins
    (every touched coin is collected), then enemies (landed on from above:
    defeated; otherwise the game ends). */
module Collisions {
  import opened Settings
  import opened Geometry
  import opened WorldState
  import Splice

  /** An enemy that still counts for collisions and overlaps the box. */
  predicate Threat(box: Rect, e: Entity) {
    !e.defeated && Overlaps(box, e.Box())
  }

  /** The stomp rule: the player is jumping, moving down, and its bottom
      edge is above the enemy's vertical midpoint. */
  predicate Stomps(p: Player, e: Entity) {
    p.jumping && p.velocity > 0.0 && p.y + p.height < e.y + e.height / 2.0
  }

  /** The forward obstacle scan; it stops at the first overlap. */
  function HitsObstacle(box: Rect, obs: seq<Entity>): (hit: bool)
    ensures hit <==> exists i :: 0 <= i < |obs| && Overlaps(box, obs[i].Box())
    decreases |obs|
  {
    if obs == [] then false
    else if Overlaps(box, obs[0].Box()) then true
    else
      var rest := HitsObstacle(box, obs[1..]);
      assert forall i :: 1 <= i < |obs| ==> obs[i] == obs[1..][i - 1];
      rest
  }

  /** The coins left after collection, in their original order. */
  function Uncollected(box: Rect, cs: seq<Entity>): (r: seq<Entity>)
    ensures |r| <= |cs|
    decreases |cs|
  {
    if cs == [] then []
    else (if Overlaps(box, cs[0].Box()) then [] else [cs[0]]) + Uncollected(box, cs[1..])
  }

  /** The remaining coins are exactly the coins the box does not touch. */
  lemma {:induction false} UncollectedMembers(box: Rect, cs: seq<Entity>)
    ensures forall c :: c in Uncollected(box, cs) <==> c in cs && !Overlaps(box, c.Box())
    decreases |cs|
  {
    if cs != [] {
      UncollectedMembers(box, cs[1..]);
      assert forall c :: c in cs <==> c == cs[0] || c in cs[1..];
    }
  }

  /** How many of the coins the box touches. */
  function Touched(box: Rect, cs: seq<Entity>): (n: nat)
    ensures n <= |cs|
    decreases |cs|
  {
    if cs == [] then 0
    else (if Overlaps(box, cs[0].Box()) then 1 else 0) + Touched(box, cs[1..])
  }

  /** Collection removes exactly the touched coins, counted with repetition. */
  lemma {:induction false} UncollectedCount(box: Rect, cs: seq<Entity>)
    ensures |cs| - |Uncollected(box, cs)| == Touched(box, cs)
    decreases |cs|
  {
    if cs != [] {
      UncollectedCount(box, cs[1..]);
    }
  }

  /** Collection only removes coins: no coin is duplicated. */
  lemma {:induction false} UncollectedSubMultiset(box: Rect, cs: seq<Entity>)
    ensures multiset(Uncollected(box, cs)) <= multiset(cs)
    decreases |cs|
  {
    if cs != [] {
      UncollectedSubMultiset(box, cs[1..]);
      assert cs == [cs[0]] + cs[1..];
    }
  }

  /** The coin loop of game.js: backward over the list, splicing out each
      coin the box touches and counting it. */
  method CollectCoinsBackward(box: Rect, cs: seq<Entity>) returns (kept: seq<Entity>, collected: int)
    ensures kept == Uncollected(box, cs)
    ensures collected == |cs| - |kept|
    ensures collected == Touched(box, cs)
  {
    kept := cs;
    collected := 0;
    var i := |cs|;
    assert cs[..i] == cs && cs[i..] == [];
    while i > 0
      invariant i <= |cs|
      invariant kept == cs[..i] + Uncollected(box, cs[i..])
      invariant collected == Collected(box, cs, i)
    {
      i := i - 1;
      CollectStep(box, cs, i, kept);
      CollectedStep(box, cs, i);
      if Overlaps(box, kept[i].Box()) {
        collected := collected + 1;
        kept := kept[..i] + kept[i + 1..];
      }
    }
    assert cs[0..] == cs;
    UncollectedCount(box, cs);
  }

  /** How many coins of the suffix starting at i the box touches. */
  function Collected(box: Rect, cs: seq<Entity>, i: nat): int
    requires i <= |cs|
  {
    |cs[i..]| - |Uncollected(box, cs[i..])|
  }

  /** One iteration of the backward coin loop re-establishes its invariant
      one position further left. */
  lemma CollectStep(box: Rect, cs: seq<Entity>, i: nat, cur: seq<Entity>)
    requires i < |cs|
    requires cur == cs[..i + 1] + Uncollected(box, cs[i + 1..])
    ensures i < |cur| && cur[i] == cs[i]
    ensures !Overlaps(box, cs[i].Box()) ==> cur == cs[..i] + Uncollected(box, cs[i..])
    ensures Overlaps(box, cs[i].Box()) ==>
      cur[..i] + cur[i + 1..] == cs[..i] + Uncollected(box, cs[i..])
  {
    Splice.BackwardStep(cs, i, cs[i], Uncollected(box, cs[i + 1..]), cur);
    UncollectedSuffix(box, cs, i);
  }

  /** The count invariant steps by one exactly when coin i is touched. */
  lemma CollectedStep(box: Rect, cs: seq<Entity>, i: nat)
    requires i < |cs|
    ensures Collected(box, cs, i) == Collected(box, cs, i + 1) + (if Overlaps(box, cs[i].Box()) then 1 else 0)
  {
    UncollectedSuffix(box, cs, i);
  }

  /** Collecting from the suffix at i handles coin i, then the rest. */
  lemma UncollectedSuffix(box: Rect, cs: seq<Entity>, i: nat)
    requires i < |cs|
    ensures Uncollected(box, cs[i..])
         == (if Overlaps(box, cs[i].Box()) then [] else [cs[i]]) + Uncollected(box, cs[i + 1..])
  {
    assert cs[i..][1..] == cs[i + 1..];
  }

  /** What the enemy scan hands back: the enemy list with defeat marks, the
      player's velocity, the score, and whether the game ended. */
  datatype EnemyOutcome = EnemyOutcome(enemies: seq<Entity>, velocity: real, score: int, gameOver: bool)

  /** The forward enemy scan. A stomp marks the enemy, bounces the player
      up at half the jump force and adds the bonus; any other overlap with
      an undefeated enemy ends the game and stops the scan. */
  function ResolveEnemies(p: Player, es: seq<Entity>, score: int): (o: EnemyOutcome)
    ensures |o.enemies| == |es|
    ensures o.velocity == p.velocity || (p.jumping && o.velocity == -JumpForce / 2.0)
    ensures o.score >= score
    decreases |es|
  {
    if es == [] then EnemyOutcome([], p.velocity, score, false)
    else
      var e := es[0];
      if Threat(p.Box(), e) then
        if Stomps(p, e) then
          var rest := ResolveEnemies(p.(velocity := -JumpForce / 2.0), es[1..], score + StompBonus);
          rest.(enemies := [e.(defeated := true)] + rest.enemies)
        else EnemyOutcome(es, p.velocity, score, true)
      else
        var rest := ResolveEnemies(p, es[1..], score);
        rest.(enemies := [e] + rest.enemies)
  }

  /** An enemy changes only by being marked defeated, and only if it
      threatened the player. */
  lemma {:induction false} ResolveEnemiesMarks(p: Player, es: seq<Entity>, score: int)
    ensures var o := ResolveEnemies(p, es, score);
      forall i :: 0 <= i < |es| ==>
        o.enemies[i] == es[i] || (Threat(p.Box(), es[i]) && o.enemies[i] == es[i].(defeated := true))
    decreases |es|
  {
    if es != [] && Threat(p.Box(), es[0]) && Stomps(p, es[0]) {
      ResolveEnemiesMarks(p.(velocity := -JumpForce / 2.0), es[1..], score + StompBonus);
    } else if es != [] && !Threat(p.Box(), es[0]) {
      ResolveEnemiesMarks(p, es[1..], score);
    }
  }

  /** Index of the first threatening enemy, or |es| when there is none. */
  function FirstThreat(box: Rect, es: seq<Entity>): (i: int)
    ensures 0 <= i <= |es|
    ensures forall j :: 0 <= j < i ==> !Threat(box, es[j])
    ensures i < |es| ==> Threat(box, es[i])
    decreases |es|
  {
    if es == [] then 0
    else if Threat(box, es[0]) then 0
    else
      var k := FirstThreat(box, es[1..]);
      assert forall j :: 1 <= j < k + 1 ==> es[j] == es[1..][j - 1];
      k + 1
  }

  /** With no threatening enemy the scan changes nothing. */
  lemma {:induction false} ResolveEnemiesNoThreat(p: Player, es: seq<Entity>, score: int)
    requires forall j :: 0 <= j < |es| ==> !Threat(p.Box(), es[j])
    ensures ResolveEnemies(p, es, score) == EnemyOutcome(es, p.velocity, score, false)
    decreases |es|
  {
    if es != [] {
      ResolveEnemiesNoThreat(p, es[1..], score);
      assert [es[0]] + es[1..] == es;
    }
  }

  /** A player that is not moving down cannot stomp: the first threatening
      enemy ends the game and nothing is marked. */
  lemma {:induction false} ResolveEnemiesRising(p: Player, es: seq<Entity>, score: int)
    requires p.velocity <= 0.0
    ensures var o := ResolveEnemies(p, es, score);
      && o.enemies == es && o.velocity == p.velocity && o.score == score
      && (o.gameOver <==> exists j :: 0 <= j < |es| && Threat(p.Box(), es[j]))
    decreases |es|
  {
    if es != [] && !Threat(p.Box(), es[0]) {
      ResolveEnemiesRising(p, es[1..], score);
      assert [es[0]] + es[1..] == es;
      assert forall j :: 1 <= j < |es| ==> es[j] == es[1..][j - 1];
    }
  }

  /** The whole enemy scan in closed form, decided by the first threatening
      enemy i: no threat changes nothing; a stomp on i marks only i, sets the
      bounce velocity, adds one bonus, and ends the game exactly when a later
      enemy also threatens (the bounce has made the player rise); any other
      contact with i ends the game with nothing marked. */
  lemma {:induction false} ResolveEnemiesFirstThreat(p: Player, es: seq<Entity>, score: int, i: int)
    requires 0 <= i < |es|
    requires Threat(p.Box(), es[i])
    requires forall j :: 0 <= j < i ==> !Threat(p.Box(), es[j])
    ensures var o := ResolveEnemies(p, es, score);
      if Stomps(p, es[i]) then
        && o.enemies == es[i := es[i].(defeated := true)]
        && o.velocity == -JumpForce / 2.0
        && o.score == score + StompBonus
        && (o.gameOver <==> exists j :: i < j < |es| && Threat(p.Box(), es[j]))
      else o == EnemyOutcome(es, p.velocity, score, true)
    decreases i
  {
    if i == 0 {
      if Stomps(p, es[0]) {
        StompOnFirst(p, es, score);
      }
    } else {
      ResolveEnemiesFirstThreat(p, es[1..], score, i - 1);
      assert es[1..][i - 1] == es[i];
      if Stomps(p, es[i]) {
        StompLater(p, es, score, i);
      } else {
        assert [es[0]] + es[1..] == es;
      }
    }
  }

  /** A stomp found after a harmless first enemy is the stomp on the rest
      of the list, shifted one place. */
  lemma StompLater(p: Player, es: seq<Entity>, score: int, i: nat)
    requires 0 < i < |es| && !Threat(p.Box(), es[0])
    requires var o := ResolveEnemies(p, es[1..], score);
      && o.enemies == es[1..][i - 1 := es[i].(defeated := true)]
      && o.velocity == -JumpForce / 2.0
      && o.score == score + StompBonus
      && (o.gameOver <==> exists j :: i - 1 < j < |es| - 1 && Threat(p.Box(), es[1..][j]))
    ensures var o := ResolveEnemies(p, es, score);
      && o.enemies == es[i := es[i].(defeated := true)]
      && o.velocity == -JumpForce / 2.0
      && o.score == score + StompBonus
      && (o.gameOver <==> exists j :: i < j < |es| && Threat(p.Box(), es[j]))
  {
    assert [es[0]] + es[1..][i - 1 := es[i].(defeated := true)] == es[i := es[i].(defeated := true)];
    assert forall j :: i < j < |es| ==> es[j] == es[1..][j - 1];
  }

  /** A stomp on the first enemy: it is marked, the player bounces, the
      bonus is added once, and the rising player can no longer stomp, so
      any later threat ends the game. */
  lemma StompOnFirst(p: Player, es: seq<Entity>, score: int)
    requires 0 < |es| && Threat(p.Box(), es[0]) && Stomps(p, es[0])
    ensures var o := ResolveEnemies(p, es, score);
      && o.enemies == es[0 := es[0].(defeated := true)]
      && o.velocity == -JumpForce / 2.0
      && o.score == score + StompBonus
      && (o.gameOver <==> exists j :: 0 < j < |es| && Threat(p.Box(), es[j]))
  {
    var q := p.(velocity := -JumpForce / 2.0);
    ResolveEnemiesRising(q, es[1..], score + StompBonus);
    assert q.Box() == p.Box();
    assert [es[0].(defeated := true)] + es[1..] == es[0 := es[0].(defeated := true)];
    assert forall j :: 0 < j < |es| ==> es[j] == es[1..][j - 1];
  }

  /** At most one enemy is defeated per collision pass, so the bonus is
      added at most once. */
  lemma AtMostOneStomp(p: Player, es: seq<Entity>, score: int)
    ensures var o := ResolveEnemies(p, es, score);
      && (o.score == score || o.score == score + StompBonus)
      && (o.enemies == es || exists i :: 0 <= i < |es| && o.enemies == es[i := es[i].(defeated := true)])
  {
    var i := FirstThreat(p.Box(), es);
    if i == |es| {
      ResolveEnemiesNoThreat(p, es, score);
    } else {
      ResolveEnemiesFirstThreat(p, es, score, i);
    }
  }

  /** The collision pass on the whole world, against the player's box as it
      stands when the pass starts. */
  function ResolveCollisions(w: World): (r: World)
    ensures HitsObstacle(w.player.Box(), w.obstacles) ==> r == w.(state := w.state.(running := false))
    ensures !HitsObstacle(w.player.Box(), w.obstacles) ==>
      var o := ResolveEnemies(w.player, w.enemies, w.state.score);
      && r.canvas == w.canvas && r.obstacles == w.obstacles
      && r.coins == Uncollected(w.player.Box(), w.coins)
      && (forall c :: c in r.coins <==> c in w.coins && !Overlaps(w.player.Box(), c.Box()))
      && r.state.coins == w.state.coins + (|w.coins| - |r.coins|)
      && r.state.coins == w.state.coins + Touched(w.player.Box(), w.coins)
      && r.enemies == o.enemies
      && r.player == w.player.(velocity := o.velocity)
      && r.state == w.state.(coins := r.state.coins, score := o.score,
                             running := w.state.running && !o.gameOver)
  {
    var box := w.player.Box();
    if HitsObstacle(box, w.obstacles) then
      w.(state := w.state.(running := false))
    else
      var kept := Uncollected(box, w.coins);
      UncollectedMembers(box, w.coins);
      UncollectedCount(box, w.coins);
      var o := ResolveEnemies(w.player, w.enemies, w.state.score);
      w.(coins := kept,
         enemies := o.enemies,
         player := w.player.(velocity := o.velocity),
         state := w.state.(coins := w.state.coins + (|w.coins| - |kept|),
                           score := o.score,
                           running := w.state.running && !o.gameOver))
  }
}
