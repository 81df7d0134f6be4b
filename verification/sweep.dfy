/** The update half of the three per-kind sweeps: every entity scrolls left,
    then entities that left the screen (and, for enemies, defeated ones) are
    dropped. */
module EntitySweep {
  import opened WorldState
  import Splice

  function Scroll(e: Entity, dx: real): (r: Entity)
    ensures r.x == e.x - dx
    ensures r == e.(x := r.x)
  {
    e.(x := e.x - dx)
  }

  /** Whether an already scrolled entity stays in its list. Enemies are swept
      with `dropDefeated`; obstacles and coins without it. */
  predicate Retained(e: Entity, dropDefeated: bool) {
    e.x + e.width >= 0.0 && !(dropDefeated && e.defeated)
  }

  /** Reference meaning of a sweep: scroll every entity, then keep the
      retained ones in their original order. */
  function Swept(es: seq<Entity>, dx: real, dropDefeated: bool): (r: seq<Entity>)
    ensures |r| <= |es|
    ensures forall k :: 0 <= k < |r| ==> Retained(r[k], dropDefeated)
    decreases |es|
  {
    if es == [] then []
    else
      var e := Scroll(es[0], dx);
      (if Retained(e, dropDefeated) then [e] else []) + Swept(es[1..], dx, dropDefeated)
  }

  /** The loop of `updateAndDrawObstacles` and its siblings: index i runs
      from the end down to 0; element i is scrolled in place and spliced out
      when it is off screen or, for enemies, defeated. */
  method SweepBackward(es: seq<Entity>, dx: real, dropDefeated: bool) returns (out: seq<Entity>)
    ensures out == Swept(es, dx, dropDefeated)
  {
    out := es;
    var i := |es|;
    assert es[..i] == es && es[i..] == [];
    while i > 0
      invariant i <= |es|
      invariant out == es[..i] + Swept(es[i..], dx, dropDefeated)
    {
      i := i - 1;
      SweepStep(es, i, dx, dropDefeated, out);
      var e := Scroll(out[i], dx);
      out := out[i := e];
      if e.x + e.width < 0.0 {
        out := out[..i] + out[i + 1..];
      } else if dropDefeated && e.defeated {
        out := out[..i] + out[i + 1..];
      }
    }
    assert es[0..] == es;
  }

  /** One iteration of the backward loop re-establishes its invariant one
      position further left, whether element i is kept or spliced out:
      nothing is skipped and nothing is visited twice. */
  lemma SweepStep(es: seq<Entity>, i: nat, dx: real, dropDefeated: bool, cur: seq<Entity>)
    requires i < |es|
    requires cur == es[..i + 1] + Swept(es[i + 1..], dx, dropDefeated)
    ensures i < |cur| && cur[i] == es[i]
    ensures var e := Scroll(es[i], dx);
      Retained(e, dropDefeated) ==> cur[i := e] == es[..i] + Swept(es[i..], dx, dropDefeated)
    ensures var e := Scroll(es[i], dx);
      !Retained(e, dropDefeated) ==>
        cur[i := e][..i] + cur[i := e][i + 1..] == es[..i] + Swept(es[i..], dx, dropDefeated)
  {
    Splice.BackwardStep(es, i, Scroll(es[i], dx), Swept(es[i + 1..], dx, dropDefeated), cur);
    SweptSuffix(es, i, dx, dropDefeated);
  }

  /** Sweeping the suffix from i handles element i, then the rest. */
  lemma SweptSuffix(es: seq<Entity>, i: int, dx: real, dropDefeated: bool)
    requires 0 <= i < |es|
    ensures var e := Scroll(es[i], dx);
      Swept(es[i..], dx, dropDefeated)
        == (if Retained(e, dropDefeated) then [e] else []) + Swept(es[i + 1..], dx, dropDefeated)
  {
    assert es[i..][1..] == es[i + 1..];
  }

  /** Sweeping distributes over concatenation: the order of survivors is the
      order of the original list. */
  lemma {:induction false} SweptAppend(a: seq<Entity>, b: seq<Entity>, dx: real, dropDefeated: bool)
    ensures Swept(a + b, dx, dropDefeated) == Swept(a, dx, dropDefeated) + Swept(b, dx, dropDefeated)
    decreases |a|
  {
    if a == [] {
      assert a + b == b;
    } else {
      assert (a + b)[1..] == a[1..] + b;
      SweptAppend(a[1..], b, dx, dropDefeated);
    }
  }

  /** An entity survives a sweep exactly when it is the scrolled copy of some
      entity of the list and it is retained. */
  lemma {:induction false} SweptMembers(es: seq<Entity>, dx: real, dropDefeated: bool, e: Entity)
    ensures e in Swept(es, dx, dropDefeated) <==>
      Retained(e, dropDefeated) && exists j :: 0 <= j < |es| && e == Scroll(es[j], dx)
    decreases |es|
  {
    if es != [] {
      SweptMembers(es[1..], dx, dropDefeated, e);
      if exists j :: 0 <= j < |es| && e == Scroll(es[j], dx) {
        var j :| 0 <= j < |es| && e == Scroll(es[j], dx);
        if j > 0 {
          assert e == Scroll(es[1..][j - 1], dx);
        }
      }
      if exists j :: 0 <= j < |es[1..]| && e == Scroll(es[1..][j], dx) {
        var j :| 0 <= j < |es[1..]| && e == Scroll(es[1..][j], dx);
        assert e == Scroll(es[j + 1], dx);
      }
    }
  }

  /** When nothing leaves the screen, a sweep only scrolls: same length, and
      the k-th survivor is the k-th entity moved left by dx. */
  lemma {:induction false} SweptKeepsAll(es: seq<Entity>, dx: real, dropDefeated: bool)
    requires forall j :: 0 <= j < |es| ==> Retained(Scroll(es[j], dx), dropDefeated)
    ensures |Swept(es, dx, dropDefeated)| == |es|
    ensures forall k :: 0 <= k < |es| ==> Swept(es, dx, dropDefeated)[k] == Scroll(es[k], dx)
    decreases |es|
  {
    if es != [] {
      SweptKeepsAll(es[1..], dx, dropDefeated);
    }
  }

  /** An entity whose scrolled copy is off screen (or, for enemies, that is
      defeated) is dropped, whatever surrounds it. */
  lemma SweptDropsUnretained(a: seq<Entity>, e: Entity, b: seq<Entity>, dx: real, dropDefeated: bool)
    requires !Retained(Scroll(e, dx), dropDefeated)
    ensures Swept(a + [e] + b, dx, dropDefeated) == Swept(a, dx, dropDefeated) + Swept(b, dx, dropDefeated)
  {
    SweptAppend(a + [e], b, dx, dropDefeated);
    SweptAppend(a, [e], dx, dropDefeated);
    assert Swept([e], dx, dropDefeated) == [] + Swept([e][1..], dx, dropDefeated);
  }
}
