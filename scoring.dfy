/**
 * The scoring system, as specification functions.  A pipe scores when it is
 * not yet passed, is a top pipe (`Position.y < 0`) and its right edge
 * (`Position.x + Collider.width`) lies strictly left of the first bird's x.
 * Each scoring pipe adds one to the score and is marked `passed`; every other
 * entity is left as it is.  The imperative pass that updates the session's
 * score is `Game.Session.UpdateScore`.
 */
module Scoring {
  import opened Wrappers
  import opened Components

  /** The scoring pass reads Position and Collider of every pipe. */
  predicate PipeReadable(e: Entity)
  {
    e.pipe ==> e.position.Some? && e.collider.Some?
  }

  predicate ScoresOn(e: Entity, birdX: real)
    requires PipeReadable(e)
  {
    e.pipe && !e.passed && e.position.value.y < 0.0
    && birdX > e.position.value.x + e.collider.value.width
  }

  /** Marking touches nothing but the `passed` flag, and sets it only on a scoring pipe. */
  function Mark(e: Entity, birdX: real): (m: Entity)
    requires PipeReadable(e)
    ensures m == e.(passed := m.passed)
    ensures m.passed <==> e.passed || ScoresOn(e, birdX)
  {
    if ScoresOn(e, birdX) then e.(passed := true) else e
  }

  /**
   * The collection after the pass: exactly the scoring pipes are marked
   * `passed`, in place, and every other entity is unchanged.
   */
  function MarkPassed(es: seq<Entity>, birdX: real): (r: seq<Entity>)
    requires PipesSolid(es)
    ensures |r| == |es|
    ensures forall i | 0 <= i < |es| && ScoresOn(es[i], birdX) :: r[i] == es[i].(passed := true)
    ensures forall i | 0 <= i < |es| && !ScoresOn(es[i], birdX) :: r[i] == es[i]
  {
    if es == [] then []
    else MarkPassed(es[..|es| - 1], birdX) + [Mark(es[|es| - 1], birdX)]
  }

  /** The number of scoring pipes: what the pass adds to the score. */
  function Gained(es: seq<Entity>, birdX: real): (g: nat)
    requires PipesSolid(es)
    ensures g <= |es|
  {
    if es == [] then 0
    else Gained(es[..|es| - 1], birdX) + (if ScoresOn(es[|es| - 1], birdX) then 1 else 0)
  }

  /** The number of entities flagged `passed`. */
  function PassedCount(es: seq<Entity>): nat
  {
    if es == [] then 0
    else PassedCount(es[..|es| - 1]) + (if es[|es| - 1].passed then 1 else 0)
  }

  /** Marking keeps every pipe readable and every entity well-formed. */
  lemma MarkPassedKeeps(es: seq<Entity>, birdX: real)
    requires PipesSolid(es)
    ensures PipesSolid(MarkPassed(es, birdX))
    ensures WellFormed(es) ==> WellFormed(MarkPassed(es, birdX))
  {
  }

  /**
   * What the pass adds to the score is exactly the number of entities it
   * newly flags `passed`: one flag per point.
   */
  lemma {:induction false} GainedCountsNewFlags(es: seq<Entity>, birdX: real)
    requires PipesSolid(es)
    ensures PassedCount(MarkPassed(es, birdX)) == PassedCount(es) + Gained(es, birdX)
  {
    if es != [] {
      var init := es[..|es| - 1];
      GainedCountsNewFlags(init, birdX);
      var r := MarkPassed(es, birdX);
      assert r[..|r| - 1] == MarkPassed(init, birdX);
    }
  }

  /** A second pass at the same bird position finds nothing left to score. */
  lemma {:induction false} MarkPassedIdempotent(es: seq<Entity>, birdX: real)
    requires PipesSolid(es)
    ensures PipesSolid(MarkPassed(es, birdX))
    ensures Gained(MarkPassed(es, birdX), birdX) == 0
    ensures MarkPassed(MarkPassed(es, birdX), birdX) == MarkPassed(es, birdX)
  {
    MarkPassedKeeps(es, birdX);
    if es != [] {
      var init := es[..|es| - 1];
      MarkPassedIdempotent(init, birdX);
      var r := MarkPassed(es, birdX);
      assert r[..|r| - 1] == MarkPassed(init, birdX);
    }
  }

  /** Two collections with the same birds, at the same positions, in the same places. */
  predicate SameBirds(a: seq<Entity>, b: seq<Entity>)
  {
    |a| == |b| && forall i | 0 <= i < |a| :: a[i].bird == b[i].bird && a[i].position == b[i].position
  }

  /** The first bird of two collections with the same birds stands at the same place. */
  lemma {:induction false} FindBirdSameBirds(a: seq<Entity>, b: seq<Entity>)
    requires SameBirds(a, b)
    ensures FindBird(a).Some? <==> FindBird(b).Some?
    ensures FindBird(a).Some? ==> FindBird(a).value.position == FindBird(b).value.position
  {
    if a != [] && !a[0].bird {
      FindBirdSameBirds(a[1..], b[1..]);
    }
  }

  /**
   * `updateScore` on values: with no bird the collection and score are
   * unchanged; otherwise the scoring pipes relative to the first bird's x are
   * marked and counted.
   */
  function ScoreSystem(es: seq<Entity>): (res: (seq<Entity>, nat))
    requires BirdLocated(es) && PipesSolid(es)
    ensures FindBird(es).None? ==> res == (es, 0)
    ensures FindBird(es).Some? ==>
      var birdX := FindBird(es).value.position.value.x;
      res == (MarkPassed(es, birdX), Gained(es, birdX))
    ensures BirdLocated(res.0) && PipesSolid(res.0)
    ensures WellFormed(es) ==> WellFormed(res.0)
  {
    match FindBird(es)
    case None => (es, 0)
    case Some(b) =>
      var birdX := b.position.value.x;
      MarkPassedKeeps(es, birdX);
      FindBirdSameBirds(es, MarkPassed(es, birdX));
      (MarkPassed(es, birdX), Gained(es, birdX))
  }

  /**
   * Scoring is idempotent: a second pass over its own result marks nothing
   * new and adds nothing to the score.
   */
  lemma ScoreSystemIdempotent(es: seq<Entity>)
    requires BirdLocated(es) && PipesSolid(es)
    ensures ScoreSystem(ScoreSystem(es).0) == (ScoreSystem(es).0, 0)
  {
    if FindBird(es).Some? {
      var birdX := FindBird(es).value.position.value.x;
      MarkPassedIdempotent(es, birdX);
      FindBirdSameBirds(es, MarkPassed(es, birdX));
    }
  }

  /** An unpassed top pipe at x = 50 of width 50 scores once against a bird at x = 101, and then never again. */
  lemma ScoringExample(bird: Entity, pipe: Entity)
    requires bird.bird && !bird.pipe && bird.position == Some(Position(101.0, 300.0))
    requires pipe.pipe && !pipe.bird && !pipe.passed && pipe.position.Some? && pipe.position.value.x == 50.0
    requires pipe.position.value.y < 0.0 && pipe.collider.Some? && pipe.collider.value.width == 50.0
    ensures ScoreSystem([bird, pipe]) == ([bird, pipe.(passed := true)], 1)
    ensures ScoreSystem(ScoreSystem([bird, pipe]).0).1 == 0
  {
    assert FindBird([bird, pipe]) == Some(bird);
    var es := [bird, pipe];
    assert es[..1] == [bird] && [bird][..0] == [];
    assert Gained([bird], 101.0) == 0;
    assert Gained(es, 101.0) == 1;
    var r := MarkPassed(es, 101.0);
    assert r[0] == bird && r[1] == pipe.(passed := true);
    assert r == [bird, pipe.(passed := true)];
    ScoreSystemIdempotent([bird, pipe]);
  }
}
