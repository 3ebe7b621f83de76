/**
 * The pipe systems: scrolling, despawning off-screen pipes and spawning a
 * new top/bottom pair every 150 frames.
 */
module Pipes {
  import opened Wrappers
  import opened Components

  const SCROLL_SPEED: real := 2.0
  const PIPE_WIDTH: real := 50.0
  const PIPE_HEIGHT: real := 400.0
  const GAP: real := 150.0
  const SPAWN_X: real := 800.0
  const SPAWN_PERIOD: nat := 150
  const TOP_PIPE_ID: int := 2
  const BOTTOM_PIPE_ID: int := 3

  /** An entity the scroll system acts on. */
  predicate Scrolls(e: Entity)
  {
    e.pipe && e.position.Some?
  }

  function Scroll(e: Entity): Entity
  {
    if Scrolls(e) then
      e.(position := Some(Position(e.position.value.x - SCROLL_SPEED, e.position.value.y)))
    else e
  }

  /** `movePipes`: every pipe with a Position moves 2 units left and keeps its height. */
  function MovePipes(es: seq<Entity>): (r: seq<Entity>)
    ensures |r| == |es|
    ensures forall i | 0 <= i < |es| && Scrolls(es[i]) ::
      && r[i] == es[i].(position := r[i].position)
      && r[i].position.Some?
      && es[i].position.value.x - r[i].position.value.x == 2.0
      && r[i].position.value.y == es[i].position.value.y
    ensures forall i | 0 <= i < |es| && !Scrolls(es[i]) :: r[i] == es[i]
    ensures WellFormed(es) ==> WellFormed(r)
  {
    seq(|es|, i requires 0 <= i < |es| => Scroll(es[i]))
  }

  /** A pipe whose right edge (at `x + 50`) has passed the left edge of the screen. */
  predicate Offscreen(e: Entity)
    requires e.pipe ==> e.position.Some?
  {
    e.pipe && e.position.value.x + PIPE_WIDTH < 0.0
  }

  /** `a` is `b` with some elements left out, the rest in their original order. */
  predicate IsSubsequence<T(==)>(a: seq<T>, b: seq<T>)
    decreases |b|
  {
    a == [] || (b != [] && ((a[0] == b[0] && IsSubsequence(a[1..], b[1..])) || IsSubsequence(a, b[1..])))
  }

  /** `removeOffscreenPipes`: `filter` with the test negated. */
  function RemoveOffscreenPipes(es: seq<Entity>): (r: seq<Entity>)
    requires PipesPlaced(es)
    ensures |r| <= |es|
  {
    if es == [] then []
    else
      var rest := RemoveOffscreenPipes(es[1..]);
      if Offscreen(es[0]) then rest else [es[0]] + rest
  }

  /**
   * The despawn pass keeps, in order, exactly the entities that are not
   * off-screen pipes, each as often as it occurred, and adds nothing.
   */
  lemma {:induction false} RemoveOffscreenPipesFilters(es: seq<Entity>)
    requires PipesPlaced(es)
    ensures IsSubsequence(RemoveOffscreenPipes(es), es)
    ensures forall e | e in es :: multiset(RemoveOffscreenPipes(es))[e] == if Offscreen(e) then 0 else multiset(es)[e]
    ensures forall e | e in RemoveOffscreenPipes(es) :: e in es
  {
    if es != [] {
      RemoveOffscreenPipesFilters(es[1..]);
      assert es == [es[0]] + es[1..];
    }
  }

  /**
   * What the despawn pass leaves behind: no off-screen pipe, and every
   * component the other systems read is still in place.
   */
  lemma RemoveOffscreenPipesKeeps(es: seq<Entity>)
    requires PipesPlaced(es)
    ensures PipesPlaced(RemoveOffscreenPipes(es))
    ensures forall i | 0 <= i < |RemoveOffscreenPipes(es)| :: !Offscreen(RemoveOffscreenPipes(es)[i])
    ensures WellFormed(es) ==> WellFormed(RemoveOffscreenPipes(es))
  {
    var r := RemoveOffscreenPipes(es);
    RemoveOffscreenPipesFilters(es);
    forall i | 0 <= i < |r|
      ensures r[i].pipe ==> r[i].position.Some?
      ensures WellFormed(es) ==> WellFormedEntity(r[i])
      ensures !Offscreen(r[i])
    {
      assert r[i] in es;
      var j :| 0 <= j < |es| && es[j] == r[i];
      assert multiset(r)[r[i]] > 0;
    }
  }

  /** The entities that are not pipes, in order. */
  function NonPipes(es: seq<Entity>): (r: seq<Entity>)
  {
    if es == [] then []
    else (if es[0].pipe then [] else [es[0]]) + NonPipes(es[1..])
  }

  /** Despawning never drops or reorders an entity that is not a pipe. */
  lemma {:induction false} RemoveKeepsNonPipes(es: seq<Entity>)
    requires PipesPlaced(es)
    ensures NonPipes(RemoveOffscreenPipes(es)) == NonPipes(es)
  {
    if es != [] {
      RemoveKeepsNonPipes(es[1..]);
      var rest := RemoveOffscreenPipes(es[1..]);
      if !Offscreen(es[0]) {
        assert ([es[0]] + rest)[1..] == rest;
      }
    }
  }

  /** Despawning twice removes nothing more than despawning once. */
  lemma {:induction false} RemoveOffscreenPipesIdempotent(es: seq<Entity>)
    requires PipesPlaced(es)
    ensures PipesPlaced(RemoveOffscreenPipes(es))
    ensures RemoveOffscreenPipes(RemoveOffscreenPipes(es)) == RemoveOffscreenPipes(es)
  {
    RemoveOffscreenPipesKeeps(es);
    if es != [] {
      RemoveOffscreenPipesKeeps(es[1..]);
      RemoveOffscreenPipesIdempotent(es[1..]);
      var rest := RemoveOffscreenPipes(es[1..]);
      if !Offscreen(es[0]) {
        assert ([es[0]] + rest)[1..] == rest;
      }
    }
  }

  /** The despawn boundary: a pipe at x = -50 stays, one at x = -51 goes. */
  lemma DespawnBoundary(e: Entity)
    requires e.pipe && e.position.Some?
    ensures e.position.value.x == -50.0 ==> RemoveOffscreenPipes([e]) == [e]
    ensures e.position.value.x == -51.0 ==> RemoveOffscreenPipes([e]) == []
  {
  }

  /** `n` frames of scrolling. */
  function MovePipesTimes(es: seq<Entity>, n: nat): (r: seq<Entity>)
  {
    if n == 0 then es else MovePipes(MovePipesTimes(es, n - 1))
  }

  /** After `n` frames of scrolling a pipe has moved exactly `2n` to the left and nothing else changed. */
  lemma {:induction false} MovePipesTimesShift(es: seq<Entity>, n: nat, i: nat)
    requires i < |es| && Scrolls(es[i])
    ensures |MovePipesTimes(es, n)| == |es|
    ensures var p := MovePipesTimes(es, n)[i];
      && p.position.Some?
      && p == es[i].(position := p.position)
      && p.position.value.x == es[i].position.value.x - 2.0 * (n as real)
      && p.position.value.y == es[i].position.value.y
  {
    if n > 0 {
      MovePipesTimesShift(es, n - 1, i);
    }
  }

  /**
   * A pipe spawned at x = 800 survives exactly 425 frames of scrolling: it is
   * despawned after `n` frames if and only if `n > 425`.
   */
  lemma SpawnedPipeLifetime(es: seq<Entity>, n: nat, i: nat)
    requires i < |es| && Scrolls(es[i]) && es[i].position.value.x == SPAWN_X
    ensures var p := MovePipesTimes(es, n);
      |p| == |es| && p[i].pipe && p[i].position.Some? && (Offscreen(p[i]) <==> n > 425)
  {
    MovePipesTimesShift(es, n, i);
  }

  /**
   * The height at which a spawned gap starts: `r * (400 - 150) + 50`, the
   * factor written out as the numeral 250 so that it stays linear in `r`.
   */
  function GapTop(r: real): (h: real)
    requires 0.0 <= r < 1.0
    ensures 50.0 <= h < 300.0
  {
    r * 250.0 + 50.0
  }

  function NewPipe(id: int, x: real, y: real): Entity
  {
    Entity(id, Some(Position(x, y)), None, None, Some(Collider(PIPE_WIDTH, PIPE_HEIGHT)), false, true, false)
  }

  /**
   * The pair spawned for random draw `r`: two fresh, unpassed pipes at x = 800
   * with 50 x 400 colliders; the top one ends where the gap begins at
   * `GapTop(r)` and the bottom one starts 150 below it.
   */
  predicate SpawnedPair(top: Entity, bottom: Entity, r: real)
    requires 0.0 <= r < 1.0
  {
    && top.id == TOP_PIPE_ID && bottom.id == BOTTOM_PIPE_ID
    && top.pipe && !top.bird && !top.passed && top.velocity.None? && top.gravity.None?
    && bottom.pipe && !bottom.bird && !bottom.passed && bottom.velocity.None? && bottom.gravity.None?
    && top.collider == Some(Collider(50.0, 400.0)) && bottom.collider == Some(Collider(50.0, 400.0))
    && top.position.Some? && bottom.position.Some?
    && top.position.value.x == 800.0 && bottom.position.value.x == 800.0
    && top.position.value.y + 400.0 == GapTop(r)
    && bottom.position.value.y - (top.position.value.y + 400.0) == 150.0
  }

  /**
   * `generatePipes`: on every frame count divisible by 150 the input is kept
   * unchanged and exactly one spawned pair is appended after it; on every
   * other frame count the input is returned as it is.
   */
  function GeneratePipes(es: seq<Entity>, frameCount: nat, r: real): (out: seq<Entity>)
    requires 0.0 <= r < 1.0
    ensures frameCount % SPAWN_PERIOD != 0 ==> out == es
    ensures frameCount % SPAWN_PERIOD == 0 ==>
      && |out| == |es| + 2
      && out[..|es|] == es
      && SpawnedPair(out[|es|], out[|es| + 1], r)
    ensures WellFormed(es) ==> WellFormed(out)
    ensures PipesPlaced(es) ==> PipesPlaced(out)
  {
    if frameCount % SPAWN_PERIOD == 0 then
      var h := GapTop(r);
      es + [NewPipe(TOP_PIPE_ID, SPAWN_X, h - PIPE_HEIGHT), NewPipe(BOTTOM_PIPE_ID, SPAWN_X, h + GAP)]
    else es
  }

  /**
   * Of a spawned pair only the top pipe has `y < 0`, the mark the scoring
   * system uses for top pipes, so each pair can score at most once; and the
   * gap lies inside the 600-unit-high screen.
   */
  lemma SpawnedPairMarksOneTop(top: Entity, bottom: Entity, r: real)
    requires 0.0 <= r < 1.0 && SpawnedPair(top, bottom, r)
    ensures top.position.value.y < 0.0 && bottom.position.value.y >= 0.0
    ensures 0.0 <= top.position.value.y + 400.0 && bottom.position.value.y <= 600.0
  {
  }
}
