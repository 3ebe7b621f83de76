/**
 * The collision system: a pure predicate over the entity collection.  The
 * bird is a circle of radius `Collider.width / 2` centred at its Position;
 * it collides when it leaves the 600-unit-high screen vertically or when it
 * touches the rectangle of any pipe.  The circle-rectangle test clamps the
 * centre into the rectangle and compares squared distances, so it needs no
 * square root.
 */
module Collision {
  import opened Wrappers
  import opened Components
  import opened Pipes

  const SCREEN_HEIGHT: real := 600.0

  function Max(a: real, b: real): real { if a >= b then a else b }
  function Min(a: real, b: real): real { if a <= b then a else b }

  /** `Math.max(lo, Math.min(v, hi))`: the point of [lo, hi] nearest to `v`. */
  function Clamp(v: real, lo: real, hi: real): (c: real)
    ensures lo <= hi ==> lo <= c <= hi
    ensures lo <= v <= hi ==> c == v
  {
    Max(lo, Min(v, hi))
  }

  /** The squared distance between (x1, y1) and (x2, y2). */
  function Dist2(x1: real, y1: real, x2: real, y2: real): real
  {
    (x1 - x2) * (x1 - x2) + (y1 - y2) * (y1 - y2)
  }

  predicate InRect(x: real, y: real, px: real, py: real, pw: real, ph: real)
  {
    px <= x <= px + pw && py <= y <= py + ph
  }

  /**
   * The clamped circle-rectangle test.  A centre inside the rectangle always
   * collides, and a squared distance equal to the squared radius counts.
   */
  function HitsRect(cx: real, cy: real, radius: real, px: real, py: real, pw: real, ph: real): (hit: bool)
    ensures InRect(cx, cy, px, py, pw, ph) ==> hit
  {
    var qx := Clamp(cx, px, px + pw);
    var qy := Clamp(cy, py, py + ph);
    Dist2(cx, cy, qx, qy) <= radius * radius
  }

  /** The geometric meaning: some point of the rectangle lies within the circle. */
  ghost predicate Touches(cx: real, cy: real, radius: real, px: real, py: real, pw: real, ph: real)
  {
    exists qx, qy :: InRect(qx, qy, px, py, pw, ph) && Dist2(cx, cy, qx, qy) <= radius * radius
  }

  lemma SquareMonotone(a: real, b: real)
    requires 0.0 <= a <= b
    ensures a * a <= b * b
  {
    assert a * a <= a * b;
    assert a * b <= b * b;
  }

  lemma SquareStrict(a: real, b: real)
    requires 0.0 <= a < b
    ensures a * a < b * b
  {
    var ab := a * b;
    assert a * a <= ab;
    assert (b - a) * b > 0.0;
    assert ab < b * b;
  }

  /** A circle whose centre is more than `radius` below a rectangle's bottom edge misses it. */
  lemma ClearBelow(cx: real, cy: real, radius: real, px: real, py: real, pw: real, ph: real)
    requires radius >= 0.0 && ph >= 0.0 && cy - (py + ph) > radius
    ensures !HitsRect(cx, cy, radius, px, py, pw, ph)
  {
    var qx := Clamp(cx, px, px + pw);
    assert Clamp(cy, py, py + ph) == py + ph;
    SquareStrict(radius, cy - (py + ph));
    assert (cx - qx) * (cx - qx) >= 0.0;
  }

  /** A circle whose centre is more than `radius` above a rectangle's top edge misses it. */
  lemma ClearAbove(cx: real, cy: real, radius: real, px: real, py: real, pw: real, ph: real)
    requires radius >= 0.0 && ph >= 0.0 && py - cy > radius
    ensures !HitsRect(cx, cy, radius, px, py, pw, ph)
  {
    var qx := Clamp(cx, px, px + pw);
    assert Clamp(cy, py, py + ph) == py;
    SquareStrict(radius, py - cy);
    assert (cy - py) * (cy - py) == (py - cy) * (py - cy);
    assert (cx - qx) * (cx - qx) >= 0.0;
  }

  /** On one axis the clamped coordinate is at least as near to `v` as any point of [lo, hi]. */
  lemma ClampIsNearest(v: real, lo: real, hi: real, q: real)
    requires lo <= q <= hi
    ensures (v - Clamp(v, lo, hi)) * (v - Clamp(v, lo, hi)) <= (v - q) * (v - q)
  {
    var c := Clamp(v, lo, hi);
    if v < lo {
      SquareMonotone(c - v, q - v);
      assert (v - c) * (v - c) == (c - v) * (c - v);
      assert (v - q) * (v - q) == (q - v) * (q - v);
    } else if v > hi {
      SquareMonotone(v - c, v - q);
    } else {
      assert c == v;
    }
  }

  /** The clamped point is the point of the rectangle nearest to the centre. */
  lemma ClampedPointIsNearest(cx: real, cy: real, px: real, py: real, pw: real, ph: real, qx: real, qy: real)
    requires InRect(qx, qy, px, py, pw, ph)
    ensures Dist2(cx, cy, Clamp(cx, px, px + pw), Clamp(cy, py, py + ph)) <= Dist2(cx, cy, qx, qy)
  {
    ClampIsNearest(cx, px, px + pw, qx);
    ClampIsNearest(cy, py, py + ph, qy);
  }

  /**
   * For a rectangle of non-negative size, the clamped test reports a hit
   * exactly when some point of the rectangle lies within the circle.
   */
  lemma HitsRectIffTouches(cx: real, cy: real, radius: real, px: real, py: real, pw: real, ph: real)
    requires pw >= 0.0 && ph >= 0.0
    ensures HitsRect(cx, cy, radius, px, py, pw, ph) <==> Touches(cx, cy, radius, px, py, pw, ph)
  {
    var qx := Clamp(cx, px, px + pw);
    var qy := Clamp(cy, py, py + ph);
    if HitsRect(cx, cy, radius, px, py, pw, ph) {
      assert InRect(qx, qy, px, py, pw, ph);
    }
    if Touches(cx, cy, radius, px, py, pw, ph) {
      var x, y :| InRect(x, y, px, py, pw, ph) && Dist2(cx, cy, x, y) <= radius * radius;
      ClampedPointIsNearest(cx, cy, px, py, pw, ph, x, y);
    }
  }

  /**
   * Tangency counts: a circle whose centre is level with a rectangle's side
   * and exactly `radius` to its left collides, and one any further left does not.
   */
  lemma TangentCollides(cy: real, radius: real, px: real, py: real, pw: real, ph: real, d: real)
    requires radius >= 0.0 && pw >= 0.0 && py <= cy <= py + ph && d > 0.0
    ensures HitsRect(px - radius, cy, radius, px, py, pw, ph)
    ensures !HitsRect(px - radius - d, cy, radius, px, py, pw, ph)
  {
    var cx := px - radius - d;
    assert Clamp(cx, px, px + pw) == px;
    assert Clamp(cy, py, py + ph) == cy;
    var e := px - cx;
    SquareStrict(radius, e);
    assert (cx - px) * (cx - px) == e * e;
    assert Dist2(cx, cy, Clamp(cx, px, px + pw), Clamp(cy, py, py + ph)) == e * e;
    assert e * e > radius * radius;
    assert !HitsRect(cx, cy, radius, px, py, pw, ph);
  }

  function Radius(b: Entity): real
    requires b.collider.Some?
  {
    b.collider.value.width / 2.0
  }

  /** The bird's circle crosses the top (y = 0) or the bottom (y = 600) of the screen. */
  predicate OutOfBounds(b: Entity)
    requires b.position.Some? && b.collider.Some?
    ensures Radius(b) >= 0.0 && (b.position.value.y < 0.0 || b.position.value.y > SCREEN_HEIGHT) ==> OutOfBounds(b)
  {
    b.position.value.y - Radius(b) < 0.0 || b.position.value.y + Radius(b) > SCREEN_HEIGHT
  }

  /** The bird's circle against the pipe's rectangle, whose top-left corner is the pipe's Position. */
  predicate HitsPipe(b: Entity, p: Entity)
    requires b.position.Some? && b.collider.Some? && p.position.Some? && p.collider.Some?
    ensures
      var (c, q) := (b.position.value, p.position.value);
      InRect(c.x, c.y, q.x, q.y, p.collider.value.width, p.collider.value.height) ==> HitsPipe(b, p)
  {
    HitsRect(b.position.value.x, b.position.value.y, Radius(b),
             p.position.value.x, p.position.value.y, p.collider.value.width, p.collider.value.height)
  }

  /** `entities.some(...)` over the pipes: does the bird's circle hit one of them? */
  function AnyPipeHit(es: seq<Entity>, b: Entity): bool
    requires b.position.Some? && b.collider.Some? && PipesSolid(es)
  {
    if es == [] then false
    else
      assert PipesSolid(es[1..]) by {
        assert forall i | 0 <= i < |es[1..]| :: es[1..][i] == es[i + 1];
      }
      (es[0].pipe && HitsPipe(b, es[0])) || AnyPipeHit(es[1..], b)
  }

  /** `some` is true exactly when the bird hits some pipe of the collection. */
  lemma {:induction false} AnyPipeHitMeaning(es: seq<Entity>, b: Entity)
    requires b.position.Some? && b.collider.Some? && PipesSolid(es)
    ensures AnyPipeHit(es, b) <==> exists i | 0 <= i < |es| :: es[i].pipe && HitsPipe(b, es[i])
  {
    if es != [] {
      var tail := es[1..];
      assert forall i | 0 <= i < |tail| :: tail[i] == es[i + 1];
      AnyPipeHitMeaning(tail, b);
      if exists i | 0 <= i < |es| :: es[i].pipe && HitsPipe(b, es[i]) {
        var i :| 0 <= i < |es| && es[i].pipe && HitsPipe(b, es[i]);
        if i > 0 {
          assert tail[i - 1] == es[i];
        }
      }
    }
  }

  /**
   * `detectCollision`: no bird means no collision; otherwise the first bird
   * collides when it is out of bounds or hits any pipe.
   */
  function DetectCollision(es: seq<Entity>): (hit: bool)
    requires BirdReady(es) && PipesSolid(es)
    ensures FindBird(es).None? ==> !hit
    ensures FindBird(es).Some? && OutOfBounds(FindBird(es).value) ==> hit
  {
    match FindBird(es)
    case None => false
    case Some(b) => OutOfBounds(b) || AnyPipeHit(es, b)
  }

  /** A bird inside the screen collides exactly when it hits some pipe. */
  lemma DetectCollisionInBounds(es: seq<Entity>)
    requires BirdReady(es) && PipesSolid(es)
    requires FindBird(es).Some? && !OutOfBounds(FindBird(es).value)
    ensures DetectCollision(es) <==> exists i | 0 <= i < |es| :: es[i].pipe && HitsPipe(FindBird(es).value, es[i])
  {
    AnyPipeHitMeaning(es, FindBird(es).value);
  }

  /** Every pipe's collider has non-negative width and height. */
  predicate PipesUpright(es: seq<Entity>)
    requires PipesSolid(es)
  {
    forall i | 0 <= i < |es| && es[i].pipe :: es[i].collider.value.width >= 0.0 && es[i].collider.value.height >= 0.0
  }

  /** Some point of the pipe's rectangle lies within the bird's circle. */
  ghost predicate TouchesPipe(b: Entity, p: Entity)
    requires b.position.Some? && b.collider.Some? && p.position.Some? && p.collider.Some?
  {
    Touches(b.position.value.x, b.position.value.y, Radius(b),
            p.position.value.x, p.position.value.y, p.collider.value.width, p.collider.value.height)
  }

  /**
   * With upright pipes, an in-bounds bird collides exactly when some point
   * of some pipe's rectangle lies within its circle.
   */
  lemma DetectCollisionGeometric(es: seq<Entity>)
    requires BirdReady(es) && PipesSolid(es) && PipesUpright(es)
    requires FindBird(es).Some? && !OutOfBounds(FindBird(es).value)
    ensures DetectCollision(es) <==> exists i | 0 <= i < |es| :: es[i].pipe && TouchesPipe(FindBird(es).value, es[i])
  {
    var b := FindBird(es).value;
    DetectCollisionInBounds(es);
    forall i | 0 <= i < |es| && es[i].pipe
      ensures HitsPipe(b, es[i]) <==> TouchesPipe(b, es[i])
    {
      HitsRectIffTouches(b.position.value.x, b.position.value.y, Radius(b),
                         es[i].position.value.x, es[i].position.value.y,
                         es[i].collider.value.width, es[i].collider.value.height);
    }
  }

  /**
   * A spawned pair leaves a passable gap: a bird whose circle lies strictly
   * between the bottom edge of the top pipe and the top edge of the bottom
   * pipe hits neither, wherever it is horizontally.
   */
  lemma SpawnedGapIsClear(b: Entity, top: Entity, bottom: Entity, r: real)
    requires 0.0 <= r < 1.0 && SpawnedPair(top, bottom, r)
    requires b.position.Some? && b.collider.Some? && Radius(b) >= 0.0
    requires GapTop(r) + Radius(b) < b.position.value.y < GapTop(r) + GAP - Radius(b)
    ensures !HitsPipe(b, top) && !HitsPipe(b, bottom)
  {
    ClearBelow(b.position.value.x, b.position.value.y, Radius(b),
               top.position.value.x, top.position.value.y, top.collider.value.width, top.collider.value.height);
    ClearAbove(b.position.value.x, b.position.value.y, Radius(b),
               bottom.position.value.x, bottom.position.value.y, bottom.collider.value.width, bottom.collider.value.height);
  }

  /** The fresh bird at (100, 250) with radius 10 is inside the screen and, alone, collides with nothing. */
  lemma FreshBirdIsSafe()
    ensures !DetectCollision([CreateBird()])
  {
    assert FindBird([CreateBird()]) == Some(CreateBird());
  }

  /** A bird whose centre is 5 below the top edge with radius 10 collides with the top of the screen. */
  lemma BirdAtTopCollides(b: Entity)
    requires b.bird && b.position.Some? && b.collider.Some?
    requires b.position.value.y == 5.0 && b.collider.value.width == 20.0
    ensures DetectCollision([b])
  {
    assert FindBird([b]) == Some(b);
  }
}
