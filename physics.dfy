/**
 * The physics and input systems: gravity, position integration and the flap.
 * Each is a `map` over the entity collection that rewrites one component of
 * the entities it applies to and returns every other entity as it was.
 */
module Physics {
  import opened Wrappers
  import opened Components

  /** An entity the gravity system acts on. */
  predicate Falls(e: Entity)
  {
    e.gravity.Some? && e.velocity.Some?
  }

  /** An entity the position system acts on. */
  predicate Moves(e: Entity)
  {
    e.position.Some? && e.velocity.Some?
  }

  function Accelerate(e: Entity): Entity
  {
    if Falls(e) then
      e.(velocity := Some(Velocity(e.velocity.value.dx, e.velocity.value.dy + e.gravity.value.value)))
    else e
  }

  /** `applyGravity`: every entity with Gravity and Velocity gains `Gravity.value` on `dy`. */
  function ApplyGravity(es: seq<Entity>): (r: seq<Entity>)
    ensures |r| == |es|
    ensures forall i | 0 <= i < |es| && Falls(es[i]) ::
      && r[i] == es[i].(velocity := r[i].velocity)
      && r[i].velocity.Some?
      && r[i].velocity.value.dx == es[i].velocity.value.dx
      && r[i].velocity.value.dy - es[i].velocity.value.dy == es[i].gravity.value.value
    ensures forall i | 0 <= i < |es| && !Falls(es[i]) :: r[i] == es[i]
    ensures WellFormed(es) ==> WellFormed(r)
  {
    seq(|es|, i requires 0 <= i < |es| => Accelerate(es[i]))
  }

  function Integrate(e: Entity): Entity
  {
    if Moves(e) then
      e.(position := Some(Position(e.position.value.x + e.velocity.value.dx,
                                   e.position.value.y + e.velocity.value.dy)))
    else e
  }

  /** `updatePosition`: every entity with Position and Velocity moves by its Velocity. */
  function UpdatePosition(es: seq<Entity>): (r: seq<Entity>)
    ensures |r| == |es|
    ensures forall i | 0 <= i < |es| && Moves(es[i]) ::
      && r[i] == es[i].(position := r[i].position)
      && r[i].position.Some?
      && r[i].position.value.x - es[i].position.value.x == es[i].velocity.value.dx
      && r[i].position.value.y - es[i].position.value.y == es[i].velocity.value.dy
    ensures forall i | 0 <= i < |es| && !Moves(es[i]) :: r[i] == es[i]
    ensures WellFormed(es) ==> WellFormed(r)
  {
    seq(|es|, i requires 0 <= i < |es| => Integrate(es[i]))
  }

  const FLAP: string := "FLAP"
  const FLAP_SPEED: real := -4.0

  function Flap(e: Entity, input: string): Entity
    requires e.bird && input == FLAP ==> e.velocity.Some?
  {
    if e.bird && input == FLAP then
      e.(velocity := Some(Velocity(e.velocity.value.dx, FLAP_SPEED)))
    else e
  }

  /**
   * `handleInput`: on "FLAP" every bird gets `dy = -4` and keeps its `dx`;
   * any other input leaves the collection as it is.
   */
  function HandleInput(es: seq<Entity>, input: string): (r: seq<Entity>)
    requires input == FLAP ==> BirdsCanFlap(es)
    ensures input != FLAP ==> r == es
    ensures |r| == |es|
    ensures forall i | 0 <= i < |es| && es[i].bird && input == FLAP ::
      && r[i] == es[i].(velocity := r[i].velocity)
      && r[i].velocity == Some(Velocity(es[i].velocity.value.dx, -4.0))
    ensures forall i | 0 <= i < |es| && !es[i].bird :: r[i] == es[i]
    ensures WellFormed(es) ==> WellFormed(r)
  {
    seq(|es|, i requires 0 <= i < |es| => Flap(es[i], input))
  }

  /** Flapping twice in a row is the same as flapping once. */
  lemma HandleInputIdempotent(es: seq<Entity>, input: string)
    requires input == FLAP ==> BirdsCanFlap(es)
    ensures input == FLAP ==> BirdsCanFlap(HandleInput(es, input))
    ensures HandleInput(HandleInput(es, input), input) == HandleInput(es, input)
  {
  }

  /** `n` applications of the gravity system. */
  function ApplyGravityTimes(es: seq<Entity>, n: nat): (r: seq<Entity>)
  {
    if n == 0 then es else ApplyGravity(ApplyGravityTimes(es, n - 1))
  }

  /**
   * Gravity accumulates linearly: after `n` frames of gravity a falling entity
   * has gained exactly `n * Gravity.value` on `dy`, with `dx` and every other
   * component as before.
   */
  lemma {:induction false} ApplyGravityTimesLinear(es: seq<Entity>, n: nat, i: nat)
    requires i < |es| && Falls(es[i])
    ensures |ApplyGravityTimes(es, n)| == |es|
    ensures var f := ApplyGravityTimes(es, n)[i];
      && f.velocity.Some?
      && f == es[i].(velocity := f.velocity)
      && f.velocity.value.dx == es[i].velocity.value.dx
      && f.velocity.value.dy == es[i].velocity.value.dy + (n as real) * es[i].gravity.value.value
  {
    if n > 0 {
      ApplyGravityTimesLinear(es, n - 1, i);
    }
  }
}
