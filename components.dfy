/**
 * Components and entities of the entity-component simulation.
 *
 * A component is plain data; an entity is an id plus an optional slot for
 * each component kind, the Bird and Pipe tags, and the `passed` flag that
 * only the scoring system sets.  All coordinates are exact reals.
 */
module Components {
  import opened Wrappers

  datatype Position = Position(x: real, y: real)
  datatype Velocity = Velocity(dx: real, dy: real)
  datatype Gravity = Gravity(value: real)
  datatype Collider = Collider(width: real, height: real)

  /** An entity as built by `createEntity(id, components)`: absent components are None. */
  datatype Entity = Entity(
    id: int,
    position: Option<Position>,
    velocity: Option<Velocity>,
    gravity: Option<Gravity>,
    collider: Option<Collider>,
    bird: bool,
    pipe: bool,
    passed: bool)

  const BIRD_ID: int := 1

  /** The bird every session starts with. */
  function CreateBird(): (b: Entity)
    ensures b.bird && !b.pipe && !b.passed && WellFormedEntity(b)
  {
    Entity(BIRD_ID, Some(Position(100.0, 250.0)), Some(Velocity(0.0, 0.0)),
           Some(Gravity(0.125)), Some(Collider(20.0, 20.0)), true, false, false)
  }

  /** Every pipe carries Position and Collider; every bird Position, Velocity and Collider. */
  predicate WellFormedEntity(e: Entity)
  {
    && (e.pipe ==> e.position.Some? && e.collider.Some?)
    && (e.bird ==> e.position.Some? && e.velocity.Some? && e.collider.Some?)
  }

  predicate WellFormed(es: seq<Entity>)
  {
    forall i | 0 <= i < |es| :: WellFormedEntity(es[i])
  }

  /** What the despawn filter reads without checking: the Position of every pipe. */
  predicate PipesPlaced(es: seq<Entity>)
  {
    forall i | 0 <= i < |es| && es[i].pipe :: es[i].position.Some?
  }

  /** What the collision and scoring passes read without checking on pipes. */
  predicate PipesSolid(es: seq<Entity>)
  {
    forall i | 0 <= i < |es| && es[i].pipe :: es[i].position.Some? && es[i].collider.Some?
  }

  /** What a flap reads without checking: the Velocity of every bird. */
  predicate BirdsCanFlap(es: seq<Entity>)
  {
    forall i | 0 <= i < |es| && es[i].bird :: es[i].velocity.Some?
  }

  /** `entities.find(entity => entity.Bird)`: the first bird, if there is one. */
  function FindBird(es: seq<Entity>): (r: Option<Entity>)
    ensures r.Some? ==> r.value.bird
  {
    if es == [] then None
    else if es[0].bird then Some(es[0])
    else FindBird(es[1..])
  }

  /**
   * `find` returns the first bird: nothing exactly when no entity is a bird,
   * otherwise the entity at the lowest index that is one.
   */
  lemma {:induction false} FindBirdFirst(es: seq<Entity>)
    ensures FindBird(es).None? <==> forall i | 0 <= i < |es| :: !es[i].bird
    ensures FindBird(es).Some? ==>
      exists i | 0 <= i < |es| :: es[i] == FindBird(es).value && forall j | 0 <= j < i :: !es[j].bird
  {
    if es != [] && !es[0].bird {
      var tail := es[1..];
      assert forall i | 0 <= i < |tail| :: tail[i] == es[i + 1];
      FindBirdFirst(tail);
      if FindBird(tail).Some? {
        var i :| 0 <= i < |tail| && tail[i] == FindBird(tail).value && forall j | 0 <= j < i :: !tail[j].bird;
        assert es[i + 1] == FindBird(es).value;
        forall j | 0 <= j < i + 1
          ensures !es[j].bird
        {
          if j > 0 {
            assert es[j] == tail[j - 1];
          }
        }
      }
    }
  }

  /** The first bird, if any, carries the Position and Collider the collision pass reads. */
  predicate BirdReady(es: seq<Entity>)
  {
    FindBird(es).Some? ==> FindBird(es).value.position.Some? && FindBird(es).value.collider.Some?
  }

  /** The first bird, if any, carries the Position the scoring pass reads. */
  predicate BirdLocated(es: seq<Entity>)
  {
    FindBird(es).Some? ==> FindBird(es).value.position.Some?
  }

  /** A well-formed collection satisfies every narrower precondition of the systems. */
  lemma WellFormedMeetsSystems(es: seq<Entity>)
    requires WellFormed(es)
    ensures PipesPlaced(es) && PipesSolid(es) && BirdsCanFlap(es)
    ensures BirdReady(es) && BirdLocated(es)
  {
    FindBirdFirst(es);
    if FindBird(es).Some? {
      var i :| 0 <= i < |es| && es[i] == FindBird(es).value && forall j | 0 <= j < i :: !es[j].bird;
      assert WellFormedEntity(es[i]);
    }
  }
}
