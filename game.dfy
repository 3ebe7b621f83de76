/**
 * The game session: the entity collection, the frame counter and the score,
 * advanced one frame at a time by composing the systems in a fixed order,
 * and reset wholesale when the bird collides.
 */
module Game {
  import opened Wrappers
  import opened Components
  import opened Physics
  import opened Pipes
  import opened Collision
  import opened Scoring

  /** The session state as a value. */
  datatype World = World(entities: seq<Entity>, frameCount: nat, score: nat)

  /** The state `resetGame` establishes: one fresh bird, frame 0, score 0. */
  function Initial(): (w: World)
    ensures WellFormed(w.entities)
  {
    World([CreateBird()], 0, 0)
  }

  /**
   * The first four systems of a frame, in the order `gameLoop` reduces over
   * them: gravity, position, scrolling and despawning.
   */
  function Moved(es: seq<Entity>): (kept: seq<Entity>)
    requires WellFormed(es)
    ensures WellFormed(kept)
  {
    var moved := MovePipes(UpdatePosition(ApplyGravity(es)));
    WellFormedMeetsSystems(moved);
    RemoveOffscreenPipesKeeps(moved);
    RemoveOffscreenPipes(moved)
  }

  /**
   * One frame, numbered `frame`: the five systems of the `systems` array
   * (gravity, position, scrolling, despawning and scoring, in that order),
   * then spawning.  Returns
   * the new collection and the points scored.
   */
  function Advance(es: seq<Entity>, frame: nat, r: real): (res: (seq<Entity>, nat))
    requires WellFormed(es) && 0.0 <= r < 1.0
    ensures WellFormed(res.0)
  {
    var kept := Moved(es);
    WellFormedMeetsSystems(kept);
    var scored := ScoreSystem(kept);
    (GeneratePipes(scored.0, frame, r), scored.1)
  }

  /**
   * One frame of `gameLoop` on values: the counter is incremented before the
   * systems run, so spawning sees the new frame number; a collision resets
   * the whole state and is reported.
   */
  function Frame(w: World, r: real): (res: (World, bool))
    requires WellFormed(w.entities) && 0.0 <= r < 1.0
    ensures WellFormed(res.0.entities)
    ensures res.1 ==> res.0 == Initial()
    ensures !res.1 ==> res.0.frameCount == w.frameCount + 1 && res.0.score >= w.score
  {
    Conclude(w, Advance(w.entities, w.frameCount + 1, r))
  }

  /** The end of a frame: reset on collision, otherwise keep the new collection and add the points. */
  function Conclude(w: World, next: (seq<Entity>, nat)): (res: (World, bool))
    requires WellFormed(next.0)
    ensures WellFormed(res.0.entities)
  {
    WellFormedMeetsSystems(next.0);
    if DetectCollision(next.0) then (Initial(), true)
    else (World(next.0, w.frameCount + 1, w.score + next.1), false)
  }

  /**
   * The two outcomes of a frame, given what its systems produce: a reset on
   * collision, otherwise the new collection at the next frame count with the
   * points added.
   */
  lemma FrameCases(w: World, r: real, next: (seq<Entity>, nat))
    requires WellFormed(w.entities) && 0.0 <= r < 1.0
    requires Advance(w.entities, w.frameCount + 1, r) == next
    ensures WellFormed(next.0) && BirdReady(next.0) && PipesSolid(next.0)
    ensures DetectCollision(next.0) ==> Frame(w, r) == (Initial(), true)
    ensures !DetectCollision(next.0) ==> Frame(w, r) == (World(next.0, w.frameCount + 1, w.score + next.1), false)
  {
    WellFormedMeetsSystems(next.0);
    FrameIsConclude(w, r);
    ConcludeCases(w, next);
  }

  /** A frame is its systems followed by its conclusion. */
  lemma FrameIsConclude(w: World, r: real)
    requires WellFormed(w.entities) && 0.0 <= r < 1.0
    ensures Frame(w, r) == Conclude(w, Advance(w.entities, w.frameCount + 1, r))
  {
  }

  /** `Conclude` by cases, proved apart from the systems that produce `next`. */
  lemma ConcludeCases(w: World, next: (seq<Entity>, nat))
    requires WellFormed(next.0) && BirdReady(next.0) && PipesSolid(next.0)
    ensures DetectCollision(next.0) ==> Conclude(w, next) == (Initial(), true)
    ensures !DetectCollision(next.0) ==> Conclude(w, next) == (World(next.0, w.frameCount + 1, w.score + next.1), false)
  {
  }

  /** The flap a key press applies between two frames. */
  function Flapped(w: World): (f: World)
    requires WellFormed(w.entities)
    ensures WellFormed(f.entities)
  {
    WellFormedMeetsSystems(w.entities);
    w.(entities := HandleInput(w.entities, FLAP))
  }

  /** What happens between two frames: whether the player flapped, and the random draw of the frame. */
  datatype Tick = Tick(flap: bool, r: real)

  predicate ValidTicks(ticks: seq<Tick>)
  {
    forall i | 0 <= i < |ticks| :: 0.0 <= ticks[i].r < 1.0
  }

  /** The state after a run of frames, each preceded by the player's optional flap. */
  function Play(w: World, ticks: seq<Tick>): (p: World)
    requires WellFormed(w.entities) && ValidTicks(ticks)
    ensures WellFormed(p.entities)
  {
    if ticks == [] then w
    else
      var before := Play(w, ticks[..|ticks| - 1]);
      var t := ticks[|ticks| - 1];
      Frame(if t.flap then Flapped(before) else before, t.r).0
  }

  class Session {
    var entities: seq<Entity>
    var frameCount: nat
    var score: nat

    ghost predicate Valid()
      reads this
    {
      WellFormed(entities)
    }

    function State(): World
      reads this
    {
      World(entities, frameCount, score)
    }

    /** The game variables as the page loads them. */
    constructor ()
      ensures Valid() && State() == Initial()
    {
      entities := [CreateBird()];
      frameCount := 0;
      score := 0;
    }

    /** `resetGame`: back to one fresh bird, frame 0 and score 0. */
    method Reset()
      modifies this
      ensures Valid() && State() == Initial()
    {
      frameCount := 0;
      score := 0;
      entities := [CreateBird()];
    }

    /** The key press: every bird flaps. */
    method Flap()
      requires Valid()
      modifies this
      ensures Valid() && State() == Flapped(old(State()))
    {
      WellFormedMeetsSystems(entities);
      entities := HandleInput(entities, FLAP);
    }

    /**
     * `updateScore`: one pass over the entities that adds one to the score
     * for every scoring pipe and marks it passed.
     */
    method UpdateScore()
      requires BirdLocated(entities) && PipesSolid(entities)
      modifies this
      ensures entities == ScoreSystem(old(entities)).0
      ensures score == old(score) + ScoreSystem(old(entities)).1
      ensures frameCount == old(frameCount)
    {
      var bird := FindBird(entities);
      if bird.None? {
        return;
      }
      var birdX := bird.value.position.value.x;
      var es := entities;
      var out: seq<Entity> := [];
      var i := 0;
      while i < |es|
        invariant 0 <= i <= |es|
        invariant entities == es && frameCount == old(frameCount)
        invariant PipesSolid(es[..i])
        invariant out == MarkPassed(es[..i], birdX)
        invariant score == old(score) + Gained(es[..i], birdX)
      {
        var e := es[i];
        if e.pipe && !e.passed && e.position.value.y < 0.0 {
          var pipeX := e.position.value.x + e.collider.value.width;
          if birdX > pipeX {
            score := score + 1;
            e := e.(passed := true);
          }
        }
        assert es[..i + 1][..i] == es[..i];
        out := out + [e];
        i := i + 1;
      }
      assert es[..i] == es;
      entities := out;
    }

    /**
     * The first half of `gameLoop`: count the frame, run the five systems in
     * order, then spawn on the new frame count.
     */
    method RunSystems(r: real)
      requires Valid() && 0.0 <= r < 1.0
      modifies this
      ensures Valid()
      ensures frameCount == old(frameCount) + 1
      ensures entities == Advance(old(entities), old(frameCount) + 1, r).0
      ensures score == old(score) + Advance(old(entities), old(frameCount) + 1, r).1
    {
      frameCount := frameCount + 1;
      entities := Moved(entities);
      WellFormedMeetsSystems(entities);
      UpdateScore();
      entities := GeneratePipes(entities, frameCount, r);
    }

    /**
     * One frame of `gameLoop`: the systems, then the collision check, which
     * resets the game and reports it.
     */
    method Step(r: real) returns (collided: bool)
      requires Valid() && 0.0 <= r < 1.0
      modifies this
      ensures Valid()
      ensures (State(), collided) == Frame(old(State()), r)
    {
      ghost var before := State();
      ghost var next := Advance(entities, frameCount + 1, r);
      RunSystems(r);
      assert State() == World(next.0, before.frameCount + 1, before.score + next.1);
      WellFormedMeetsSystems(entities);
      collided := DetectCollision(entities);
      FrameCases(before, r, next);
      if collided {
        Reset();
      }
    }
  }
}

/**
 * What the rules of the game imply over several frames, proved on the value
 * model of the session.
 */
module Flight {
  import opened Wrappers
  import opened Components
  import opened Physics
  import opened Pipes
  import opened Collision
  import opened Scoring
  import opened Game

  /**
   * The bird after `k` frames of free fall from its start: `dy = k / 8` and
   * `y = 250 + k (k + 1) / 16`.
   */
  function FallenBird(k: nat): Entity
  {
    CreateBird().(
      position := Some(Position(100.0, 250.0 + ((k * (k + 1)) as real) / 16.0)),
      velocity := Some(Velocity(0.0, (k as real) / 8.0)))
  }

  /** The five systems of the `systems` array, then spawning, move a lone falling bird on by one frame of free fall. */
  lemma AdvanceFalling(k: nat, r: real)
    requires 0.0 <= r < 1.0 && (k + 1) % 150 != 0
    ensures WellFormed([FallenBird(k)])
    ensures Advance([FallenBird(k)], k + 1, r) == ([FallenBird(k + 1)], 0)
  {
    var b := FallenBird(k);
    var g := ApplyGravity([b]);
    assert g == [b.(velocity := Some(Velocity(0.0, ((k + 1) as real) / 8.0)))];
    var p := UpdatePosition(g);
    assert (k + 1) * (k + 2) == k * (k + 1) + 2 * (k + 1);
    assert p == [FallenBird(k + 1)];
    var f := FallenBird(k + 1);
    assert MovePipes(p) == [f];
    assert RemoveOffscreenPipes([f]) == [f];
    WellFormedMeetsSystems([f]);
    assert FindBird([f]) == Some(f);
    assert [f][..0] == [];
    assert Gained([f], 100.0) == 0;
    assert MarkPassed([f], 100.0) == [f];
    assert ScoreSystem([f]) == ([f], 0);
  }

  lemma ProductBounds(n: nat)
    ensures n <= 73 ==> n * (n + 1) <= 5402
    ensures n >= 74 ==> n * (n + 1) >= 5550
  {
    if n <= 73 {
      assert n * (n + 1) <= 73 * (n + 1);
    } else {
      assert n * (n + 1) >= 74 * (n + 1);
    }
  }

  /**
   * A lone bird in free fall hits the bottom of the screen exactly from its
   * 74th frame on: `250 + n (n + 1) / 16 + 10 > 600` holds first at n = 74.
   */
  lemma FallenBirdCollides(n: nat)
    ensures WellFormed([FallenBird(n)])
    ensures DetectCollision([FallenBird(n)]) <==> n >= 74
  {
    var b := FallenBird(n);
    WellFormedMeetsSystems([b]);
    assert FindBird([b]) == Some(b);
    assert !AnyPipeHit([b], b);
    ProductBounds(n);
  }

  /** One whole frame of free fall, as long as the bird stays clear of the floor. */
  lemma FrameFalling(k: nat, r: real)
    requires 0.0 <= r < 1.0 && k < 73
    ensures WellFormed([FallenBird(k)])
    ensures Frame(World([FallenBird(k)], k, 0), r) == (World([FallenBird(k + 1)], k + 1, 0), false)
  {
    AdvanceFalling(k, r);
    FallenBirdCollides(k + 1);
    FrameCases(World([FallenBird(k)], k, 0), r, ([FallenBird(k + 1)], 0));
  }

  /** The 74th frame of free fall ends on the floor, and the game resets. */
  lemma FrameCrash(r: real)
    requires 0.0 <= r < 1.0
    ensures WellFormed([FallenBird(73)])
    ensures Frame(World([FallenBird(73)], 73, 0), r) == (Initial(), true)
  {
    AdvanceFalling(73, r);
    FallenBirdCollides(74);
    FrameCases(World([FallenBird(73)], 73, 0), r, ([FallenBird(74)], 0));
  }

  predicate NoFlaps(ticks: seq<Tick>)
  {
    forall i | 0 <= i < |ticks| :: !ticks[i].flap
  }

  /**
   * Without a flap the bird just falls: after `n <= 73` frames from the start
   * the collection is that one bird, `n` frames into its fall, and nothing
   * has been scored.
   */
  lemma {:induction false} UnflappedFlight(ticks: seq<Tick>)
    requires ValidTicks(ticks) && NoFlaps(ticks) && |ticks| <= 73
    ensures Play(Initial(), ticks) == World([FallenBird(|ticks|)], |ticks|, 0)
  {
    if ticks != [] {
      var n := |ticks|;
      var prefix := ticks[..n - 1];
      assert ValidTicks(prefix) && NoFlaps(prefix);
      UnflappedFlight(prefix);
      FrameFalling(n - 1, ticks[n - 1].r);
    }
  }

  /**
   * ... and on the 74th frame it hits the floor and the game resets, long
   * before the first pipe pair would spawn on frame 150.
   */
  lemma {:induction false} UnflappedCrash(ticks: seq<Tick>)
    requires ValidTicks(ticks) && NoFlaps(ticks) && |ticks| == 74
    ensures Play(Initial(), ticks) == Initial()
  {
    var prefix := ticks[..73];
    assert ValidTicks(prefix) && NoFlaps(prefix);
    UnflappedFlight(prefix);
    FrameCrash(ticks[73].r);
  }
}
