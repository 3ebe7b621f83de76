# Flappy Bird entity-component core, in Dafny

This project models the game logic of a browser Flappy Bird clone that is built as an
entity-component system. It covers the whole of `index.js` except drawing and the browser glue.

- **Entities** are records with optional components: position, velocity, gravity and collider.
  They also carry the `Bird`/`Pipe` markers and the `passed` flag. Each is a `Components.Entity`
  value.
- **Systems** are functions from one entity collection to the next:
  - gravity, position and input in module `Physics`;
  - scrolling, despawning and spawning of pipes in module `Pipes`;
  - circle-versus-rectangle collision in module `Collision`;
  - scoring in module `Scoring`.
- **The game loop** lives in module `Game`.
  - The session is a `Game.Session` class. Its fields `entities`, `frameCount` and `score` are
    updated in place by `Step`, `Flap`, `Reset` and `UpdateScore`, as the game's globals are.
  - Each method is proved equal to a value-level specification: `Frame`, `Flapped`, `Initial` and
    `ScoreSystem`.
  - `Play` folds `Frame` over a run of frames.
  - Module `Flight` proves what an unflapped run of the game does.

`updateScore` increments the global score from inside its `map` callback, so it is modelled as a
loop (`Game.Session.UpdateScore`). That loop is proved against the pure pair `MarkPassed`/`Gained`.
Every other system is an expression over the collection and is modelled as a function.

Coordinates and speeds are `real`. The value of `Math.random()` for a frame is a parameter `r`
with `0 <= r < 1`.

Some systems read a component without checking that it is present. Examples: a pipe's position in
`removeOffscreenPipes`, a bird's velocity in `handleInput`, and the bird's collider in
`detectCollision`. Each such system requires at least the presence it reads, through `PipesPlaced`,
`PipesSolid`, `BirdsCanFlap`, `BirdReady` or `BirdLocated`. Two require more than they read:
`Collision.DetectCollision` and the scoring system (`Scoring.ScoreSystem`,
`Game.Session.UpdateScore`) ask every pipe for a position and a collider (see "## Left out").
`WellFormed` implies all of these, and every system preserves `WellFormed`.

Notes on `index.js`:

- The gap of a spawned pair starts at `250 r + 50`, which lies in `[50, 300)`.
- Every spawned pair reuses the ids 2 and 3.
- Despawning compares against the literal width 50.
- A bird that is never flapped falls `y = 250 + k (k + 1) / 16` and hits the floor on frame 74,
  before the first spawn on frame 150; the game then resets (`Flight.UnflappedCrash`).

## Model

| member | source | states |
|---|---|---|
| Components.CreateBird | index.js:223-230 | the created entity is a bird, not a pipe, not passed, and carries position, velocity and collider |
| Components.FindBird | index.js:124 | a result, when there is one, is a bird |
| Components.FindBirdFirst | index.js:124 | `None` exactly when no entity is a bird; otherwise the result is the entity at some index that is a bird, and no earlier entity is a bird, i.e. the first one |
| Components.WellFormedMeetsSystems | index.js:15-185 | a well-formed collection has every component each system reads without checking |
| Physics.ApplyGravity | index.js:15-30 | same length; an entity with gravity and velocity has `dy` increased by its gravity, with `dx` and every other component kept; any other entity is unchanged; well-formedness is preserved |
| Physics.UpdatePosition | index.js:34-48 | same length; an entity with position and velocity moves by `(dx, dy)` and nothing else changes; other entities are unchanged |
| Physics.HandleInput | index.js:53-69 | any input other than `"FLAP"` changes nothing; on `"FLAP"` every bird gets `dy = -4` with its `dx` and everything else kept; non-birds are unchanged |
| Physics.HandleInputIdempotent | index.js:53-69 | flapping twice between frames has the same effect as flapping once |
| Physics.ApplyGravityTimesLinear | index.js:15-30 | after `n` gravity steps a falling entity's `dy` has grown by exactly `n` times its gravity, with `dx` unchanged |
| Pipes.MovePipes | index.js:100-116 | same length; each pipe with a position moves 2 to the left with `y` and every other component kept; other entities are unchanged |
| Pipes.RemoveOffscreenPipes | index.js:119-120 | the result is never longer than the input |
| Pipes.RemoveOffscreenPipesFilters | index.js:119-120 | the result is a subsequence of the input and holds nothing else; each entity keeps its multiplicity unless it is a pipe with `x + 50 < 0`, which is removed entirely |
| Pipes.RemoveOffscreenPipesKeeps | index.js:119-120 | no off-screen pipe survives, and well-formedness is preserved |
| Pipes.RemoveKeepsNonPipes | index.js:119-120 | the non-pipe entities come through unchanged and in order |
| Pipes.RemoveOffscreenPipesIdempotent | index.js:119-120 | despawning a second time removes nothing more |
| Pipes.DespawnBoundary | index.js:120 | a pipe at `x = -50` is kept and one at `x = -51` is removed, so the comparison is strict |
| Pipes.MovePipesTimesShift | index.js:100-116 | after `n` frames of scrolling a pipe has moved exactly `2n` left, with `y` and everything else unchanged |
| Pipes.SpawnedPipeLifetime | index.js:100-120 | a pipe spawned at `x = 800` is off-screen after `n` frames of scrolling exactly when `n > 425` |
| Pipes.GapTop | index.js:81-82 | the height where the gap starts is in `[50, 300)` for every random draw |
| Pipes.GeneratePipes | index.js:78-97 | on frame counts not divisible by 150 the input is returned; otherwise the input is kept as a prefix and exactly one pair is appended: ids 2 and 3, at `x = 800`, 50 by 400, the top pipe ending at the gap start, the bottom one starting 150 below |
| Pipes.SpawnedPairMarksOneTop | index.js:83-92 | of a spawned pair only the top pipe has `y < 0`, and the gap lies within the 600-high screen |
| Collision.Clamp | index.js:146-147 | the clamped value lies in the interval and equals the input when the input already lies in it |
| Collision.HitsRect | index.js:146-156 | a circle whose centre lies in the rectangle always hits it |
| Collision.ClampIsNearest | index.js:145-147 | the clamped coordinate is at least as close to the value as any point of the interval |
| Collision.ClampedPointIsNearest | index.js:145-151 | the clamped point is the point of the rectangle closest to the bird's centre |
| Collision.ClearBelow | index.js:146-156 | a circle more than its radius below the rectangle does not hit it |
| Collision.ClearAbove | index.js:146-156 | a circle more than its radius above the rectangle does not hit it |
| Collision.HitsRectIffTouches | index.js:145-156 | the clamped-point test reports a hit exactly when some point of the rectangle lies within the radius of the centre |
| Collision.TangentCollides | index.js:154-156 | touching at distance exactly the radius counts as a hit (`<=`); any farther to the left does not |
| Collision.OutOfBounds | index.js:135-137 | a bird whose centre lies above the top or below the bottom of the screen is out of bounds |
| Collision.HitsPipe | index.js:142-156 | a bird whose centre lies inside the pipe's rectangle hits it |
| Collision.AnyPipeHit | index.js:140-159 | the `some` pass over the pipes; its meaning, some pipe is hit, is stated by `Collision.AnyPipeHitMeaning` |
| Collision.AnyPipeHitMeaning | index.js:140-159 | the pipe test is true exactly when some pipe in the collection is hit by the bird's circle |
| Collision.DetectCollision | index.js:123-160 | no bird means no collision; a bird beyond the top or bottom edge collides |
| Collision.DetectCollisionInBounds | index.js:140-159 | a bird inside the screen collides exactly when it hits some pipe of the collection |
| Collision.DetectCollisionGeometric | index.js:123-160 | for a bird inside the screen and pipes of non-negative size, a collision is reported exactly when some pipe rectangle has a point within the bird's radius |
| Collision.SpawnedGapIsClear | index.js:140-159 | a bird whose circle lies strictly inside a spawned gap hits neither pipe of the pair |
| Collision.FreshBirdIsSafe | index.js:123-160 | the collection of a new game does not collide |
| Collision.BirdAtTopCollides | index.js:135-137 | a bird of radius 10 at `y = 5` is out of bounds at the top and collides |
| Scoring.ScoresOn | index.js:171-175 | the scoring test: an unpassed top pipe (`y < 0`) whose right edge lies strictly left of the bird's `x`; what scoring does with it is stated by `Scoring.Mark` and `Scoring.MarkPassed` |
| Scoring.Mark | index.js:171-178 | only the `passed` flag may change, and it ends up set exactly when it was set already or the pipe scores |
| Scoring.Gained | index.js:176-177 | the points of one pass never exceed the number of entities; that each point is one newly passed pipe is stated by `Scoring.GainedCountsNewFlags` |
| Scoring.MarkPassed | index.js:168-184 | same length; every unpassed top pipe (`y < 0`) whose right edge the bird has passed is marked `passed`; all other entities are unchanged |
| Scoring.MarkPassedKeeps | index.js:168-184 | marking keeps every component the systems read, and well-formedness |
| Scoring.GainedCountsNewFlags | index.js:176-178 | the score gained equals the number of `passed` flags newly set, so each point belongs to one pipe |
| Scoring.MarkPassedIdempotent | index.js:171 | a second pass on the result scores nothing and changes nothing, so no pipe scores twice |
| Scoring.FindBirdSameBirds | index.js:164-185 | marking pipes leaves the first bird and its position unchanged |
| Scoring.ScoreSystem | index.js:164-185 | without a bird the collection is unchanged and nothing is scored; with one, the pipes scoring against the first bird's `x` are marked and counted |
| Scoring.ScoreSystemIdempotent | index.js:164-185 | running the scoring system twice in a row scores only the first time |
| Scoring.ScoringExample | index.js:164-185 | a bird at `x = 101` passing a top pipe at `x = 50` of width 50 scores one and marks it; the next pass scores none |
| Game.Initial | index.js:233-242 | the state of a new game is well-formed |
| Game.Advance | index.js:246-257 | the systems in loop order, followed by spawning on the incremented frame count, keep the collection well-formed |
| Game.Conclude | index.js:259-264 | the end of a frame keeps the collection well-formed |
| Game.Moved | index.js:248-256 | gravity, movement, scrolling and despawning keep the collection well-formed |
| Game.Frame | index.js:245-264 | a frame keeps the state well-formed; a collision resets to the initial state; otherwise the frame count goes up by one and the score never goes down |
| Game.FrameCases | index.js:245-264 | a frame resets to the initial state exactly in the collision case; otherwise it keeps what the systems produced, at the next frame count, with the points added |
| Game.Flapped | index.js:72-74 | a key press keeps the state well-formed |
| Game.Play | index.js:245-268 | any run of frames and flaps keeps the state well-formed |
| Game.Session.constructor | index.js:233-235 | the game variables start as one fresh bird, frame 0 and score 0 |
| Game.Session.Reset | index.js:238-242 | after a reset the state is exactly the initial state |
| Game.Session.Flap | index.js:72-74 | the session's new state is `Flapped` of its old state, so every bird has `dy = -4` |
| Game.Session.UpdateScore | index.js:164-185 | the loop leaves the entities and the score increase exactly as `ScoreSystem` computes them, and keeps the frame count |
| Game.Session.RunSystems | index.js:246-257 | the frame count goes up by one, and the entities and score become what `Advance` computes from the old state |
| Game.Session.Step | index.js:245-264 | the new state and the collision flag are exactly `Frame` of the old state, i.e. the systems applied in order, then reset on collision |
| Flight.AdvanceFalling | index.js:245-257 | one frame of systems moves a lone bird in free fall on by exactly one frame of its fall, and scores nothing |
| Flight.FallenBirdCollides | index.js:132-137 | a lone falling bird collides exactly from its 74th frame of fall onwards |
| Flight.FrameFalling | index.js:245-264 | each of the first 73 unflapped frames moves the bird on without a collision and leaves the score at 0 |
| Flight.FrameCrash | index.js:245-264 | the 74th unflapped frame ends in a collision and a reset |
| Flight.UnflappedFlight | index.js:245-268 | after `n <= 73` unflapped frames the state is one bird `n` frames into its fall, at frame `n`, with score 0 |
| Flight.UnflappedCrash | index.js:245-268 | after 74 unflapped frames the game is back in its initial state |

## Left out

- `render` draws on a canvas and is not modelled. Neither is the score text.
- The `keydown` listener's check for the Space key is left out. `Game.Session.Flap` is what a Space press does to the state.
- `alert` and `requestAnimationFrame` are browser I/O and are left out. After a reset, `gameLoop` immediately runs one more frame; the model returns the collision flag instead.
- Game.Session.Step: does not itself re-run the frame after a reset. Its caller does that on a `true` result, as `gameLoop` calls itself.
- `Math.random()` is a parameter `r` with `0 <= r < 1`. No distribution is modelled.
- JavaScript numbers are IEEE doubles. The model uses exact reals, so rounding is not captured. The constants in play (0.125, -4, 2, 50, 150, 400, 800) are exact in both.
- Entity ids are modelled as written, with no uniqueness argument. Every spawned pair reuses ids 2 and 3.
- Collision.DetectCollision: requires every pipe to carry a position and a collider. The code's `some` stops at the first hit, so pipes after it are never read.
- Scoring.ScoreSystem: requires every pipe to carry a position and a collider. The code reads a pipe's fields only when it is unpassed, with `y < 0` for the collider.
- Game.Session.UpdateScore: requires every pipe to carry a position and a collider. The reason is the same as for `Scoring.ScoreSystem`.
- The functional entity factories `Bird()` and `Pipe()` are empty marker objects, modelled as the boolean fields `bird` and `pipe`.
