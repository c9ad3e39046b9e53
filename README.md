# Samsung Slasher engine bookkeeping, in Dafny

This project models the simulation bookkeeping of the `SamsungSlashGame` engine
(`src/game/SamsungSlashGame.ts`), a canvas arcade game in which product images are
launched from below the field and the player draws a blade across them. The engine object
owns the field size, the current screen (`start`, `playing`, `gameover`), the list of
launched objects, the blade trail, the last frame timestamp, a `destroyed` flag and the
flag that records a finished audio unlock. Its operations are:

- a pointer press, which first awaits the audio unlock (skipped once an unlock has
  finished); if the unlock rejects, the press changes neither screen nor trail and the
  next press retries it; otherwise the press leaves the start screen for the playing
  screen, or, on any other screen, restarts the blade trail at the pressed point;
- an animation frame, which stops for good once the engine is destroyed, and otherwise
  computes the seconds since the last frame (no clamp) and runs one update;
- an update, which runs only while playing: it moves every object one time step
  (position with the old velocity, then gravity of 2000 px/s² on `vy`, then the spin),
  flags objects more than 200 px below the bottom edge, drops the flagged ones, and
  keeps only the trail points younger than 150 ms;
- a launch, which appends one object 88 px below the bottom edge, starting in the middle
  60% of the field, aimed at the middle 40%, going up at 1200 to 1600 px/s;
- destroy, which sets the flag.

Layout:

- `seqs.dfy`, module `Seqs`: `Filter` with the meaning of JavaScript's
  `Array.prototype.filter`, and its characterisation: the result is an order-preserving
  subsequence, it holds each satisfying value exactly as often as the input and no other
  value, and it is the only sequence with those two properties.
- `types.dfy`, module `GameTypes`: the records of `src/game/types.ts` used by the engine.
- `rules.dfy`, module `GameRules`: the constants, the per-object time step with its
  closed form over n steps, the two pruning filters, the launch kinematics, the frame
  delta and the screen transitions with a lemma over any run of operations.
- `game.dfy`, module `SlashGame`: the class `Game` with the engine's fields and in-place
  operations, each proved against the functions of `GameRules`; its invariant `Valid()`
  says the game-over screen is never shown and every listed object has the shape a
  launch gives it and is not flagged. `Session`, `LaunchSession`, `DestroyedSession` and
  `PressRetries` are clients that exercise the contracts.

Numbers are JavaScript doubles in the source; the model uses exact `real` arithmetic.
Clock readings (`performance.now()`, the animation-frame timestamp), every
`Math.random()` result and whether an audio unlock attempt resolves or rejects are
parameters. The six random draws of a launch are a
`SpawnDraws` value, in the order the code draws them, each in [0, 1).

The frame delta is not clamped; gravity and velocities are scaled by the delta; objects
do not bounce off the walls; the code has no collision, scoring, combo, lives, bomb,
difficulty or game-over logic, so none is modelled. The code sets an `isBomb` field on every launched object
although the `GameItem` interface does not declare it; the record here has that field.

## Model

| member | source | states |
|---|---|---|
| `Seqs.Filter` | src/game/SamsungSlashGame.ts:196-199 | the kept list is no longer than the input and every kept element satisfies the filter condition |
| `Seqs.FilterIsSubsequence` | src/game/SamsungSlashGame.ts:196-199 | filtering only deletes: the survivors keep their relative order |
| `Seqs.FilterCounts` | src/game/SamsungSlashGame.ts:196-199 | each value that satisfies the condition occurs in the result exactly as often as in the input, any other value never; so a value is in the result iff it is in the input and satisfies the condition |
| `Seqs.FilterUnique` | src/game/SamsungSlashGame.ts:196-199 | any order-preserving subsequence keeping exactly the satisfying occurrences equals the filter result, so the two properties above determine it |
| `GameRules.Integrate` | src/game/SamsungSlashGame.ts:185-193 | one step leaves id, vx, spin, size, image, sliced, counted and isBomb unchanged; the object is flagged off-screen iff it was already flagged or its new y exceeds field height + 200 |
| `GameRules.IntegrateNSameBody` | src/game/SamsungSlashGame.ts:185-189 | those fields stay unchanged over any number of steps |
| `GameRules.IntegrateNX` | src/game/SamsungSlashGame.ts:186 | after n steps x is the start x plus n increments of vx·dt |
| `GameRules.IntegrateNVy` | src/game/SamsungSlashGame.ts:188 | after n steps vy is the start vy plus n increments of 2000·dt |
| `GameRules.IntegrateNRotation` | src/game/SamsungSlashGame.ts:189 | after n steps the angle is the start angle plus n increments of spin·dt |
| `GameRules.IntegrateNVelocity` | src/game/SamsungSlashGame.ts:186-189 | after n steps x has moved by n·vx·dt, vy has grown by n·2000·dt and the angle has turned by n·spin·dt |
| `GameRules.IntegrateNY` | src/game/SamsungSlashGame.ts:187-188 | after n steps y is the start y plus the sum, over the steps, of the vy held at the start of each step times dt |
| `GameRules.IntegrateNHeight` | src/game/SamsungSlashGame.ts:187-188 | after n steps y = y0 + n·vy0·dt + n(n−1)/2·2000·dt², the closed form that holds because y moves with the velocity held before gravity is added in the same step |
| `GameRules.OnScreen` | src/game/SamsungSlashGame.ts:196 | the filtered list is an order-preserving subsequence holding exactly the unflagged objects, each as often as before |
| `GameRules.StepItemsExact` | src/game/SamsungSlashGame.ts:185-196 | after an update an object is listed iff it is the step of an object that was not flagged and its new y is at most height + 200; no survivor is flagged and the survivors keep their order |
| `GameRules.StepKeepsLive` | src/game/SamsungSlashGame.ts:185-196 | an update keeps every listed object in launch shape (size 88, image 0..3, not sliced, counted or bomb) and unflagged |
| `GameRules.RecentTrail` | src/game/SamsungSlashGame.ts:198-199 | the pruned trail is the order-preserving subsequence of the old points with clock − time < 150, each as often as before, and no other point |
| `GameRules.TrailPruneTwice` | src/game/SamsungSlashGame.ts:198-199 | pruning at an earlier reading and then at a later one gives the same trail as pruning once at the later one |
| `GameRules.NewItem` | src/game/SamsungSlashGame.ts:141-163 | a launched object is unsliced, on-screen, uncounted, not a bomb, unrotated, 88×88, starts at height + 88 with x in [0.2w, 0.8w), is aimed (x + vx/2) at [0.3w, 0.7w), has vx within (−w, w), vy in (−1600, −1200], spin in [−3, 3) and image index in 0..3 |
| `GameRules.LaunchSurvivesFirstStep` | src/game/SamsungSlashGame.ts:141-196 | a launched object is not flagged by a following step of non-negative length (it starts above the drop line and moves up), so an update of a list holding only that object leaves exactly its step |
| `GameRules.FrameDelta` | src/game/SamsungSlashGame.ts:173 | the delta is the elapsed milliseconds divided by 1000, with no clamp |
| `GameRules.FrameDeltaUnbounded` | src/game/SamsungSlashGame.ts:173 | for every bound some frame timestamp yields a larger delta |
| `GameRules.NextScreen` | src/game/SamsungSlashGame.ts:223-226 | an operation changes the screen iff it is a press that got past the audio unlock on the start screen, and then the screen becomes playing; a press whose unlock rejects changes nothing |
| `GameRules.ReplayKeepsPlaying` | src/game/SamsungSlashGame.ts:225-228 | once playing, every run of operations leaves the game playing |
| `GameRules.ReplayFromStart` | src/game/SamsungSlashGame.ts:223-226 | from the start screen a run of operations ends playing iff it contains a press that got past the audio unlock, else on the start screen; never on the game-over screen |
| `SlashGame.Game.constructor` | src/game/SamsungSlashGame.ts:56-80 | a new engine is on the start screen with no objects, an empty trail, the given size, not destroyed, audio not unlocked, last frame time = the creation reading (its first frame changes nothing) |
| `SlashGame.Game.SpawnItem` | src/game/SamsungSlashGame.ts:141-164 | appends exactly one new launch object and keeps the existing objects and the screen |
| `SlashGame.Game.Loop` | src/game/SamsungSlashGame.ts:170-180 | after destroy a frame changes nothing; otherwise the last frame time becomes now and, while playing, objects and trail are updated with the delta since the previous frame; the screen is kept |
| `SlashGame.Game.Update` | src/game/SamsungSlashGame.ts:182-200 | off the playing screen objects and trail are unchanged; while playing, objects become the step-then-filter of the old list and the trail its pruning at the clock reading; the invariant is kept |
| `SlashGame.Game.MoveAll` | src/game/SamsungSlashGame.ts:185-194 | after the in-place loop every object of the list has taken exactly one step, in place and in order |
| `SlashGame.Game.PointerDown` | src/game/SamsungSlashGame.ts:221-232 | the unlock flag (set at :114, checked at :101) becomes set iff it was set or this attempt resolves; if it stays unset, screen and trail are unchanged; past the unlock, a press on the start screen starts playing and keeps the trail, and on any other screen the screen is kept and the trail becomes the single pressed point with the press reading |
| `SlashGame.Game.Resize` | src/game/SamsungSlashGame.ts:270-279 | the field size becomes the measured size; the screen is kept |
| `SlashGame.Game.Destroy` | src/game/SamsungSlashGame.ts:281-283 | sets the destroyed flag; the screen is kept |

## Left out

- Drawing (`draw`) and the canvas part of `resize` (pixel ratio, canvas size, transform): rendering only.
- Audio (`loadAudio`, `unlockAudio`, `playSound`, closing the audio context in `destroy`): network fetches and audio decoding are foreign calls.
- `SlashGame.Game.PointerDown`: the awaited audio unlock is reduced to its outcome (a parameter) and the press is applied at once at its clock reading; that frames may run while the unlock is pending, and the audio context each failed attempt leaves behind, are not modelled.
- Event wiring and coordinate translation (`getPos`, `addEventListener`): the pressed position is a parameter.
- Frame scheduling (`requestAnimationFrame`, `cancelAnimationFrame`, the `animFrame` handle): only the `destroyed` guard and the timing are modelled.
- High-score read from `localStorage` and image loading in the constructor: storage and asset I/O.
- The fields `score`, `highScore`, `lives`, `particles` and `stars`, and the `Particle` and `Star` records: the code only initialises them; no modelled operation reads or changes them.
- `src/pages/Index.tsx`: mounting, unmounting and the resize listener are framework plumbing.
- IEEE-754 rounding: positions, velocities and clock readings are exact reals.
- Object identity: the code mutates item objects in place inside the list; no other reference to them exists, so the model replaces each list element by its updated value.
- The `id` draw: it is a random number, and no uniqueness is claimed.
- Nothing in the repository calls `spawnItem`; it is modelled as an operation a caller may invoke.
