# Sheep round: a verified model

This project models the simulation core of a small Unity game. A level scatters
a flock of sheep over a circular field. No two sheep start closer than one unit.
Each sheep wanders between grazing and seeking a random nearby target. The player
must click every sheep exactly once. Counting the last sheep starts the win
sequence, and clicking a sheep a second time starts the lose sequence. A round
clock is shown as `TIME: MM:SS.cc`.

Randomness, physics and coroutine timing become inputs:

- The placement draws are a finite sequence of unit-disc points.
- A sheep's seek offset is a point of the unit ball together with a sampled search radius.
- The distance to the target and the body's speed are numbers the physics engine supplies.
- The body's position is a field that the engine writes.
- Each resumption of a coroutine is one method call.

Elapsed time is a whole number of milliseconds.

Modules:

- `Geometry` (geometry.dfy): `Vector2`/`Vector3` over the reals. Distances are compared through their squares.
- `Placement` (placement.dfy): `Fill`, the rejection-sampling placement as a function, with its separation and containment lemmas.
- `Motion` (motion.dfy): the seek target, the arrival test, the speed cap and the speed-matching force.
- `Progress` (progress.dfy): the level's counter and started coroutines as values. It also holds the click latch and a round played as a sequence of clicks on a flock.
- `Pasture` (pasture.dfy): the classes `Level` and `Sheep`, proved against the functions above. They share one module because each class refers to the other.
- `Clock` (clock.dfy): the `TimeSpan` fields, the `D2` format, `FormatTime` and the reading back of the text.
- `Timers` (timer.dfy): the `Timer` component.
- `Persistence` (game_data.dfy): `GameData`, with the static `instance` slot as a `Registry` object.

Three behaviours of the code are easy to miss. The model follows the code:

- After a win or a loss, the code does not ignore further clicks. `CountSheep` keeps incrementing, and it starts no second win only because the count has passed the total. In the game that holds for fewer than 2^32 counts, since the 32-bit count wraps (see Left out). `DoubleCount` starts a lose sequence even after a win.
- The code enforces no bound `sheepCount <= totalSheep`. The bound holds for a fresh flock of `totalSheep` sheep (`Progress.CountNeverExceedsFlock`). It holds because each sheep counts itself at most once.
- The seek offset is the x and y of a point inside the unit *sphere*, laid out in the ground plane. It is not a point drawn uniformly inside a circle.

## Model

| member | source | states |
|---|---|---|
| `Placement.Fill` | Assets/Level.cs:32-52 | Accepting a candidate only appends, so earlier entries never change. Never more than `totalSheep` points are accepted. |
| `Placement.AppendClear` | Assets/Level.cs:42-52 | Appending a candidate that is at least 1.0 from every accepted point keeps the whole list pairwise separated. |
| `Placement.FillSeparated` | Assets/Level.cs:38-52 | Every pair of accepted positions is at least 1.0 apart. A candidate closer than 1.0 to an earlier point is never accepted. |
| `Placement.ScaledDrawInDisc` | Assets/Level.cs:41 | A unit-disc point scaled by `range` lies within distance abs(`range`) of the origin. |
| `Placement.FillInDisc` | Assets/Level.cs:41-52 | Every accepted position lies within abs(`range`) of the origin, given unit-disc draws. |
| `Placement.FillFromCandidates` | Assets/Level.cs:41-52 | Every accepted position is one of the drawn candidates, scaled by `range`. |
| `Placement.FillShortOnlyWhenExhausted` | Assets/Level.cs:38-52 | If fewer than `totalSheep` points are accepted, every draw was considered. Each one was either accepted or is closer than 1.0 to an accepted point. So the placement falls short only when the draws run out, and a candidate is dropped only because it collides. |
| `Pasture.SpawnPoint` | Assets/Level.cs:53 | The accepted point `p` becomes the scene position with height 0.5, `p.x` as x and `p.y` as z. |
| `Pasture.Level.constructor` | Assets/Level.cs:11-16 | A level starts with `sheepCount` 0, no coroutine started and no sheep. |
| `Pasture.Level.Start` | Assets/Level.cs:32-55 | The positions are exactly `Fill` of the draws. They are pairwise separated and inside the disc. When not cut short, there are exactly `totalSheep` of them. When cut short, every draw was accepted or collides with an accepted position. One fresh, distinct sheep is spawned per position, at (p.x, 0.5, p.y), with `level` set to this level. |
| `Pasture.Level.CountSheep` | Assets/Level.cs:66-73 | `sheepCount` goes up by exactly 1. YouWin starts exactly when the new count equals `totalSheep`. |
| `Pasture.Level.DoubleCount` | Assets/Level.cs:91-94 | YouLose starts whatever the count, and `sheepCount` is unchanged. |
| `Progress.AfterCount` | Assets/Level.cs:66-73 | The count goes up by one, and the started coroutines are only appended to. Something starts exactly when the new count equals the total, and it is never YouLose. |
| `Progress.AfterDoubleCount` | Assets/Level.cs:91-94 | The count is unchanged, and exactly one coroutine, YouLose, is appended. |
| `Progress.ClickSheep` | Assets/Sheep.cs:58-70 | The clicked sheep's latch becomes set, and every other latch is unchanged. The count goes up by one exactly when the sheep was not yet counted. Started coroutines are only appended to, and YouLose is among the new ones exactly when the sheep was already counted. |
| `Progress.CountsWinOnce` | Assets/Level.cs:66-73 | From a fresh level, k counts leave the count at k. YouWin has started exactly once if 1 <= `totalSheep` <= k, and never otherwise. Later counts keep incrementing without starting it again. |
| `Progress.DoubleCountLoses` | Assets/Level.cs:91-94 | On any state, a double count starts YouLose and leaves the count alone. |
| `Progress.PlayTally` | Assets/Sheep.cs:58-70 | Over any sequence of clicks, the count minus the number of counted sheep is unchanged. The count moves only when a sheep's latch is first set. |
| `Progress.CountNeverExceedsFlock` | Assets/Level.cs:66-73 | On a fresh flock of n sheep, any click sequence keeps 0 <= `sheepCount` <= n. |
| `Progress.PlayDistinctCounts` | Assets/Sheep.cs:64-69 | Clicks on distinct, uncounted sheep are all first clicks. The level sees exactly that many `CountSheep` calls. |
| `Progress.DistinctClicksFitFlock` | Assets/Sheep.cs:64-69 | A flock of n sheep admits at most n distinct first clicks. |
| `Progress.WinExactlyWhenAllCounted` | Assets/Level.cs:66-73 | Take a round without double clicks on a fresh flock of `totalSheep` >= 1 sheep. The started coroutines are exactly [YouWin] once every sheep is clicked, and none before. |
| `Progress.PlayGrows` | Assets/Sheep.cs:66 | A round only appends to the started coroutines, and it never clears a sheep's `counted`. |
| `Progress.ClickOnCountedLoses` | Assets/Sheep.cs:60-63 | Any click on an already counted sheep starts YouLose. |
| `Progress.DoubleClickLoses` | Assets/Sheep.cs:58-70 | Clicking the same sheep twice anywhere in a round starts YouLose. |
| `Pasture.Sheep.Instantiate` | Assets/Sheep.cs:10-29 | A new sheep has the prefab's speed and mass and no level. `move` and `counted` are false, and its Graze loop is in the initial wait. |
| `Pasture.Sheep.BeginSeek` | Assets/Sheep.cs:32-34 | The target is the position plus (offset.x, 0, offset.y), at the body's own height, within abs(radius) of the body. Then `move` becomes true and the loop is seeking. |
| `Pasture.Sheep.PollSeek` | Assets/Sheep.cs:35-36 | The seek ends exactly when `move` is false or the target is within 0.01. `move` is then false before the grazing wait. Otherwise nothing changes. |
| `Pasture.Sheep.OnCollisionEnter` | Assets/Sheep.cs:53-56 | `move` becomes false. By the frame, `counted` and `target` are untouched. |
| `Pasture.Sheep.OnPointerClick` | Assets/Sheep.cs:58-70 | The first click sets `counted` and calls `CountSheep` once. A click on a counted sheep calls `DoubleCount` and leaves `counted` set. `move`, `target` and the loop are never changed. |
| `Pasture.Sheep.FixedUpdate` | Assets/Sheep.cs:41-51 | A force is produced exactly when `move` is true, and so only while the Graze loop is seeking. It equals `DriveForce`. Beyond the normalisation bound, it lies along the line to the target with length mass * abs(min(d, speed) - u). |
| `Pasture.DeliverClick` | Assets/Sheep.cs:58-70 | A click on the i-th sheep of a level's flock changes the scene exactly as `Progress.ClickSheep` does, so the round lemmas apply to the objects. |
| `Motion.SeekOffset` | Assets/Sheep.cs:32 | The offset's squared length is radius² times the squared length of the unit-ball point's (x, y) part; its z component is dropped. For a unit-ball point, the offset is no longer than abs(radius). |
| `Motion.SeekOver` | Assets/Sheep.cs:35 | A sheep that has stopped always ends the wait, and so does one standing on its target. |
| `Motion.SeekOverByDistance` | Assets/Sheep.cs:35 | With `d` the distance to the target, the squared test ends the wait exactly when the sheep has stopped or `d` <= 0.01, as `Vector3.Distance(...) > 0.01f` does. |
| `Motion.SeekTarget` | Assets/Sheep.cs:33 | The target's height equals the body's. Its distance from the body is the length of the offset. |
| `Motion.SeekWithinRadius` | Assets/Sheep.cs:32-33 | The target is never farther from the body than abs(sampled search radius). |
| `Motion.CappedSpeed` | Assets/Sheep.cs:47 | The commanded speed is at most the remaining distance and at most `speed`, and it equals one of them. |
| `Motion.DriveForceAlongLine` | Assets/Sheep.cs:45-49 | The squared force is (mass * a)^2. Its component toward the target is mass * a * d, so it accelerates when slower than the capped speed and brakes when faster. |
| `Motion.Normalized` | Assets/Sheep.cs:49 | Like `Vector3.normalized`, it gives the zero vector at magnitudes up to 0.00001. |
| `Motion.NormalizedUnitLength` | Assets/Sheep.cs:49 | Above 0.00001, given the vector's true magnitude, the normalized vector has length 1. |
| `Motion.DriveForce` | Assets/Sheep.cs:45-49 | The force is zero once the body moves at the capped speed. It is also zero within the normalisation bound of `Vector3.normalized`. |
| `Clock.Minutes` | Assets/Timer.cs:15-16 | The minutes field is in 0..59; whole hours are dropped. |
| `Clock.Seconds` | Assets/Timer.cs:15-16 | The seconds field is in 0..59. |
| `Clock.Centiseconds` | Assets/Timer.cs:15-16 | The hundredths field is the milliseconds / 10, truncated, in 0..99. |
| `Clock.D2` | Assets/Timer.cs:16 | `D2` gives at least two digits, exactly two below 100, and they read back as the number. |
| `Clock.FormatTime` | Assets/Timer.cs:16 | The text has the fixed shape `TIME: dd:dd.dd`. The three digit pairs read back as the minutes, seconds and hundredths. |
| `Clock.FieldsOfShown` | Assets/Timer.cs:15-16 | Minutes, seconds and hundredths are the base-60/60/100 digits of the time modulo one hour, in centiseconds. |
| `Clock.ReadFormatTime` | Assets/Timer.cs:15-16 | Reading the text back gives the elapsed time modulo one hour, truncated to centiseconds. |
| `Clock.FormatTimeSameText` | Assets/Timer.cs:15-16 | Two times give the same text if and only if they agree to the centisecond modulo one hour. |
| `Clock.FormatTimeExamples` | Assets/Timer.cs:15-16 | 125.678 s shows as `TIME: 02:05.67`. 3661 s shows as `TIME: 01:01.00`, with the hour dropped. |
| `Timers.Timer.constructor` | Assets/Timer.cs:9 | The clock starts at 0. |
| `Timers.Timer.Update` | Assets/Timer.cs:12-17 | Time advances by exactly the frame's duration and never decreases. The label shows `FormatTime` of the new time, beginning with `TIME: `. |
| `Persistence.Registry.constructor` | Assets/GameData.cs:7 | The static slot starts empty. |
| `Persistence.GameData.constructor` | Assets/GameData.cs:8 | A GameData's time starts at 0. |
| `Persistence.GameData.Start` | Assets/GameData.cs:10-21 | If the slot is empty, this object takes it and is kept across loads. Otherwise this object is destroyed and the slot is unchanged. Its time is untouched either way. |
| `Persistence.GameData.UpdateTimeText` | Assets/GameData.cs:23-28 | Time advances by the frame's duration before formatting, so the text includes the current frame. |
| `Persistence.GameData.ResetTimer` | Assets/GameData.cs:30-33 | Time becomes 0, and by the frame nothing else changes. |

## Left out

- `Gaussian` (Assets/Gaussian.cs) is not modelled. Box–Muller sampling uses floating-point `Log`, `Sqrt` and `Sin`, and `TestOutput` writes a file. A sampled value enters the model as a plain real: the search radius of `BeginSeek`. The grazing wait lengths are not needed, because waits are not timed.
- `Random.insideUnitCircle` and `Random.insideUnitSphere` are inputs. Only what they promise is assumed: the norm is at most 1.
- The initial wait of `Graze`, `Random.Range(0, graze.mean)` at Assets/Sheep.cs:29, is not modelled. A sheep stays `Dormant` until the first `BeginSeek`, whenever that comes.
- `Pasture.Sheep.OnPointerClick` requires `level != null`: only sheep spawned by `Level.Start` are modelled. In the game, a click on a sheep without a level throws a `NullReferenceException`. On a first click this happens after `counted` is set.
- `Pasture.Level.CountSheep`, `Progress.AfterCount`, `Progress.CountsWinOnce`: in the game, `sheepCount` is a 32-bit `int` (Assets/Level.cs:13), and `sheepCount++` wraps unchecked past 2^31 - 1. The model's count is unbounded. So "goes up by exactly 1" holds in the game only below 2^31 - 1. "YouWin at most once" holds only below 2^32 + `totalSheep` counts, because there the wrapped count meets `totalSheep` again. No round comes near that many clicks.
- `Pasture.Level.Start`: the game's placement loop has no bound and may never end. The model consumes a finite sequence of draws and reports `complete == false` if they run out. Termination of the game's loop is not claimed.
- Floating point is not modelled. Positions, distances and forces are reals, and `Vector2.Distance(a, b) < 1.0` is compared as a squared distance below 1. `Vector3.Distance` and `velocity.magnitude` are passed in, with the distance tied to the squared distance.
- Physics integration behind `AddForce` is not modelled. `FixedUpdate` returns the force it would apply, and the engine's movement of the body is any write to `position`.
- Coroutine timing is not modelled: `WaitForSeconds`, `WaitWhile` and the random initial delay. Each resumption of `Graze` is a call to `BeginSeek` or `PollSeek`, and YouWin/YouLose are recorded as started coroutines. Their bodies are not modelled: disabling the timer, showing the win/lose object, the 2-second wait and `Load(next)` / `Load("Start")`.
- `ShowIntro` (Assets/Level.cs:58-64) is not modelled. It only shows and hides scene objects and waits two seconds, like the left-out coroutine bodies.
- The `Timer.Reset()` calls in `Level.Start` (Assets/Level.cs:20-31) are not modelled. They call a static method that Timer.cs does not define.
- `Instantiate`, `DontDestroyOnLoad` and `Destroy` are not modelled as engine calls. Their effects are recorded as state: `Instantiate` in the level's `flock`, `DontDestroyOnLoad` in `persistent` and `Destroy` in `destroyed`.
- `SetActive` and `SceneManager.LoadScene` are not modelled. They occur only in `ShowIntro`, `YouWin`, `YouLose` and `Load`, whose bodies are left out.
- The `Pulse` scale animation (Assets/Sheep.cs:72-78) and `Sheep.Reset` (the editor's component lookup) are cosmetic and not modelled.
- `Timers.Timer.Update`, `Persistence.GameData.UpdateTimeText`: `TimeSpan.FromSeconds` on an accumulated float is not modelled. Elapsed time is exact whole milliseconds, and each frame's `deltaTime` is a whole number of milliseconds.
- The inspector-only fields of `Level` (`intro`, `win`, `lose`, `timer`, the unused `level` number) and the `graze`/`search` distributions of `Sheep` are not modelled. They matter only to the left-out coroutine bodies and samplers.
