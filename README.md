# Ring-toss WebXR game: score board and scoring gate

This project models the two parts of the ring-toss demo that are plain logic, not
engine glue. Both come from `src/index.js`.

- **The score board** (`updateScoreDisplay`). The board clamps the integer score to
  [0, 9999], writes it in decimal and pads it on the left with `'0'` to four
  characters. Module `ScoreDisplay` (`score_display.dfy`) models this:
  - `Clamp` is `Math.max(0, Math.min(9999, score))`.
  - `DecimalString` is `Number.prototype.toString` on a non-negative integer below
    10^21. The board only ever formats 0..9999.
  - `PadStart` is `String.prototype.padStart` with a one-character pad.
  - `FormatScore` composes the three.
  - `DecimalValue` reads a digit string back as a number. The round-trip property is
    stated with it.
- **The ball and the scoring gate** (`onFrame` and the callbacks it schedules).
  Module `RingToss` (`ring_toss.dfy`) models this.
  - `GameState` holds the module-level variables `score`, `ball` (as `ballLive`) and
    `isScoring`. It also holds the board text, the arrow's material, and counts of
    the callbacks that are scheduled but have not yet run: expiry tweens, 200 ms
    timers and scored tweens.
  - Pure functions give the specification of each entry point: `Frame` for one call
    of `onFrame` (the controller loop and arrow update `Poll`, then the ball step
    `BallStep`), and `ScoreTimerFires`, `ScoredRemoval`, `ExpiryRemoval` and
    `ArrowArrives` for the callbacks.
  - `Run` applies any sequence of these events. A callback can run only while one of
    its kind is pending.
  - Class `Game` keeps the same state in mutable fields. It has one method per entry
    point, and each method is proved to produce the state its specification function
    gives. `OnFrame` runs the source's body in three steps. `PollControllers` holds
    the loop over `[controllers.right, controllers.left]` and the
    `hittingLauncherLeft/Right` flags. The arrow update is inline. `AdvanceBall`
    holds the ball step, and `ScoreHit` the body of the hit branch.

Three.js, the physics and the XR runtime decide some things each frame. These enter
the model as booleans:
- whether a controller is tracked;
- whether its ray hits `Launcher`;
- whether its trigger was clicked;
- whether the launcher holds the `Ball` prototype;
- whether the live ball's `timeToLive` is below zero;
- whether the ball is within 0.65 of the ring.

The score itself is never clamped; only the board text is (`score += 10` is
unbounded, src/index.js:213).

The model allows the host's frames and the timers to interleave in any order. In one
such order the 200 ms timer fires after an expiry tween has already removed the
scoring ball. The timer callback reads `ball.scale` on `null`. It throws, so the
scored tween that would reset `isScoring` is never started. `ScoreTimerWithoutBall`
shows that the gate is then closed with nothing pending, `GateStaysClosed` that it
stays closed and the score stays put over any later sequence of events, and
`LostTimerReachable` that the model reaches this state. With real
timings the timer (200 ms) normally fires before an expiry tween started on a later
frame can finish (200 ms plus at least one frame). So this is stated as a property of
the model, not as a defect of the program.

## Model

| member | source | states |
|---|---|---|
| `ScoreDisplay.Clamp` | src/index.js:43 | the result lies in [0, 9999]; it equals the score inside that range, 0 below it and 9999 above it |
| `ScoreDisplay.DecimalString` | src/index.js:44 | the decimal text of a natural number is never empty and holds only the characters '0'..'9' |
| `ScoreDisplay.DecimalStringCorrect` | src/index.js:44 | the decimal text of a natural number is all digits, reads back as the number, has no leading zero unless it is "0", and has the fewest digits that can hold the number |
| `ScoreDisplay.PadStart` | src/index.js:44 | a string already at the target length comes back unchanged; otherwise the result has the target length, ends with the original string and is pad characters before it |
| `ScoreDisplay.FormatScore` | src/index.js:42-44 | the board text always has exactly 4 characters, all of them '0'..'9', so it never holds a minus sign |
| `ScoreDisplay.FormatScoreRoundTrip` | src/index.js:43-44 | reading the 4 characters back as a decimal number gives max(0, min(9999, score)) |
| `ScoreDisplay.FormatScoreSaturates` | src/index.js:43 | scores of 9999 or more show "9999"; scores of 0 or less show "0000" |
| `ScoreDisplay.FormatScoreInjective` | src/index.js:43-44 | two scores show the same text if and only if they clamp to the same value; formatting the clamped score shows the same text (idempotence) |
| `RingToss.Init` | src/index.js:23-40 | the game starts with score 0, no ball and the gate open (src/index.js:23, 29, 40), and the board showing "0000", as setupScene's call at src/index.js:106 writes it |
| `RingToss.ArrowArrives` | src/index.js:94-101 | the arrow appears with its own (non-highlight) material and nothing else changes |
| `RingToss.Frame` | src/index.js:126-237 | one call of onFrame never removes a ball, never loads or unloads the arrow, either leaves the score alone or adds exactly 10 while closing a gate that was open, schedules one 200 ms timer exactly when it scores, one expiry tween exactly when a live ball has expired, and no scored tween |
| `RingToss.Poll` | src/index.js:127-188 | the controller loop and arrow update change only the ball and the arrow's material; they never remove a ball and never load or unload the arrow |
| `RingToss.BallStep` | src/index.js:190-234 | the ball step changes neither the ball nor the arrow; with no live ball it changes nothing; it either leaves the score alone or adds exactly 10 while closing a gate that was open; it schedules one 200 ms timer exactly when it scores, one expiry tween exactly when the live ball has expired, and no scored tween |
| `RingToss.Hit` | src/index.js:210-219 | a hit closes the gate, adds exactly 10, shows the new score on the board, starts one 200 ms timer, and changes nothing else |
| `RingToss.ScoreTimerFires` | src/index.js:219-231 | the timer starts the scored tween if a ball is live; with no ball it starts nothing; nothing else changes |
| `RingToss.ScoredRemoval` | src/index.js:225-229 | scored removal clears the ball, reopens the gate and retires one scored tween; every other field (score, board, arrow, timers, expiry tweens) is untouched |
| `RingToss.ExpiryRemoval` | src/index.js:197-200 | expiry removal clears the ball and retires one expiry tween; every other field (score, gate, board, arrow, pending 200 ms timers and scored tweens) is untouched |
| `RingToss.FrameLaunch` | src/index.js:139-169 | a frame never removes a ball; a ball becomes live exactly when none was live, some controller's ray is on Launcher with its trigger clicked, and the Ball prototype exists |
| `RingToss.FrameWithoutLaunch` | src/index.js:146-158 | with no ball live and no launching controller, a frame leaves the ball, the score, the gate and the board unchanged |
| `RingToss.FrameScoring` | src/index.js:190-214 | a frame adds exactly 10 and closes the gate when the live ball has not expired, is near the ring and the gate is open; otherwise it leaves the score and the gate alone; while the gate is closed nothing scores |
| `RingToss.FrameArrow` | src/index.js:127-188 | once the arrow is loaded, it is highlighted exactly when the right (index 0) or the left (index 1) controller's ray hits Launcher; before it loads, the frame leaves it alone |
| `RingToss.InitInv` | src/index.js:29-40 | the starting state satisfies the invariant |
| `RingToss.FrameInv` | src/index.js:190-214 | a frame keeps the invariant: score a non-negative multiple of 10, the board showing it, at most one scoring callback pending, and only while the gate is closed |
| `RingToss.HitInv` | src/index.js:210-214 | a hit with the gate open keeps the invariant (the new score is again a multiple of 10), and afterwards exactly one scoring callback (a 200 ms timer or a scored tween) is pending |
| `RingToss.ApplyInv` | src/index.js:126-234 | every callback that can run keeps that invariant |
| `RingToss.ApplyScoreGrows` | src/index.js:213 | no callback lowers the score |
| `RingToss.RunInv` | src/index.js:126-234 | the invariant holds after any sequence of frames and callbacks |
| `RingToss.RunScoreGrows` | src/index.js:213 | the score never decreases over any sequence of events |
| `RingToss.Reachable` | src/index.js:29 | from the start, the score is always a non-negative multiple of 10, the board shows its formatted value, and from 9999 on the board reads "9999" |
| `RingToss.ScoreTimerWithoutBall` | src/index.js:219-231 | if the timer fires with no live ball, the gate stays closed with no timer and no scored tween pending, and the next frame does not score |
| `RingToss.GateStaysClosed` | src/index.js:210-231 | once the gate is closed with no timer and no scored tween pending, it stays closed, nothing becomes pending and the score stays the same after any sequence of events |
| `RingToss.LostTimerReachable` | src/index.js:190-231 | a concrete order of events reaches that closed-gate state: a launch frame, a later frame that hits the ring, a frame in which the ball has expired, the expiry removal, and then the timer |
| `RingToss.Game.constructor` | src/index.js:23-40 | the fields start in the state `Init` gives (module initialisation, then setupScene's board update at src/index.js:106), which satisfies the invariant |
| `RingToss.Game.UpdateScoreDisplay` | src/index.js:42-47 | the board text becomes `FormatScore(score)` and no other field changes |
| `RingToss.Game.OnArrowLoaded` | src/index.js:94-101 | the fields change as `ArrowArrives` says, and the invariant is kept |
| `RingToss.Game.OnFrame` | src/index.js:126-237 | the loop over both controllers, the arrow update and the ball step together give exactly the state `Frame` gives, and the invariant is kept |
| `RingToss.Game.PollControllers` | src/index.js:127-178 | the loop over `[right, left]` reports for each controller whether its ray hits Launcher, and makes a ball live exactly when one was live already or a controller on Launcher has its trigger clicked and the prototype exists |
| `RingToss.Game.AdvanceBall` | src/index.js:190-234 | the fields change as `BallStep` says: an expired ball gets one more expiry tween; otherwise a ball near the ring with the gate open scores |
| `RingToss.Game.ScoreHit` | src/index.js:210-214 | the fields change as `Hit` says |
| `RingToss.Game.OnScoreTimer` | src/index.js:219-224 | the fields change as `ScoreTimerFires` says, and the invariant is kept |
| `RingToss.Game.OnScoredRemoval` | src/index.js:225-229 | the fields change as `ScoredRemoval` says, and the invariant is kept |
| `RingToss.Game.OnExpiryRemoval` | src/index.js:192-200 | the fields change as `ExpiryRemoval` says, and the invariant is kept |

## Left out

- Rendering, GLTF loading of the space station, launcher and ring, and audio
  loading and playback (src/index.js:71-124, 155-156, 216-217). These are engine
  I/O. Only the arrow's load callback is modelled, because `onFrame` checks for the
  arrow.
- Three.js raycasting and `getObjectByName` (src/index.js:135-138, 147). They are
  foreign library calls. Their outcomes are boolean inputs.
- Projectile physics: gravity, `launchVector`, `distanceTo` and the `timeToLive`
  countdown (src/index.js:16-21, 203-208). This is floating-point numerics. It is
  reduced to the per-frame inputs `expired` and `nearRing`.
- The gsap tweens' animation: the ring's up/down motion, the ball shrinking and
  `gsap.ticker.tick` (src/index.js:49-69, 236). These are timing, not logic. Only
  the effects of the `onComplete` callbacks and of the 200 ms timer are modelled.
- `onFrame` reads `launcher` and `ring` without checking that they have loaded
  (src/index.js:147, 208). Before they load, those reads throw. The model assumes
  both have loaded and covers only the arrow's guarded load.
- The haptic pulse and its swallowed exception (src/index.js:149-153). It has no
  effect on the game state.
- Which ball a callback removes. The model tracks only whether some ball is live, so
  a stale callback that removes a newer ball shows up only as `ballLive` becoming
  false.
- The exception thrown by the 200 ms timer when the ball is null. It is modelled
  only by its effect: no scored tween starts. How it reaches the host is not
  modelled.
- `PadStart`: it models `padStart` with a one-character pad string only, the form
  the program uses.
- `DecimalString`: it models `toString` on non-negative integers below 10^21 only.
  From 10^21 on, `toString` gives exponent notation (`"1e+21"`), and above 2^53 a
  JavaScript number cannot hold every integer. Neither matters here: the board
  always formats a clamped value in 0..9999.
- The score as a JavaScript number: `score` is a double, exact only up to 2^53. The
  model keeps it as an unbounded integer. At 10 points a hit the difference is out
  of reach.
- The order in which a ball's frames can report `expired` and `nearRing`. Each frame
  takes both as free inputs. In the program, `timeToLive` only falls (src/index.js:206)
  and a ball that has expired stays expired (src/index.js:191). A hit also needs the
  ball to fly from the launcher (z = -1, src/index.js:80) to the ring (z = -6,
  src/index.js:86), so it takes more than one frame. The model allows more
  behaviours than the program, for example a launch and a hit in the same frame.
  Every property proved over `Run` holds for all of them, so it holds for the
  program's behaviours too.
- `init` from `./init.js` is not part of this model. It owns the render loop and the
  XR session.
