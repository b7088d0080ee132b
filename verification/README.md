# GeoTrack core, modelled in Dafny

GeoTrack is a browser app that follows the local user's GPS position on a map,
records a trail of accepted fixes with the distance travelled and the elapsed
time, and animates five simulated users ("bots") around the local user. This
project models its logic as pure transitions over immutable records:

- `types.dfy` (module `Types`): `Coordinates`, `User`, `TrackingStatus` and
  the presence tag of `types.ts`. A `null` speed or heading is `None`.
- `trail.dfy` (module `Trail`): the per-fix update of the `watchPosition`
  success handler. A fix is appended to the path, and its distance from the
  last vertex added to the running total, only when that distance exceeds
  3 m. The fix always becomes the position.
- `simulation.dfy` (module `Simulation`): `generateSimulatedUser` (`Spawn`) and
  `moveSimulatedUser` (`Move`), with the `NAMES`/`COLORS` pools, the heading
  wrap, the floored speed and the 50-entry path bound.
- `app.dfy` (module `App`): the session of `App.tsx`. It covers the initial
  user, start, stop, toggle, the watch error, the duration timer, the 5-bot
  spawn and the simulation timer. An `Event` type and `Step`/`Run` tie these
  together so that invariants can be stated over every reachable session.

Parameters stand in for what the model cannot see:
- `calculateDistance` is `dist: (real, real, real, real) -> real`. Its haversine
  body is in `utils/geoUtils`, which is not part of this model. Properties
  that need `dist >= 0` say so with `NonNegative(dist)`.
- `Math.random()` is a value of the subset type `Unit`, the interval [0, 1).
- `Date.now()` is an `int` argument.
- `Math.cos`/`Math.sin` are the two functions of a `Trig` value.

`Trail.IngestFix` requires a non-empty path. The handler reads
`path[path.length - 1].lat`, which throws on an empty path, and no event ever
produces one (`App.Step`).

Numbers are `real`. JavaScript's `%` is modelled as the truncating remainder
(`WrapDegrees`). The `&& startTime` test is modelled as "set and non-zero"
(`Started`).

Behaviour of the code that is easy to miss, modelled as written:
- The local user's `position` can differ from the last vertex of its path.
  A fix within 3 m moves the position but not the path (App.tsx:135-146,
  `Trail.RejectedFixLeavesTrail`).
- The button starts tracking from `Error` too, as from `Idle` and `Paused`
  (App.tsx:172-173).
- Starting from `Paused` resets the distance, the duration and the path, so a
  pause is never resumed (App.tsx:105-113, `App.PauseThenToggleRestarts`).
- The heading change is drawn from [-10, 10), since `Math.random()` lies in
  [0, 1) (utils/simulation.ts:39).
- The watch error sets `Error` from any status (App.tsx:149-152).
- Stop sets `Paused` from any status (App.tsx:161-162).
- Start leaves a pending error message in place, and stop leaves the start
  time in place (App.tsx:105-109, App.tsx:161-167).

## Model

| member | source | states |
|---|---|---|
| Trail.IngestFix | App.tsx:129-147 | No user stays no user and adds nothing. With a user, the fix becomes the position and id, name, colour, flag and status are kept. Over 3 m from the last vertex, the fix is appended and exactly that distance is added. Otherwise the path is unchanged and nothing is added. |
| Trail.IngestAll | App.tsx:129-147 | Over a stream of fixes: a user exists after exactly when before. The path never shrinks, keeps its old entries as a prefix and stays non-empty. The position is the latest fix. |
| Trail.IngestKeepsTrail | App.tsx:132-140 | The distance a fix adds equals the growth of the trail's polyline length. Every leg of the trail stays over 3 m long. The path grows by at most one entry, at its end. |
| Trail.IngestAllKeepsTrail | App.tsx:129-147 | Over any stream of fixes, the total added equals the growth of the polyline length, and no leg of 3 m or less appears. |
| Trail.IngestAllAddsNonNegative | App.tsx:137-138 | With a non-negative distance function, a stream of fixes never lowers the running distance. |
| Trail.JitterIsIgnored | App.tsx:135-146 | Fixes all within 3 m of the last vertex leave the path and the running distance unchanged. Only the position follows them. |
| Trail.RejectedFixLeavesTrail | App.tsx:135-146 | A rejected fix that differs from the last vertex leaves the position off the path's end. |
| Simulation.PickIndex | utils/simulation.ts:22-26 | `floor(r * len)` with r in [0, 1) is a valid index into a pool of `len` entries. |
| Simulation.Spawn | utils/simulation.ts:7-29 | A spawned user has the given id, is not the local user, is online and has accuracy 10. Its path is one element equal to its position. Its lat/lng offsets from the centre are (draw - 0.5) * 0.01, so they lie in [-0.005, 0.005). Its speed is draw * 5 + 1, in [1, 6), and its heading draw * 360, in [0, 360). Its name and colour are the `NAMES` and `COLORS` entries the name and colour draws pick. |
| Simulation.WrapDegrees | utils/simulation.ts:40 | JavaScript `x % 360` lands in [0, 360) for non-negative x and in (-360, 0] for negative x. It differs from x by a whole number of turns. It is the identity on (-360, 360) and subtracts 360 once on [360, 720). |
| Simulation.NextHeading | utils/simulation.ts:39-40 | From a heading in [0, 360) or an unknown one, the new heading is in [0, 360). It equals the old heading plus the change, modulo one turn. |
| Simulation.NextSpeed | utils/simulation.ts:51 | The new speed is max(0, old + (r - 0.5)), with unknown counted as 0. It is never negative, never below old + (r - 0.5), and equals either 0 or old + (r - 0.5). |
| Simulation.Radians | utils/simulation.ts:42 | `heading * Math.PI / 180`: the radians times 180 equal the degrees times π, and a heading in [0, 360) maps into [0, 2π). |
| Simulation.RadiansOneTurn | utils/simulation.ts:40-42 | Adding or removing one turn of 360 degrees adds or removes exactly 2π radians, so under a `cos`/`sin` with period 2π the wrapped heading points the same way. |
| Simulation.KeepLast | utils/simulation.ts:57 | `slice(-n)` with n > 0 (the source uses 50) keeps min(length, n) entries, and they are the sequence's own tail. |
| Simulation.Move | utils/simulation.ts:32-64 | After a tick the path is the tail of old path ++ [new position], of length min(old + 1, 50), ending at the new position. Id, name, colour, flag and status are kept. Accuracy becomes 10. The new heading is `NextHeading` of the old heading and the heading draw, and the new speed is `NextSpeed` of the old speed and the speed draw, so it is non-negative. A heading in [0, 360) or unknown stays in [0, 360). |
| Simulation.MoveDisplacement | utils/simulation.ts:36-45 | When cos² + sin² = 1, a tick moves the user exactly (speed or 0) / 111000 degrees, along the new heading. |
| Simulation.MoveManyKeepsShape | utils/simulation.ts:57-62 | n ticks from a path of at most 50 entries give min(start + n, 50) entries, so n ticks after spawn give min(n + 1, 50). A well-formed agent stays well formed: path ends at the position, speed non-negative, heading in [0, 360). |
| Simulation.SpawnIsWellFormed | utils/simulation.ts:11-27 | A spawned user is well formed: a one-entry path ending at its position, known non-negative speed, heading in [0, 360), accuracy 10, online, not the local user. |
| App.InitialUser | App.tsx:81-89 | The local user from the first fix has id "me", is the local user, is online, and has a one-element path equal to its position. |
| App.OnLocated | App.tsx:70-90 | The first fix creates exactly `InitialUser(coords)`, the local user with id "me" and a one-element path ending at its position. Nothing else changes. |
| App.OnLocateFailed | App.tsx:92-96 | A failed initial request only sets the location-denied message. |
| App.OnNoGeolocation | App.tsx:99-101 | A browser without geolocation only sets the unsupported message. |
| App.Start | App.tsx:105-114 | From any state: Tracking, start time now, distance 0 and duration 0. The path is reset to [position], and a missing user stays missing. The error message and the bots are kept. |
| App.Stop | App.tsx:161-167 | Stop sets Paused and leaves distance, duration, path and everything else unchanged. |
| App.Toggle | App.tsx:169-175 | While Tracking the button pauses and changes nothing else. From Idle, Paused or Error it is exactly `Start`: zeroed counters and a one-point path, with the bots, the error message and the user's other fields kept. |
| App.OnWatchError | App.tsx:149-152 | A watch failure sets Error and the prefixed message. Position, path, distance and duration are kept. |
| App.DismissError | App.tsx:227 | Closing the toast clears the message and nothing else. |
| App.DurationTick | App.tsx:33-37 | The duration becomes now - startTime only while Tracking with a set, non-zero start time. Otherwise the session is unchanged. |
| App.Started | App.tsx:34 | The `&& startTime` test holds exactly for a set, non-zero start time: a start time of 0 is falsy. |
| App.OnFix | App.tsx:129-147 | In the session: an accepted fix adds its distance to the running total and is appended. A rejected one changes neither. The position always follows. The local user's id, name, colour, flag and status are kept. Without a local user nothing changes. |
| App.SpawnBots | App.tsx:49-53 | Five users, the i-th spawned with id bot-i from the i-th set of draws, each well formed, with a one-point path within ±0.005° of the centre. |
| App.BotId | App.tsx:51 | `bot-${i}` is the prefix "bot-" followed only by the decimal digits of i; for i < 10 it is "bot-" and one digit. |
| App.Decimal | App.tsx:51 | The template literal renders i as a non-empty string of digits with no leading zero; below 10 it is the single digit. |
| App.DecimalRoundTrip | App.tsx:51 | Reading the rendered digits back gives i, so the rendering is faithful and injective. |
| App.MaybeSpawnBots | App.tsx:47-54 | Bots are spawned around the local user's position only when a local user exists and there are no bots yet. Otherwise nothing changes. |
| App.SimTick | App.tsx:56-59 | Each simulation tick moves every bot once, in order, and keeps their number. |
| App.Step | App.tsx:67-175 | No event ever leaves the local user with an empty path. |
| App.StepKeepsInvariant | App.tsx:105-152 | Every event keeps two facts: the running distance equals the recorded trail's polyline length with all legs over 3 m, and every bot is well formed. |
| App.RunKeepsInvariant | App.tsx:67-175 | Any sequence of events keeps that invariant if the initial location answers at most once and before a local user exists. |
| App.Reachable | App.tsx:20-152 | In every session reachable from the initial one, the invariant holds and, with a non-negative distance, the running distance is ≥ 0. |
| App.DistanceBetweenStarts | App.tsx:105-147 | A start resets distance and duration to 0. Every other event leaves the running distance unchanged or larger. |
| App.PauseThenToggleRestarts | App.tsx:161-175 | Pausing keeps the counters and the path. Pressing again does not resume: it zeroes them and resets the path to the position. |
| App.DurationFollowsClock | App.tsx:33-37 | A tick after a start at t0 ≠ 0 reports now - t0. After a stop the duration stays frozen. |
| App.SpawnOnlyOnce | App.tsx:47-54 | Once the spawn effect has run with a local user present, running it again changes nothing. |
| App.BotIdsDistinct | App.tsx:50-51 | Distinct indices give distinct `bot-${i}` ids, so bot-0 … bot-4 are pairwise distinct. |
| App.RunSimulation | App.tsx:49-59 | Spawning five bots and running the simulation timer n times leaves five well-formed bots with their ids. Each path has min(n + 1, 50) entries, so 100 ticks give 50. |

## Left out

- `utils/geoUtils` (haversine `calculateDistance`, `formatDistance`, `formatDuration`) is not part of this model. The distance function is a parameter.
- Rendering: `components/TrackerMap.tsx`, `components/InfoPanel.tsx`, `components/AdminPanel.tsx`, the loading screen, the `isLocating` and `isAdminMode` flags. They only display the session.
- `services/geminiService.ts`: a network call to an external text model with a fixed fallback.
- Browser machinery. This covers `navigator.geolocation` registration and `clearWatch`, the watch-id and interval-id refs, `setInterval`/`clearInterval`, and `useEffect` dependencies, closures and re-runs.
  - Each callback or timer firing is one atomic `Event`.
  - A fix is modelled whenever it is delivered, whatever the status. Which fixes the browser delivers after a stop or an error is scheduling, not logic.
  - The early `return` of start when `navigator.geolocation` is missing only skips the watch registration, so it changes no state.
- The `console.warn` of the failed initial request (App.tsx:93) is logging only and changes no state.
- Floating point: IEEE-754 rounding, `NaN`, and the exact values of `Math.cos`/`Math.sin`. Reals are exact here.
- Simulation.MoveDisplacement: holds only for trigonometric functions with cos² + sin² = 1. The model does not fix their values.
- App.RunKeepsInvariant: assumes the initial location request answers at most once and before a local user exists. In the app it is made once at mount. A second answer would replace the user and break the distance–trail equality.
