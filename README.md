# clock-functions: Stopwatch, Timer and time units in Dafny

This project models `src/index.ts` of the clock-functions library:

- **Stopwatch** accumulates active time over start/stop cycles. It has the
  mutators `start`, `stop`, `toggle`, `reset`, `cancelStart` and `cancelStop`.
  Each returns a boolean and changes nothing when it refuses. The queries are
  `isActive`, `time`/`valueOf`, `sinceStart` and `toString`. It has four hooks:
  `onstart`, `onstop`, `onreset` and `ontime`.
- **Timer** counts down `delay` milliseconds over a Stopwatch it owns. It asks
  the host timer queue for an `onfinish` callback.
- **Units** are the exported millisecond constants.

Modelling choices:

- `Date.now()` is the explicit parameter `now` of each operation that reads it.
- A hook invocation is a `Hook` tag appended to the Stopwatch's `emitted` log.
- `_date` is an `Option<int>`. The code tests it for JavaScript truthiness, so
  both undefined and `0` mean "never started" (`HasDate`). A start at timestamp
  0 therefore cannot be stopped.
- The module `Stopwatches` gives each mutator as a pure step function on a
  `State` value. The step function returns the result, the next state and the
  hooks fired. Its contract states the operation's promise. The class
  `Stopwatch` updates its fields in place and is proved to follow these
  functions.
- The Timer's requests to the host queue form the log `host`. A request is
  either `SetTimeout(d)` or `ClearTimeout(handle)`. A callback is known by its
  position in the log. `Pending` computes the callbacks that are still waiting.
- The Timer installs handlers on its Stopwatch's `onstart` and `onstop`. The
  model has no closure-valued fields. So the Timer runs the handler for the
  hook that the Stopwatch call fired, right after that call. In the code the hook
  is the last thing `start` and `stop` do, so this is equivalent.

Where the intended design and the code differ, the model follows the code:

- The intended design keeps at most one pending callback per Timer: each
  reschedule cancels the old one, and `stop` cancels too. The code does
  neither. `_canceltimeout` is installed as `onstop` without binding
  (src/index.ts:158). It then runs with the Stopwatch as `this`, whose
  `_timeout` is undefined. So every clear names no handle. `_settimeout`
  never clears the previous handle either. `Timers.NothingCancelled` and
  `Timers.InitialCallbackPending` state the consequence: every requested
  callback stays pending. This includes the constructor's full-delay one,
  which is requested even without auto-start.
- One would expect an active Stopwatch always to have a start date. The code
  breaks this: `cancelStop` on a new Stopwatch makes it active with no date
  (`Stopwatches.ActiveWithoutDate`).
- The `toggle` comment says the event "is always emitted". It is not emitted
  when the inner `stop` is refused (`Stopwatches.ToggleStep`).
- `reset` keeps the last stop's length. A `cancelStop` after a `reset`
  therefore subtracts it from the new zero total, and the reading becomes
  minus the last stop (`Stopwatches.CancelStopAfterReset`).

## Model

| member | source | states |
|---|---|---|
| `Stopwatches.Fresh` | src/index.ts:4-7 | the initial fields: inactive, no truthy date, no last stop, and a reading of 0 with null `sinceStart` at every instant |
| `Stopwatches.HasDate` | src/index.ts:41 | the truthiness test `!this._date`: true exactly when the date is defined and not 0 |
| `Stopwatches.SinceStartOf` | src/index.ts:126-129 | null exactly when inactive or the date is falsy; otherwise `now` minus the start date |
| `Stopwatches.TimeOf` | src/index.ts:118-121 | the total alone when not running with a date; the total plus the running interval otherwise |
| `Stopwatches.TimeMonotone` | src/index.ts:118-129 | between mutations the reading never decreases as the clock advances |
| `Stopwatches.Render` | src/index.ts:136-138 | the rendering is `IntToString` of the time, a canonical numeral, followed by "ms"; the numeral parses back to the time |
| `Stopwatches.StartStep` | src/index.ts:27-33 | refused iff already active, and then nothing changes and no hook fires; otherwise active with date `now`, total and last stop kept, onstart fired iff `emit`, reading at `now` unchanged |
| `Stopwatches.StopStep` | src/index.ts:40-48 | accepted iff active with a truthy date; otherwise no change; when accepted, last stop = `now - date`, total grows by exactly that, inactive, date kept, onstop iff `emit`, and the reading at every later instant is frozen at its value at `now` |
| `Stopwatches.ToggleStep` | src/index.ts:54-61 | returns the negated old active flag whether or not the inner call succeeds; inactive becomes active with date `now`, other fields kept; active with date becomes inactive with last stop `now - date` added to the total; active without date is unchanged with no hook; reading at `now` unchanged |
| `Stopwatches.ResetStep` | src/index.ts:68-74 | no change and no hook without a truthy date; otherwise total 0, date `now`, active flag and last stop kept, onreset iff `emit`, reading at `now` is 0; returns the active flag (false when refused) |
| `Stopwatches.CancelStartStep` | src/index.ts:80-84 | accepted iff active; afterwards inactive with total, date and last stop untouched, so the reading at every instant is the pre-start total; no hook |
| `Stopwatches.CancelStopStep` | src/index.ts:90-95 | accepted iff inactive; afterwards active, total reduced by the last stop (0 if none was recorded), date and last stop untouched; no hook |
| `Stopwatches.Apply` | src/index.ts:27-61 | start, stop and toggle never change the reading at the instant they run |
| `Stopwatches.TimeNeverDecreases` | src/index.ts:27-61 | over any chronological run of starts, stops and toggles the reading never decreases |
| `Stopwatches.FreshStopwatch` | src/index.ts:3-20 | a new Stopwatch is inactive, reads 0, has no `sinceStart`, renders "0ms", and refuses stop and reset |
| `Stopwatches.StartThenStopMeasures` | src/index.ts:27-48 | a start at `t1` then a stop at `t2` adds exactly `t2 - t1` to the reading, at every later instant |
| `Stopwatches.CancelStopUndoesStop` | src/index.ts:90-95 | right after an accepted stop, cancelStop restores total, active flag and date, so the reading at every later instant equals the one without the stop |
| `Stopwatches.CancelStartUndoesStart` | src/index.ts:80-84 | right after an accepted start, cancelStart restores the inactive Stopwatch and its reading at every instant; only the date differs |
| `Stopwatches.ToggleTwice` | src/index.ts:54-61 | two toggles whose inner calls succeed return alternating results and restore the active flag; from inactive they add exactly the interval between them |
| `Stopwatches.ActiveWithoutDate` | src/index.ts:90-95 | cancelStop on a new Stopwatch makes it active without a date, after which stop and reset are both refused |
| `Stopwatches.StartAtZeroCannotStop` | src/index.ts:40-41 | a start at timestamp 0 leaves a falsy date, so the following stop is refused |
| `Stopwatches.CancelStopAfterReset` | src/index.ts:68-95 | after reset of a stopped Stopwatch, cancelStop subtracts the old last stop and the reading becomes its negation |
| `Stopwatches.Stopwatch.constructor` | src/index.ts:18-20 | state is new, or new then started at `now` with onstart fired when `autoStart`; the reading at `now` is 0 |
| `Stopwatches.Stopwatch.Start` | src/index.ts:27-33 | result, new fields and fired hooks are those of `StartStep` on the old fields |
| `Stopwatches.Stopwatch.Stop` | src/index.ts:40-48 | result, new fields and fired hooks are those of `StopStep` on the old fields |
| `Stopwatches.Stopwatch.Toggle` | src/index.ts:54-61 | result, new fields and fired hooks are those of `ToggleStep` on the old fields |
| `Stopwatches.Stopwatch.Reset` | src/index.ts:68-74 | result, new fields and fired hooks are those of `ResetStep` on the old fields |
| `Stopwatches.Stopwatch.CancelStart` | src/index.ts:80-84 | result and new fields are those of `CancelStartStep`; no hook fires |
| `Stopwatches.Stopwatch.CancelStop` | src/index.ts:90-95 | result and new fields are those of `CancelStopStep`; no hook fires |
| `Stopwatches.Stopwatch.Fire` | src/index.ts:9-12 | invoking a public hook field directly records it and changes no field |
| `Stopwatches.Stopwatch.IsActive` | src/index.ts:100-102 | reports the active flag |
| `Stopwatches.Stopwatch.SinceStart` | src/index.ts:126-129 | null iff inactive or the date is falsy; otherwise `now` minus the date |
| `Stopwatches.Stopwatch.Time` | src/index.ts:109-121 | `time(emit)` and `valueOf(emit)`: returns `TimeOf` the fields, changes no field, and fires ontime iff `emit` |
| `Stopwatches.Stopwatch.ToString` | src/index.ts:136-138 | returns `Render` of the fields and fires ontime, because it reads through `time()` |
| `Decimal.IntToString` | src/index.ts:137 | number-to-string of an integer: a canonical numeral, with a leading '-' exactly for negatives, then digits, no leading zero, "0" for zero and no "-0" |
| `Decimal.IntToStringRoundTrip` | src/index.ts:137 | parsing the rendering of an integer gives the integer back |
| `Timers.Pending` | src/index.ts:249-262 | every pending callback is a `setTimeout` request in the log |
| `Timers.NothingCancelled` | src/index.ts:249-262 | when no clear names a handle, every callback ever requested is still pending |
| `Timers.TimerString` | src/index.ts:239-241 | "<remaining>/<delay>ms": the part before the first '/' is `IntToString` of the remaining time, the part after it is `IntToString` of the delay, both are canonical numerals that parse back, and it ends in "ms" |
| `Timers.Timer.constructor` | src/index.ts:154-166 | the Stopwatch is new or auto-started (onstart fired before any handler is installed); exactly one callback is requested, at the full delay, whatever `autoStart` is; the remaining time is the delay |
| `Timers.Timer.SetFinish` | src/index.ts:249-254 | appends a request for a callback after `d` and keeps its handle, without clearing the previous one |
| `Timers.Timer.CancelFinish` | src/index.ts:260-262 | appends a clear of the handle held by the object it is invoked on |
| `Timers.Timer.OnStartHandler` | src/index.ts:159-162 | reads the time with ontime fired and requests a callback after the remaining time |
| `Timers.Timer.OnStopHandler` | src/index.ts:158 | `_canceltimeout` run with the Stopwatch as `this`: a clear naming no handle |
| `Timers.Timer.Handle` | src/index.ts:158-162 | onstart runs the rescheduling handler, onstop the unbound cancel, other hooks nothing |
| `Timers.Timer.Start` | src/index.ts:172-174 | result and Stopwatch state are `StartStep`'s; when it starts, one callback is requested after the old remaining time and none is cleared |
| `Timers.Timer.Stop` | src/index.ts:180-182 | result and Stopwatch state are `StopStep`'s; when it stops, one clear naming no handle is issued, and the pending callbacks are exactly those before |
| `Timers.Timer.Toggle` | src/index.ts:187-189 | result and Stopwatch state are `ToggleStep`'s; a start requests a callback after the remaining time and fires onstart then ontime; a stop issues an empty clear and fires onstop; a refused stop does nothing |
| `Timers.Timer.Reset` | src/index.ts:195-200 | returns `reset(false)` of the Stopwatch; active flag kept; with a date set the remaining time is the full delay, otherwise the delay less the kept total; onstop, onstart and ontime fire in that order; an empty clear then a request for the remaining time |
| `Timers.Timer.IsActive` | src/index.ts:212-214 | the Stopwatch's active flag |
| `Timers.Timer.SinceStart` | src/index.ts:205-207 | the Stopwatch's `sinceStart` |
| `Timers.Timer.TimeRemaining` | src/index.ts:221-232 | `timeRemaining()` and `valueOf()`: the delay less the Stopwatch's `TimeOf`, read without firing ontime |
| `Timers.Timer.ToString` | src/index.ts:239-241 | `TimerString` of the remaining time and the delay |
| `Timers.RemainingNeverIncreases` | src/index.ts:172-189 | over any chronological run of starts, stops and toggles of a Timer's Stopwatch, the remaining time never increases |
| `Timers.InitialCallbackPending` | src/index.ts:164 | the constructor's full-delay callback is never cancelled by any later operation |
| `Timers.NewIdleTimer` | src/index.ts:154-166 | a Timer built without auto-start is inactive, has the whole delay left, renders "<delay>/<delay>ms", and already has one pending callback |
| `Units.UnitRelations` | src/index.ts:265-273 | minute = 60 s, hour = 60 min, day = 24 h, week = 7 d, month = 30 d, year = 365 d |
| `Units.UnitValues` | src/index.ts:265-273 | the constants in milliseconds, from 1000 up to 31536000000 |

## Left out

- `Date.now()`: the clock is not modelled. Each operation takes the instant `now` as a parameter. Every clock read inside one call is taken to be that same instant. For example, `Timer.start` reads the clock in `start` and again in the onstart handler's `time()`, and `Timer.reset` reads it in `reset` and in that handler. The "old remaining time" of `Timers.Timer.Start` and the "full delay" of `Timers.Timer.Reset` rely on this.
- Host timers: `setTimeout` and `clearTimeout` are recorded as requests. When a callback fires is not modelled, and neither is `onfinish` running.
- The Timer constructor's `callback` argument and the `onfinish` field are not modelled. They matter only when a callback fires.
- Handler bodies: a hook call is recorded as a tag. Which handler is installed, what it does, the state it sees and re-entrant calls are not modelled. The Timer's own `onstart` and `onstop` handlers are the exception.
- JavaScript numbers are modelled as unbounded integers. Fractions, `NaN`, `-0`, precision loss and exponent notation for magnitudes of 10^21 and above are left out.
- Default arguments (`emit = true`, `autoStart`) are explicit parameters. The Timer passes the values the code passes.
- Stopwatches.ResetStep: records that onreset fired, but not that it fired before the fields changed. Handlers do not see the state in this model, so the order cannot be observed.
