# nclttr, modelled in Dafny

nclttr hides the X11 mouse pointer after a period without input and shows it
again on the next motion, button press or touch. With `-j radius` it ignores
raw motion until the motion accumulated since hiding reaches `radius` in
length, so sensor jitter does not reveal the pointer. This project models the
hide/reveal state machine in the main loop of `nclttr.c` and the two options
that configure it, and proves properties of single passes and of whole runs.

- `options.dfy`, module `Options`: the `-j`/`-t` option loop over the
  defaults (threshold 0, timeout 5), with `-j` stored as its square.
- `loop.dfy`, module `Loop`: the loop state `(hidden, x, y)`, one
  `Occurrence` per pass of `while (running)`, and `Step`, the pass as a pure
  function returning the next state, the visibility call (`Hide`, `Show` or
  none), the calls made on the event's extended data, and whether the loop
  goes on.
- `trace.dfy`, module `Runs`: `Run`, the loop folded over a sequence of
  occurrences and stopping at the first `break`, and the properties of runs.

The X11 and `select` plumbing becomes the occurrence of a pass:
`WaitExpired` (nothing queued and the timed wait returned 0), `PipeReady`
(nothing queued and the wait reported the self-pipe), `NextEventFailed`
(`XNextEvent` returned non-zero) or `Received(ev)`, where `ev` is
`RawMotion(dx, dy)`, `RawOther` (raw button press or touch update) or
`DataUnavailable` (`XGetEventData` failed). The timed wait is only entered
while visible, so `WaitExpired` and `PipeReady` are only possible then
(`Loop.Possible`, and `Runs.Admissible` for sequences). While hidden, the only thing
that stops the loop is a failed `XNextEvent`, because the self-pipe is not
watched then, so an interrupt while hidden is noticed after the next input
event at the earliest (`Loop.HiddenStopsOnlyOnEventFailure`). The accumulator is
a pair of `real`s and the threshold test `x*x + y*y < jitter` is exact.

With `-j 10`, the motions (3,0), (4,0), (5,0) put `x` at 3, 7 and 12. The
squares are 9, 49 and 144, so the third motion reveals
(`Runs.JitterTenRevealsOnThird`). A visible pass retrieves one event and
loops.

## Model

| member | source | states |
|---|---|---|
| `Options.Square` | nclttr.c:60-62 | the stored threshold is non-negative, fits in a C `int`, and is zero exactly when the radius is zero |
| `Options.ConfigureFrom` | nclttr.c:58-66 | the option loop never makes a non-negative threshold negative, and any threshold it stores fits in a C `int` |
| `Options.LastOptionWins` | nclttr.c:58-66 | the last `-j` decides the threshold (its square) and the last `-t` the timeout; without one the value before the loop stays |
| `Options.Configure` | nclttr.c:54-66 | defaults are threshold 0 and timeout 5; otherwise the square of the last `-j` and the last `-t`; the threshold is non-negative and zero exactly when no `-j` was given or the last was 0 |
| `Options.SignIrrelevant` | nclttr.c:61-62 | replacing every `-j` radius by its absolute value leaves the option loop's result unchanged |
| `Options.ConfigureIgnoresSign` | nclttr.c:61-62 | the configuration depends only on the magnitude of each `-j` radius |
| `Loop.Step` | nclttr.c:95-133 | `Hide` is made exactly on visible-to-hidden and `Show` exactly on hidden-to-visible; hiding resets the accumulator; a visible pass that does not hide changes nothing; staying hidden needs filtering on and either a failed fetch or motion strictly inside the radius; with filtering on, motion adds its deltas and reveals exactly when the squared sum is not below the threshold; the loop stops exactly on the self-pipe or a failed `XNextEvent`, silently; extended data is fetched only while hidden with filtering on, and then freed exactly once |
| `Loop.TimeoutHides` | nclttr.c:96-105 | a timed wait that expires while visible hides, resets the accumulator to (0,0), makes one `Hide` and continues |
| `Loop.VisibleEventDrained` | nclttr.c:110-113 | an event retrieved while visible is consumed with no call and no change of state |
| `Loop.UnfilteredReveal` | nclttr.c:114-132 | while hidden, with filtering off or for a button or touch event, one `Show` is made and the state becomes visible with the accumulator unchanged |
| `Loop.MotionAccumulates` | nclttr.c:119-132 | while hidden with filtering on, raw motion adds its deltas; strictly below the threshold it stays hidden with no call, otherwise one `Show` and visible |
| `Loop.FetchFailureIgnored` | nclttr.c:114-118 | while hidden with filtering on, a failed data fetch leaves the state unchanged, makes no call, and still frees the data |
| `Loop.StopIsSilent` | nclttr.c:107-111 | the self-pipe during the wait, or a failed `XNextEvent`, stops the loop with no call and the state unchanged |
| `Loop.HiddenStopsOnlyOnEventFailure` | nclttr.c:96-111 | while hidden, the loop stops exactly when `XNextEvent` fails: the self-pipe is only looked at during the timed wait, which is entered only while visible |
| `Loop.StepKeepsInside` | nclttr.c:102-128 | for a non-negative threshold, every pass keeps a hidden accumulator strictly inside the radius, or at the origin when filtering is off |
| `Runs.Run` | nclttr.c:95-133 | a run's call log holds only `Hide` and `Show`, at most one per occurrence, and the empty run changes nothing |
| `Runs.RunAlternates` | nclttr.c:96-132 | over any run, calls alternate starting with the one the starting visibility allows, and the final visibility has flipped once per call |
| `Runs.StrictAlternationFromStart` | nclttr.c:54-133 | from the initial visible state the calls are Hide, Show, Hide, ...: the first is `Hide`, neighbours differ, and the pointer ends hidden exactly after an odd number of calls |
| `Runs.RunFreesEveryFetch` | nclttr.c:114-129 | over any run the extended-data calls are GetData, FreeData pairs: every fetch is freed once before the next, none outstanding |
| `Runs.StopEndsRun` | nclttr.c:107-111 | once the loop has broken out, appending further occurrences changes neither admissibility nor the run |
| `Runs.AdmissibleAppend` | nclttr.c:95-133 | a run that has not stopped can be continued by any sequence admissible from where it ended |
| `Runs.RunAppend` | nclttr.c:95-133 | running `a` then `b` equals running `a + b`, calls and data calls concatenated, when `a` did not stop |
| `Runs.VisibleEventsDrained` | nclttr.c:96-113 | any number of events retrieved while visible produce no call and no change |
| `Runs.HideForgetsHistory` | nclttr.c:102-103 | two visible states differing only in their accumulator give the same calls, data calls and stop, and identical states once any call was made: jitter never carries over between hidden periods |
| `Runs.RunStaysInside` | nclttr.c:102-128 | for a non-negative threshold, every run from a state inside the radius ends inside it |
| `Runs.HiddenMeansInside` | nclttr.c:95-128 | for a non-negative threshold (as every configuration has) and a loop started visible, whenever it ends hidden with filtering on, the squared accumulator is strictly below the threshold |
| `Runs.MotionBelowRadiusStaysHidden` | nclttr.c:119-127 | while hidden with filtering on, raw motions whose running sum stays strictly inside the radius make no call, and the accumulator ends at the start plus the sum of the deltas |
| `Runs.FirstCrossingReveals` | nclttr.c:119-132 | after such motions, the first motion that brings the squared sum to the threshold or beyond makes exactly one `Show` and the pointer visible |
| `Runs.CycleRepeats` | nclttr.c:54-133 | with `-t 1` and no `-j`: expire, button press, expire gives Hide, Show, Hide and ends hidden |
| `Runs.JitterTenConfig` | nclttr.c:60-62 | `-j 10` gives threshold 100 and timeout 5 |
| `Runs.JitterTenFirstTwoStayHidden` | nclttr.c:119-127 | with threshold 100, hidden at the origin, motions (3,0) and (4,0) make no call and leave the accumulator at (7,0) |
| `Runs.JitterTenThirdReveals` | nclttr.c:119-132 | a third motion (5,0) brings the sum to (12,0) and makes exactly one `Show` |
| `Runs.JitterTenRevealsOnThird` | nclttr.c:95-133 | with `-j 10`, expire then motions (3,0), (4,0), (5,0), (5,0), (5,0) gives exactly Hide, Show and ends visible at (12,0) |

## Left out

- X11, XInput2 and XFixes calls (`XOpenDisplay`, `XISelectEvents`, `XPending`, `XNextEvent`, `XGetEventData`, `XFixesHideCursor`, `XFixesShowCursor`, `XCloseDisplay`): foreign calls, represented by occurrences and by the `Action` and `DataCall` outputs.
- `select`, `struct timeval` and elapsed time: the expiry of the timeout is the `WaitExpired` occurrence, so "not hidden before the timeout has elapsed" is not stated; the timeout value is carried in the configuration but not interpreted by the model.
- Whether an event retrieved while visible was already queued or arrived during the timed wait: both lead to the same pass, so one occurrence covers both.
- A `select` that fails (returns -1): the loop then tests the self-pipe bit as for any non-zero result; which occurrence follows depends on the descriptor set the call leaves, which belongs to the environment.
- The `SIGINT` handler, the asynchronously written `running` flag, the self-pipe write with its `EINTR` retry, and the `pipe`/`fcntl` set-up (nclttr.c:28-37, 72-76, 93): signal and concurrency plumbing. The loop condition is not modelled; a run ends when its occurrences end or at a `break`.
- `getopt` and `atoi` string parsing, the usage message and the exit codes (nclttr.c:67-70, 78-81, 134-135): thin libc wrappers and process exit; options arrive as their integer values.
- IEEE double rounding of `x += raw_values[...]`: the accumulator and deltas are exact reals.
- Options.Square: requires a radius of at most 46340 in magnitude, because a larger `-j` overflows `jitter*jitter`, which is undefined behaviour for a C `int`.
- Options.Configure: requires every `-j` radius to be at most 46340 in magnitude, for the same reason.
- Options.ConfigureFrom: requires every `-j` radius to be at most 46340 in magnitude, for the same reason.
