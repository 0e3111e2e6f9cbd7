# FutureSort scheduler, modelled in Dafny

FutureSort is a small window that starts one Kilosort spike-sorting run at a chosen future
time. The operator picks a data file, a results folder and a probe file, and chooses a time,
either directly or with the "5s", "10 PM" and "2 AM" presets. "Schedule" then starts a
background thread. That thread polls the clock once a second, calls the job once when the
time is due, and emits `finished`. The window counts down meanwhile, and "Cancel" stops the
thread. This project models that scheduling logic from `futuresort.py` and proves its
properties. Time is whole seconds, and a day starts at a multiple of 86400.

Modules:

- `Options` (options.dfy): `Option` and `Result`.
- `Presets` (presets.dfy): `set_scheduled_time` as a pure function, with its three `ValueError`s as `PresetError`.
- `Countdown` (countdown.dfy): the `divmod` split of the remaining time.
- `Kilosort` (kilosort.dfy): the settings merge and one call of the job (`RunKilosort`). The configured settings, the probe loader and the pipeline come in an `Environment` of oracles. The loader gives `None` when it raises. The pipeline receives the merged settings, the data file, the probe and the results folder, and it returns, raises an `Exception`, or raises a `BaseException` outside `Exception` (such as `SystemExit`).
- `Scheduler` (scheduler.dfy):
  - the poll loop as a pure state machine (`Step`, `RunEvents`) over events. A `ClockTick` carries a clock reading and the job's outcome. A `StopRequest` is `stop()` clearing the flag between two passes. A job that returns or raises an `Exception` is followed by `finished`; a `BaseException` escapes the `except Exception` and leaves `run()` without `finished`.
  - the lemmas about that state machine.
  - the class `SchedulerThread`. Its `Tick` and `Run` methods are proved to follow `Step` and `RunEvents`, with the outcome that `RunKilosort` gives on the thread's own three paths. `Stop` and `Wait` have their own contracts.
- `App` (app.dfy): the class `SchedulerApp`. It holds the path fields, the date-time field's value, the last thread, the two buttons' enabled flags, the Schedule button's caption and highlight, and the countdown label. Its handlers are methods. `ClickSchedule` and `ClickCancel` model the fact that a disabled Qt button emits nothing. That disabled Schedule button is the only "one job at a time" guard the program has. The invariant `Valid()` says Schedule is disabled while the last thread's loop is running. Once that loop has ended, Schedule stays disabled only after a job call that ended without `finished`. Four client methods step through scenarios using only the methods' contracts: cancel before the due time, a run at the due time, an escaping `BaseException`, and the countdown finding below. The verifier proves each one's `ensures` and `assert`s.

The model follows the code where it does less than a general scheduler design would. There is no "already scheduled" error: a second job is kept out only by the disabled button. There are no Completed, Failed or Cancelled states: the job's outcome is only printed, and cancel and finish both return the controls to their idle form.

Every clock reading is a parameter `now`: `datetime.now()`, `QDateTime.currentDateTime()` and the clock inside the loop. Within one handler call, all readings are the same `now`.

## Model

| member | source | states |
|---|---|---|
| `Presets.Midnight` | futuresort.py:365 | today's date as a moment: at or before `now`, less than a day before it, on a day boundary |
| `Presets.NextAtHour` | futuresort.py:368-372 | the absolute preset for a valid hour is strictly after `now`, at most 24 hours later, and exactly on the hour `H:00:00` |
| `Presets.PresetTime` | futuresort.py:356-374 | relative: `now + value` for "seconds", `now + 3600*value` for "hours", `UnsupportedUnit` otherwise; absolute: `HourOutOfRange` outside [0,23], otherwise a moment in `(now, now+86400]` on hour H; any other type: `UnsupportedTimeType` |
| `Presets.AbsolutePresetIsNextOccurrence` | futuresort.py:368-372 | the absolute preset is the earliest moment after `now` that falls on hour H |
| `Presets.AbsolutePresetDay` | futuresort.py:368-372 | the result is on today's date exactly when `H:00` is later than the time of day of `now`, and otherwise on tomorrow's date (22 at 10:00 gives today, 2 at 10:00 gives tomorrow) |
| `Presets.OnlyRelativePresetReadsUnit` | futuresort.py:357-374 | for every time type other than "relative" (absolute or unsupported), the result does not depend on the unit |
| `Countdown.Decompose` | futuresort.py:326-328 | hours < 24, minutes < 60, seconds < 60, and `days*86400 + hours*3600 + minutes*60 + seconds` is the remaining time |
| `Countdown.DecomposeTotalSeconds` | futuresort.py:326-330 | the split inverts that recombination: every normalized countdown is the split of its own total |
| `Countdown.DecomposeInjective` | futuresort.py:326-330 | different remaining times are displayed differently |
| `Kilosort.MergeSettings` | futuresort.py:45-46 | the probe lacks `n_chan` exactly when the merge raises; otherwise the keys are the settings' keys plus `n_chan_bin`, `n_chan_bin` holds the probe's `n_chan` (overriding any configured value), and every other entry is the configured one |
| `Kilosort.RunKilosort` | futuresort.py:41-51 | the job returns "Kilosort finished" exactly when the probe loads, has `n_chan`, and the pipeline returns normally on the merged settings with the job's data file, probe and results folder; a `BaseException` escapes exactly when the pipeline raises one there; otherwise it raises an `Exception` |
| `Kilosort.ConfiguredChannelCountIsOverridden` | futuresort.py:45-50 | two configurations that differ at most in `n_chan_bin` give the same job outcome: the probe's channel count always wins |
| `Scheduler.Step` | futuresort.py:69-86 | one pass calls the job at most once, only when the loop is alive, the flag is set and the tick is due, and that pass ends the loop; a call is matched by one `finished` unless a `BaseException` escapes, and `finished` is never emitted without a call; an ended loop stays ended |
| `Scheduler.RunKeepsAtMostOnce` | futuresort.py:69-86 | every sequence of ticks and stops keeps "at most one call, at most one `finished` per call, ended after the call"; without an escaping exception, calls and `finished` stay equal |
| `Scheduler.JobRunsAtMostOnce` | futuresort.py:69-86 | from a started thread, any events call the job at most once and emit `finished` at most as often, and exactly as often when no call escapes |
| `Scheduler.LaterTicksChangeNothing` | futuresort.py:81-82 | after the `break`, later ticks and stops call nothing and emit nothing |
| `Scheduler.NoDueTickNoCall` | futuresort.py:72-83 | ticks that are not due, and stops, never call the job |
| `Scheduler.StoppedNeverCalls` | futuresort.py:70-86 | once `stop()` has cleared the flag, no later tick calls the job or emits `finished` |
| `Scheduler.StopBeforeDueNeverExecutes` | futuresort.py:69-86 | a stop that comes before every due tick means the job is never called and `finished` is never emitted |
| `Scheduler.EarlyTicksSleep` | futuresort.py:70-83 | ticks before the due time leave a running loop as it was |
| `Scheduler.DueTickExecutesOnce` | futuresort.py:72-82 | without a stop, the first due tick calls the job exactly once and ends the loop; it emits `finished` once whether the job returned or raised an `Exception`, and not at all when a `BaseException` escaped; later ticks do not retry |
| `Scheduler.SchedulerThread.constructor` | futuresort.py:60-67 | a thread keeps its time and paths, with its flag set and its loop not yet started |
| `Scheduler.SchedulerThread.Start` | futuresort.py:300 | starting puts the loop at its first head check |
| `Scheduler.SchedulerThread.Tick` | futuresort.py:70-83 | one loop pass changes the thread as `Step` does, with the outcome of run_kilosort on the thread's own data file, results folder and probe file; the job is called exactly on an alive, flagged, due pass, and `finished` is emitted exactly on such a pass whose call did not escape |
| `Scheduler.SchedulerThread.Run` | futuresort.py:69-83 | passes over a stretch of clock readings follow `RunEvents` with that outcome, and stop early only when the loop has ended |
| `Scheduler.SchedulerThread.Stop` | futuresort.py:85-86 | `stop()` clears the flag and nothing else |
| `Scheduler.SchedulerThread.Wait` | futuresort.py:309-310 | waiting after `stop()` ends the loop without a job call or a `finished` |
| `App.Submit` | futuresort.py:283-290 | the submission is incomplete exactly when a path is None or empty; it is refused as past exactly when the paths are set and the time is not after `now`; otherwise it is accepted with that time and those paths |
| `App.CountdownLabel` | futuresort.py:325-333 | a countdown exactly when the time is after `now`, normalized and totalling the remaining seconds; otherwise "Action has been triggered" |
| `App.SchedulerApp.constructor` | futuresort.py:93-225 | no paths, no thread, Schedule enabled, Cancel disabled, label "Not scheduled", the field at `now` |
| `App.SchedulerApp.SelectDataFile` | futuresort.py:251-253 | a non-empty chosen name replaces the data file; an empty one keeps it |
| `App.SchedulerApp.SelectResultsDir` | futuresort.py:264-266 | a non-empty chosen folder replaces the results folder |
| `App.SchedulerApp.SelectProbeFile` | futuresort.py:278-280 | a non-empty chosen name replaces the probe file |
| `App.SchedulerApp.ScheduleCommand` | futuresort.py:282-305 | incomplete paths change nothing; a non-future time sets the label to "Scheduled time has passed", clears the highlight, and starts no thread or button change; otherwise a fresh started thread gets the field's time and the paths, Schedule is disabled, highlighted and captioned "Scheduled", and Cancel is enabled |
| `App.SchedulerApp.ClickSchedule` | futuresort.py:221 | while a thread runs, a click on the disabled Schedule button changes nothing, so no second job is armed; an enabled click has each of `schedule_command`'s three outcomes (nothing for missing paths, "Scheduled time has passed" with no thread, or a fresh started thread with the field's time and the window's paths), and keeps the paths and the field |
| `App.SchedulerApp.CancelSchedule` | futuresort.py:307-316 | the thread is stopped and its loop has ended without a further job call; Schedule is enabled, Cancel disabled, label "Not scheduled" |
| `App.SchedulerApp.ClickCancel` | futuresort.py:224 | a disabled Cancel changes nothing; an enabled one stops the thread with its call and `finished` counts unchanged, enables and resets Schedule, disables Cancel and sets "Not scheduled"; the paths, the field, `scheduled_time` and `running` are kept |
| `App.SchedulerApp.OnExecutionFinished` | futuresort.py:339-345 | `running` cleared, Schedule enabled and reset, Cancel disabled, label "Action finished" |
| `App.SchedulerApp.ThreadTick` | futuresort.py:299 | one pass of the thread follows `Step` with the thread's own job; a pass that emits `finished` delivers it to the handler, and any other pass (including one whose job call escaped) leaves the controls as they were |
| `App.SchedulerApp.UpdateCountdown` | futuresort.py:318-333 | nothing unless the last thread runs; then the countdown to the value of the date-time field |
| `App.SchedulerApp.UpdateCountdownToJob` | futuresort.py:318-333 | corrected countdown: to the running thread's own scheduled time |
| `App.SchedulerApp.SetScheduledTime` | futuresort.py:347-375 | on success the preset time is written into the date-time field; on a `ValueError` the field is unchanged |
| `App.CountdownMisreportScenario` | futuresort.py:318-331 | at 10:00, "5s", "Schedule" and then "10 PM" leave the thread set for 10:00:05 while the countdown reads 0d 12h 0m 0s; the corrected countdown reads 0d 0h 0m 5s |
| `App.CancelBeforeDueScenario` | futuresort.py:282-316 | a job armed in the future and cancelled before a due tick is never called, even by a later tick, and the controls are back to idle |
| `App.DueScenario` | futuresort.py:69-83 | a job armed 5 seconds ahead is called once at the due tick even though it raises an `Exception`, `finished` is emitted once, the controls go back to idle, and a later tick calls nothing |
| `App.RejectedSubmissionScenario` | futuresort.py:282-290 | Schedule pressed with the field at the current time starts no thread and shows "Scheduled time has passed"; pressed with no paths it changes nothing |
| `App.EscapedJobScenario` | futuresort.py:73-82 | a `BaseException` from the pipeline ends the thread after one call with no `finished`; Schedule stays disabled and captioned "Scheduled", a click on it does nothing, and Cancel resets the controls |

## Findings

| source | as written | input that shows it | evidently intended | confidence | as-written member | corrected member |
|---|---|---|---|---|---|---|
| futuresort.py:322 | the countdown reads the date-time field, which the preset buttons can still change after a job is armed | at 10:00, click "5s", then "Schedule", then "10 PM": the label shows 0d 12h 0m 0s, but the job runs at 10:00:05 | count down to the time the thread was given | medium, not executed | `App.CountdownMisreportScenario` (through `App.SchedulerApp.UpdateCountdown`) | `App.SchedulerApp.UpdateCountdownToJob` |

## Left out

- Widget construction, layouts, fonts, style sheets, file dialogs and the `QTimer` wiring (futuresort.py:106-240, 241-280) are UI. Only the flags, captions and label the handlers set are modelled. The chosen name a dialog returns is a parameter of the `Select*` methods.
- Real thread interleaving is concurrency and is left out. A loop pass is atomic, and `stop()` happens between passes. `finished` reaches `on_execution_finished` right after the pass that emits it; Qt's queued delivery, which could let a Cancel click run in between, is not modelled. A run of the job is one step, so a Cancel click that blocks in `wait()` while the pipeline runs is not modelled.
- Scheduler.SchedulerThread.Wait: does not model a `wait()` that returns only after an in-flight job finishes. Because passes are atomic, no job is ever in flight when `wait()` is called.
- App.SchedulerApp.ScheduleCommand: a direct call while a thread runs replaces the reference to that thread, and the old thread is no longer tracked. Through the button (`ClickSchedule`) this cannot happen.
- `time.sleep(1)`, microseconds, time zones and DST are the clock. Time is whole seconds. Midnight is `now - now % 86400`. The several clock reads in one handler are one `now`.
- `kilosort.io.load_probe` and `kilosort.run_kilosort` are foreign calls. They are oracles in an `Environment`: the loaded probe (None when loading raised an `Exception`), and how the pipeline call ends. The pipeline's results (`ops`, `st`, `clu`, ...) are discarded by the source and are not modelled. A `BaseException` raised by `load_probe` itself is not modelled; only the pipeline's is.
- What the Qt binding does with an exception that escapes `QThread.run()` is not modelled; with some bindings it ends the process. `Escaped` and `App.EscapedJobScenario` describe only the window's own state once `run()` has been left without `finished`.
- Presets.PresetTime: does not model a `value` of another Python type; `value` is an integer here.
- The config import fallback, the debug globals and debug mode (futuresort.py:17-38, 96-100) are module-loading plumbing. The constructor models the non-debug window.
- `config_EXAMPLE.py` holds only constants. `print` output, the unused `append_output` (futuresort.py:335-337), the unused `worker_signals` (futuresort.py:238-240) and `scheduled_job` are left out.
- Label texts are datatype constructors. The text of each is given in a comment; the numbers are not formatted into strings.
