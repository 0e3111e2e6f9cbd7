/** The scheduler window's logic (SchedulerApp): the submission guard, the two reset paths,
    the countdown refresh and the preset handler, over the state those handlers change.
    Widgets are reduced to the flags and texts the handlers set. */
module App {
  import opened Options
  import opened Presets
  import opened Countdown
  import opened Kilosort
  import opened Scheduler

  /** A path field is set when it is neither None nor the empty string (Python truthiness). */
  predicate IsSet(p: Option<string>) {
    p.Some? && p.value != ""
  }

  /** What the submission guard decides for the current inputs. */
  datatype Submission =
    | Incomplete                  // a path is missing: the handler returns at once
    | TimePassed                  // the chosen time is not in the future
    | Accepted(scheduledTime: int, dataFile: string, probeFile: string, resultsDir: string)

  /** The countdown label's texts. */
  datatype Label =
    | NotScheduled                // "Not scheduled"
    | ScheduledTimeHasPassed      // "Scheduled time has passed"
    | TimeUntil(left: Countdown)  // "Time until execution: {d}d {h}h {m}m {s}s"
    | ActionTriggered             // "Action has been triggered"
    | ActionFinished              // "Action finished"

  /** The guard of schedule_command: all three paths set, and a time strictly after `now`. */
  function Submit(dataFile: Option<string>, resultsDir: Option<string>, probeFile: Option<string>,
                  scheduledTime: int, now: int): (d: Submission)
    ensures d.Incomplete? <==> !(IsSet(dataFile) && IsSet(resultsDir) && IsSet(probeFile))
    ensures d.TimePassed? <==>
              IsSet(dataFile) && IsSet(resultsDir) && IsSet(probeFile) && scheduledTime <= now
    ensures d.Accepted? ==>
              now < d.scheduledTime && d.scheduledTime == scheduledTime &&
              d.dataFile == dataFile.value && d.probeFile == probeFile.value &&
              d.resultsDir == resultsDir.value &&
              d.dataFile != "" && d.probeFile != "" && d.resultsDir != ""
  {
    if !(IsSet(dataFile) && IsSet(resultsDir) && IsSet(probeFile)) then Incomplete
    else if scheduledTime <= now then TimePassed
    else Accepted(scheduledTime, dataFile.value, probeFile.value, resultsDir.value)
  }

  /** The label update_countdown shows while the thread runs, for the time in the
      date-time field. */
  function CountdownLabel(editTime: int, now: int): (l: Label)
    ensures l.TimeUntil? <==> now < editTime
    ensures l.TimeUntil? ==> Normalized(l.left) && TotalSeconds(l.left) == editTime - now
    ensures !l.TimeUntil? ==> l == ActionTriggered
  {
    if editTime > now then TimeUntil(Decompose(editTime - now)) else ActionTriggered
  }

  /** The caption, highlight and label of the controls, and the application's own flag. */
  datatype Panel = Panel(scheduleEnabled: bool, cancelEnabled: bool, scheduleHighlighted: bool,
                         scheduleCaption: string, countdownLabel: Label, running: bool)

  class SchedulerApp {
    var dataFile: Option<string>
    var resultsDir: Option<string>
    var probeFile: Option<string>
    /** The value of the date-time field. */
    var editTime: int
    /** The time the last submission read from the field (absent before the first one). */
    var scheduledTime: Option<int>
    /** Written by on_execution_finished, read nowhere. */
    var running: bool
    /** The last thread started (null while none has been). */
    var thread: SchedulerThread?
    var scheduleEnabled: bool
    var cancelEnabled: bool
    /** The red style of the Schedule button. */
    var scheduleHighlighted: bool
    var scheduleCaption: string
    var countdownLabel: Label

    /** The window's invariant: exactly one of the two buttons is enabled; Schedule is
        disabled while a thread is running, and such a thread still has its flag set; once
        disabled it stays so only while the thread runs or after a job call that never
        emitted `finished`; a thread never calls its job twice. */
    ghost predicate Valid()
      reads this, thread
    {
      cancelEnabled == !scheduleEnabled &&
      (thread != null && thread.alive ==> !scheduleEnabled) &&
      (!scheduleEnabled ==> thread != null && (thread.alive || thread.finishedEmitted < thread.jobCalls)) &&
      scheduleCaption == (if scheduleEnabled then "Schedule" else "Scheduled") &&
      (thread != null ==> AtMostOnce(thread.State()) && (thread.alive ==> thread.running))
    }

    ghost function Controls(): Panel
      reads this
    {
      Panel(scheduleEnabled, cancelEnabled, scheduleHighlighted, scheduleCaption, countdownLabel, running)
    }

    /** The window as built, outside debug mode; `now` is the clock reading that fills the
        date-time field. */
    constructor (now: int)
      ensures Valid()
      ensures dataFile == None && resultsDir == None && probeFile == None
      ensures editTime == now && scheduledTime == None && thread == null && !running
      ensures scheduleEnabled && !cancelEnabled && !scheduleHighlighted
      ensures countdownLabel == NotScheduled
    {
      dataFile, resultsDir, probeFile := None, None, None;
      editTime := now;
      scheduledTime := None;
      running := false;
      thread := null;
      scheduleEnabled, cancelEnabled := true, false;
      scheduleHighlighted := false;
      scheduleCaption := "Schedule";
      countdownLabel := NotScheduled;
    }

    /** The end of select_data_file: a chosen name (the dialog returns "" on cancel) is kept. */
    method SelectDataFile(fileName: string)
      modifies this`dataFile
      ensures dataFile == if fileName != "" then Some(fileName) else old(dataFile)
    {
      if fileName != "" {
        dataFile := Some(fileName);
      }
    }

    /** The end of select_results_dir. */
    method SelectResultsDir(folderName: string)
      modifies this`resultsDir
      ensures resultsDir == if folderName != "" then Some(folderName) else old(resultsDir)
    {
      if folderName != "" {
        resultsDir := Some(folderName);
      }
    }

    /** The end of select_probe_file. */
    method SelectProbeFile(fileName: string)
      modifies this`probeFile
      ensures probeFile == if fileName != "" then Some(fileName) else old(probeFile)
    {
      if fileName != "" {
        probeFile := Some(fileName);
      }
    }

    /** schedule_command at clock reading `now`. The handler itself does not look at the
        buttons: incomplete paths change nothing; a time not in the future only changes the
        label and the button style; otherwise a fresh thread for the job is started and the
        buttons are swapped. */
    method ScheduleCommand(now: int)
      requires Valid()
      modifies this
      ensures Valid()
      ensures Submit(old(dataFile), old(resultsDir), old(probeFile), old(editTime), now).Incomplete? ==>
                unchanged(this)
      ensures Submit(old(dataFile), old(resultsDir), old(probeFile), old(editTime), now).TimePassed? ==>
                scheduledTime == Some(old(editTime)) && thread == old(thread) &&
                countdownLabel == ScheduledTimeHasPassed && !scheduleHighlighted &&
                scheduleEnabled == old(scheduleEnabled) && cancelEnabled == old(cancelEnabled) &&
                scheduleCaption == old(scheduleCaption) && running == old(running)
      ensures Submit(old(dataFile), old(resultsDir), old(probeFile), old(editTime), now).Accepted? ==>
                scheduledTime == Some(old(editTime)) &&
                thread != null && fresh(thread) && thread.State() == Started &&
                thread.scheduledTime == old(editTime) && now < thread.scheduledTime &&
                Some(thread.dataFile) == old(dataFile) && Some(thread.probeFile) == old(probeFile) &&
                Some(thread.resultsDir) == old(resultsDir) &&
                !scheduleEnabled && cancelEnabled && scheduleHighlighted &&
                scheduleCaption == "Scheduled" && countdownLabel == old(countdownLabel) && running == old(running)
      ensures dataFile == old(dataFile) && resultsDir == old(resultsDir) && probeFile == old(probeFile)
      ensures editTime == old(editTime)
    {
      match Submit(dataFile, resultsDir, probeFile, editTime, now)
      case Incomplete =>
        return;
      case TimePassed =>
        scheduledTime := Some(editTime);
        countdownLabel := ScheduledTimeHasPassed;
        scheduleHighlighted := false;
      case Accepted(t, data, probe, results) =>
        scheduledTime := Some(editTime);
        var worker := new SchedulerThread(t, data, probe, results);
        worker.Start();
        thread := worker;
        scheduleEnabled, cancelEnabled := false, true;
        scheduleHighlighted := true;
        scheduleCaption := "Scheduled";
    }

    /** A click on Schedule: a disabled button emits nothing, so while a thread runs no
        second one can be started. */
    method ClickSchedule(now: int)
      requires Valid()
      modifies this
      ensures Valid()
      ensures !old(scheduleEnabled) ==> unchanged(this)
      ensures old(thread != null && thread.alive) ==> unchanged(this)
      ensures old(scheduleEnabled) &&
              Submit(old(dataFile), old(resultsDir), old(probeFile), old(editTime), now).Incomplete? ==>
                unchanged(this)
      ensures old(scheduleEnabled) &&
              Submit(old(dataFile), old(resultsDir), old(probeFile), old(editTime), now).TimePassed? ==>
                scheduledTime == Some(old(editTime)) && thread == old(thread) &&
                countdownLabel == ScheduledTimeHasPassed && !scheduleHighlighted &&
                scheduleEnabled && !cancelEnabled && scheduleCaption == old(scheduleCaption) &&
                running == old(running)
      ensures old(scheduleEnabled) &&
              Submit(old(dataFile), old(resultsDir), old(probeFile), old(editTime), now).Accepted? ==>
                scheduledTime == Some(old(editTime)) &&
                thread != null && fresh(thread) && thread.State() == Started &&
                thread.scheduledTime == old(editTime) && now < thread.scheduledTime &&
                Some(thread.dataFile) == old(dataFile) && Some(thread.probeFile) == old(probeFile) &&
                Some(thread.resultsDir) == old(resultsDir) &&
                !scheduleEnabled && cancelEnabled && scheduleHighlighted &&
                scheduleCaption == "Scheduled" && countdownLabel == old(countdownLabel) && running == old(running)
      ensures dataFile == old(dataFile) && resultsDir == old(resultsDir) && probeFile == old(probeFile)
      ensures editTime == old(editTime)
    {
      if scheduleEnabled {
        ScheduleCommand(now);
      }
    }

    /** cancel_schedule: stop the thread and wait for its loop to end, then reset the controls.
        The job is not called by a cancelled thread. */
    method CancelSchedule()
      requires Valid()
      modifies this, thread
      ensures Valid()
      ensures thread == old(thread)
      ensures thread != null ==>
                !thread.running && !thread.alive &&
                thread.jobCalls == old(thread.jobCalls) && thread.finishedEmitted == old(thread.finishedEmitted)
      ensures countdownLabel == NotScheduled && scheduleEnabled && !cancelEnabled && !scheduleHighlighted
      ensures scheduleCaption == "Schedule" && running == old(running)
      ensures dataFile == old(dataFile) && resultsDir == old(resultsDir) && probeFile == old(probeFile)
      ensures editTime == old(editTime) && scheduledTime == old(scheduledTime)
    {
      if thread != null {
        thread.Stop();
        thread.Wait();
      }
      countdownLabel := NotScheduled;
      scheduleEnabled, cancelEnabled := true, false;
      scheduleHighlighted := false;
      scheduleCaption := "Schedule";
    }

    /** A click on Cancel: only possible while Cancel is enabled. */
    method ClickCancel()
      requires Valid()
      modifies this, thread
      ensures Valid()
      ensures !old(cancelEnabled) ==> unchanged(this) && (old(thread) != null ==> unchanged(old(thread)))
      ensures thread == old(thread)
      ensures old(cancelEnabled) ==>
                scheduleEnabled && !cancelEnabled && !scheduleHighlighted && scheduleCaption == "Schedule" &&
                countdownLabel == NotScheduled &&
                thread != null && !thread.running && !thread.alive &&
                thread.jobCalls == old(thread.jobCalls) && thread.finishedEmitted == old(thread.finishedEmitted)
      ensures running == old(running) && scheduledTime == old(scheduledTime) && editTime == old(editTime)
      ensures dataFile == old(dataFile) && resultsDir == old(resultsDir) && probeFile == old(probeFile)
    {
      if cancelEnabled {
        CancelSchedule();
      }
    }

    /** on_execution_finished, the handler of the thread's `finished` signal, which the loop
        emits just before it ends. */
    method OnExecutionFinished()
      requires thread == null || (!thread.alive && AtMostOnce(thread.State()))
      modifies this
      ensures Valid()
      ensures !running && scheduleEnabled && !cancelEnabled && !scheduleHighlighted
      ensures scheduleCaption == "Schedule" && countdownLabel == ActionFinished
      ensures thread == old(thread)
      ensures dataFile == old(dataFile) && resultsDir == old(resultsDir) && probeFile == old(probeFile)
      ensures editTime == old(editTime) && scheduledTime == old(scheduledTime)
    {
      running := false;
      scheduleEnabled, cancelEnabled := true, false;
      scheduleHighlighted := false;
      scheduleCaption := "Schedule";
      countdownLabel := ActionFinished;
    }

    /** One pass of the background loop at clock reading `now`, the job running in `env`;
        a `finished` emission reaches on_execution_finished. */
    method ThreadTick<V>(now: int, env: Environment<V>)
      requires Valid()
      requires thread != null
      modifies this, thread
      ensures Valid()
      ensures thread == old(thread)
      ensures thread.State() == Step(old(thread.State()), thread.scheduledTime,
                                     ClockTick(now, RunKilosort(env, thread.dataFile, thread.resultsDir, thread.probeFile)))
      ensures thread.finishedEmitted != old(thread.finishedEmitted) ==>
                !running && scheduleEnabled && !cancelEnabled && countdownLabel == ActionFinished &&
                scheduleCaption == "Schedule" && !scheduleHighlighted
      ensures thread.finishedEmitted == old(thread.finishedEmitted) ==> Controls() == old(Controls())
      ensures dataFile == old(dataFile) && resultsDir == old(resultsDir) && probeFile == old(probeFile)
      ensures editTime == old(editTime) && scheduledTime == old(scheduledTime)
    {
      var _, emitted := thread.Tick(now, env);
      if emitted {
        OnExecutionFinished();
      }
    }

    /** update_countdown at clock reading `now`: nothing unless the last thread is running;
        then the time left until the value in the date-time field, or "triggered". */
    method UpdateCountdown(now: int)
      modifies this`countdownLabel
      ensures old(Valid()) ==> Valid()
      ensures old(thread == null || !thread.alive) ==> countdownLabel == old(countdownLabel)
      ensures old(thread != null && thread.alive) ==> countdownLabel == CountdownLabel(editTime, now)
    {
      if thread == null || !thread.alive {
        return;
      }
      countdownLabel := CountdownLabel(editTime, now);
    }

    /** The countdown as evidently intended: time left until the moment the running thread
        was given, which is when its job is called, whatever the date-time field now holds. */
    method UpdateCountdownToJob(now: int)
      modifies this`countdownLabel
      ensures old(Valid()) ==> Valid()
      ensures old(thread == null || !thread.alive) ==> countdownLabel == old(countdownLabel)
      ensures old(thread != null && thread.alive) ==>
                countdownLabel == CountdownLabel(thread.scheduledTime, now) &&
                (countdownLabel.TimeUntil? <==> now < thread.scheduledTime) &&
                (countdownLabel.TimeUntil? ==> TotalSeconds(countdownLabel.left) == thread.scheduledTime - now)
    {
      if thread == null || !thread.alive {
        return;
      }
      countdownLabel := CountdownLabel(thread.scheduledTime, now);
    }

    /** set_scheduled_time at clock reading `now`: on success the preset time goes into the
        date-time field, on a ValueError the field keeps its value. */
    method SetScheduledTime(timeType: string, value: int, unit: string, now: int)
      returns (r: Result<int, PresetError>)
      modifies this`editTime
      ensures old(Valid()) ==> Valid()
      ensures r == PresetTime(timeType, value, unit, now)
      ensures editTime == if r.Ok? then r.value else old(editTime)
    {
      r := PresetTime(timeType, value, unit, now);
      if r.Ok? {
        editTime := r.value;
      }
    }
  }

  /** A job environment whose probe loads with 4 channels and whose pipeline ends as `exit`. */
  function TestEnvironment(exit: PipelineExit): (env: Environment<int>)
    ensures RunKilosort(env, "data.dat", "results", "probe.json") ==
            (match exit
             case ReturnsNormally => Returned(FinishedMessage)
             case RaisesException => Raised
             case RaisesBaseException => Escaped)
  {
    Environment(map[], (path: string) => Some(map[ChannelCountKey := 4]), (s, d, p, r) => exit)
  }

  /** The window with its three paths chosen, at clock reading `now`. */
  method NewWindowWithPaths(now: int) returns (app: SchedulerApp)
    ensures fresh(app) && app.Valid()
    ensures app.dataFile == Some("data.dat") && app.resultsDir == Some("results")
    ensures app.probeFile == Some("probe.json")
    ensures app.editTime == now && app.thread == null && app.scheduleEnabled
  {
    app := new SchedulerApp(now);
    app.SelectDataFile("data.dat");
    app.SelectResultsDir("results");
    app.SelectProbeFile("probe.json");
  }

  /** update_countdown reads the date-time field, which the preset buttons still change after
      a job is armed: at 10:00, "5s" then "Schedule" then "10 PM" shows 12 hours left
      (`shown`) while the thread runs its job at 10:00:05 (`jobTime`); the countdown to the
      thread's own time (`toJob`) shows the 5 seconds. */
  method CountdownMisreportScenario() returns (jobTime: int, shown: Label, toJob: Label)
    ensures jobTime == 10 * SecondsPerHour + 5
    ensures shown == TimeUntil(Countdown(0, 12, 0, 0))
    ensures toJob == TimeUntil(Countdown(0, 0, 0, 5))
  {
    var now := 10 * SecondsPerHour;
    var app := NewWindowWithPaths(now);
    var r := app.SetScheduledTime("relative", 5, "seconds", now);
    app.ClickSchedule(now);
    assert app.thread.dataFile == "data.dat" && app.thread.probeFile == "probe.json";
    r := app.SetScheduledTime("absolute", 22, "seconds", now);
    assert app.editTime == 22 * SecondsPerHour;
    app.UpdateCountdown(now);
    shown := app.countdownLabel;
    app.UpdateCountdownToJob(now);
    jobTime, toJob := app.thread.scheduledTime, app.countdownLabel;
    DecomposeTotalSeconds(Countdown(0, 12, 0, 0));
    DecomposeTotalSeconds(Countdown(0, 0, 0, 5));
  }

  /** A job armed `delay` seconds ahead and cancelled before any tick found it due is never
      run, and a later tick calls nothing. */
  method CancelBeforeDueScenario(now: int, delay: nat, later: int) returns (ghost calls: nat, idle: bool)
    requires 0 < delay
    ensures calls == 0 && idle
  {
    var env := TestEnvironment(ReturnsNormally);
    var app := NewWindowWithPaths(now);
    var r := app.SetScheduledTime("relative", delay, "seconds", now);
    app.ClickSchedule(now);
    app.ThreadTick(now, env);
    app.ClickCancel();
    app.ThreadTick(later, env);
    calls := app.thread.jobCalls;
    idle := app.scheduleEnabled && !app.cancelEnabled && app.countdownLabel == NotScheduled;
  }

  /** A job armed five seconds ahead runs once at the first due tick, also when it raises an
      `Exception`, and the controls return to their idle form; a later tick calls nothing. */
  method DueScenario(now: int) returns (ghost calls: nat, ghost finished: nat, idle: bool)
    ensures calls == 1 && finished == 1 && idle
  {
    var raising := TestEnvironment(RaisesException);
    var app := NewWindowWithPaths(now);
    var r := app.SetScheduledTime("relative", 5, "seconds", now);
    app.ClickSchedule(now);
    app.ThreadTick(now + 4, raising);
    assert app.thread.jobCalls == 0 && !app.scheduleEnabled;
    app.ThreadTick(now + 5, raising);
    idle := app.scheduleEnabled && !app.cancelEnabled && app.countdownLabel == ActionFinished;
    app.ThreadTick(now + 6, TestEnvironment(ReturnsNormally));
    calls, finished := app.thread.jobCalls, app.thread.finishedEmitted;
  }

  /** A `BaseException` from the pipeline ends the thread without `finished`: Schedule stays
      disabled and a click on it does nothing, until Cancel (still enabled) resets the
      controls. */
  method EscapedJobScenario(now: int) returns (ghost calls: nat, ghost finished: nat, stuck: bool, reset: bool)
    ensures calls == 1 && finished == 0 && stuck && reset
  {
    var app := NewWindowWithPaths(now);
    var r := app.SetScheduledTime("relative", 5, "seconds", now);
    app.ClickSchedule(now);
    app.ThreadTick(now + 5, TestEnvironment(RaisesBaseException));
    app.ClickSchedule(now + 6);
    stuck := !app.thread.alive && !app.scheduleEnabled && app.cancelEnabled &&
             app.scheduleCaption == "Scheduled";
    calls, finished := app.thread.jobCalls, app.thread.finishedEmitted;
    app.ClickCancel();
    reset := app.scheduleEnabled && !app.cancelEnabled && app.countdownLabel == NotScheduled &&
             !app.scheduleHighlighted && app.dataFile == Some("data.dat");
  }

  /** Schedule pressed while the date-time field still holds the moment the window opened:
      the time has passed, so no thread is started and the label says so; pressed with no
      paths chosen, nothing happens at all. */
  method RejectedSubmissionScenario(now: int) returns (noThread: bool, passed: bool, ignored: bool)
    ensures noThread && passed && ignored
  {
    var app := NewWindowWithPaths(now);
    app.ClickSchedule(now);
    noThread := app.thread == null && app.scheduleEnabled && !app.cancelEnabled;
    passed := app.countdownLabel == ScheduledTimeHasPassed;
    var bare := new SchedulerApp(now);
    var r := bare.SetScheduledTime("relative", 5, "seconds", now);
    bare.ClickSchedule(now);
    ignored := bare.thread == null && bare.countdownLabel == NotScheduled && bare.scheduleEnabled;
  }
}
