/** The poll loop of the scheduler thread (SchedulerThread.run and stop). One pass of
    `while self.running` is a clock tick carrying the clock reading; the job is an oracle
    whose outcome the tick carries; stop() is a flag write between two ticks. */
module Scheduler {
  import opened Kilosort

  /** What can happen to the loop between two observations. */
  datatype Event =
    | ClockTick(now: int, outcome: JobOutcome)  // one pass: head check, due check, job or sleep
    | StopRequest                               // stop(): clear the running flag

  /** The loop as seen from outside: the flag, whether the loop is still iterating, and how
      many times it has called the job and emitted `finished`. */
  datatype LoopState = LoopState(running: bool, alive: bool, jobCalls: nat, finishedEmitted: nat)

  /** A constructed thread that has not been started. */
  const Created: LoopState := LoopState(true, false, 0, 0)
  /** A thread just started: the flag is set and the loop is at its first head check. */
  const Started: LoopState := LoopState(true, true, 0, 0)

  /** True for a tick whose job call ends in an exception the loop does not catch. */
  predicate Escapes(e: Event) {
    e.ClockTick? && e.outcome.Escaped?
  }

  /** One event. A tick on a finished loop does nothing; a tick with the flag cleared leaves
      the loop; a due tick calls the job once, then emits `finished` and breaks out when the
      job returned or raised an `Exception`, or leaves run() without `finished` when an
      uncaught `BaseException` propagates; any other tick sleeps. */
  function Step(s: LoopState, scheduledTime: int, e: Event): (s': LoopState)
    ensures s.finishedEmitted <= s'.finishedEmitted
    ensures s'.finishedEmitted - s.finishedEmitted <= s'.jobCalls - s.jobCalls
    ensures !Escapes(e) ==> s'.finishedEmitted - s.finishedEmitted == s'.jobCalls - s.jobCalls
    ensures s'.jobCalls > s.jobCalls ==>
              e.ClockTick? && s.alive && s.running && scheduledTime <= e.now && !s'.alive
    ensures s.alive && s.running && e.ClockTick? && scheduledTime <= e.now ==> s'.jobCalls == s.jobCalls + 1
    ensures !s.alive ==> !s'.alive && s'.jobCalls == s.jobCalls
  {
    match e
    case StopRequest => s.(running := false)
    case ClockTick(now, outcome) =>
      if !s.alive then s
      else if !s.running then s.(alive := false)
      else if now >= scheduledTime then
        s.(alive := false, jobCalls := s.jobCalls + 1,
           finishedEmitted := if outcome.Escaped? then s.finishedEmitted else s.finishedEmitted + 1)
      else s
  }

  /** The events in order, from state `s`. */
  function RunEvents(s: LoopState, scheduledTime: int, events: seq<Event>): LoopState
    decreases |events|
  {
    if events == [] then s else RunEvents(Step(s, scheduledTime, events[0]), scheduledTime, events[1..])
  }

  /** The ticks for a stretch of clock readings with no stop in between. */
  function Ticks(clock: seq<int>, outcome: JobOutcome): (evs: seq<Event>)
    ensures |evs| == |clock|
    ensures forall i :: 0 <= i < |clock| ==> evs[i] == ClockTick(clock[i], outcome)
  {
    if clock == [] then [] else [ClockTick(clock[0], outcome)] + Ticks(clock[1..], outcome)
  }

  /** The loop's own invariant: at most one job call, at most one `finished` per call, and
      a loop that has called the job no longer iterates. */
  predicate AtMostOnce(s: LoopState) {
    s.jobCalls <= 1 && s.finishedEmitted <= s.jobCalls && (s.jobCalls == 1 ==> !s.alive)
  }

  /** No tick in `events` ends in an uncaught exception. */
  predicate NoEscape(events: seq<Event>) {
    forall i :: 0 <= i < |events| ==> !Escapes(events[i])
  }

  /** No tick in `events` is due. */
  predicate NoDueTick(scheduledTime: int, events: seq<Event>) {
    forall i :: 0 <= i < |events| && events[i].ClockTick? ==> events[i].now < scheduledTime
  }

  /** Running a concatenation is running its parts one after the other. */
  lemma {:induction false} RunEventsAppend(s: LoopState, t: int, pre: seq<Event>, post: seq<Event>)
    ensures RunEvents(s, t, pre + post) == RunEvents(RunEvents(s, t, pre), t, post)
    decreases |pre|
  {
    if pre == [] {
      assert pre + post == post;
    } else {
      assert (pre + post)[1..] == pre[1..] + post;
      RunEventsAppend(Step(s, t, pre[0]), t, pre[1..], post);
    }
  }

  /** Running one more event is one more step. */
  lemma {:induction false} RunEventsSnoc(s: LoopState, t: int, events: seq<Event>, e: Event)
    ensures RunEvents(s, t, events + [e]) == Step(RunEvents(s, t, events), t, e)
  {
    RunEventsAppend(s, t, events, [e]);
  }

  /** Every sequence of ticks and stops keeps the loop's invariant; without an uncaught
      exception every job call is also matched by a `finished`. */
  lemma {:induction false} RunKeepsAtMostOnce(s: LoopState, t: int, events: seq<Event>)
    requires AtMostOnce(s)
    ensures AtMostOnce(RunEvents(s, t, events))
    ensures NoEscape(events) && s.finishedEmitted == s.jobCalls ==>
              RunEvents(s, t, events).finishedEmitted == RunEvents(s, t, events).jobCalls
    decreases |events|
  {
    if events != [] {
      assert NoEscape(events) ==> NoEscape(events[1..]) by {
        if NoEscape(events) {
          forall i | 0 <= i < |events[1..]| ensures !Escapes(events[1..][i]) {
            assert events[1..][i] == events[i + 1];
          }
        }
      }
      assert NoEscape(events) ==> !Escapes(events[0]);
      RunKeepsAtMostOnce(Step(s, t, events[0]), t, events[1..]);
    }
  }

  /** At-most-once execution: whatever the clock readings and stop requests, a started loop
      calls the job at most once, emits `finished` at most as often (exactly as often when
      no call escapes the `except Exception`), and is finished once it has called the job. */
  lemma {:induction false} JobRunsAtMostOnce(t: int, events: seq<Event>)
    ensures var s := RunEvents(Started, t, events);
            s.jobCalls <= 1 && s.finishedEmitted <= s.jobCalls && (s.jobCalls == 1 ==> !s.alive)
    ensures NoEscape(events) ==>
              RunEvents(Started, t, events).finishedEmitted == RunEvents(Started, t, events).jobCalls
  {
    RunKeepsAtMostOnce(Started, t, events);
  }

  /** Ticks after the loop has ended change nothing the loop can be observed by. */
  lemma {:induction false} LaterTicksChangeNothing(s: LoopState, t: int, events: seq<Event>)
    requires !s.alive
    ensures var s' := RunEvents(s, t, events);
            !s'.alive && s'.jobCalls == s.jobCalls && s'.finishedEmitted == s.finishedEmitted
    decreases |events|
  {
    if events != [] {
      LaterTicksChangeNothing(Step(s, t, events[0]), t, events[1..]);
    }
  }

  /** Events none of which is a due tick never call the job. */
  lemma {:induction false} NoDueTickNoCall(s: LoopState, t: int, events: seq<Event>)
    requires NoDueTick(t, events)
    ensures RunEvents(s, t, events).jobCalls == s.jobCalls
    ensures RunEvents(s, t, events).finishedEmitted == s.finishedEmitted
    decreases |events|
  {
    if events != [] {
      assert NoDueTick(t, events[1..]) by {
        forall i | 0 <= i < |events[1..]| && events[1..][i].ClockTick?
          ensures events[1..][i].now < t
        {
          assert events[1..][i] == events[i + 1];
        }
      }
      NoDueTickNoCall(Step(s, t, events[0]), t, events[1..]);
    }
  }

  /** Once the flag is cleared the job is never called, whatever ticks follow. */
  lemma {:induction false} StoppedNeverCalls(s: LoopState, t: int, events: seq<Event>)
    requires !s.running
    ensures RunEvents(s, t, events).jobCalls == s.jobCalls
    ensures RunEvents(s, t, events).finishedEmitted == s.finishedEmitted
    decreases |events|
  {
    if events != [] {
      StoppedNeverCalls(Step(s, t, events[0]), t, events[1..]);
    }
  }

  /** A stop before the due tick: when stop() clears the flag before any tick has found
      the time due, the job is never called and `finished` is never emitted. */
  lemma {:induction false} StopBeforeDueNeverExecutes(t: int, pre: seq<Event>, post: seq<Event>)
    requires NoDueTick(t, pre)
    ensures RunEvents(Started, t, pre + [StopRequest] + post).jobCalls == 0
    ensures RunEvents(Started, t, pre + [StopRequest] + post).finishedEmitted == 0
  {
    RunEventsAppend(Started, t, pre + [StopRequest], post);
    RunEventsSnoc(Started, t, pre, StopRequest);
    NoDueTickNoCall(Started, t, pre);
    StoppedNeverCalls(RunEvents(Started, t, pre + [StopRequest]), t, post);
  }

  /** Ticks that are not due leave a running loop exactly as it was. */
  lemma {:induction false} EarlyTicksSleep(t: int, early: seq<Event>)
    requires forall i :: 0 <= i < |early| ==> early[i].ClockTick? && early[i].now < t
    ensures RunEvents(Started, t, early) == Started
    decreases |early|
  {
    if early != [] {
      EarlyTicksSleep(t, early[1..]);
    }
  }

  /** Exactly-once execution: a started loop that is not stopped calls the job exactly once,
      at its first due tick, and ends; it emits `finished` once, also when the call raised
      an `Exception`, and not at all when a `BaseException` escaped; the job is not retried
      and later ticks call nothing. */
  lemma {:induction false} DueTickExecutesOnce(t: int, early: seq<Event>, now: int, outcome: JobOutcome,
                                              post: seq<Event>)
    requires forall i :: 0 <= i < |early| ==> early[i].ClockTick? && early[i].now < t
    requires t <= now
    ensures var s := RunEvents(Started, t, early + [ClockTick(now, outcome)] + post);
            s.jobCalls == 1 && s.finishedEmitted == (if outcome.Escaped? then 0 else 1) && !s.alive
  {
    RunEventsAppend(Started, t, early + [ClockTick(now, outcome)], post);
    RunEventsSnoc(Started, t, early, ClockTick(now, outcome));
    EarlyTicksSleep(t, early);
    LaterTicksChangeNothing(RunEvents(Started, t, early + [ClockTick(now, outcome)]), t, post);
  }

  /** The thread object: the job it was built for and the loop's state. The job call and
      `finished` emission are counted in ghost fields. */
  class SchedulerThread {
    const scheduledTime: int
    const dataFile: string
    const probeFile: string
    const resultsDir: string
    var running: bool
    /** QThread.isRunning(): the loop has been started and has not returned. */
    var alive: bool
    ghost var jobCalls: nat
    ghost var finishedEmitted: nat

    ghost function State(): LoopState
      reads this
    {
      LoopState(running, alive, jobCalls, finishedEmitted)
    }

    constructor (scheduledTime: int, dataFile: string, probeFile: string, resultsDir: string)
      ensures this.scheduledTime == scheduledTime && this.dataFile == dataFile
      ensures this.probeFile == probeFile && this.resultsDir == resultsDir
      ensures State() == Created
    {
      this.scheduledTime := scheduledTime;
      this.dataFile := dataFile;
      this.probeFile := probeFile;
      this.resultsDir := resultsDir;
      running := true;
      alive := false;
      jobCalls, finishedEmitted := 0, 0;
    }

    /** QThread.start(): the loop begins at its first head check. */
    method Start()
      requires State() == Created
      modifies this
      ensures State() == Started
    {
      alive := true;
    }

    /** One pass of the loop on clock reading `now`: a due pass calls run_kilosort on this
        thread's own paths in `env`. `called` tells whether the job ran, `emitted` whether
        `finished` was emitted. */
    method Tick<V>(now: int, env: Environment<V>) returns (called: bool, emitted: bool)
      modifies this
      ensures State() == Step(old(State()), scheduledTime,
                              ClockTick(now, RunKilosort(env, dataFile, resultsDir, probeFile)))
      ensures called == (old(alive) && old(running) && scheduledTime <= now)
      ensures emitted == (called && !RunKilosort(env, dataFile, resultsDir, probeFile).Escaped?)
    {
      called, emitted := false, false;
      if !alive {
        return;
      }
      if !running {
        alive := false;
        return;
      }
      if now >= scheduledTime {
        called := true;
        jobCalls := jobCalls + 1;
        var outcome := RunKilosort(env, dataFile, resultsDir, probeFile);
        alive := false;
        if outcome.Escaped? {
          // the exception leaves run() before `finished` is emitted
          return;
        }
        // a returned message or a caught Exception is only printed
        emitted := true;
        finishedEmitted := finishedEmitted + 1;
      }
    }

    /** run() over a stretch of clock readings without a stop: passes go on while the loop
        is alive. `consumed` is the number of readings used. */
    method Run<V>(clock: seq<int>, env: Environment<V>) returns (consumed: nat)
      modifies this
      ensures consumed <= |clock|
      ensures State() == RunEvents(old(State()), scheduledTime,
                                   Ticks(clock[..consumed], RunKilosort(env, dataFile, resultsDir, probeFile)))
      ensures consumed < |clock| ==> !alive
    {
      ghost var outcome := RunKilosort(env, dataFile, resultsDir, probeFile);
      consumed := 0;
      while consumed < |clock| && alive
        invariant consumed <= |clock|
        invariant State() == RunEvents(old(State()), scheduledTime, Ticks(clock[..consumed], outcome))
      {
        var _, _ := Tick(clock[consumed], env);
        assert Ticks(clock[..consumed + 1], outcome) == Ticks(clock[..consumed], outcome) + [ClockTick(clock[consumed], outcome)];
        RunEventsSnoc(old(State()), scheduledTime, Ticks(clock[..consumed], outcome), ClockTick(clock[consumed], outcome));
        consumed := consumed + 1;
      }
    }

    /** stop(): clear the flag. */
    method Stop()
      modifies this
      ensures State() == Step(old(State()), scheduledTime, StopRequest)
    {
      running := false;
    }

    /** QThread.wait() after stop(): the loop's next head check sees the cleared flag and
        leaves the loop without calling the job. */
    method Wait()
      requires !running
      modifies this
      ensures !alive && running == old(running)
      ensures jobCalls == old(jobCalls) && finishedEmitted == old(finishedEmitted)
    {
      alive := false;
    }
  }
}
