/** One call of the monitor's `run` (discovery, then the monitor loop) and the
    top-level loop that calls it again after every disconnect. */
module Supervisor {
  import opened Common
  import opened Discovery
  import opened MonitorLoop

  /** How one call of `run` ended. `StillRunning` marks a call still at work
      (waiting for a keystroke at the retry prompt, or looping) when the
      trace ran out. */
  datatype RunEnd =
    | Returned                     // the device went silent: `run` returned
    | RunRaised(exc: Exception)    // an exception left `run`
    | Exited(status: int)          // `sys.exit` inside `run`
    | StillRunning

  /** What the top-level loop does with a run's end: print `note` and call
      `run` again, print `note` and end the program with `status`, or keep
      waiting for the run. */
  datatype Action =
    | Restart(note: seq<Message>)
    | Terminate(status: int, note: seq<Message>)
    | Wait

  /** The top-level loop's handlers: a serial exception and an I/O error are
      reported as a disconnect and `run` is called again, as it is after a
      normal return (silently); a keyboard interrupt is reported and ends the
      program with status 1; an exit from inside `run` ends the program with
      its own status. */
  function Classify(e: RunEnd): (a: Action)
    ensures a.Restart? <==> e == Returned || e == RunRaised(SerialException) || e == RunRaised(IOError)
    ensures a.Terminate? <==> e.Exited? || e == RunRaised(KeyboardInterrupt)
    ensures a.Wait? <==> e == StillRunning
    ensures e == RunRaised(SerialException) ==> a.note == [DisconnectedSerial]
    ensures e == RunRaised(IOError) ==> a.note == [DisconnectedIO]
    ensures e == RunRaised(KeyboardInterrupt) ==> a == Terminate(1, [InterruptExit])
    ensures e.Exited? ==> a == Terminate(e.status, [])
    ensures e == Returned ==> a == Restart([])
  {
    match e
    case Returned => Restart([])
    case RunRaised(SerialException) => Restart([DisconnectedSerial])
    case RunRaised(IOError) => Restart([DisconnectedIO])
    case RunRaised(KeyboardInterrupt) => Terminate(1, [InterruptExit])
    case Exited(status) => Terminate(status, [])
    case StillRunning => Wait
  }

  /** What the world does during one call of `run`: the port each scan round
      binds, if any (`Scans(canOpen)` for the ports that can be opened in each
      round), and what the bound port does in each iteration of the monitor
      loop. */
  datatype Session = Session(scans: nat -> Option<string>, ticks: seq<Tick>)

  datatype Ran = Ran(end: RunEnd, after: MainState)

  /** One call of `run`: forget any earlier port, discover one from the first
      scan round, then run the monitor loop on it. */
  function Run(m: MainState, s: Session): Ran
  {
    var d := DiscoverFrom(m.(ser := None), s.scans, 0);
    match d.outcome
    case EscapeExit => Ran(Exited(1), d.after)
    case AwaitingKey => Ran(StillRunning, d.after)
    case Bound(_) =>
      var l := Loop(d.after, s.ticks);
      match l.outcome
      case Continue => Ran(StillRunning, l.after)
      case EscapeExit => Ran(Exited(1), l.after)
      case DeviceSilent => Ran(Returned, l.after)
      case Raised(e) => Ran(RunRaised(e), l.after)
  }

  /** The state after one pass of the top-level loop: the call of `run`, then
      the handler's report of how it ended (nothing while it is still
      running). */
  function Attended(m: MainState, s: Session): MainState
  {
    var r := Run(m, s);
    var a := Classify(r.end);
    if a.Wait? then r.after else r.after.(console := r.after.console + a.note)
  }

  /** The program's end status if it ended, the state it left, and how each
      call of `run` ended. */
  datatype Supervised = Supervised(status: Option<int>, after: MainState, ends: seq<RunEnd>)

  /** The top-level loop over the sessions of successive calls of `run`. */
  function Supervise(m: MainState, sessions: seq<Session>): Supervised
    decreases |sessions|
  {
    if sessions == [] then Supervised(None, m, [])
    else
      var r := Run(m, sessions[0]);
      match Classify(r.end)
      case Restart(note) =>
        var x := Supervise(r.after.(console := r.after.console + note), sessions[1..]);
        x.(ends := [r.end] + x.ends)
      case Terminate(status, note) =>
        Supervised(Some(status), r.after.(console := r.after.console + note), [r.end])
      case Wait => Supervised(None, r.after, [r.end])
  }
}

module SupervisorProperties {
  import opened Common
  import opened Discovery
  import opened DiscoveryProperties
  import opened MonitorLoop
  import opened MonitorLoopProperties
  import opened Supervisor

  /** The run ends after which the top-level loop calls `run` again. */
  predicate Restarts(e: RunEnd) {
    e == Returned || e == RunRaised(SerialException) || e == RunRaised(IOError)
  }

  /** The top-level loop's first step, for the session of the first call of
      `run` followed by the sessions `rest` of later calls. */
  lemma SuperviseUnfolds(m: MainState, s: Session, rest: seq<Session>)
    ensures var r := Run(m, s);
      var a := Classify(r.end);
      var x := Supervise(m, [s] + rest);
      && (a.Restart? ==>
            var y := Supervise(r.after.(console := r.after.console + a.note), rest);
            x.status == y.status && x.after == y.after && x.ends == [r.end] + y.ends)
      && (a.Terminate? ==> x == Supervised(Some(a.status), r.after.(console := r.after.console + a.note), [r.end]))
      && (a.Wait? ==> x == Supervised(None, r.after, [r.end]))
  {
    assert ([s] + rest)[1..] == rest;
  }

  /** The top-level loop goes on from the state one pass leaves after a
      restart, and otherwise ends in that state with that pass's end as its
      last. */
  lemma SuperviseGoesOnFromAttended(m: MainState, s: Session, rest: seq<Session>)
    ensures var r := Run(m, s);
      var x := Supervise(m, [s] + rest);
      var a := Classify(r.end);
      && (a.Restart? ==>
            var y := Supervise(Attended(m, s), rest);
            x.status == y.status && x.after == y.after && x.ends == [r.end] + y.ends)
      && (a.Terminate? ==> x.status == Some(a.status) && x.after == Attended(m, s) && x.ends == [r.end])
      && (a.Wait? ==> x.status.None? && x.after == Attended(m, s) && x.ends == [r.end])
  {
  }

  /** `run` exits only with status 1, and only after putting "stop" and
      restoring the terminal; every other end leaves the stop channel and the
      terminal as they were. An end other than an exit or a wait comes from
      the monitor loop, so a port was bound. */
  lemma RunExitsOnlyOnEscape(m: MainState, s: Session)
    ensures var r := Run(m, s);
      && (r.end.Exited? ==> r.end == Exited(1) && r.after.cleanedUp && r.after.stop == m.stop + [STOP_SIGNAL])
      && (!r.end.Exited? ==> r.after.cleanedUp == m.cleanedUp && r.after.stop == m.stop)
      && (r.end.RunRaised? || r.end == Returned ==> DiscoverFrom(m.(ser := None), s.scans, 0).outcome.Bound?)
  {
    var m0 := m.(ser := None);
    var d := DiscoverFrom(m0, s.scans, 0);
    DiscoverySignalsStopOnlyOnEscape(m0, s.scans, 0);
    if d.outcome.Bound? {
      LoopSignalsStopOnlyOnEscape(d.after, s.ticks);
    }
  }

  /** The top-level loop calls `run` again after every normal return, serial
      exception and I/O error, with no limit on the number of retries: it
      stops calling `run` only when a run ends otherwise. The program ends
      only with status 1. */
  lemma {:induction false} SuperviseRetriesWithoutLimit(m: MainState, sessions: seq<Session>)
    ensures var x := Supervise(m, sessions);
      && |x.ends| <= |sessions|
      && (forall k :: 0 <= k < |x.ends| - 1 ==> Restarts(x.ends[k]))
      && (|x.ends| < |sessions| ==> |x.ends| > 0 && !Restarts(x.ends[|x.ends| - 1]))
      && (x.status.Some? <==> |x.ends| > 0 && Classify(x.ends[|x.ends| - 1]).Terminate?)
      && (x.status.Some? ==> x.status == Some(1))
    decreases |sessions|
  {
    if sessions != [] {
      var r := Run(m, sessions[0]);
      RunExitsOnlyOnEscape(m, sessions[0]);
      if Classify(r.end).Restart? {
        SuperviseRetriesWithoutLimit(r.after.(console := r.after.console + Classify(r.end).note), sessions[1..]);
      }
    }
  }

  /** An exit from inside `run` (ESC) has put "stop" and restored the
      terminal; no other end of the program does either, and while the
      program runs no call of `run` does. */
  lemma {:induction false} SuperviseRestoresTerminalOnlyOnExit(m: MainState, sessions: seq<Session>)
    ensures var x := Supervise(m, sessions);
      var exited := x.ends != [] && x.ends[|x.ends| - 1].Exited?;
      && (exited ==> x.after.cleanedUp && x.after.stop == m.stop + [STOP_SIGNAL])
      && (!exited ==> x.after.cleanedUp == m.cleanedUp && x.after.stop == m.stop)
    decreases |sessions|
  {
    if sessions != [] {
      var r := Run(m, sessions[0]);
      var a := Classify(r.end);
      RunExitsOnlyOnEscape(m, sessions[0]);
      assert [sessions[0]] + sessions[1..] == sessions;
      SuperviseUnfolds(m, sessions[0], sessions[1..]);
      var x := Supervise(m, sessions);
      if a.Restart? {
        var m1 := r.after.(console := r.after.console + a.note);
        SuperviseRestoresTerminalOnlyOnExit(m1, sessions[1..]);
        var x1 := Supervise(m1, sessions[1..]);
        assert x.ends == [r.end] + x1.ends && x.after == x1.after;
        assert x1.ends != [] ==> x.ends[|x.ends| - 1] == x1.ends[|x1.ends| - 1];
        assert m1.stop == m.stop && m1.cleanedUp == m.cleanedUp;
      } else {
        assert x.ends == [r.end] && x.after.stop == r.after.stop && x.after.cleanedUp == r.after.cleanedUp;
      }
    }
  }

  /** A keyboard interrupt ends the program with its report as the last line
      printed, and without restoring the terminal. */
  lemma {:induction false} InterruptSkipsCleanup(m: MainState, sessions: seq<Session>)
    ensures var x := Supervise(m, sessions);
      x.ends != [] && x.ends[|x.ends| - 1] == RunRaised(KeyboardInterrupt) ==>
        && x.status == Some(1)
        && |x.after.console| > 0 && x.after.console[|x.after.console| - 1] == InterruptExit
        && x.after.cleanedUp == m.cleanedUp
  {
    SuperviseRetriesWithoutLimit(m, sessions);
    SuperviseRestoresTerminalOnlyOnExit(m, sessions);
    InterruptReported(m, sessions);
  }

  /** A keyboard interrupt's report is the last line printed. */
  lemma {:induction false} InterruptReported(m: MainState, sessions: seq<Session>)
    ensures var x := Supervise(m, sessions);
      x.ends != [] && x.ends[|x.ends| - 1] == RunRaised(KeyboardInterrupt) ==>
        |x.after.console| > 0 && x.after.console[|x.after.console| - 1] == InterruptExit
    decreases |sessions|
  {
    if sessions != [] {
      var r := Run(m, sessions[0]);
      var a := Classify(r.end);
      assert [sessions[0]] + sessions[1..] == sessions;
      SuperviseUnfolds(m, sessions[0], sessions[1..]);
      var x := Supervise(m, sessions);
      if a.Restart? {
        var m1 := r.after.(console := r.after.console + a.note);
        InterruptReported(m1, sessions[1..]);
        var x1 := Supervise(m1, sessions[1..]);
        assert x.ends == [r.end] + x1.ends && x.after == x1.after;
        assert x1.ends != [] ==> x.ends[|x.ends| - 1] == x1.ends[|x1.ends| - 1];
      } else if r.end == RunRaised(KeyboardInterrupt) {
        assert x.after.console == r.after.console + [InterruptExit];
      }
    }
  }
}
