/** The monitor object: its three queues, the bound port and the terminal
    mode, changed in place by the main thread (port discovery, the monitor
    loop) and by the keyboard relay. Each method is proved to do what the
    corresponding specification function says. */
module Monitor {
  import opened Common
  import opened Numerals
  import opened Discovery
  import opened DiscoveryProperties
  import L = MonitorLoop
  import R = InputRelay
  import S = Supervisor
  import SupervisorProperties

  class SerialMonitor {
    var inputQueue: seq<char>
    var stopQueue: seq<string>
    var pauseQueue: seq<string>
    var relayPhase: R.Phase
    /** The path of the bound port, if any. */
    var ser: Option<string>
    /** Every byte written to a port. */
    var written: seq<char>
    /** Every message printed. */
    var console: seq<Message>
    /** Whether `cleanUp` has run; on Unix it restores the saved terminal mode. */
    var cleanedUp: bool
    /** Every path an open was attempted on, in order. */
    ghost var attempts: seq<string>

    /** What the main thread sees and changes. */
    function State(): MainState
      reads this
    {
      MainState(inputQueue, stopQueue, ser, written, console, cleanedUp)
    }

    /** What the keyboard relay sees and changes. */
    function RelayView(): R.Relay
      reads this
    {
      R.Relay(relayPhase, inputQueue, pauseQueue, stopQueue)
    }

    /** Three empty queues, the terminal switched to character mode, and the
        relay started. */
    constructor ()
      ensures State() == MainState([], [], None, [], [], false)
      ensures RelayView() == R.Relay(R.Reading, [], [], [])
      ensures attempts == []
    {
      inputQueue := [];
      stopQueue := [];
      pauseQueue := [];
      relayPhase := R.Reading;
      ser := None;
      written := [];
      console := [];
      cleanedUp := false;
      attempts := [];
    }

    /** Restores the terminal's saved mode. */
    method CleanUp()
      modifies this
      ensures State() == old(State()).(cleanedUp := true)
      ensures RelayView() == old(RelayView())
      ensures attempts == old(attempts)
    {
      cleanedUp := true;
    }

    /** The paths of prefix `p`, suffixes 0 to 63 in order, until one
        opens; the port opened is announced and no later suffix is tried. */
    method TryPrefix(canOpen: (nat, string) -> bool, round: nat, p: nat) returns (suffix: nat)
      requires ser.None? && p < |BASE_PORTS|
      modifies this
      ensures ser.None? ==> forall j :: 0 <= j < SUFFIX_COUNT ==> !canOpen(round, Candidate(p, j))
      ensures ser.None? ==> console == old(console) && attempts == old(attempts) + PrefixPaths(p, SUFFIX_COUNT)
      ensures ser.Some? ==> && suffix < SUFFIX_COUNT && ser.value == Candidate(p, suffix)
                            && canOpen(round, ser.value)
                            && (forall j :: 0 <= j < suffix ==> !canOpen(round, Candidate(p, j)))
                            && console == old(console) + [Opened(ser.value)]
                            && attempts == old(attempts) + PrefixPaths(p, suffix + 1)
      ensures inputQueue == old(inputQueue) && stopQueue == old(stopQueue) && written == old(written)
      ensures cleanedUp == old(cleanedUp) && relayPhase == old(relayPhase) && pauseQueue == old(pauseQueue)
    {
      suffix := 0;
      while suffix < SUFFIX_COUNT
        invariant suffix <= SUFFIX_COUNT
        invariant forall j :: 0 <= j < suffix ==> !canOpen(round, Candidate(p, j))
        invariant attempts == old(attempts) + PrefixPaths(p, suffix)
        invariant inputQueue == old(inputQueue) && stopQueue == old(stopQueue) && written == old(written)
        invariant cleanedUp == old(cleanedUp) && relayPhase == old(relayPhase) && pauseQueue == old(pauseQueue)
        invariant ser.None? && console == old(console)
      {
        var port := BASE_PORTS[p] + Decimal(suffix);
        PrefixPathsGrow(p, suffix);
        AppendAssociates(old(attempts), PrefixPaths(p, suffix), [port]);
        attempts := attempts + [port];
        if canOpen(round, port) {
          ser := Some(port);
          console := console + [Opened(port)];
          return;
        }
        suffix := suffix + 1;
      }
    }

    /** Prefix `p` of a scan in which every earlier prefix failed, with the
        paths tried so far followed by those the scan tries from `p` on making
        up `goal`: the scan either binds a path of this prefix, having then
        tried all of `goal`, or goes on to the next prefix. */
    method ScanPrefix(canOpen: (nat, string) -> bool, round: nat, p: nat, ghost goal: seq<string>)
      requires ser.None? && p < |BASE_PORTS|
      requires forall q, j :: 0 <= q < p && 0 <= j < SUFFIX_COUNT ==> !canOpen(round, Candidate(q, j))
      requires attempts + TriedFrom(canOpen, round, p) == goal
      modifies this
      ensures ser.None? ==> && State() == old(State())
                            && (forall q, j :: 0 <= q < p + 1 && 0 <= j < SUFFIX_COUNT ==> !canOpen(round, Candidate(q, j)))
                            && attempts + TriedFrom(canOpen, round, p + 1) == goal
      ensures ser.Some? ==> && ser == Scans(canOpen)(round)
                            && State() == old(State()).(ser := ser, console := old(console) + [Opened(ser.value)])
                            && attempts == goal
      ensures relayPhase == old(relayPhase) && pauseQueue == old(pauseQueue)
    {
      var suffix := TryPrefix(canOpen, round, p);
      if ser.Some? {
        TriedUpToOpeningSuffix(canOpen, round, p, suffix);
        ScanFindsInPrefixOrder(canOpen, round, p, suffix);
      } else {
        TriedPastFailingPrefix(canOpen, round, p);
        AppendAssociates(old(attempts), PrefixPaths(p, SUFFIX_COUNT), TriedFrom(canOpen, round, p + 1));
        PrefixesFailExtend(canOpen, round, p);
      }
    }

    /** One scan: every prefix in order until a path opens; no path after the
        one that opened is tried. */
    method Scan(canOpen: (nat, string) -> bool, round: nat)
      requires ser.None?
      modifies this
      ensures ser == Scans(canOpen)(round)
      ensures attempts == old(attempts) + ScanTried(canOpen, round)
      ensures State() == old(State()).(ser := ser, console := old(console) + (if ser.Some? then [Opened(ser.value)] else []))
      ensures relayPhase == old(relayPhase) && pauseQueue == old(pauseQueue)
    {
      ghost var start, phase, pause := State(), relayPhase, pauseQueue;
      ghost var goal := old(attempts) + ScanTried(canOpen, round);
      var p := 0;
      while p < |BASE_PORTS|
        invariant p <= |BASE_PORTS| && State() == start
        invariant relayPhase == phase && pauseQueue == pause
        invariant attempts + TriedFrom(canOpen, round, p) == goal
        invariant forall q, j :: 0 <= q < p && 0 <= j < SUFFIX_COUNT ==> !canOpen(round, Candidate(q, j))
      {
        ScanPrefix(canOpen, round, p, goal);
        if ser.Some? {
          return;
        }
        p := p + 1;
      }
      assert TriedFrom(canOpen, round, p) == [];
      assert attempts == goal;
      ScanFindsNothing(canOpen, round);
    }

    /** The retry prompt after a scan where nothing opened: take one
        keystroke from the input queue; ESC puts "stop" on the stop queue,
        restores the terminal and exits, any other key asks for another scan
        (`None`). It gives up waiting when the input queue is empty. */
    method Prompt() returns (exit: Option<DiscoveryOutcome>)
      modifies this
      ensures var m := old(State()).(console := old(console) + [NoPortFound]);
        if |m.input| == 0 then exit == Some(AwaitingKey) && State() == m
        else if m.input[0] == ESC then
          exit == Some(EscapeExit) &&
          State() == m.(input := m.input[1..], stop := m.stop + [STOP_SIGNAL], cleanedUp := true)
        else exit == None && State() == m.(input := m.input[1..])
      ensures relayPhase == old(relayPhase) && pauseQueue == old(pauseQueue)
      ensures attempts == old(attempts)
    {
      console := console + [NoPortFound];
      if |inputQueue| == 0 {
        return Some(AwaitingKey);
      }
      var key := inputQueue[0];
      inputQueue := inputQueue[1..];
      if key == ESC {
        stopQueue := stopQueue + [STOP_SIGNAL];
        CleanUp();
        return Some(EscapeExit);
      }
      return None;
    }

    /** The retry prompt of discovery round `round`, whose scan (`scans`)
        found nothing: it ends discovery (`Some`) or asks for the next round
        having taken one keystroke. */
    method PromptRetry(ghost scans: nat -> Option<string>, ghost round: nat) returns (outcome: Option<DiscoveryOutcome>)
      requires ser.None? && scans(round).None?
      modifies this
      ensures outcome.Some? ==> DiscoverFrom(old(State()), scans, round) == Discovered(outcome.value, State(), round)
      ensures outcome.None? ==>
        && ser.None? && old(|inputQueue|) > 0 && old(inputQueue)[0] != ESC
        && State() == old(State()).(console := old(console) + [NoPortFound], input := old(inputQueue)[1..])
        && DiscoverFrom(old(State()), scans, round) == DiscoverFrom(State(), scans, round + 1)
      ensures relayPhase == old(relayPhase) && pauseQueue == old(pauseQueue)
      ensures attempts == old(attempts)
    {
      ghost var m := State();
      DiscoverAfterFailedScan(m, scans, round);
      outcome := Prompt();
    }

    /** One pass of discovery: scan round `round`, and prompt if nothing
        opened. It ends discovery (`Some`) or asks for the next round having
        taken one keystroke. */
    method DiscoverRound(canOpen: (nat, string) -> bool, round: nat) returns (outcome: Option<DiscoveryOutcome>)
      requires ser.None?
      modifies this
      ensures outcome.Some? ==>
        DiscoverFrom(old(State()), Scans(canOpen), round) == Discovered(outcome.value, State(), round)
      ensures outcome.None? ==>
        && ser.None? && |inputQueue| < old(|inputQueue|)
        && DiscoverFrom(old(State()), Scans(canOpen), round) == DiscoverFrom(State(), Scans(canOpen), round + 1)
      ensures outcome.None? ==>
        && Scans(canOpen)(round).None? && old(|inputQueue|) > 0 && old(inputQueue)[0] != ESC
        && State() == old(State()).(console := old(console) + [NoPortFound], input := old(inputQueue)[1..])
      ensures relayPhase == old(relayPhase) && pauseQueue == old(pauseQueue)
      ensures attempts == old(attempts) + ScanTried(canOpen, round)
    {
      ghost var m := State();
      Scan(canOpen, round);
      if ser.Some? {
        return Some(Bound(ser.value));
      }
      assert State() == m;
      outcome := PromptRetry(Scans(canOpen), round);
    }

    /** Port discovery: forget any earlier port, then scan until a port
        opens, prompting after each scan where nothing opened. */
    method Discover(canOpen: (nat, string) -> bool) returns (outcome: DiscoveryOutcome)
      modifies this
      ensures var d := DiscoverFrom(old(State()).(ser := None), Scans(canOpen), 0);
        outcome == d.outcome && State() == d.after
      ensures relayPhase == old(relayPhase) && pauseQueue == old(pauseQueue)
      ensures old(attempts) <= attempts
    {
      ghost var goal := DiscoverFrom(State().(ser := None), Scans(canOpen), 0);
      ser := None;
      var round: nat := 0;
      while true
        invariant ser.None? && DiscoverFrom(State(), Scans(canOpen), round) == goal
        invariant relayPhase == old(relayPhase) && pauseQueue == old(pauseQueue)
        invariant old(attempts) <= attempts
        decreases |inputQueue|
      {
        var found := DiscoverRound(canOpen, round);
        if found.Some? {
          return found.value;
        }
        round := round + 1;
      }
    }

    /** The monitor loop on the bound port, one iteration per tick: take one
        queued keystroke, if any, and write it (ESC then puts "stop",
        restores the terminal and exits); then read one line: an empty line
        ends the session, a non-empty one is printed, a failed read raises. */
    method Monitor(ticks: seq<L.Tick>) returns (outcome: L.StepOutcome, iterations: nat)
      modifies this
      ensures var l := L.Loop(old(State()), ticks);
        outcome == l.outcome && iterations == l.iterations && State() == l.after
      ensures relayPhase == old(relayPhase) && pauseQueue == old(pauseQueue)
      ensures attempts == old(attempts)
    {
      ghost var goal := L.Loop(State(), ticks);
      var i := 0;
      while i < |ticks|
        invariant 0 <= i <= |ticks|
        invariant var l := L.Loop(State(), ticks[i..]);
          l.outcome == goal.outcome && l.after == goal.after && i + l.iterations == goal.iterations
        invariant relayPhase == old(relayPhase) && pauseQueue == old(pauseQueue)
        invariant attempts == old(attempts)
      {
        var t := ticks[i];
        assert ticks[i..][1..] == ticks[i + 1..];
        if |inputQueue| > 0 {
          var key := inputQueue[0];
          inputQueue := inputQueue[1..];
          if t.writeFails {
            return L.Raised(L.SerialException), i + 1;
          }
          written := written + [key];
          if key == ESC {
            stopQueue := stopQueue + [STOP_SIGNAL];
            CleanUp();
            return L.EscapeExit, i + 1;
          }
        }
        match t.read {
          case Received(line) =>
            if line == [] {
              console := console + [DeviceNotResponding];
              return L.DeviceSilent, i + 1;
            }
            console := console + [DeviceOutput(line)];
          case ReadFailed =>
            return L.Raised(L.IOError), i + 1;
          case ReadInterrupted =>
            return L.Raised(L.KeyboardInterrupt), i + 1;
        }
        i := i + 1;
      }
      return L.Continue, i;
    }

    /** One call of `run`: discovery from the first scan round, then the
        monitor loop on the port it bound. */
    method Run(canOpen: (nat, string) -> bool, ticks: seq<L.Tick>) returns (end: S.RunEnd)
      modifies this
      ensures var r := S.Run(old(State()), S.Session(Scans(canOpen), ticks));
        end == r.end && State() == r.after
      ensures relayPhase == old(relayPhase) && pauseQueue == old(pauseQueue)
      ensures old(attempts) <= attempts
    {
      var found := Discover(canOpen);
      match found {
        case EscapeExit => return S.Exited(1);
        case AwaitingKey => return S.StillRunning;
        case Bound(_) =>
      }
      var outcome, _ := Monitor(ticks);
      match outcome {
        case Continue => end := S.StillRunning;
        case EscapeExit => end := S.Exited(1);
        case DeviceSilent => end := S.Returned;
        case Raised(e) => end := S.RunRaised(e);
      }
    }

    /** The relay's wait for "resume": values are taken from the pause queue
        and discarded until "resume"; if the queue runs dry first, the relay
        is left waiting. */
    method AwaitResume()
      modifies this
      ensures RelayView() == R.AwaitResume(old(RelayView()))
      ensures relayPhase == R.Paused ==> pauseQueue == []
      ensures State() == old(State())
      ensures attempts == old(attempts)
    {
      while |pauseQueue| > 0
        invariant R.AwaitResume(RelayView()) == R.AwaitResume(old(RelayView()))
        invariant State() == old(State())
        invariant attempts == old(attempts)
        decreases |pauseQueue|
      {
        var value := pauseQueue[0];
        pauseQueue := pauseQueue[1..];
        if value == RESUME_SIGNAL {
          relayPhase := R.Reading;
          return;
        }
      }
      relayPhase := R.Paused;
    }

    /** The relay's look at the stop queue: a value is taken if there is one,
        and "stop" ends the relay. */
    method CheckStop()
      modifies this
      ensures RelayView() == R.CheckStop(old(RelayView()))
      ensures relayPhase == R.Paused ==> pauseQueue == old(pauseQueue) && old(relayPhase) == R.Paused
      ensures State() == old(State()).(stop := stopQueue)
      ensures attempts == old(attempts)
    {
      if |stopQueue| > 0 {
        var value := stopQueue[0];
        stopQueue := stopQueue[1..];
        if value == STOP_SIGNAL {
          relayPhase := R.Stopped;
        }
      }
    }

    /** A waiting relay goes on waiting for "resume" and, once resumed,
        finishes its iteration with the stop check. */
    method Resume()
      modifies this
      ensures RelayView() == R.Resume(old(RelayView()))
      ensures relayPhase == R.Paused ==> pauseQueue == []
      ensures State() == old(State()).(stop := stopQueue)
      ensures attempts == old(attempts)
    {
      AwaitResume();
      if relayPhase != R.Paused {
        CheckStop();
      }
    }

    /** One iteration of the relay for keystroke `key`: queue it, then look
        once at the pause queue ("pause" starts the wait for "resume", any
        other value is discarded), then, unless still waiting, once at the
        stop queue. */
    method RelayStep(key: char)
      requires relayPhase == R.Reading
      modifies this
      ensures RelayView() == R.Iterate(old(RelayView()), key)
      ensures relayPhase == R.Paused ==> pauseQueue == []
      ensures State() == old(State()).(input := inputQueue, stop := stopQueue)
      ensures attempts == old(attempts)
    {
      inputQueue := inputQueue + [key];
      if |pauseQueue| > 0 {
        var value := pauseQueue[0];
        pauseQueue := pauseQueue[1..];
        if value == PAUSE_SIGNAL {
          AwaitResume();
        }
      }
      if relayPhase != R.Paused {
        CheckStop();
      }
    }

    /** The keyboard relay over the keystrokes the operator types. It
        returns how many keystrokes it read before they ran out, it stopped,
        or it was left waiting for "resume". */
    method AddInput(keys: seq<char>) returns (read: nat)
      modifies this
      ensures var x := R.Run(old(RelayView()), keys);
        RelayView() == x.after && read == x.read
      ensures State() == old(State()).(input := inputQueue, stop := stopQueue)
      ensures attempts == old(attempts)
    {
      ghost var goal := R.Run(RelayView(), keys);
      read := 0;
      if relayPhase == R.Paused {
        Resume();
        if relayPhase == R.Paused {
          return;
        }
      }
      while relayPhase == R.Reading && read < |keys|
        invariant read <= |keys|
        invariant relayPhase == R.Paused ==> pauseQueue == []
        invariant var x := R.Run(RelayView(), keys[read..]);
          x.after == goal.after && read + x.read == goal.read
        invariant State() == old(State()).(input := inputQueue, stop := stopQueue)
        invariant attempts == old(attempts)
        decreases |keys| - read
      {
        assert keys[read..][1..] == keys[read + 1..];
        RelayStep(keys[read]);
        read := read + 1;
      }
    }

    /** Prints one message. */
    method Print(msg: Message)
      modifies this
      ensures State() == old(State()).(console := old(console) + [msg])
      ensures RelayView() == old(RelayView())
      ensures attempts == old(attempts)
    {
      console := console + [msg];
    }
  }

  /** What the world does during one call of `run`: which paths open in each
      scan round, and what the bound port does in each monitor iteration. */
  datatype World = World(canOpen: (nat, string) -> bool, ticks: seq<L.Tick>)

  function Sessions(worlds: seq<World>): seq<S.Session>
  {
    seq(|worlds|, k requires 0 <= k < |worlds| => S.Session(Scans(worlds[k].canOpen), worlds[k].ticks))
  }

  lemma SessionsFrom(worlds: seq<World>, i: nat)
    requires i < |worlds|
    ensures Sessions(worlds)[i..] == [S.Session(Scans(worlds[i].canOpen), worlds[i].ticks)] + Sessions(worlds)[i + 1..]
  {
  }

  /** One pass of the top-level loop: call `run` in world `w`, then print the
      handler's report of how it ended: a disconnect message after a serial
      exception or an I/O error, the exit message after a keyboard
      interrupt, nothing after a normal return or an exit. */
  method Attend(psm: SerialMonitor, w: World) returns (end: S.RunEnd, action: S.Action)
    modifies psm
    ensures end == S.Run(old(psm.State()), S.Session(Scans(w.canOpen), w.ticks)).end && action == S.Classify(end)
    ensures psm.State() == S.Attended(old(psm.State()), S.Session(Scans(w.canOpen), w.ticks))
    ensures psm.relayPhase == old(psm.relayPhase) && psm.pauseQueue == old(psm.pauseQueue)
  {
    end := psm.Run(w.canOpen, w.ticks);
    match end {
      case RunRaised(SerialException) =>
        psm.Print(DisconnectedSerial);
      case RunRaised(IOError) =>
        psm.Print(DisconnectedIO);
      case RunRaised(KeyboardInterrupt) =>
        psm.Print(InterruptExit);
      case Returned =>
      case Exited(_) =>
      case StillRunning =>
    }
    action := S.Classify(end);
  }

  /** One pass of the top-level loop, stated as a step of the loop over the
      sessions `[w's session] + rest` that is to end as `goal`, with the runs
      ending as `done` behind it. */
  method SuperviseOnce(psm: SerialMonitor, w: World, ghost rest: seq<S.Session>,
                       ghost goal: S.Supervised, ghost done: seq<S.RunEnd>) returns (end: S.RunEnd, action: S.Action)
    requires var x := S.Supervise(psm.State(), [S.Session(Scans(w.canOpen), w.ticks)] + rest);
      x.status == goal.status && x.after == goal.after && done + x.ends == goal.ends
    modifies psm
    ensures action == S.Classify(end)
    ensures end == S.Run(old(psm.State()), S.Session(Scans(w.canOpen), w.ticks)).end
    ensures psm.State() == S.Attended(old(psm.State()), S.Session(Scans(w.canOpen), w.ticks))
    ensures action.Restart? ==>
      var y := S.Supervise(psm.State(), rest);
      y.status == goal.status && y.after == goal.after && done + [end] + y.ends == goal.ends
    ensures action.Terminate? ==> goal == S.Supervised(Some(action.status), psm.State(), done + [end])
    ensures action.Wait? ==> goal == S.Supervised(None, psm.State(), done + [end])
    ensures psm.relayPhase == old(psm.relayPhase) && psm.pauseQueue == old(psm.pauseQueue)
  {
    SupervisorProperties.SuperviseGoesOnFromAttended(psm.State(), S.Session(Scans(w.canOpen), w.ticks), rest);
    end, action := Attend(psm, w);
    ghost var later := S.Supervise(psm.State(), rest).ends;
    AppendAssociates(done, [end], later);
  }

  /** The top-level loop: call `run` again after a normal return, and after a
      serial exception or an I/O error with a disconnect message; report a
      keyboard interrupt and end with status 1; end with the status of an exit
      from inside `run`. */
  method MainLoop(psm: SerialMonitor, worlds: seq<World>) returns (status: Option<int>, ends: seq<S.RunEnd>)
    modifies psm
    ensures var x := S.Supervise(old(psm.State()), Sessions(worlds));
      status == x.status && ends == x.ends && psm.State() == x.after
    ensures psm.relayPhase == old(psm.relayPhase) && psm.pauseQueue == old(psm.pauseQueue)
  {
    ghost var sessions := Sessions(worlds);
    ghost var phase, pause := psm.relayPhase, psm.pauseQueue;
    ghost var goal := S.Supervise(psm.State(), sessions);
    status, ends := None, [];
    var i := 0;
    while i < |worlds|
      invariant 0 <= i <= |worlds|
      invariant psm.relayPhase == phase && psm.pauseQueue == pause
      invariant var x := S.Supervise(psm.State(), sessions[i..]);
        x.status == goal.status && x.after == goal.after && ends + x.ends == goal.ends
    {
      SessionsFrom(worlds, i);
      var end, action := SuperviseOnce(psm, worlds[i], sessions[i + 1..], goal, ends);
      ends := ends + [end];
      match action {
        case Restart(_) =>
        case Terminate(code, _) =>
          return Some(code), ends;
        case Wait =>
          return None, ends;
      }
      i := i + 1;
    }
    assert sessions[i..] == [];
  }
}
