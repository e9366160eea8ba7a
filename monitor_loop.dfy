/** One session of the monitor loop: each iteration takes at most one queued
    keystroke and writes it to the port (ESC ends the program), then reads one
    line from the port: an empty line ends the session, a failed read raises,
    anything else is printed (stripped of surrounding whitespace, see
    `Text.Render`). The port is
    described by what each iteration sees of it. */
module MonitorLoop {
  import opened Common

  /** What one `readline` gives: the bytes of a line (empty when the read
      timeout passed with no data), an I/O error, or an operator interrupt
      (Ctrl-C) while the read was blocked. */
  datatype ReadOutcome = Received(line: string) | ReadFailed | ReadInterrupted

  /** What the port does in one iteration: whether a write in it raises, and
      what its read gives. */
  datatype Tick = Tick(writeFails: bool, read: ReadOutcome)

  /** The exceptions that can leave the loop. */
  datatype Exception = SerialException | IOError | KeyboardInterrupt

  datatype StepOutcome =
    | Continue        // the loop goes on
    | EscapeExit      // ESC was written: the program exits with status 1
    | DeviceSilent    // the read gave no data: the session returns normally
    | Raised(exc: Exception)

  datatype Stepped = Stepped(outcome: StepOutcome, after: MainState)

  /** One iteration of the loop. */
  function Step(m: MainState, t: Tick): Stepped
  {
    if |m.input| > 0 && t.writeFails then
      Stepped(Raised(SerialException), m.(input := m.input[1..]))
    else
      var m1 := if |m.input| > 0 then m.(input := m.input[1..], written := m.written + [m.input[0]]) else m;
      if |m.input| > 0 && m.input[0] == ESC then
        Stepped(EscapeExit, m1.(stop := m1.stop + [STOP_SIGNAL], cleanedUp := true))
      else
        match t.read
        case Received(line) =>
          if line == [] then Stepped(DeviceSilent, m1.(console := m1.console + [DeviceNotResponding]))
          else Stepped(Continue, m1.(console := m1.console + [DeviceOutput(line)]))
        case ReadFailed => Stepped(Raised(IOError), m1)
        case ReadInterrupted => Stepped(Raised(KeyboardInterrupt), m1)
  }

  /** How a run of the loop over a trace of ticks ended (`Continue` when the
      trace ran out first), the state it left, and how many iterations ran. */
  datatype Looped = Looped(outcome: StepOutcome, after: MainState, iterations: nat)

  function Loop(m: MainState, ticks: seq<Tick>): Looped
    decreases |ticks|
  {
    if ticks == [] then Looped(Continue, m, 0)
    else
      var s := Step(m, ticks[0]);
      if s.outcome == Continue then
        var l := Loop(s.after, ticks[1..]);
        l.(iterations := l.iterations + 1)
      else Looped(s.outcome, s.after, 1)
  }
}

module MonitorLoopProperties {
  import opened Common
  import opened MonitorLoop

  function Min(a: nat, b: nat): nat {
    if a < b then a else b
  }

  /** The number of keystrokes a run took from the input queue. */
  function Taken(m: MainState, l: Looped): int {
    |m.input| - |l.after.input|
  }

  /** The line a tick's read delivers, or nothing. */
  function LineOf(t: Tick): string {
    if t.read.Received? then t.read.line else []
  }

  /** One iteration takes the head of a non-empty queue and writes it unless
      the write raises; only a written ESC puts "stop" and restores the
      terminal; the port binding never changes. */
  lemma StepSummary(m: MainState, t: Tick)
    ensures var s := Step(m, t);
      && s.after.ser == m.ser
      && s.after.input == (if |m.input| > 0 then m.input[1..] else m.input)
      && s.after.written == m.written + (if |m.input| > 0 && !t.writeFails then [m.input[0]] else [])
      && (s.outcome == Raised(SerialException) <==> |m.input| > 0 && t.writeFails)
      && (s.outcome == EscapeExit <==> |m.input| > 0 && !t.writeFails && m.input[0] == ESC)
      && s.after.stop == (if s.outcome == EscapeExit then m.stop + [STOP_SIGNAL] else m.stop)
      && s.after.cleanedUp == (s.outcome == EscapeExit || m.cleanedUp)
  {
  }

  /** An iteration that neither raised on its write nor wrote ESC reads once:
      a non-empty line is printed and the loop goes on, an empty one prints
      "Device Not Responding" and ends the session. Nothing else prints. */
  lemma StepConsole(m: MainState, t: Tick)
    ensures var s := Step(m, t);
      var proceeds := |m.input| == 0 || (!t.writeFails && m.input[0] != ESC);
      && (s.outcome == Continue <==> proceeds && t.read.Received? && t.read.line != [])
      && (s.outcome == DeviceSilent <==> proceeds && t.read == Received([]))
      && (s.outcome == Raised(IOError) <==> proceeds && t.read == ReadFailed)
      && (s.outcome == Raised(KeyboardInterrupt) <==> proceeds && t.read == ReadInterrupted)
      && s.after.console == m.console + (
           if s.outcome == Continue then [DeviceOutput(LineOf(t))]
           else if s.outcome == DeviceSilent then [DeviceNotResponding]
           else [])
  {
  }

  /** The loop runs one iteration per tick until an outcome other than
      `Continue`; keystrokes leave the queue in order, one per iteration while
      any is queued. */
  lemma {:induction false} LoopTakesOneKeyPerIteration(m: MainState, ticks: seq<Tick>)
    ensures var l := Loop(m, ticks);
      && l.iterations <= |ticks|
      && (l.outcome == Continue ==> l.iterations == |ticks|)
      && (l.outcome != Continue ==> 1 <= l.iterations)
      && Taken(m, l) == Min(l.iterations, |m.input|)
      && l.after.input == m.input[Taken(m, l)..]
    decreases |ticks|
  {
    if ticks != [] {
      var s := Step(m, ticks[0]);
      StepSummary(m, ticks[0]);
      if s.outcome == Continue {
        LoopTakesOneKeyPerIteration(s.after, ticks[1..]);
        var l := Loop(m, ticks);
        if |m.input| > 0 {
          assert m.input[Taken(m, l)..] == s.after.input[Taken(m, l) - 1..];
        }
      } else {
        assert m.input[0..] == m.input;
      }
    }
  }

  /** Each keystroke taken from the queue is written to the port, in order,
      except the last one when its write raised. */
  lemma {:induction false} LoopWritesTakenKeys(m: MainState, ticks: seq<Tick>)
    ensures var l := Loop(m, ticks);
      var dropped := if l.outcome == Raised(SerialException) then 1 else 0;
      && 0 <= Taken(m, l) - dropped <= |m.input|
      && l.after.written == m.written + m.input[..Taken(m, l) - dropped]
    decreases |ticks|
  {
    if ticks != [] {
      var s := Step(m, ticks[0]);
      StepSummary(m, ticks[0]);
      if s.outcome == Continue {
        LoopWritesTakenKeys(s.after, ticks[1..]);
        var l := Loop(m, ticks);
        var dropped := if l.outcome == Raised(SerialException) then 1 else 0;
        if |m.input| > 0 {
          var rest := s.after.input[..Taken(m, l) - dropped - 1];
          assert m.input[..Taken(m, l) - dropped] == [m.input[0]] + rest;
          AppendAssociates(m.written, [m.input[0]], rest);
        }
      } else {
        assert m.input[..0] == [];
        if |m.input| > 0 {
          assert m.input[..1] == [m.input[0]];
        }
      }
    }
  }

  /** The loop ends the program only right after writing ESC, and that
      iteration reads nothing (every earlier iteration printed one line). A
      key taken before the last one was never ESC. */
  lemma {:induction false} LoopEscapeExits(m: MainState, ticks: seq<Tick>)
    ensures var l := Loop(m, ticks);
      && 0 <= Taken(m, l)
      && (forall j :: 0 <= j < Taken(m, l) - 1 ==> m.input[j] != ESC)
      && (l.outcome == EscapeExit ==>
            && 1 <= Taken(m, l) && m.input[Taken(m, l) - 1] == ESC
            && |l.after.written| > 0 && l.after.written[|l.after.written| - 1] == ESC
            && |l.after.console| == |m.console| + l.iterations - 1)
      && (l.outcome != EscapeExit && l.outcome != Raised(SerialException) ==>
            forall j :: 0 <= j < Taken(m, l) ==> m.input[j] != ESC)
    decreases |ticks|
  {
    if ticks != [] {
      var s := Step(m, ticks[0]);
      StepSummary(m, ticks[0]);
      StepConsole(m, ticks[0]);
      if s.outcome == Continue {
        LoopEscapeExits(s.after, ticks[1..]);
        if |m.input| > 0 {
          assert forall j :: 1 <= j < |m.input| ==> m.input[j] == s.after.input[j - 1];
        }
      }
    }
  }

  /** Only an ESC exit puts "stop" on the stop channel and restores the
      terminal; the port binding never changes. */
  lemma {:induction false} LoopSignalsStopOnlyOnEscape(m: MainState, ticks: seq<Tick>)
    ensures var l := Loop(m, ticks);
      && l.after.stop == (if l.outcome == EscapeExit then m.stop + [STOP_SIGNAL] else m.stop)
      && l.after.cleanedUp == (l.outcome == EscapeExit || m.cleanedUp)
      && l.after.ser == m.ser
    decreases |ticks|
  {
    if ticks != [] {
      var s := Step(m, ticks[0]);
      StepSummary(m, ticks[0]);
      if s.outcome == Continue {
        LoopSignalsStopOnlyOnEscape(s.after, ticks[1..]);
      }
    }
  }

  /** The device lines printed for a run of iterations that all continued. */
  function Printed(ticks: seq<Tick>): (p: seq<Message>)
    ensures |p| == |ticks|
    decreases |ticks|
  {
    if ticks == [] then [] else [DeviceOutput(LineOf(ticks[0]))] + Printed(ticks[1..])
  }

  /** The number of iterations of a run that continued. */
  function Continued(l: Looped): int {
    if l.outcome == Continue then l.iterations else l.iterations - 1
  }

  /** Every iteration that continued read a non-empty line; a session that
      ended silent did so on an empty read. */
  lemma {:induction false} LoopReadsLines(m: MainState, ticks: seq<Tick>)
    ensures var l := Loop(m, ticks);
      && 0 <= Continued(l) <= l.iterations <= |ticks|
      && (forall k :: 0 <= k < Continued(l) ==> ticks[k].read.Received? && ticks[k].read.line != [])
      && (l.outcome == DeviceSilent ==> ticks[Continued(l)].read == Received([]))
    decreases |ticks|
  {
    if ticks != [] {
      var s := Step(m, ticks[0]);
      StepConsole(m, ticks[0]);
      if s.outcome == Continue {
        LoopReadsLines(s.after, ticks[1..]);
        var l1 := Loop(s.after, ticks[1..]);
        assert Loop(m, ticks) == l1.(iterations := l1.iterations + 1);
      }
    }
  }

  /** Every iteration that continued printed its line, in order; a silent
      device adds "Device Not Responding" and ends the session; nothing else
      is printed. */
  lemma {:induction false} LoopPrintsDeviceLines(m: MainState, ticks: seq<Tick>)
    ensures var l := Loop(m, ticks);
      && 0 <= Continued(l) <= |ticks|
      && (l.outcome == DeviceSilent ==>
            l.after.console == m.console + Printed(ticks[..Continued(l)]) + [DeviceNotResponding])
      && (l.outcome != DeviceSilent ==> l.after.console == m.console + Printed(ticks[..Continued(l)]))
    decreases |ticks|
  {
    LoopReadsLines(m, ticks);
    if ticks != [] {
      var s := Step(m, ticks[0]);
      StepConsole(m, ticks[0]);
      if s.outcome == Continue {
        LoopPrintsDeviceLines(s.after, ticks[1..]);
        var l1 := Loop(s.after, ticks[1..]);
        var c := Continued(l1);
        assert Loop(m, ticks) == l1.(iterations := l1.iterations + 1);
        var later := Printed(ticks[1..][..c]);
        assert ticks[..c + 1] == [ticks[0]] + ticks[1..][..c];
        assert Printed(ticks[..c + 1]) == [DeviceOutput(LineOf(ticks[0]))] + later;
        AppendAssociates(m.console, [DeviceOutput(LineOf(ticks[0]))], later);
      } else {
        assert ticks[..0] == [];
      }
    }
  }

  /** With no ESC queued, a port whose writes succeed and whose reads all
      deliver data, every queued keystroke is written to the port in order,
      one per iteration, and the loop is still running when the trace ends. */
  lemma {:induction false} KeystrokesReachPortInOrder(m: MainState, ticks: seq<Tick>)
    requires ESC !in m.input
    requires forall k :: 0 <= k < |ticks| ==> !ticks[k].writeFails && LineOf(ticks[k]) != []
    ensures var l := Loop(m, ticks);
      var n := Min(|ticks|, |m.input|);
      && l.outcome == Continue && l.iterations == |ticks|
      && l.after.written == m.written + m.input[..n]
      && l.after.input == m.input[n..]
    decreases |ticks|
  {
    if ticks == [] {
      assert m.input[..0] == [] && m.input[0..] == m.input;
    } else {
      var s := Step(m, ticks[0]);
      StepSummary(m, ticks[0]);
      StepConsole(m, ticks[0]);
      if |m.input| > 0 {
        assert m.input[0] in m.input;
      }
      KeystrokesReachPortInOrder(s.after, ticks[1..]);
      if |m.input| > 0 {
        var n := Min(|ticks|, |m.input|);
        assert m.input[..n] == [m.input[0]] + s.after.input[..n - 1];
        assert m.input[n..] == s.after.input[n - 1..];
        AppendAssociates(m.written, [m.input[0]], s.after.input[..n - 1]);
      }
    }
  }

  /** A device that answers a read with no data ends the session with
      "Device Not Responding" and a normal return, not an exception. */
  lemma SilentDeviceEndsSession(m: MainState, ticks: seq<Tick>)
    requires |ticks| > 0 && ticks[0].read == Received([])
    requires |m.input| == 0 || (m.input[0] != ESC && !ticks[0].writeFails)
    ensures var l := Loop(m, ticks);
      && l.outcome == DeviceSilent && l.iterations == 1
      && l.after.console == m.console + [DeviceNotResponding]
  {
  }
}
