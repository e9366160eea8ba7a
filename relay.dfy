/** The keyboard relay (the monitor's background thread): it forwards every
    keystroke to the input queue and, after each one, looks once at the pause
    queue and once at the stop queue. "pause" makes it wait until "resume"
    arrives; "stop" ends it. */
module InputRelay {
  import opened Common

  datatype Phase =
    | Reading   // between keystrokes
    | Paused    // waiting for "resume" on a pause queue that has run dry
    | Stopped   // the relay has ended

  /** The relay's phase and the three queues it touches. */
  datatype Relay = Relay(phase: Phase, input: seq<char>, pause: seq<string>, stop: seq<string>)

  /** One look at the stop queue: a value is taken if there is one, and the
      relay stops if it was "stop". */
  function CheckStop(r: Relay): Relay
  {
    if r.stop == [] then r
    else if r.stop[0] == STOP_SIGNAL then r.(stop := r.stop[1..], phase := Stopped)
    else r.(stop := r.stop[1..])
  }

  /** The wait for "resume": every other value on the pause queue is taken and
      discarded; when the queue runs dry the relay is still paused. */
  function AwaitResume(r: Relay): Relay
    decreases |r.pause|
  {
    if r.pause == [] then r.(phase := Paused)
    else if r.pause[0] == RESUME_SIGNAL then r.(pause := r.pause[1..], phase := Reading)
    else AwaitResume(r.(pause := r.pause[1..]))
  }

  /** One look at the pause queue: a value is taken if there is one; "pause"
      starts the wait for "resume", anything else is discarded. */
  function CheckPause(r: Relay): Relay
  {
    if r.pause == [] then r
    else if r.pause[0] == PAUSE_SIGNAL then AwaitResume(r.(pause := r.pause[1..]))
    else r.(pause := r.pause[1..])
  }

  /** One iteration for keystroke `c`: it is queued first, then the pause
      check, then (unless still waiting for "resume") the stop check. */
  function Iterate(r: Relay, c: char): Relay
  {
    var r1 := CheckPause(r.(input := r.input + [c]));
    if r1.phase == Paused then r1 else CheckStop(r1)
  }

  /** A paused relay goes on waiting for "resume" and, once resumed, finishes
      its iteration with the stop check. */
  function Resume(r: Relay): Relay
  {
    var r1 := AwaitResume(r);
    if r1.phase == Paused then r1 else CheckStop(r1)
  }

  /** The relay as it ends up, and how many of the typed keystrokes it read. */
  datatype Relayed = Relayed(after: Relay, read: nat)

  /** The relay over the keystrokes the operator types, with the pause and
      stop queues holding what the relay will find on them. It ends when the
      keystrokes run out, when it stops, or while paused on a dry pause queue. */
  function Run(r: Relay, keys: seq<char>): Relayed
    decreases |keys|, if r.phase == Paused then 1 else 0
  {
    match r.phase
    case Stopped => Relayed(r, 0)
    case Paused =>
      var r1 := Resume(r);
      if r1.phase == Paused then Relayed(r1, 0) else Run(r1, keys)
    case Reading =>
      if keys == [] then Relayed(r, 0)
      else
        var x := Run(Iterate(r, keys[0]), keys[1..]);
        x.(read := x.read + 1)
  }
}

module InputRelayProperties {
  import opened Common
  import opened InputRelay

  /** The position of the first `x` in `s`, or `|s|` when there is none. */
  function IndexOf(s: seq<string>, x: string): (k: nat)
    ensures k <= |s|
    ensures k < |s| ==> s[k] == x
    ensures forall j :: 0 <= j < k ==> s[j] != x
    decreases |s|
  {
    if s == [] || s[0] == x then 0 else 1 + IndexOf(s[1..], x)
  }

  /** Waiting for "resume" discards every value before the first "resume" and
      the "resume" itself, and leaves the rest; without a "resume" it empties
      the pause queue and stays paused. The keystroke and stop queues are
      untouched. */
  lemma {:induction false} PauseDiscardsUntilResume(r: Relay)
    ensures var r' := AwaitResume(r);
      var k := IndexOf(r.pause, RESUME_SIGNAL);
      && r'.input == r.input && r'.stop == r.stop
      && (r'.phase == Reading <==> RESUME_SIGNAL in r.pause)
      && (r'.phase == Reading ==> r'.pause == r.pause[k + 1..])
      && (r'.phase != Reading ==> r'.phase == Paused && r'.pause == [])
    decreases |r.pause|
  {
    if r.pause != [] && r.pause[0] != RESUME_SIGNAL {
      var r1 := r.(pause := r.pause[1..]);
      PauseDiscardsUntilResume(r1);
      assert RESUME_SIGNAL in r.pause <==> RESUME_SIGNAL in r1.pause by {
        assert r.pause == [r.pause[0]] + r1.pause;
      }
    }
  }

  /** A value on the pause queue other than "pause" is taken and discarded;
      the relay keeps reading. */
  lemma NonPauseValueDiscarded(r: Relay)
    requires r.phase == Reading && r.pause != [] && r.pause[0] != PAUSE_SIGNAL
    ensures CheckPause(r) == r.(pause := r.pause[1..])
  {
  }

  /** `t` is what is left of queue `s` after values were taken from its
      front. */
  ghost predicate Drained(t: seq<string>, s: seq<string>)
  {
    |t| <= |s| && t == s[|s| - |t|..]
  }

  lemma DrainedTransitive(a: seq<string>, b: seq<string>, c: seq<string>)
    requires Drained(a, b) && Drained(b, c)
    ensures Drained(a, c)
  {
    assert c[|c| - |b|..][|b| - |a|..] == c[|c| - |a|..];
  }

  /** The pause check touches only the pause queue, from its front, and
      leaves the relay reading unless it began a wait that is still on. */
  lemma CheckPauseTakesFromFront(r: Relay)
    requires r.phase == Reading
    ensures var r' := CheckPause(r);
      && r'.input == r.input && r'.stop == r.stop
      && Drained(r'.pause, r.pause)
      && r'.phase != Stopped
  {
    if r.pause != [] && r.pause[0] == PAUSE_SIGNAL {
      var r1 := r.(pause := r.pause[1..]);
      PauseDiscardsUntilResume(r1);
      DrainedTransitive(AwaitResume(r1).pause, r1.pause, r.pause);
    }
  }

  /** The stop check touches only the stop queue, from its front. */
  lemma CheckStopTakesFromFront(r: Relay)
    ensures var r' := CheckStop(r);
      && r'.input == r.input && r'.pause == r.pause
      && Drained(r'.stop, r.stop)
      && (r'.phase == r.phase || r'.phase == Stopped)
  {
  }

  /** A keystroke is queued before any signal is looked at: whatever the
      iteration does with the pause and stop queues, the keystroke queue grows
      by exactly that key, and the signal queues only lose values from their
      fronts. */
  lemma IterateEnqueuesFirst(r: Relay, c: char)
    requires r.phase == Reading
    ensures var r' := Iterate(r, c);
      && r'.input == r.input + [c]
      && Drained(r'.pause, r.pause)
      && Drained(r'.stop, r.stop)
  {
    var r1 := CheckPause(r.(input := r.input + [c]));
    CheckPauseTakesFromFront(r.(input := r.input + [c]));
    CheckStopTakesFromFront(r1);
  }

  /** The relay stops exactly when the stop check finds "stop" at the front
      of the stop queue, and a stopped relay reads no more keystrokes. */
  lemma StopEndsRelay(r: Relay, keys: seq<char>)
    ensures r.phase == Reading ==>
      (CheckStop(r).phase == Stopped <==> r.stop != [] && r.stop[0] == STOP_SIGNAL)
    ensures r.phase == Stopped ==> Run(r, keys) == Relayed(r, 0)
  {
  }

  /** With no "pause" on the pause queue (the monitor itself never sends one)
      the relay never waits: each iteration takes at most one value from each
      signal queue and ends reading or stopped. */
  lemma {:induction false} NoPauseNoWait(r: Relay, c: char)
    requires r.phase == Reading && PAUSE_SIGNAL !in r.pause
    ensures var r' := Iterate(r, c);
      && r'.phase != Paused
      && r'.pause == (if r.pause == [] then [] else r.pause[1..])
      && r'.stop == (if r.stop == [] then [] else r.stop[1..])
      && PAUSE_SIGNAL !in r'.pause
  {
    if r.pause != [] {
      assert r.pause[0] in r.pause;
    }
  }

  /** Going on with a wait leaves the keystroke queue alone and takes values
      only from the fronts of the signal queues. */
  lemma ResumeTakesFromFront(r: Relay)
    ensures var r' := Resume(r);
      && r'.input == r.input
      && Drained(r'.pause, r.pause)
      && Drained(r'.stop, r.stop)
  {
    var r1 := AwaitResume(r);
    PauseDiscardsUntilResume(r);
    CheckStopTakesFromFront(r1);
  }

  /** The relay queues a prefix of the typed keystrokes, in order, and stops
      reading early only when it has stopped or is waiting for "resume". A
      stopped relay changes nothing. */
  lemma {:induction false} RunEnqueuesPrefix(r: Relay, keys: seq<char>)
    ensures var x := Run(r, keys);
      && x.read <= |keys|
      && x.after.input == r.input + keys[..x.read]
      && (x.read < |keys| ==> x.after.phase != Reading)
      && (r.phase == Stopped ==> x.after == r)
    decreases |keys|, if r.phase == Paused then 1 else 0
  {
    match r.phase
    case Stopped =>
      assert keys[..0] == [];
    case Paused =>
      ResumeTakesFromFront(r);
      if Resume(r).phase == Paused {
        assert keys[..0] == [];
      } else {
        RunEnqueuesPrefix(Resume(r), keys);
      }
    case Reading =>
      if keys == [] {
        assert keys[..0] == [];
      } else {
        var r1 := Iterate(r, keys[0]);
        IterateEnqueuesFirst(r, keys[0]);
        RunEnqueuesPrefix(r1, keys[1..]);
        var x := Run(r1, keys[1..]);
        assert Run(r, keys) == x.(read := x.read + 1);
        assert keys[..x.read + 1] == [keys[0]] + keys[1..][..x.read];
        AppendAssociates(r.input, [keys[0]], keys[1..][..x.read]);
      }
  }

  /** With neither "pause" nor "stop" queued, the relay reads every typed
      keystroke into the keystroke queue, in order, and is still reading when
      they run out. */
  lemma {:induction false} NoSignalsReadsAll(r: Relay, keys: seq<char>)
    requires r.phase == Reading && PAUSE_SIGNAL !in r.pause && STOP_SIGNAL !in r.stop
    ensures var x := Run(r, keys);
      x.read == |keys| && x.after.phase == Reading && x.after.input == r.input + keys
    decreases |keys|
  {
    if keys != [] {
      var r0 := r.(input := r.input + [keys[0]]);
      var r1 := Iterate(r, keys[0]);
      NoPauseNoWait(r, keys[0]);
      CheckPauseTakesFromFront(r0);
      CheckStopTakesFromFront(CheckPause(r0));
      if r.stop != [] {
        assert r.stop == [r.stop[0]] + r.stop[1..];
      }
      NoSignalsReadsAll(r1, keys[1..]);
      var x := Run(r1, keys[1..]);
      assert Run(r, keys) == x.(read := x.read + 1);
      IterateEnqueuesFirst(r, keys[0]);
      AppendAssociates(r.input, [keys[0]], keys[1..]);
      assert [keys[0]] + keys[1..] == keys;
    }
  }

  /** A relay waiting for "resume" on a pause queue that holds none empties
      the queue, reads no keystroke and leaves everything else as it was. */
  lemma PausedWithoutResumeReadsNothing(r: Relay, keys: seq<char>)
    requires r.phase == Paused && RESUME_SIGNAL !in r.pause
    ensures Run(r, keys) == Relayed(r.(pause := []), 0)
  {
    PauseDiscardsUntilResume(r);
  }

  /** A "pause" with no "resume" behind it halts the relay after the keystroke
      that found it: that one keystroke is queued, and a "stop" sent behind
      the pause is never taken from the stop queue. */
  lemma PauseWithoutResumeHoldsStop(r: Relay, keys: seq<char>)
    requires r.phase == Reading && keys != []
    requires r.pause != [] && r.pause[0] == PAUSE_SIGNAL && RESUME_SIGNAL !in r.pause[1..]
    ensures Run(r, keys) == Relayed(r.(input := r.input + [keys[0]], pause := [], phase := Paused), 1)
  {
    var r0 := r.(input := r.input + [keys[0]]);
    PauseDiscardsUntilResume(r0.(pause := r.pause[1..]));
    var r1 := Iterate(r, keys[0]);
    assert r1 == r0.(pause := [], phase := Paused);
    PausedWithoutResumeReadsNothing(r1, keys[1..]);
  }

  /** Over a whole run the signal queues only lose values from their fronts. */
  lemma {:induction false} RunTakesSignalsFromFront(r: Relay, keys: seq<char>)
    ensures var x := Run(r, keys);
      && Drained(x.after.pause, r.pause)
      && Drained(x.after.stop, r.stop)
    decreases |keys|, if r.phase == Paused then 1 else 0
  {
    match r.phase
    case Stopped =>
    case Paused =>
      var r2 := Resume(r);
      ResumeTakesFromFront(r);
      if r2.phase != Paused {
        RunTakesSignalsFromFront(r2, keys);
        var x := Run(r2, keys);
        DrainedTransitive(x.after.pause, r2.pause, r.pause);
        DrainedTransitive(x.after.stop, r2.stop, r.stop);
      }
    case Reading =>
      if keys != [] {
        var r1 := Iterate(r, keys[0]);
        IterateEnqueuesFirst(r, keys[0]);
        RunTakesSignalsFromFront(r1, keys[1..]);
        var x := Run(r1, keys[1..]);
        DrainedTransitive(x.after.pause, r1.pause, r.pause);
        DrainedTransitive(x.after.stop, r1.stop, r.stop);
      }
  }
}
