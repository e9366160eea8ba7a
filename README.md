# Python serial monitor, modelled in Dafny

This project models the core of `python-serial-monitor.py`, a terminal serial monitor. It has four parts.

- **Keyboard relay.** A background thread (`add_input`) forwards every keystroke to an input queue. After each keystroke it looks once at a pause queue and once at a stop queue.
- **Discovery and monitor loop.** The main thread's `run` discovers a port by trying 4 path prefixes × suffixes 0–63 in prefix-major order. When nothing opens, it prints a prompt and takes one keystroke. ESC puts "stop", restores the terminal and exits with status 1. Any other key rescans. It then runs the monitor loop on the bound port:
  - take at most one queued keystroke and write it;
  - ESC then exits the same way;
  - read one line: an empty line prints "Device Not Responding" and returns, a failed read raises, any other line is printed stripped.
- **Supervisor.** The top-level loop calls `run` again after a normal return, a serial exception or an I/O error. A keyboard interrupt is reported and ends the program with status 1.
- **The monitor object.** `SerialMonitor` is a class whose fields are the three queues, the relay's phase, the bound port, the bytes written, the lines printed and the terminal mode. A ghost field `attempts` logs every path an open was tried on, so the model can state that a scan tries nothing after the port it binds.

The specification functions are pure functions over values:
- `Discovery.DiscoverFrom`
- `MonitorLoop.Loop`
- `InputRelay.Run`
- `Supervisor.Run`
- `Supervisor.Supervise`

The lemmas beside them state what the program promises. The class's methods are the imperative version, with the same loops as the source. Each method is proved to leave the object in the state its specification function gives.

The world outside the program is a set of parameters:
- Which paths open in each scan round is an oracle `canOpen(round, path)`.
- What the port does in each monitor iteration is a `Tick`: whether the write raises, and what the read gives.
- What the operator types is a sequence of characters.

The program loops forever. The model runs these loops over finite traces, so three markers say "still running when the trace ran out": `AwaitingKey`, `Continue` and `StillRunning`.

## Model

| member | source | states |
|---|---|---|
| Numerals.Decimal | python-serial-monitor.py:84 | `str(i)` of a suffix: only digits, one digit exactly below 10, no leading zero |
| Numerals.ParseDecimalInverts | python-serial-monitor.py:84 | reading the numeral of `i` back gives `i` |
| Numerals.DecimalInjective | python-serial-monitor.py:84 | different suffixes give different numerals |
| Discovery.CandidateAt | python-serial-monitor.py:75-84 | the path tried at position `p*64+i` is prefix `p` followed by the numeral of `i` (prefix-major, suffix-minor) |
| Discovery.LastPrefixCandidates | python-serial-monitor.py:75-84 | positions 192 and 255 are `/dev/tty.usbmodem12340` and `/dev/tty.usbmodem123463` |
| Discovery.CandidatesDistinct | python-serial-monitor.py:75-84 | no path is tried twice in one scan |
| Discovery.FirstOpenable | python-serial-monitor.py:82-90 | the position found opens and every earlier path fails; nothing is found exactly when every path fails |
| Discovery.FirstOpenableIsUnique | python-serial-monitor.py:82-90 | a path that opens, with every earlier path failing, is the one found |
| Discovery.Candidate | python-serial-monitor.py:84 | the path `baseport + str(i)` for prefix `p` and suffix `i`; specified by `CandidateAt` and `CandidatesDistinct` |
| Discovery.Candidates | python-serial-monitor.py:75-84 | the 256 paths of one scan in the order tried; specified by `CandidateAt`, `CandidatesDistinct` and `LastPrefixCandidates` |
| Discovery.OpeningSuffix | python-serial-monitor.py:82-87 | the inner loop's stopping point: the first suffix of one prefix whose path opens, or none; specified by `OpeningSuffixIsFirst` |
| Discovery.OpeningSuffixIsFirst | python-serial-monitor.py:82-87 | the suffix found opens and every smaller suffix fails; nothing is found exactly when no suffix of the prefix opens |
| Discovery.ScanTried | python-serial-monitor.py:78-90 | the paths one scan tries, in order: `TriedFrom(canOpen, round, 0)`, where `TriedFrom(canOpen, round, p)` is what the rest of the outer loop over prefixes tries from prefix `p` on (the whole prefix if none of its paths opens, else its paths up to the first that opens, and then stop); `ScanStopsAtFirstOpen` equates them with the candidates up to the first that opens |
| Discovery.TriedPastFailingPrefix | python-serial-monitor.py:79-90 | a prefix none of whose 64 paths opens is tried in full and the scan goes on to the next prefix |
| Discovery.TriedUpToOpeningSuffix | python-serial-monitor.py:82-87 | within a prefix the scan tries suffixes up to the first that opens and no further |
| Discovery.TriedAfterFailedPrefixes | python-serial-monitor.py:78-90 | once the earlier prefixes failed, the paths tried so far and those still to come are the candidates up to and including the first that opens, or all of them |
| Discovery.ScanStopsAtFirstOpen | python-serial-monitor.py:78-90 | a scan tries the candidates in order up to and including the first that opens and none after it; when none opens it tries all 256 |
| Discovery.ScanResult | python-serial-monitor.py:78-90 | the port one scan binds: the first candidate that opens, or none; specified by `ScanBindsFirstOpenable`, `ScanFindsInPrefixOrder` and `ScanFindsNothing` |
| Discovery.Scans | python-serial-monitor.py:78-90 | `ScanResult` for every scan round, as the oracle the discovery and supervisor functions take |
| Discovery.ScanFindsInPrefixOrder | python-serial-monitor.py:79-90 | a scan binds prefix `p` suffix `i` when that path opens and all earlier prefixes and smaller suffixes fail |
| Discovery.ScanFindsNothing | python-serial-monitor.py:79-92 | a scan binds nothing when every prefix/suffix fails |
| Discovery.DiscoverFrom | python-serial-monitor.py:76-104 | discovery from scan round `round`: scan, then bind, or prompt and take one key; specified by `DiscoveryRetriesInOrder`, `DiscoveryBindsLastScan`, `DiscoveryEscapeExits`, `DiscoveryAwaitsKeystroke` and `DiscoverySignalsStopOnlyOnEscape` |
| DiscoveryProperties.ScanBindsFirstOpenable | python-serial-monitor.py:78-90 | a scan binds the first candidate that opens, and binds nothing only if none opens |
| DiscoveryProperties.OnlyOpenablePortIsBound | python-serial-monitor.py:76-90 | when exactly one path can open, discovery binds it in the first scan wherever it stands in the order |
| DiscoveryProperties.DiscoverAfterFailedScan | python-serial-monitor.py:92-104 | one-step unfolding of `DiscoverFrom` (the closed-form promises are `DiscoveryRetriesInOrder`, `DiscoveryEscapeExits` and `DiscoveryAwaitsKeystroke`): after a failed scan the prompt is printed; no key leaves discovery waiting, ESC exits with "stop" sent and the terminal restored, any other key rescans |
| DiscoveryProperties.DiscoverRetries | python-serial-monitor.py:102-104 | one-step unfolding of `DiscoverFrom` (closed form: `DiscoveryRetriesInOrder`): a non-ESC answer leads to the next scan with the key taken and the prompt printed |
| DiscoveryProperties.DiscoveryRetriesInOrder | python-serial-monitor.py:78-104 | every scan before the last failed and was answered by a non-ESC key, in queue order; nothing is written; discovery ends bound exactly when its last scan bound |
| DiscoveryProperties.DiscoveryBindsLastScan | python-serial-monitor.py:78-90 | a bound discovery holds the last scan's port, took one key and printed one prompt per earlier scan, and announced the port |
| DiscoveryProperties.DiscoveryEscapeExits | python-serial-monitor.py:96-101 | discovery exits only when the key after the answered ones is ESC; "stop" is put, the terminal restored, no port bound |
| DiscoveryProperties.DiscoveryAwaitsKeystroke | python-serial-monitor.py:95-97 | discovery waits only once every queued key has answered a failed scan |
| DiscoveryProperties.DiscoverySignalsStopOnlyOnEscape | python-serial-monitor.py:98-100 | only the ESC exit puts "stop" and restores the terminal |
| MonitorLoop.Step | python-serial-monitor.py:108-129 | one monitor iteration; specified by `StepSummary` and `StepConsole`, and over whole loops by the `Loop…` lemmas |
| MonitorLoop.Loop | python-serial-monitor.py:108-129 | the monitor loop over a trace of ticks; specified by `LoopTakesOneKeyPerIteration`, `LoopWritesTakenKeys`, `LoopEscapeExits`, `LoopSignalsStopOnlyOnEscape`, `LoopReadsLines`, `LoopPrintsDeviceLines`, `KeystrokesReachPortInOrder` and `SilentDeviceEndsSession` |
| MonitorLoopProperties.StepSummary | python-serial-monitor.py:109-115 | one-step unfolding of `Step` (closed forms: `LoopTakesOneKeyPerIteration`, `LoopWritesTakenKeys`, `LoopEscapeExits`): one iteration takes the head of a non-empty queue and writes it unless the write raises; only a written ESC sends "stop" and restores the terminal |
| MonitorLoopProperties.StepConsole | python-serial-monitor.py:118-129 | one-step unfolding of `Step` (closed forms: `LoopReadsLines`, `LoopPrintsDeviceLines`): an iteration that reads: non-empty line printed and loop goes on, empty line prints "Device Not Responding" and returns, failed read raises I/O error |
| MonitorLoopProperties.LoopTakesOneKeyPerIteration | python-serial-monitor.py:108-110 | keys leave the queue in order, one per iteration while any is queued |
| MonitorLoopProperties.LoopWritesTakenKeys | python-serial-monitor.py:109-111 | the keys taken are written in order, except a last one whose write raised |
| MonitorLoopProperties.LoopEscapeExits | python-serial-monitor.py:112-115 | the loop exits only right after writing ESC, with no read in that iteration; no earlier key was ESC |
| MonitorLoopProperties.LoopSignalsStopOnlyOnEscape | python-serial-monitor.py:112-115 | only the ESC exit puts "stop" and restores the terminal; the port binding never changes |
| MonitorLoopProperties.LoopReadsLines | python-serial-monitor.py:119-126 | every iteration that went on read a non-empty line; a silent end was an empty read |
| MonitorLoopProperties.LoopPrintsDeviceLines | python-serial-monitor.py:119-126 | the lines read are printed in order, plus "Device Not Responding" on a silent end, and nothing else |
| MonitorLoopProperties.KeystrokesReachPortInOrder | python-serial-monitor.py:108-126 | with no ESC and a healthy port, every queued key is written in order, one per iteration |
| MonitorLoopProperties.SilentDeviceEndsSession | python-serial-monitor.py:119-123 | an empty read ends the session normally with "Device Not Responding" |
| Text.Strip | python-serial-monitor.py:126 | `strip()` of a device line; specified by `StripTrimsWhitespace` and `StripIdempotent` |
| Text.Render | python-serial-monitor.py:86-141 | the wording of each printed message (lines 86, 93-94, 122, 126, 137, 139, 141); a device line is printed through `Strip` |
| Text.StripTrimsWhitespace | python-serial-monitor.py:126 | a printed line is a contiguous part of the line read, only whitespace is dropped around it, and it neither starts nor ends with whitespace |
| Text.StripIdempotent | python-serial-monitor.py:126 | stripping twice is stripping once |
| InputRelay.CheckPause | python-serial-monitor.py:63-68 | one look at the pause queue; specified by `CheckPauseTakesFromFront`, `NonPauseValueDiscarded` and `NoPauseNoWait` |
| InputRelay.AwaitResume | python-serial-monitor.py:65-68 | the wait for "resume"; specified by `PauseDiscardsUntilResume` |
| InputRelay.CheckStop | python-serial-monitor.py:69-71 | one look at the stop queue; specified by `CheckStopTakesFromFront` and `StopEndsRelay` |
| InputRelay.Iterate | python-serial-monitor.py:62-71 | one relay iteration; specified by `IterateEnqueuesFirst` and `NoPauseNoWait` |
| InputRelay.Resume | python-serial-monitor.py:65-71 | a wait going on, then the stop check; specified by `ResumeTakesFromFront` |
| InputRelay.Run | python-serial-monitor.py:60-71 | the relay over the typed keys; specified by `RunEnqueuesPrefix`, `RunTakesSignalsFromFront`, `NoSignalsReadsAll`, `PausedWithoutResumeReadsNothing` and `PauseWithoutResumeHoldsStop` |
| InputRelayProperties.PauseDiscardsUntilResume | python-serial-monitor.py:65-68 | the wait discards every value before the first "resume" and the "resume" itself; with no "resume" it drains the queue and stays paused |
| InputRelayProperties.NonPauseValueDiscarded | python-serial-monitor.py:63-64 | one-step unfolding of `CheckPause` (closed form over a run: `RunTakesSignalsFromFront`): a pause-queue value other than "pause" is taken and dropped |
| InputRelayProperties.CheckPauseTakesFromFront | python-serial-monitor.py:63-68 | the pause check only takes from the front of the pause queue and never stops the relay |
| InputRelayProperties.CheckStopTakesFromFront | python-serial-monitor.py:69-71 | the stop check only takes from the front of the stop queue |
| InputRelayProperties.IterateEnqueuesFirst | python-serial-monitor.py:62-71 | each iteration queues exactly its keystroke; the signal queues only lose values from their fronts |
| InputRelayProperties.StopEndsRelay | python-serial-monitor.py:69-71 | one-step unfolding of `CheckStop` and `Run` (closed forms: `RunEnqueuesPrefix`, `NoSignalsReadsAll`): the relay stops exactly when "stop" is at the front of the stop queue, and then reads no more |
| InputRelayProperties.NoPauseNoWait | python-serial-monitor.py:63-71 | with no "pause" queued the relay never waits and takes at most one value per signal queue per key |
| InputRelayProperties.ResumeTakesFromFront | python-serial-monitor.py:65-71 | continuing a wait leaves the input queue alone and takes only from the signal queues' fronts |
| InputRelayProperties.RunEnqueuesPrefix | python-serial-monitor.py:60-71 | the relay queues a prefix of the typed keys in order, stopping early only when stopped or waiting |
| InputRelayProperties.RunTakesSignalsFromFront | python-serial-monitor.py:60-71 | over a whole run the signal queues only lose values from their fronts |
| InputRelayProperties.NoSignalsReadsAll | python-serial-monitor.py:60-71 | with neither "pause" nor "stop" queued, every typed key is queued, in order, and the relay is still reading |
| InputRelayProperties.PausedWithoutResumeReadsNothing | python-serial-monitor.py:65-68 | a relay waiting on a pause queue with no "resume" empties it, reads no key and changes nothing else |
| InputRelayProperties.PauseWithoutResumeHoldsStop | python-serial-monitor.py:62-71 | a "pause" with no "resume" behind it halts the relay after one key, and a "stop" behind it stays on the stop queue |
| Supervisor.Classify | python-serial-monitor.py:133-142 | serial exception and I/O error restart with their disconnect message, a normal return restarts silently, an interrupt ends with status 1 and its message, an exit keeps its status |
| Supervisor.Run | python-serial-monitor.py:73-129 | one call of `run`: discovery, then the monitor loop on the bound port; specified by `RunExitsOnlyOnEscape` |
| Supervisor.Supervise | python-serial-monitor.py:133-142 | the top-level loop over a trace of sessions; specified by `SuperviseRetriesWithoutLimit`, `SuperviseRestoresTerminalOnlyOnExit`, `InterruptSkipsCleanup` and `InterruptReported` |
| SupervisorProperties.SuperviseGoesOnFromAttended | python-serial-monitor.py:133-142 | the state one pass leaves (`Supervisor.Attended`: the run's state plus the handler's report, none while the run is still at work) is where the top-level loop goes on after a restart, and where it ends, with that run's end last, after a termination or while waiting |
| SupervisorProperties.SuperviseUnfolds | python-serial-monitor.py:133-142 | one-step unfolding of `Supervise` (closed forms: `SuperviseRetriesWithoutLimit`, `SuperviseRestoresTerminalOnlyOnExit`, `InterruptSkipsCleanup`): one pass of the top-level loop: restart, terminate or keep waiting, as the run's end says |
| SupervisorProperties.RunExitsOnlyOnEscape | python-serial-monitor.py:73-129 | `run` exits only with status 1 after sending "stop" and restoring the terminal; a return or exception comes after a port was bound |
| SupervisorProperties.SuperviseRetriesWithoutLimit | python-serial-monitor.py:133-142 | `run` is called again after every return, serial exception and I/O error, with no limit; the program ends only with status 1 |
| SupervisorProperties.SuperviseRestoresTerminalOnlyOnExit | python-serial-monitor.py:133-142 | the terminal is restored and "stop" sent exactly when the program ended by an exit from inside `run` |
| SupervisorProperties.InterruptSkipsCleanup | python-serial-monitor.py:140-142 | a keyboard interrupt ends with status 1, its message printed last, and the terminal not restored |
| SupervisorProperties.InterruptReported | python-serial-monitor.py:140-141 | a keyboard interrupt's message is the last line printed |
| Monitor.SerialMonitor.constructor | python-serial-monitor.py:16-40 | three empty queues, no port, terminal in character mode, relay reading |
| Monitor.SerialMonitor.CleanUp | python-serial-monitor.py:55-58 | restores the terminal and changes nothing else; the open-attempt log is unchanged |
| Monitor.SerialMonitor.TryPrefix | python-serial-monitor.py:82-90 | suffixes of one prefix in order until one opens, each path logged in `attempts` as it is tried and none after the one that opened; the port is announced; nothing else changes |
| Monitor.SerialMonitor.ScanPrefix | python-serial-monitor.py:79-90 | one prefix of a scan whose earlier prefixes failed: binds the scan's port, or logs the whole prefix and goes on, as `TriedFrom` gives |
| Monitor.SerialMonitor.Scan | python-serial-monitor.py:79-90 | binds exactly `Scans(canOpen)(round)`, that is `ScanResult(canOpen, round)`, announcing it; the paths it tries are `ScanTried`, so by `ScanStopsAtFirstOpen` none after the bound one |
| Monitor.SerialMonitor.Prompt | python-serial-monitor.py:92-104 | prints the prompt, then takes one key: ESC sends "stop", restores the terminal and exits; other keys ask for a rescan; the open-attempt log is unchanged |
| Monitor.SerialMonitor.PromptRetry | python-serial-monitor.py:92-104 | the prompt after a scan round that found nothing is discovery's next step: it ends discovery as `DiscoverFrom` says, or, for a queued key other than ESC, prints "No port found", takes that key and leaves exactly the state from which `DiscoverFrom` goes on with the next round |
| Monitor.SerialMonitor.DiscoverRound | python-serial-monitor.py:78-104 | one scan and prompt, ending discovery as `DiscoverFrom` says, or, when the scan found nothing and the first queued key is not ESC, leading to the next round in exactly the state that round starts from: "No port found" printed and that key taken; exactly the paths its scan tried (`ScanTried`) are added to the open-attempt log |
| Monitor.SerialMonitor.Discover | python-serial-monitor.py:76-104 | forgets any port, then ends in the outcome and state `DiscoverFrom` gives; earlier entries of the open-attempt log are kept |
| Monitor.SerialMonitor.Monitor | python-serial-monitor.py:108-129 | ends in the outcome, iteration count and state `Loop` gives; the open-attempt log is unchanged |
| Monitor.SerialMonitor.Run | python-serial-monitor.py:73-129 | one call of `run` ends as `Supervisor.Run` gives; the relay's state is untouched; earlier entries of the open-attempt log are kept |
| Monitor.SerialMonitor.AwaitResume | python-serial-monitor.py:65-68 | the relay's wait ends as `InputRelay.AwaitResume` gives; when still waiting the pause queue is empty; the open-attempt log is unchanged |
| Monitor.SerialMonitor.CheckStop | python-serial-monitor.py:69-71 | the stop check ends as `InputRelay.CheckStop` gives; the open-attempt log is unchanged |
| Monitor.SerialMonitor.Resume | python-serial-monitor.py:65-71 | a waiting relay goes on as `InputRelay.Resume` gives; the open-attempt log is unchanged |
| Monitor.SerialMonitor.RelayStep | python-serial-monitor.py:62-71 | one relay iteration ends as `InputRelay.Iterate` gives; the open-attempt log is unchanged |
| Monitor.SerialMonitor.AddInput | python-serial-monitor.py:60-71 | the relay over the typed keys ends as `InputRelay.Run` gives, with the same count of keys read; the open-attempt log is unchanged |
| Monitor.SerialMonitor.Print | python-serial-monitor.py:137-141 | appends one message to what was printed; the open-attempt log is unchanged |
| Monitor.Attend | python-serial-monitor.py:134-141 | calls `run` and prints the handler's report for how it ended: its end is `Run`'s, its new state `Attended`; the relay's phase and pause queue are untouched |
| Monitor.SuperviseOnce | python-serial-monitor.py:133-141 | one pass of the top-level loop is the first step of `Supervise`: it leaves the state `Attended`, from which `Supervise` goes on after a restart and in which it ends otherwise; the relay's phase and pause queue are untouched |
| Monitor.MainLoop | python-serial-monitor.py:131-142 | the top-level loop ends with the status, run ends and state `Supervise` gives; the relay's phase and pause queue are untouched |

## Behaviour of the code worth noting

- **Stripping.** A device line is printed with `strip()`, which trims whitespace at both ends (`Text.Strip`).
- **Terminal restore.** The keyboard-interrupt handler exits without calling `cleanUp`, so the terminal mode is left as the monitor set it (`SupervisorProperties.InterruptSkipsCleanup`).
- **Errors in the monitor loop.** The write is outside the `try`. A write failure reaches the top-level loop as a serial exception and is reported as "Disconnected (Serial exception)". A read failure, including pyserial's `SerialException`, which is a kind of `IOError`, is caught and re-raised as a plain `IOError`. It is therefore reported as "Disconnected (I/O Error)".
- **Normal return.** After `run` returns because the device went silent, the top-level loop prints nothing more and calls `run` again.
- **Queue bound.** The three queues are `queue.Queue()` with no bound.
- **Keys on the Unix branch.** The model's write path follows the Windows branch, where `msvcrt.getch` returns a one-byte `bytes` value that `ser.write` accepts. On the Unix branch under Python 3, `getch` returns a `str` (line 47), and pyserial's `write` rejects a `str` with a `TypeError` (line 111). No handler at lines 136-142 catches a `TypeError`. So on Unix the first key typed while the monitor loop runs ends the program with a traceback, and the ESC exit at lines 112-115 is never reached there. Discovery's prompt (lines 96-101) does not write and behaves the same on both branches.

## Left out

- The terminal is not modelled (`getch` on either branch, `msvcrt`, `tty`/`termios` modes). Only one thing is kept: whether `cleanUp` has been called (`cleanedUp`). On the Unix branch that call restores the saved mode; on Windows it does nothing.
- Threads are not modelled. The relay (`AddInput`) and the main thread are modelled separately, each over the queue contents it finds. Interleavings between them, including a key typed just before "stop" is seen, are not modelled.
- Busy-waiting is not modelled. Two loops spin on an empty queue: the relay's wait for "resume" (lines 65-68) and the retry prompt (lines 95-97). The model stops there in a waiting state (`Paused`, `AwaitingKey`).
- Nothing in the code puts to the pause queue. The model lets it hold any values, so the wait logic is still covered.
- `flushInput` (line 106) is not modelled. What each read gives is described by the trace, after the flush.
- Baud rate and read timeout are not modelled: they only configure pyserial. A read timeout with no data is an empty read in the trace.
- The serial library is not modelled (how pyserial opens, writes and reads). Opening is the oracle `canOpen`. A written key is recorded as the character, as on the Windows branch. The Unix branch's `TypeError` on the first write (see above) is not modelled.
- UTF-8 decoding of a device line (line 126) is not modelled. A line is a sequence of characters, and a `UnicodeDecodeError` is not modelled.
- The bare `except:` around opening (lines 88-90) catches every exception, including a keyboard interrupt. It is modelled only as a path that fails to open.
- A keyboard interrupt is modelled only while the monitor loop reads (`ReadInterrupted`), not during a scan, a prompt or a write.
- The program loops forever, but the model uses finite traces of keystrokes, scan rounds, ticks and sessions. A trace that runs out is reported as still running.
- `sys.exit` is modelled as ending the program with its status. No handler catches it.
