/** Values shared by every part of the serial monitor model: the escape key,
    the words exchanged on the relay's signal channels, the lines printed to the
    operator, and the part of the monitor object that the main thread changes. */
module Common {

  datatype Option<T> = None | Some(value: T)

  /** The escape key: a keystroke whose ordinal is 27 ends the program. */
  const ESC: char := 27 as char

  /** The values the two signal channels carry. */
  const PAUSE_SIGNAL: string := "pause"
  const RESUME_SIGNAL: string := "resume"
  const STOP_SIGNAL: string := "stop"

  /** The lines printed to the operator; `Text.Render` gives their wording. */
  datatype Message =
    | Opened(port: string)        // "Monitor: Opened <port>"
    | NoPortFound                 // "Couldn't open a serial port" and the retry hint
    | DeviceNotResponding         // "Device Not Responding"
    | DeviceOutput(line: string)  // one line from the device, printed stripped
    | DisconnectedSerial          // "Monitor: Disconnected (Serial exception)"
    | DisconnectedIO              // "Monitor: Disconnected (I/O Error)"
    | InterruptExit               // "Monitor: Keyboard Interrupt. Exiting Now..."

  /** What the main thread reads and changes: the input and stop queues, the
      bound port (by path), every byte written to a port, every line printed,
      and whether the terminal has been restored. */
  datatype MainState = MainState(
    input: seq<char>,
    stop: seq<string>,
    ser: Option<string>,
    written: seq<char>,
    console: seq<Message>,
    cleanedUp: bool)

  /** Concatenation regroups freely. */
  lemma AppendAssociates<T>(a: seq<T>, b: seq<T>, c: seq<T>)
    ensures a + b + c == a + (b + c)
  {
  }
}
