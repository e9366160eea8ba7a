/** The text the monitor prints: Python's `str.strip()` as applied to each
    line from the device, and the wording of every message. */
module Text {
  import opened Common

  /** The characters Python's `str.strip()` removes: those `str.isspace()`
      accepts. */
  predicate IsSpace(c: char) {
    var n := c as int;
    || 0x09 <= n <= 0x0D || 0x1C <= n <= 0x20 || n == 0x85 || n == 0xA0 || n == 0x1680
    || 0x2000 <= n <= 0x200A || n == 0x2028 || n == 0x2029 || n == 0x202F || n == 0x205F || n == 0x3000
  }

  /** `s` without its leading whitespace. */
  function StripStart(s: string): string
    decreases |s|
  {
    if |s| > 0 && IsSpace(s[0]) then StripStart(s[1..]) else s
  }

  /** `s` without its trailing whitespace. */
  function StripEnd(s: string): string
    decreases |s|
  {
    if |s| > 0 && IsSpace(s[|s| - 1]) then StripEnd(s[..|s| - 1]) else s
  }

  /** `str.strip()`: `s` without the whitespace at either end. */
  function Strip(s: string): string
  {
    StripEnd(StripStart(s))
  }

  /** `StripStart` drops exactly the leading whitespace. */
  lemma {:induction false} StripStartDropsLeadingSpace(s: string)
    ensures var r := StripStart(s);
      && |r| <= |s| && r == s[|s| - |r|..]
      && (forall k :: 0 <= k < |s| - |r| ==> IsSpace(s[k]))
      && (r == [] || !IsSpace(r[0]))
    decreases |s|
  {
    if |s| > 0 && IsSpace(s[0]) {
      StripStartDropsLeadingSpace(s[1..]);
    }
  }

  /** `StripEnd` drops exactly the trailing whitespace. */
  lemma {:induction false} StripEndDropsTrailingSpace(s: string)
    ensures var r := StripEnd(s);
      && |r| <= |s| && r == s[..|r|]
      && (forall k :: |r| <= k < |s| ==> IsSpace(s[k]))
      && (r == [] || !IsSpace(r[|r| - 1]))
    decreases |s|
  {
    if |s| > 0 && IsSpace(s[|s| - 1]) {
      StripEndDropsTrailingSpace(s[..|s| - 1]);
    }
  }

  /** What `Strip` keeps is one contiguous part of the line, everything it
      drops before and after that part is whitespace, and what it keeps
      neither starts nor ends with whitespace. */
  lemma StripTrimsWhitespace(s: string)
    ensures var r := Strip(s);
      exists i :: StripsTo(s, i, r)
    ensures var r := Strip(s);
      r == [] || (!IsSpace(r[0]) && !IsSpace(r[|r| - 1]))
  {
    var t := StripStart(s);
    StripStartDropsLeadingSpace(s);
    StripEndDropsTrailingSpace(t);
    var r := StripEnd(t);
    var i := |s| - |t|;
    assert r == s[i..i + |r|] by {
      assert t[..|r|] == s[i..][..|r|];
    }
    assert forall k :: i + |r| <= k < |s| ==> s[k] == t[k - i];
    assert StripsTo(s, i, Strip(s));
  }

  /** `r` is `s` from position `i`, with only whitespace before and after. */
  ghost predicate StripsTo(s: string, i: nat, r: string)
  {
    && i + |r| <= |s| && r == s[i..i + |r|]
    && (forall k :: 0 <= k < i ==> IsSpace(s[k]))
    && (forall k :: i + |r| <= k < |s| ==> IsSpace(s[k]))
  }

  /** Stripping a stripped line changes nothing. */
  lemma StripIdempotent(s: string)
    ensures Strip(Strip(s)) == Strip(s)
  {
    var r := Strip(s);
    StripTrimsWhitespace(s);
    assert StripStart(r) == r;
    assert StripEnd(r) == r;
  }

  /** The text printed for a message. */
  function Render(msg: Message): string
  {
    match msg
    case Opened(port) => "Monitor: Opened " + port + "\r"
    case NoPortFound => "Monitor: Couldn't open a serial port.\nMonitor: Press 'enter' to try again or 'esc' to exit."
    case DeviceNotResponding => "Device Not Responding"
    case DeviceOutput(line) => Strip(line)
    case DisconnectedSerial => "Monitor: Disconnected (Serial exception)"
    case DisconnectedIO => "Monitor: Disconnected (I/O Error)"
    case InterruptExit => "Monitor: Keyboard Interrupt. Exiting Now..."
  }
}
