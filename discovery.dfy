/** Port discovery: the candidate device paths, the scan that binds the first
    one that opens, and the retry prompt that follows a scan where none opens.
    Whether a path opens is an oracle `canOpen(round, path)`: the devices that
    can be opened may change from one scan round to the next. */
module Discovery {
  import opened Common
  import opened Numerals

  /** The device path prefixes, in the order they are tried. */
  const BASE_PORTS: seq<string> := ["/dev/ttyUSB", "/dev/ttyACM", "COM", "/dev/tty.usbmodem1234"]

  /** Each prefix is tried with the suffixes 0 to 63. */
  const SUFFIX_COUNT: nat := 64

  const CANDIDATE_COUNT: nat := 256

  /** The path tried for prefix `p` and suffix `i`. */
  function Candidate(p: nat, i: nat): string
    requires p < |BASE_PORTS|
  {
    BASE_PORTS[p] + Decimal(i)
  }

  /** Every path one scan tries, in the order it tries them. */
  function Candidates(): (c: seq<string>)
    ensures |c| == |BASE_PORTS| * SUFFIX_COUNT == CANDIDATE_COUNT
  {
    seq(CANDIDATE_COUNT, k requires 0 <= k < CANDIDATE_COUNT =>
      Candidate(k / SUFFIX_COUNT, k % SUFFIX_COUNT))
  }

  /** The paths of prefix `p` with suffixes 0 to `n - 1`, in the order they
      are tried. */
  function PrefixPaths(p: nat, n: nat): (s: seq<string>)
    requires p < |BASE_PORTS|
    ensures |s| == n && forall j :: 0 <= j < n ==> s[j] == Candidate(p, j)
  {
    seq(n, j requires 0 <= j < n => Candidate(p, j))
  }

  /** Trying one more suffix appends its path. */
  lemma PrefixPathsGrow(p: nat, n: nat)
    requires p < |BASE_PORTS|
    ensures PrefixPaths(p, n + 1) == PrefixPaths(p, n) + [Candidate(p, n)]
  {
  }

  /** The paths of prefixes `0..p-1`, all suffixes, in the order they are
      tried. */
  function PrefixesPaths(p: nat): (s: seq<string>)
    requires p <= |BASE_PORTS|
  {
    if p == 0 then [] else PrefixesPaths(p - 1) + PrefixPaths(p - 1, SUFFIX_COUNT)
  }

  /** The first position from `from` below `bound` at which `ok` holds. */
  function FirstFrom(ok: nat -> bool, from: nat, bound: nat): Option<nat>
    decreases bound - from
  {
    if from >= bound then None
    else if ok(from) then Some(from)
    else FirstFrom(ok, from + 1, bound)
  }

  /** The search returns a position where `ok` holds with no earlier such
      position, and returns nothing exactly when there is no such position. */
  lemma {:induction false} FirstFromIsFirst(ok: nat -> bool, from: nat, bound: nat)
    ensures var r := FirstFrom(ok, from, bound);
      && (r.Some? ==> from <= r.value < bound && ok(r.value) && forall j :: from <= j < r.value ==> !ok(j))
      && (r.None? <==> forall j :: from <= j < bound ==> !ok(j))
    decreases bound - from
  {
    if from < bound && !ok(from) {
      FirstFromIsFirst(ok, from + 1, bound);
    }
  }

  /** The first suffix whose path under prefix `p` opens. */
  function OpeningSuffix(canOpen: (nat, string) -> bool, round: nat, p: nat): Option<nat>
    requires p < |BASE_PORTS|
  {
    FirstFrom((i: nat) => canOpen(round, Candidate(p, i)), 0, SUFFIX_COUNT)
  }

  /** The suffix search finds the first suffix whose path opens, and nothing
      when no path of the prefix opens. */
  lemma OpeningSuffixIsFirst(canOpen: (nat, string) -> bool, round: nat, p: nat)
    requires p < |BASE_PORTS|
    ensures var r := OpeningSuffix(canOpen, round, p);
      && (r.Some? ==> && r.value < SUFFIX_COUNT && canOpen(round, Candidate(p, r.value))
                      && forall j :: 0 <= j < r.value ==> !canOpen(round, Candidate(p, j)))
      && (r.None? <==> forall j :: 0 <= j < SUFFIX_COUNT ==> !canOpen(round, Candidate(p, j)))
  {
    var ok := (i: nat) => canOpen(round, Candidate(p, i));
    FirstFromIsFirst(ok, 0, SUFFIX_COUNT);
    var r := OpeningSuffix(canOpen, round, p);
    assert r == FirstFrom(ok, 0, SUFFIX_COUNT);
    assert forall j: nat :: ok(j) == canOpen(round, Candidate(p, j));
  }

  /** The paths a scan tries from prefix `p` on: within a prefix every suffix
      in turn until one opens, which ends the scan, and on to the next prefix
      only when none of them does. */
  function TriedFrom(canOpen: (nat, string) -> bool, round: nat, p: nat): seq<string>
    requires p <= |BASE_PORTS|
    decreases |BASE_PORTS| - p
  {
    if p == |BASE_PORTS| then []
    else match OpeningSuffix(canOpen, round, p)
      case Some(i) => PrefixPaths(p, i + 1)
      case None => PrefixPaths(p, SUFFIX_COUNT) + TriedFrom(canOpen, round, p + 1)
  }

  /** The paths one scan tries, in order. */
  function ScanTried(canOpen: (nat, string) -> bool, round: nat): seq<string>
  {
    TriedFrom(canOpen, round, 0)
  }

  /** A prefix none of whose paths opens is tried in full, and the scan goes
      on to the next prefix. */
  lemma TriedPastFailingPrefix(canOpen: (nat, string) -> bool, round: nat, p: nat)
    requires p < |BASE_PORTS|
    requires forall j :: 0 <= j < SUFFIX_COUNT ==> !canOpen(round, Candidate(p, j))
    ensures TriedFrom(canOpen, round, p) == PrefixPaths(p, SUFFIX_COUNT) + TriedFrom(canOpen, round, p + 1)
  {
    OpeningSuffixIsFirst(canOpen, round, p);
  }

  /** Within a prefix, the scan stops at the first suffix that opens. */
  lemma TriedUpToOpeningSuffix(canOpen: (nat, string) -> bool, round: nat, p: nat, i: nat)
    requires p < |BASE_PORTS| && i < SUFFIX_COUNT && canOpen(round, Candidate(p, i))
    requires forall j :: 0 <= j < i ==> !canOpen(round, Candidate(p, j))
    ensures TriedFrom(canOpen, round, p) == PrefixPaths(p, i + 1)
  {
    OpeningSuffixIsFirst(canOpen, round, p);
  }

  /** The candidates before prefix `p` followed by the first `n` paths of
      prefix `p` are the candidates up to position `p * 64 + n`. */
  lemma CandidatesUpTo(p: nat, n: nat)
    requires p < |BASE_PORTS| && n <= SUFFIX_COUNT
    ensures p * SUFFIX_COUNT + n <= CANDIDATE_COUNT
    ensures Candidates()[..p * SUFFIX_COUNT + n] == Candidates()[..p * SUFFIX_COUNT] + PrefixPaths(p, n)
  {
    var c := Candidates();
    var b := p * SUFFIX_COUNT;
    var t := PrefixPaths(p, n);
    forall j | 0 <= j < n
      ensures c[b + j] == t[j]
    {
      CandidateAt(p, j);
    }
    assert c[..b + n] == c[..b] + t;
  }

  /** The paths of the prefixes before `p` are the candidates before position
      `p * 64`. */
  lemma {:induction false} PrefixesPathsAreCandidates(p: nat)
    requires p <= |BASE_PORTS|
    ensures p * SUFFIX_COUNT <= CANDIDATE_COUNT
    ensures PrefixesPaths(p) == Candidates()[..p * SUFFIX_COUNT]
  {
    if p > 0 {
      PrefixesPathsAreCandidates(p - 1);
      CandidatesUpTo(p - 1, SUFFIX_COUNT);
      assert (p - 1) * SUFFIX_COUNT + SUFFIX_COUNT == p * SUFFIX_COUNT;
    }
  }

  /** The candidate at position `p * 64 + i` is prefix `p` followed by the
      numeral of `i`: prefix-major, suffix-minor order. */
  lemma CandidateAt(p: nat, i: nat)
    requires p < |BASE_PORTS| && i < SUFFIX_COUNT
    ensures p * SUFFIX_COUNT + i < CANDIDATE_COUNT
    ensures Candidates()[p * SUFFIX_COUNT + i] == Candidate(p, i)
  {
    var k := p * SUFFIX_COUNT + i;
    assert k / SUFFIX_COUNT == p && k % SUFFIX_COUNT == i;
  }

  /** The first candidates of the last prefix. */
  lemma LastPrefixCandidates()
    ensures Candidates()[192] == "/dev/tty.usbmodem12340"
    ensures Candidates()[255] == "/dev/tty.usbmodem123463"
  {
    CandidateAt(3, 0);
    CandidateAt(3, 63);
    assert Decimal(63) == "63";
  }

  /** A position at which two different prefixes hold different characters. */
  function DistinguishingIndex(p: nat, q: nat): (x: nat)
    requires p < |BASE_PORTS| && q < |BASE_PORTS| && p != q
    ensures x < |BASE_PORTS[p]| && x < |BASE_PORTS[q]|
    ensures BASE_PORTS[p][x] != BASE_PORTS[q][x]
  {
    if p == 2 || q == 2 then 0 else 8
  }

  /** No path is tried twice in one scan. */
  lemma CandidatesDistinct(j: nat, k: nat)
    requires j < k < CANDIDATE_COUNT
    ensures Candidates()[j] != Candidates()[k]
  {
    var p, i := j / SUFFIX_COUNT, j % SUFFIX_COUNT;
    var q, l := k / SUFFIX_COUNT, k % SUFFIX_COUNT;
    CandidateAt(p, i);
    CandidateAt(q, l);
    if p == q {
      var n := |BASE_PORTS[p]|;
      if Candidates()[j] == Candidates()[k] {
        assert Decimal(i) == Candidates()[j][n..];
        assert Decimal(l) == Candidates()[k][n..];
        DecimalInjective(i, l);
      }
    } else {
      var x := DistinguishingIndex(p, q);
      assert Candidates()[j][x] == BASE_PORTS[p][x];
      assert Candidates()[k][x] == BASE_PORTS[q][x];
    }
  }

  /** The position of the first path in `paths` that opens in scan `round`. */
  function FirstOpenable(paths: seq<string>, canOpen: (nat, string) -> bool, round: nat): (r: Option<nat>)
    ensures r.Some? ==> r.value < |paths| && canOpen(round, paths[r.value])
    ensures r.Some? ==> forall k :: 0 <= k < r.value ==> !canOpen(round, paths[k])
    ensures r.None? <==> forall k :: 0 <= k < |paths| ==> !canOpen(round, paths[k])
    decreases |paths|
  {
    if paths == [] then None
    else if canOpen(round, paths[0]) then Some(0)
    else match FirstOpenable(paths[1..], canOpen, round)
      case None => None
      case Some(k) => Some(k + 1)
  }

  /** A path that opens, with every earlier one failing, is the one found. */
  lemma FirstOpenableIsUnique(paths: seq<string>, canOpen: (nat, string) -> bool, round: nat, k: nat)
    requires k < |paths| && canOpen(round, paths[k])
    requires forall j :: 0 <= j < k ==> !canOpen(round, paths[j])
    ensures FirstOpenable(paths, canOpen, round) == Some(k)
  {
    var r := FirstOpenable(paths, canOpen, round);
    assert r.Some? && canOpen(round, paths[r.value]);
  }

  /** The path one scan binds, if any. */
  function ScanResult(canOpen: (nat, string) -> bool, round: nat): Option<string>
  {
    match FirstOpenable(Candidates(), canOpen, round)
    case None => None
    case Some(k) => Some(Candidates()[k])
  }

  /** A scan binds prefix `p` with suffix `i` when that path opens and every
      path tried before it fails: every suffix of an earlier prefix, and the
      smaller suffixes of prefix `p`. */
  lemma ScanFindsInPrefixOrder(canOpen: (nat, string) -> bool, round: nat, p: nat, i: nat)
    requires p < |BASE_PORTS| && i < SUFFIX_COUNT && canOpen(round, Candidate(p, i))
    requires forall q, j :: 0 <= q < p && 0 <= j < SUFFIX_COUNT ==> !canOpen(round, Candidate(q, j))
    requires forall j :: 0 <= j < i ==> !canOpen(round, Candidate(p, j))
    ensures p * SUFFIX_COUNT + i < CANDIDATE_COUNT
    ensures FirstOpenable(Candidates(), canOpen, round) == Some(p * SUFFIX_COUNT + i)
    ensures ScanResult(canOpen, round) == Some(Candidate(p, i))
  {
    var c := Candidates();
    CandidateAt(p, i);
    forall k | 0 <= k < p * SUFFIX_COUNT + i
      ensures !canOpen(round, c[k])
    {
      CandidateAt(k / SUFFIX_COUNT, k % SUFFIX_COUNT);
    }
    FirstOpenableIsUnique(c, canOpen, round, p * SUFFIX_COUNT + i);
  }

  /** Prefixes `0..p` all fail once prefix `p` fails after the earlier ones
      did. */
  lemma PrefixesFailExtend(canOpen: (nat, string) -> bool, round: nat, p: nat)
    requires p < |BASE_PORTS|
    requires forall q, j :: 0 <= q < p && 0 <= j < SUFFIX_COUNT ==> !canOpen(round, Candidate(q, j))
    requires forall j :: 0 <= j < SUFFIX_COUNT ==> !canOpen(round, Candidate(p, j))
    ensures forall q, j :: 0 <= q < p + 1 && 0 <= j < SUFFIX_COUNT ==> !canOpen(round, Candidate(q, j))
  {
  }

  /** A scan binds nothing when every prefix with every suffix fails. */
  lemma ScanFindsNothing(canOpen: (nat, string) -> bool, round: nat)
    requires forall q, j :: 0 <= q < |BASE_PORTS| && 0 <= j < SUFFIX_COUNT ==> !canOpen(round, Candidate(q, j))
    ensures FirstOpenable(Candidates(), canOpen, round) == None
    ensures ScanResult(canOpen, round) == None
  {
    var c := Candidates();
    forall k | 0 <= k < CANDIDATE_COUNT
      ensures !canOpen(round, c[k])
    {
      CandidateAt(k / SUFFIX_COUNT, k % SUFFIX_COUNT);
    }
  }

  /** The paths a scan tries, when prefix `p` is the first with a path that
      opens, are the candidates up to that path. */
  lemma TriedUpToOpeningPrefix(canOpen: (nat, string) -> bool, round: nat, p: nat, i: nat)
    requires p < |BASE_PORTS| && i < SUFFIX_COUNT && canOpen(round, Candidate(p, i))
    requires forall q, j :: 0 <= q < p && 0 <= j < SUFFIX_COUNT ==> !canOpen(round, Candidate(q, j))
    requires forall j :: 0 <= j < i ==> !canOpen(round, Candidate(p, j))
    ensures p * SUFFIX_COUNT + i < CANDIDATE_COUNT
    ensures FirstOpenable(Candidates(), canOpen, round) == Some(p * SUFFIX_COUNT + i)
    ensures PrefixesPaths(p) + TriedFrom(canOpen, round, p) == Candidates()[..p * SUFFIX_COUNT + i + 1]
  {
    TriedUpToOpeningSuffix(canOpen, round, p, i);
    PrefixesPathsAreCandidates(p);
    CandidatesUpTo(p, i + 1);
    ScanFindsInPrefixOrder(canOpen, round, p, i);
  }

  /** The paths a scan tries when no prefix has a path that opens are all the
      candidates. */
  lemma TriedAllCandidates(canOpen: (nat, string) -> bool, round: nat)
    requires forall q, j :: 0 <= q < |BASE_PORTS| && 0 <= j < SUFFIX_COUNT ==> !canOpen(round, Candidate(q, j))
    ensures FirstOpenable(Candidates(), canOpen, round) == None
    ensures PrefixesPaths(|BASE_PORTS|) + TriedFrom(canOpen, round, |BASE_PORTS|) == Candidates()
  {
    PrefixesPathsAreCandidates(|BASE_PORTS|);
    ScanFindsNothing(canOpen, round);
    assert Candidates()[..CANDIDATE_COUNT] == Candidates();
    assert PrefixesPaths(|BASE_PORTS|) + [] == PrefixesPaths(|BASE_PORTS|);
  }

  /** The paths tried before and after a prefix none of whose paths opens. */
  lemma TriedAcrossFailingPrefix(canOpen: (nat, string) -> bool, round: nat, p: nat)
    requires p < |BASE_PORTS|
    requires forall j :: 0 <= j < SUFFIX_COUNT ==> !canOpen(round, Candidate(p, j))
    ensures PrefixesPaths(p) + TriedFrom(canOpen, round, p) == PrefixesPaths(p + 1) + TriedFrom(canOpen, round, p + 1)
  {
    TriedPastFailingPrefix(canOpen, round, p);
    AppendAssociates(PrefixesPaths(p), PrefixPaths(p, SUFFIX_COUNT), TriedFrom(canOpen, round, p + 1));
  }

  /** Once every prefix before `p` has failed, the paths tried so far followed
      by those tried from prefix `p` on are the candidates up to and including
      the first that opens, or all of them when none opens. */
  lemma {:induction false} TriedAfterFailedPrefixes(canOpen: (nat, string) -> bool, round: nat, p: nat)
    requires p <= |BASE_PORTS|
    requires forall q, j :: 0 <= q < p && 0 <= j < SUFFIX_COUNT ==> !canOpen(round, Candidate(q, j))
    ensures PrefixesPaths(p) + TriedFrom(canOpen, round, p) ==
      match FirstOpenable(Candidates(), canOpen, round)
      case Some(k) => Candidates()[..k + 1]
      case None => Candidates()
    decreases |BASE_PORTS| - p
  {
    if p == |BASE_PORTS| {
      TriedAllCandidates(canOpen, round);
    } else if OpeningSuffix(canOpen, round, p).Some? {
      var i := OpeningSuffix(canOpen, round, p).value;
      OpeningSuffixIsFirst(canOpen, round, p);
      TriedUpToOpeningPrefix(canOpen, round, p, i);
    } else {
      OpeningSuffixIsFirst(canOpen, round, p);
      TriedAcrossFailingPrefix(canOpen, round, p);
      PrefixesFailExtend(canOpen, round, p);
      TriedAfterFailedPrefixes(canOpen, round, p + 1);
    }
  }

  /** A scan tries the candidates in order up to and including the first that
      opens, and none after it; when none opens it tries every candidate. */
  lemma ScanStopsAtFirstOpen(canOpen: (nat, string) -> bool, round: nat)
    ensures ScanTried(canOpen, round) ==
      match FirstOpenable(Candidates(), canOpen, round)
      case Some(k) => Candidates()[..k + 1]
      case None => Candidates()
  {
    TriedAfterFailedPrefixes(canOpen, round, 0);
  }

  /** The outcome of every scan round for a given oracle. */
  function Scans(canOpen: (nat, string) -> bool): nat -> Option<string>
  {
    (round: nat) => ScanResult(canOpen, round)
  }

  datatype DiscoveryOutcome =
    | Bound(port: string)   // a port opened: the monitor loop starts
    | EscapeExit            // ESC at the retry prompt: the program exits with status 1
    | AwaitingKey           // no port, and no keystroke yet to answer the prompt

  /** How discovery ended, the state it left, and the number of its last scan. */
  datatype Discovered = Discovered(outcome: DiscoveryOutcome, after: MainState, lastRound: nat)

  /** Discovery from scan `round` on, where `scans(r)` is the port scan `r`
      binds, if any: on success bind the port; otherwise print the prompt and
      take one keystroke: ESC signals "stop", restores the terminal and exits,
      any other key starts the next scan. */
  function DiscoverFrom(m: MainState, scans: nat -> Option<string>, round: nat): Discovered
    decreases |m.input|
  {
    match scans(round)
    case Some(port) =>
      Discovered(Bound(port), m.(ser := Some(port), console := m.console + [Opened(port)]), round)
    case None =>
      var m1 := m.(ser := None, console := m.console + [NoPortFound]);
      if |m1.input| == 0 then Discovered(AwaitingKey, m1, round)
      else if m1.input[0] == ESC then
        Discovered(EscapeExit, m1.(input := m1.input[1..], stop := m1.stop + [STOP_SIGNAL], cleanedUp := true), round)
      else DiscoverFrom(m1.(input := m1.input[1..]), scans, round + 1)
  }
}

module DiscoveryProperties {
  import opened Common
  import opened Discovery

  /** `n` copies of the retry prompt. */
  function Prompts(n: nat): (s: seq<Message>)
    ensures |s| == n && forall k :: 0 <= k < n ==> s[k] == NoPortFound
  {
    seq(n, _ => NoPortFound)
  }

  /** After a scan that opened nothing, the prompt is printed and the next
      keystroke decides: none queued leaves discovery waiting, ESC exits, any
      other key leads to the next scan. */
  lemma DiscoverAfterFailedScan(m: MainState, scans: nat -> Option<string>, round: nat)
    requires m.ser.None? && scans(round).None?
    ensures var m1 := m.(console := m.console + [NoPortFound]);
      && (|m.input| == 0 ==> DiscoverFrom(m, scans, round) == Discovered(AwaitingKey, m1, round))
      && (|m.input| > 0 && m.input[0] == ESC ==>
            DiscoverFrom(m, scans, round) ==
            Discovered(EscapeExit, m1.(input := m.input[1..], stop := m.stop + [STOP_SIGNAL], cleanedUp := true), round))
      && (|m.input| > 0 && m.input[0] != ESC ==>
            DiscoverFrom(m, scans, round) == DiscoverFrom(m1.(input := m.input[1..]), scans, round + 1))
  {
  }

  /** A failed scan answered by a key other than ESC leads to the next scan,
      with the prompt printed and the key taken. */
  lemma DiscoverRetries(m: MainState, scans: nat -> Option<string>, round: nat)
    requires scans(round).None? && |m.input| > 0 && m.input[0] != ESC
    ensures DiscoverFrom(m, scans, round)
         == DiscoverFrom(m.(ser := None, console := m.console + [NoPortFound], input := m.input[1..]), scans, round + 1)
  {
  }

  /** Scans are numbered from `round` to `lastRound`: every scan but the last
      bound nothing and was answered by the next queued keystroke, which was not
      ESC; the last scan bound a port exactly when discovery ends bound. No byte
      is written to a port meanwhile. */
  lemma {:induction false} DiscoveryRetriesInOrder(m: MainState, scans: nat -> Option<string>, round: nat)
    ensures var d := DiscoverFrom(m, scans, round);
      && round <= d.lastRound
      && d.lastRound - round <= |m.input|
      && (forall r :: round <= r < d.lastRound ==> scans(r).None?)
      && (forall j :: 0 <= j < d.lastRound - round ==> m.input[j] != ESC)
      && d.after.written == m.written
      && (d.outcome.Bound? <==> scans(d.lastRound).Some?)
    decreases |m.input|
  {
    if scans(round).None? && |m.input| > 0 && m.input[0] != ESC {
      var m1 := m.(ser := None, console := m.console + [NoPortFound], input := m.input[1..]);
      DiscoveryRetriesInOrder(m1, scans, round + 1);
    }
  }

  /** A bound discovery binds the port of its last scan, having taken one
      keystroke and printed one prompt per earlier scan. */
  lemma {:induction false} DiscoveryBindsLastScan(m: MainState, scans: nat -> Option<string>, round: nat)
    ensures var d := DiscoverFrom(m, scans, round);
      var answered := d.lastRound - round;
      d.outcome.Bound? ==>
        && round <= d.lastRound && answered <= |m.input|
        && scans(d.lastRound) == Some(d.outcome.port)
        && d.after == m.(input := m.input[answered..], ser := Some(d.outcome.port),
                         console := m.console + Prompts(answered) + [Opened(d.outcome.port)])
    decreases |m.input|
  {
    var d := DiscoverFrom(m, scans, round);
    if scans(round).Some? {
      assert m.input[0..] == m.input && m.console + Prompts(0) == m.console;
    } else if |m.input| > 0 && m.input[0] != ESC {
      var m1 := m.(ser := None, console := m.console + [NoPortFound], input := m.input[1..]);
      DiscoverRetries(m, scans, round);
      DiscoveryBindsLastScan(m1, scans, round + 1);
      if d.outcome.Bound? {
        var answered := d.lastRound - round;
        var port := d.outcome.port;
        assert m.input[answered..] == m1.input[answered - 1..];
        assert Prompts(answered) == [NoPortFound] + Prompts(answered - 1);
        assert m.console + Prompts(answered) + [Opened(port)]
            == m1.console + Prompts(answered - 1) + [Opened(port)];
        assert d.after == m1.(input := m1.input[answered - 1..], ser := Some(port),
                              console := m1.console + Prompts(answered - 1) + [Opened(port)]);
      }
    }
  }

  /** Discovery exits on ESC only as the answer to a prompt: the keystroke
      after the answered ones is ESC, "stop" is put on the stop channel, the
      terminal is restored, and no port is bound. */
  lemma {:induction false} DiscoveryEscapeExits(m: MainState, scans: nat -> Option<string>, round: nat)
    ensures var d := DiscoverFrom(m, scans, round);
      var answered := d.lastRound - round;
      d.outcome.EscapeExit? ==>
        && round <= d.lastRound && answered < |m.input| && m.input[answered] == ESC
        && d.after == m.(input := m.input[answered + 1..], stop := m.stop + [STOP_SIGNAL], ser := None,
                         console := m.console + Prompts(answered + 1), cleanedUp := true)
    decreases |m.input|
  {
    if scans(round).None? && |m.input| > 0 && m.input[0] != ESC {
      var m1 := m.(ser := None, console := m.console + [NoPortFound], input := m.input[1..]);
      DiscoverRetries(m, scans, round);
      DiscoveryEscapeExits(m1, scans, round + 1);
      var d1 := DiscoverFrom(m1, scans, round + 1);
      if d1.outcome.EscapeExit? {
        EscapeExitAfterRetry(m, d1.after, d1.lastRound - (round + 1));
      }
    }
  }

  /** The ESC exit reached after one more failed scan, seen from before that
      scan: one more keystroke answered, one more prompt. */
  lemma EscapeExitAfterRetry(m: MainState, after: MainState, answered: nat)
    requires |m.input| > 0
    requires var m1 := m.(ser := None, console := m.console + [NoPortFound], input := m.input[1..]);
      && answered < |m1.input| && m1.input[answered] == ESC
      && after == m1.(input := m1.input[answered + 1..], stop := m1.stop + [STOP_SIGNAL], ser := None,
                      console := m1.console + Prompts(answered + 1), cleanedUp := true)
    ensures answered + 1 < |m.input| && m.input[answered + 1] == ESC
    ensures after == m.(input := m.input[answered + 2..], stop := m.stop + [STOP_SIGNAL], ser := None,
                        console := m.console + Prompts(answered + 2), cleanedUp := true)
  {
    assert m.input[answered + 2..] == m.input[1..][answered + 1..];
    assert Prompts(answered + 2) == [NoPortFound] + Prompts(answered + 1);
    assert m.console + Prompts(answered + 2) == m.console + [NoPortFound] + Prompts(answered + 1);
  }

  /** Discovery waits for a keystroke only when every queued keystroke has
      answered a failed scan: no port is bound and nothing else changes. */
  lemma {:induction false} DiscoveryAwaitsKeystroke(m: MainState, scans: nat -> Option<string>, round: nat)
    ensures var d := DiscoverFrom(m, scans, round);
      var answered := d.lastRound - round;
      d.outcome.AwaitingKey? ==>
        && round <= d.lastRound && answered == |m.input|
        && d.after == m.(input := [], ser := None, console := m.console + Prompts(answered + 1))
    decreases |m.input|
  {
    var d := DiscoverFrom(m, scans, round);
    if scans(round).None? && |m.input| > 0 && m.input[0] != ESC {
      var m1 := m.(ser := None, console := m.console + [NoPortFound], input := m.input[1..]);
      DiscoverRetries(m, scans, round);
      DiscoveryAwaitsKeystroke(m1, scans, round + 1);
      if d.outcome.AwaitingKey? {
        var answered := d.lastRound - round;
        assert Prompts(answered + 1) == [NoPortFound] + Prompts(answered);
        assert m.console + Prompts(answered + 1) == m1.console + Prompts(answered);
        assert d.after == m1.(input := [], ser := None, console := m1.console + Prompts(answered));
      }
    }
  }

  /** Only an ESC exit puts "stop" on the stop channel and restores the
      terminal. */
  lemma {:induction false} DiscoverySignalsStopOnlyOnEscape(m: MainState, scans: nat -> Option<string>, round: nat)
    ensures var d := DiscoverFrom(m, scans, round);
      && d.after.stop == (if d.outcome.EscapeExit? then m.stop + [STOP_SIGNAL] else m.stop)
      && d.after.cleanedUp == (d.outcome.EscapeExit? || m.cleanedUp)
    decreases |m.input|
  {
    if scans(round).None? && |m.input| > 0 && m.input[0] != ESC {
      var m1 := m.(ser := None, console := m.console + [NoPortFound], input := m.input[1..]);
      DiscoverySignalsStopOnlyOnEscape(m1, scans, round + 1);
    }
  }

  /** A scan binds the first candidate that opens in its round: every
      candidate before it failed, and it is the only candidate with that
      property. */
  lemma ScanBindsFirstOpenable(canOpen: (nat, string) -> bool, round: nat)
    ensures match Scans(canOpen)(round)
      case None => forall k :: 0 <= k < CANDIDATE_COUNT ==> !canOpen(round, Candidates()[k])
      case Some(port) => exists k :: 0 <= k < CANDIDATE_COUNT && port == Candidates()[k] && canOpen(round, port) &&
                           forall j :: 0 <= j < k ==> !canOpen(round, Candidates()[j])
  {
    var c := Candidates();
    var r := FirstOpenable(c, canOpen, round);
    assert Scans(canOpen)(round) == ScanResult(canOpen, round);
    if r.Some? {
      var k := r.value;
      assert ScanResult(canOpen, round) == Some(c[k]);
      assert forall j :: 0 <= j < k ==> !canOpen(round, c[j]);
    }
  }

  /** When exactly one path can ever be opened and it is a candidate, discovery
      binds it in the first scan, wherever it stands in the scan order, and
      leaves the keystroke queue alone. */
  lemma OnlyOpenablePortIsBound(m: MainState, canOpen: (nat, string) -> bool, round: nat, target: string)
    requires target in Candidates()
    requires forall r, path :: canOpen(r, path) <==> path == target
    ensures var d := DiscoverFrom(m, Scans(canOpen), round);
      d.outcome == Bound(target) && d.lastRound == round && d.after.input == m.input && d.after.ser == Some(target)
  {
    var c := Candidates();
    var k :| 0 <= k < |c| && c[k] == target;
    assert canOpen(round, c[k]);
    var r := FirstOpenable(c, canOpen, round);
    assert r.Some? && canOpen(round, c[r.value]);
  }
}
