/**
 * Supervision of one run of the media tool (`runYtDlp`). The child process is
 * seen as the trace of events it delivers to the server: output chunks on
 * stdout and stderr, its `close` with an exit code, a spawn `error`, or the
 * timer firing. The promise settles on the first of the last three; stdout and
 * stderr are what arrived before that.
 */
module Supervisor {
  import opened Common
  import opened Text

  /** Time budget of a metadata or quick run, in milliseconds (the default of `runYtDlp`). */
  const DefaultTimeoutMs: nat := 120000

  /** Time budget of a full download run, in milliseconds. */
  const DownloadTimeoutMs: nat := 300000

  /** What the child process or its timer delivers to the server, in arrival order. */
  datatype ProcEvent =
    | StdoutData(chunk: string)
    | StderrData(chunk: string)
    | Close(code: Option<int>)       // `None` is the `null` code of a process ended by a signal
    | SpawnError(message: string)
    | TimerFired

  /** How the promise of a run settles. */
  datatype Settlement = Resolved(output: string) | Rejected(message: string)

  predicate IsTerminal(e: ProcEvent) {
    e.Close? || e.SpawnError? || e.TimerFired?
  }

  // ---------------------------------------------------------------------------
  // Classification of a failed run

  const AgeRestrictedMessage: string := "This video is age-restricted. Please add your YouTube cookies."
  const PrivateVideoMessage: string := "This is a private video. You need cookies from an account with access."
  const UnavailableMessage: string := "This video is unavailable or has been removed."
  const InvalidUrlMessage: string := "Invalid URL format."
  const TimeoutMessage: string := "Request timed out"

  /** The failure text of a non-zero exit: stderr, or `Exit code N` when stderr is empty. */
  function ExitText(code: Option<int>, stderr: string): string {
    if stderr != "" then stderr
    else "Exit code " + (match code case Some(n) => IntToString(n) case None => "null")
  }

  /** The user message for a tool failure text: the first matching pattern's message, or the text itself. */
  function FriendlyMessage(raw: string): string {
    if Includes(raw, "Sign in to confirm your age") then AgeRestrictedMessage
    else if Includes(raw, "Private video") then PrivateVideoMessage
    else if Includes(raw, "Video unavailable") then UnavailableMessage
    else if Includes(raw, "is not a valid URL") then InvalidUrlMessage
    else raw
  }

  /** The pattern table of the classification, in the order it is consulted. */
  const ErrorPatterns: seq<(string, string)> := [
    ("Sign in to confirm your age", AgeRestrictedMessage),
    ("Private video", PrivateVideoMessage),
    ("Video unavailable", UnavailableMessage),
    ("is not a valid URL", InvalidUrlMessage)
  ]

  /** Reference definition: the message of the first table entry whose pattern occurs in `raw`, else `raw`. */
  function FirstMatchingMessage(table: seq<(string, string)>, raw: string): (m: string)
    ensures (forall k :: 0 <= k < |table| ==> !Includes(raw, table[k].0)) ==> m == raw
    ensures (exists k :: 0 <= k < |table| && Includes(raw, table[k].0)) ==>
              exists k :: 0 <= k < |table| && Includes(raw, table[k].0) && m == table[k].1 &&
                          forall j :: 0 <= j < k ==> !Includes(raw, table[j].0)
  {
    if table == [] then raw
    else if Includes(raw, table[0].0) then table[0].1
    else
      var m := FirstMatchingMessage(table[1..], raw);
      assert forall k :: 1 <= k < |table| ==> table[k] == table[1..][k - 1];
      m
  }

  /** The if/else chain of the source is the first-match lookup in the ordered pattern table. */
  lemma FriendlyMessageIsFirstMatch(raw: string)
    ensures FriendlyMessage(raw) == FirstMatchingMessage(ErrorPatterns, raw)
  {
    var t := ErrorPatterns;
    assert t[4..] == [];
    assert FirstMatchingMessage(t[4..], raw) == raw;
    assert t[3..][1..] == t[4..];
    assert FirstMatchingMessage(t[3..], raw) == if Includes(raw, t[3].0) then t[3].1 else FirstMatchingMessage(t[4..], raw);
    assert t[2..][1..] == t[3..];
    assert FirstMatchingMessage(t[2..], raw) == if Includes(raw, t[2].0) then t[2].1 else FirstMatchingMessage(t[3..], raw);
    assert t[1..][1..] == t[2..];
    assert FirstMatchingMessage(t[1..], raw) == if Includes(raw, t[1].0) then t[1].1 else FirstMatchingMessage(t[2..], raw);
    assert FirstMatchingMessage(t, raw) == if Includes(raw, t[0].0) then t[0].1 else FirstMatchingMessage(t[1..], raw);
  }

  /** The settlement a terminal event produces, given everything captured before it. */
  function Outcome(e: ProcEvent, stdout: string, stderr: string): Settlement
    requires IsTerminal(e)
  {
    match e
    case Close(code) =>
      if code == Some(0) then Resolved(Trim(stdout)) else Rejected(FriendlyMessage(ExitText(code, stderr)))
    case SpawnError(message) => Rejected(message)
    case TimerFired => Rejected(TimeoutMessage)
  }

  // ---------------------------------------------------------------------------
  // The run as a trace

  /** The first terminal event of `events` and the output captured before it, after `stdout` and `stderr`. */
  datatype Capture = Capture(terminal: ProcEvent, stdout: string, stderr: string)

  /** Where the trace `events` settles, after `stdout` and `stderr` have been captured; `None` while pending. */
  function CaptureFrom(events: seq<ProcEvent>, stdout: string, stderr: string): (c: Option<Capture>)
    ensures c.Some? ==> IsTerminal(c.value.terminal)
    decreases |events|
  {
    if events == [] then None
    else match events[0]
      case StdoutData(chunk) => CaptureFrom(events[1..], stdout + chunk, stderr)
      case StderrData(chunk) => CaptureFrom(events[1..], stdout, stderr + chunk)
      case _ => Some(Capture(events[0], stdout, stderr))
  }

  /** How a run whose child delivers `events` settles: by its first terminal event, if any. */
  function Settle(events: seq<ProcEvent>): Option<Settlement> {
    match CaptureFrom(events, "", "")
    case None => None
    case Some(c) => Some(Outcome(c.terminal, c.stdout, c.stderr))
  }

  /** Everything written to stdout by a trace of data events. */
  function StdoutOf(events: seq<ProcEvent>): string
    decreases |events|
  {
    if events == [] then ""
    else (if events[0].StdoutData? then events[0].chunk else "") + StdoutOf(events[1..])
  }

  /** Everything written to stderr by a trace of data events. */
  function StderrOf(events: seq<ProcEvent>): string
    decreases |events|
  {
    if events == [] then ""
    else (if events[0].StderrData? then events[0].chunk else "") + StderrOf(events[1..])
  }

  /**
   * The event loop of `runYtDlp`: capture output until the first terminal event,
   * settle on it, and ignore everything after (a settled promise does not change).
   */
  method Supervise(events: seq<ProcEvent>) returns (settled: Option<Settlement>)
    ensures settled == Settle(events)
  {
    var stdout, stderr := "", "";
    settled := None;
    var i := 0;
    while i < |events| && settled.None?
      invariant 0 <= i <= |events|
      invariant settled.None? ==> CaptureFrom(events[i..], stdout, stderr) == CaptureFrom(events, "", "")
      invariant settled.Some? ==> settled == Settle(events)
    {
      assert events[i..][1..] == events[i + 1..];
      match events[i] {
        case StdoutData(c) => stdout := stdout + c;
        case StderrData(c) => stderr := stderr + c;
        case Close(code) =>
          if code == Some(0) {
            settled := Some(Resolved(Trim(stdout)));
          } else {
            var errorMsg := ExitText(code, stderr);
            settled := Some(Rejected(FriendlyMessage(errorMsg)));
          }
        case SpawnError(message) => settled := Some(Rejected(message));
        case TimerFired => settled := Some(Rejected(TimeoutMessage));
      }
      i := i + 1;
    }
    assert settled.None? ==> events[i..] == [];
  }

  /**
   * Only the first terminal event decides the run: data events before it are
   * captured in order, and nothing after it matters.
   */
  lemma {:induction false} FirstTerminalDecides(pre: seq<ProcEvent>, e: ProcEvent, post: seq<ProcEvent>,
                                                stdout: string, stderr: string)
    requires forall k :: 0 <= k < |pre| ==> !IsTerminal(pre[k])
    requires IsTerminal(e)
    ensures CaptureFrom(pre + [e] + post, stdout, stderr) == Some(Capture(e, stdout + StdoutOf(pre), stderr + StderrOf(pre)))
    decreases |pre|
  {
    if pre == [] {
      assert pre + [e] + post == [e] + post;
      assert stdout + StdoutOf(pre) == stdout && stderr + StderrOf(pre) == stderr;
    } else {
      var rest := pre[1..];
      assert (pre + [e] + post)[1..] == rest + [e] + post;
      match pre[0]
      case StdoutData(c) =>
        FirstTerminalDecides(rest, e, post, stdout + c, stderr);
        assert stdout + c + StdoutOf(rest) == stdout + StdoutOf(pre);
        assert StderrOf(pre) == StderrOf(rest) by { assert "" + StderrOf(rest) == StderrOf(rest); }
      case StderrData(c) =>
        FirstTerminalDecides(rest, e, post, stdout, stderr + c);
        assert stderr + c + StderrOf(rest) == stderr + StderrOf(pre);
        assert StdoutOf(pre) == StdoutOf(rest) by { assert "" + StdoutOf(rest) == StdoutOf(rest); }
    }
  }

  /**
   * The classification of a run whose child writes `pre` and then delivers `e`:
   * exit code 0 resolves to the trimmed stdout; any other code rejects with the
   * friendly form of stderr (or of `Exit code N`); a spawn error rejects with its
   * own message; the timer rejects with the timeout message.
   */
  lemma Classification(pre: seq<ProcEvent>, e: ProcEvent, post: seq<ProcEvent>)
    requires forall k :: 0 <= k < |pre| ==> !IsTerminal(pre[k])
    requires IsTerminal(e)
    ensures e == Close(Some(0)) ==> Settle(pre + [e] + post) == Some(Resolved(Trim(StdoutOf(pre))))
    ensures e.Close? && e.code != Some(0) ==>
              Settle(pre + [e] + post) == Some(Rejected(FirstMatchingMessage(ErrorPatterns, ExitText(e.code, StderrOf(pre)))))
    ensures e.SpawnError? ==> Settle(pre + [e] + post) == Some(Rejected(e.message))
    ensures e.TimerFired? ==> Settle(pre + [e] + post) == Some(Rejected(TimeoutMessage))
  {
    CapturedByFirstTerminal(pre, e, post);
    if e.Close? && e.code != Some(0) {
      FriendlyMessageIsFirstMatch(ExitText(e.code, StderrOf(pre)));
    }
  }

  /** From an empty capture, a run stops at its first terminal event with the output written before it. */
  lemma CapturedByFirstTerminal(pre: seq<ProcEvent>, e: ProcEvent, post: seq<ProcEvent>)
    requires forall k :: 0 <= k < |pre| ==> !IsTerminal(pre[k])
    requires IsTerminal(e)
    ensures CaptureFrom(pre + [e] + post, "", "") == Some(Capture(e, StdoutOf(pre), StderrOf(pre)))
  {
    var out, err := StdoutOf(pre), StderrOf(pre);
    FirstTerminalDecides(pre, e, post, "", "");
    assert "" + out == out;
    assert "" + err == err;
  }

  /** A trace without a terminal event leaves the run pending. */
  lemma {:induction false} NoTerminalPending(events: seq<ProcEvent>, stdout: string, stderr: string)
    requires forall k :: 0 <= k < |events| ==> !IsTerminal(events[k])
    ensures CaptureFrom(events, stdout, stderr).None?
    ensures Settle(events).None?
    decreases |events|
  {
    if events != [] {
      match events[0]
      case StdoutData(c) =>
        NoTerminalPending(events[1..], stdout + c, stderr);
        NoTerminalPending(events[1..], c, "");
        assert "" + c == c;
      case StderrData(c) =>
        NoTerminalPending(events[1..], stdout, stderr + c);
        NoTerminalPending(events[1..], "", c);
        assert "" + c == c;
    }
  }

  /** The rewritten message is one of the four fixed messages, or the failure text unchanged. */
  lemma FriendlyMessageRange(raw: string)
    ensures FriendlyMessage(raw) in {AgeRestrictedMessage, PrivateVideoMessage, UnavailableMessage, InvalidUrlMessage, raw}
  {
  }
}
