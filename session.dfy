/** The attempt loop of `search_and_capture` (src/playwright_flow.py): up to
    four browser sessions, a blocked result page means back off and try
    again, any other exception ends the loop. How each attempt ended is an
    input; what the loop does about it is recorded as a trace of events. */
module Session {
  import opened Wrappers
  import opened Text
  import opened Cascade
  import opened Challenge
  import opened Capture
  import opened Proxy

  const MaxAttempts: nat := 4

  const ExhaustedMessage: string :=
    "Blocked or failed after multiple attempts. Use a sticky US residential proxy and retry."

  /** How one attempt ended. `LaunchFailed`: opening the persistent context
      raised. `SetupFailed`: a call between the launch and the guarded block
      raised (headers, init script, new page). `Failed`: an exception inside
      the guarded block (navigation, form filling, submission, reading the
      results, re-reading a blocked page). `Submitted`: the form was
      submitted and every read that followed completed; `shown` is the page
      content `blocked` read (`None` if reading raised), `reread` the content
      read again once the page was found blocked (used only then), `html`
      the results page and `arrivals` the responses the listener saw. */
  datatype AttemptEnd =
    | LaunchFailed(error: Error)
    | SetupFailed(error: Error)
    | Failed(error: Error)
    | Submitted(shown: Option<string>, reread: string, html: string, arrivals: seq<Arrival>)

  predicate Blocked(a: AttemptEnd)
  {
    a.Submitted? && FlowBlocked(a.shown)
  }

  /** What the loop does that the outside world sees. */
  datatype Event =
    | Open(attempt: nat, proxy: Option<string>)  // a browser context is launched
    | Close(attempt: nat)                        // `ctx.close()`
    | Backoff(ms: nat)                           // the sleep before the next attempt
    | WriteLastPage(html: string)                // `akamai_last.html` is written

  /** The returned dictionary: the captured JSON and the results page. */
  datatype Payload = Payload(networkJson: seq<Captured>, pageHtml: string)

  /** 0.9 + 0.5 * attempt seconds, in milliseconds. */
  function BackoffMs(attempt: nat): nat
  {
    900 + 500 * attempt
  }

  /** A blocked attempt lets the next one run; a submission that is not
      blocked returns; every other ending raises. */
  function AttemptStep(a: AttemptEnd): Step
  {
    match a
    case Submitted(shown, _, _, _) => if FlowBlocked(shown) then Next else Stop
    case LaunchFailed(e) => Raise(e)
    case SetupFailed(e) => Raise(e)
    case Failed(e) => Raise(e)
  }

  /** Attempts are numbered from 1, as `attempts` is after its increment. */
  function Steps(attempt: nat -> AttemptEnd): (steps: seq<Step>)
    ensures |steps| == MaxAttempts
  {
    seq(MaxAttempts, i requires 0 <= i < MaxAttempts => AttemptStep(attempt(i + 1)))
  }

  /** The `i`-th event of a run of blocked attempts: open, close, back off. */
  function BlockedEvent(proxy: Option<string>, i: nat): Event
  {
    var k := i / 3 + 1;
    if i % 3 == 0 then Open(k, proxy) else if i % 3 == 1 then Close(k) else Backoff(BackoffMs(k))
  }

  /** The events of the first `n` attempts when they were all blocked. */
  function Backoffs(proxy: Option<string>, n: nat): (t: seq<Event>)
    ensures |t| == 3 * n
  {
    seq(3 * n, i requires 0 <= i < 3 * n => BlockedEvent(proxy, i))
  }

  /** The events of the attempt that ends the loop without a retry. */
  function Finale(proxy: Option<string>, k: nat, a: AttemptEnd): (t: seq<Event>)
    ensures |t| <= 2
  {
    match a
    case LaunchFailed(_) => []
    case SetupFailed(_) => [Open(k, proxy)]
    case _ => [Open(k, proxy), Close(k)]
  }

  /** The page kept in `last_html` after attempt `a`, when it was blocked. */
  function LastShown(a: AttemptEnd): string
  {
    if Blocked(a) then a.reread else ""
  }

  /** The reference meaning of `search_and_capture`: at most three events
      for each of the four attempts and one last-page write; a success ends
      by closing its context. */
  function SessionSpec(env: Env, attempt: nat -> AttemptEnd): (r: (Result<Payload>, seq<Event>))
    ensures |r.1| <= 3 * MaxAttempts + 1
    ensures r.0.Ok? ==> r.1 != [] && r.1[|r.1| - 1].Close?
  {
    var proxy := FlowProxy(env);
    match Run(Steps(attempt))
    case Stopped(i) =>
      var a := attempt(i + 1);
      (Ok(Payload(KeptOf(a.arrivals), a.html)), Backoffs(proxy, i) + Finale(proxy, i + 1, a))
    case Raised(i, e) =>
      (Err(e), Backoffs(proxy, i) + Finale(proxy, i + 1, attempt(i + 1)))
    case Exhausted =>
      var last := LastShown(attempt(MaxAttempts));
      (Err(RuntimeError(ExhaustedMessage)),
       Backoffs(proxy, MaxAttempts) + (if last != "" then [WriteLastPage(last)] else []))
  }

  lemma BackoffsGrow(proxy: Option<string>, n: nat)
    ensures Backoffs(proxy, n) + [Open(n + 1, proxy), Close(n + 1), Backoff(BackoffMs(n + 1))] == Backoffs(proxy, n + 1)
  {
    var a := Backoffs(proxy, n) + [Open(n + 1, proxy), Close(n + 1), Backoff(BackoffMs(n + 1))];
    var b := Backoffs(proxy, n + 1);
    forall i | 0 <= i < 3 * n + 3 ensures a[i] == b[i] {
      if i >= 3 * n {
        assert i / 3 == n;
      }
    }
  }

  lemma SpecDecided(env: Env, attempt: nat -> AttemptEnd, k: nat)
    requires 1 <= k <= MaxAttempts && AllNext(Steps(attempt)[..k - 1]) && !Blocked(attempt(k))
    ensures var a, proxy := attempt(k), FlowProxy(env);
            SessionSpec(env, attempt)
            == (if a.Submitted? then Ok(Payload(KeptOf(a.arrivals), a.html)) else Err(a.error),
                Backoffs(proxy, k - 1) + Finale(proxy, k, a))
  {
    RunAt(Steps(attempt), k - 1);
  }

  lemma SpecExhausted(env: Env, attempt: nat -> AttemptEnd)
    requires AllNext(Steps(attempt))
    ensures var last := LastShown(attempt(MaxAttempts));
            SessionSpec(env, attempt)
            == (Err(RuntimeError(ExhaustedMessage)),
                Backoffs(FlowProxy(env), MaxAttempts) + (if last != "" then [WriteLastPage(last)] else []))
  {
    RunAllNext(Steps(attempt));
  }

  lemma AppendNothing(t: seq<Event>)
    ensures t + [] == t
  {
  }

  lemma AppendTwo(t: seq<Event>, x: Event, y: Event)
    ensures t + [x] + [y] == t + [x, y]
  {
  }

  lemma AppendThree(t: seq<Event>, x: Event, y: Event, z: Event)
    ensures t + [x] + [y, z] == t + [x, y, z]
  {
  }

  /** A blocked attempt lets the loop go on, and its page is the one kept. */
  lemma BlockedGoesOn(attempt: nat -> AttemptEnd, k: nat)
    requires 1 <= k <= MaxAttempts && AllNext(Steps(attempt)[..k - 1]) && Blocked(attempt(k))
    ensures AllNext(Steps(attempt)[..k])
    ensures LastShown(attempt(k)) == attempt(k).reread
  {
    var steps := Steps(attempt);
    assert steps[k - 1] == AttemptStep(attempt(k));
    assert steps[..k] == steps[..k - 1] + [Next];
  }

  /** `search_and_capture`. */
  method SearchAndCapture(env: Env, attempt: nat -> AttemptEnd) returns (r: Result<Payload>, trace: seq<Event>)
    ensures (r, trace) == SessionSpec(env, attempt)
  {
    var proxy := FlowProxy(env);
    var attempts := 0;
    var lastHtml := "";
    trace := [];
    while attempts < MaxAttempts
      invariant 0 <= attempts <= MaxAttempts
      invariant AllNext(Steps(attempt)[..attempts])
      invariant trace == Backoffs(proxy, attempts)
      invariant lastHtml == if attempts == 0 then "" else LastShown(attempt(attempts))
    {
      attempts := attempts + 1;
      var a := attempt(attempts);
      match a {
        case LaunchFailed(e) =>
          SpecDecided(env, attempt, attempts);
          AppendNothing(trace);
          return Err(e), trace;
        case SetupFailed(e) =>
          trace := trace + [Open(attempts, proxy)];
          SpecDecided(env, attempt, attempts);
          return Err(e), trace;
        case Failed(e) =>
          trace := trace + [Open(attempts, proxy), Close(attempts)];
          SpecDecided(env, attempt, attempts);
          return Err(e), trace;
        case Submitted(shown, reread, html, arrivals) =>
          AppendTwo(trace, Open(attempts, proxy), Close(attempts));
          AppendThree(trace, Open(attempts, proxy), Close(attempts), Backoff(BackoffMs(attempts)));
          trace := trace + [Open(attempts, proxy)];
          var captured := CaptureAttempt(arrivals);
          if FlowBlocked(shown) {
            lastHtml := reread;
            trace := trace + [Close(attempts), Backoff(BackoffMs(attempts))];
            BackoffsGrow(proxy, attempts - 1);
            BlockedGoesOn(attempt, attempts);
          } else {
            trace := trace + [Close(attempts)];
            SpecDecided(env, attempt, attempts);
            return Ok(Payload(captured, html)), trace;
          }
      }
    }
    assert Steps(attempt)[..MaxAttempts] == Steps(attempt);
    SpecExhausted(env, attempt);
    if lastHtml != "" {
      trace := trace + [WriteLastPage(lastHtml)];
    } else {
      AppendNothing(trace);
    }
    r := Err(RuntimeError(ExhaustedMessage));
  }

  // ------------------------------------------------------------ properties

  predicate BlockedBefore(attempt: nat -> AttemptEnd, k: nat)
  {
    forall j :: 1 <= j < k ==> Blocked(attempt(j))
  }

  /** The first attempt that is not blocked decides the run. */
  lemma DecidedAt(attempt: nat -> AttemptEnd, k: nat)
    requires 1 <= k <= MaxAttempts && BlockedBefore(attempt, k) && !Blocked(attempt(k))
    ensures Run(Steps(attempt)) == if attempt(k).Submitted? then Stopped(k - 1) else Raised(k - 1, attempt(k).error)
  {
    var steps := Steps(attempt);
    forall j | 0 <= j < k - 1 ensures steps[j] == Next {
      assert Blocked(attempt(j + 1));
    }
    assert AllNext(steps[..k - 1]);
    RunAt(steps, k - 1);
  }

  /** The first attempt that is not blocked ends the loop: a submission
      returns its results page and its captured JSON, any exception is
      re-raised, and no later attempt opens a browser. */
  lemma FirstUnblockedEndsLoop(env: Env, attempt: nat -> AttemptEnd, k: nat)
    requires 1 <= k <= MaxAttempts && BlockedBefore(attempt, k) && !Blocked(attempt(k))
    ensures var (r, trace) := SessionSpec(env, attempt);
            (attempt(k).Submitted? ==> r == Ok(Payload(KeptOf(attempt(k).arrivals), attempt(k).html)))
            && (!attempt(k).Submitted? ==> r == Err(attempt(k).error))
            && forall i :: 0 <= i < |trace| && trace[i].Open? ==> trace[i].attempt <= k
  {
    FirstUnblockedResult(env, attempt, k);
    FirstUnblockedOpensLast(env, attempt, k);
  }

  /** The first attempt that is not blocked gives the run's result. */
  lemma FirstUnblockedResult(env: Env, attempt: nat -> AttemptEnd, k: nat)
    requires 1 <= k <= MaxAttempts && BlockedBefore(attempt, k) && !Blocked(attempt(k))
    ensures var r := SessionSpec(env, attempt).0;
            (attempt(k).Submitted? ==> r == Ok(Payload(KeptOf(attempt(k).arrivals), attempt(k).html)))
            && (!attempt(k).Submitted? ==> r == Err(attempt(k).error))
  {
    DecidedAt(attempt, k);
  }

  /** No attempt after the first unblocked one opens a browser. */
  lemma FirstUnblockedOpensLast(env: Env, attempt: nat -> AttemptEnd, k: nat)
    requires 1 <= k <= MaxAttempts && BlockedBefore(attempt, k) && !Blocked(attempt(k))
    ensures var trace := SessionSpec(env, attempt).1;
            forall i :: 0 <= i < |trace| && trace[i].Open? ==> trace[i].attempt <= k
  {
    DecidedAt(attempt, k);
    var trace := SessionSpec(env, attempt).1;
    assert |trace| <= 3 * (k - 1) + 2;
    OpensNumbered(env, attempt);
    forall i | 0 <= i < |trace| && trace[i].Open? ensures trace[i].attempt <= k {
      assert OpenNumbered(trace, FlowProxy(env), i);
    }
  }

  /** The loop succeeds only through a submission that was not blocked,
      after blocked attempts only. */
  lemma SuccessIsFirstUnblocked(env: Env, attempt: nat -> AttemptEnd)
    requires SessionSpec(env, attempt).0.Ok?
    ensures exists k :: 1 <= k <= MaxAttempts && BlockedBefore(attempt, k)
                        && attempt(k).Submitted? && !Blocked(attempt(k))
  {
    var i := Run(Steps(attempt)).at;
    BlockedFromSteps(attempt, i);
    StopIsSubmitted(attempt, i);
  }

  /** An attempt whose step settles the loop was a submission that was not
      blocked. */
  lemma StopIsSubmitted(attempt: nat -> AttemptEnd, i: nat)
    requires i < MaxAttempts && Steps(attempt)[i] == Stop
    ensures attempt(i + 1).Submitted? && !Blocked(attempt(i + 1))
  {
    assert Steps(attempt)[i] == AttemptStep(attempt(i + 1));
  }

  /** When all four attempts are blocked the loop raises its own
      `RuntimeError` after twelve loop events; the fourth attempt's re-read
      page is written exactly when it is not empty. */
  lemma ExhaustionWritesLastPage(env: Env, attempt: nat -> AttemptEnd)
    requires BlockedBefore(attempt, MaxAttempts + 1)
    ensures var (r, trace) := SessionSpec(env, attempt);
            r == Err(RuntimeError(ExhaustedMessage))
            && var last := attempt(MaxAttempts).reread;
               |trace| == 3 * MaxAttempts + (if last != "" then 1 else 0)
               && (last != "" ==> trace[3 * MaxAttempts] == WriteLastPage(last))
  {
    var steps := Steps(attempt);
    forall j | 0 <= j < MaxAttempts ensures steps[j] == Next {
      assert Blocked(attempt(j + 1));
    }
    RunAllNext(steps);
    assert Blocked(attempt(MaxAttempts));
  }

  /** A step passes the turn exactly when its attempt was blocked. */
  lemma NextIsBlocked(a: AttemptEnd)
    ensures AttemptStep(a) == Next <==> Blocked(a)
  {
  }

  /** Attempts whose steps all passed the turn were all blocked. */
  lemma BlockedFromSteps(attempt: nat -> AttemptEnd, i: nat)
    requires i <= MaxAttempts && AllNext(Steps(attempt)[..i])
    ensures BlockedBefore(attempt, i + 1)
  {
    var steps := Steps(attempt);
    forall j | 1 <= j < i + 1 ensures Blocked(attempt(j)) {
      assert steps[..i][j - 1] == steps[j - 1] == AttemptStep(attempt(j));
      NextIsBlocked(attempt(j));
    }
  }

  /** The attempt a verdict names was not blocked. */
  lemma DecidingNotBlocked(attempt: nat -> AttemptEnd, i: nat)
    requires i < MaxAttempts && Steps(attempt)[i] != Next
    ensures !Blocked(attempt(i + 1))
  {
    assert Steps(attempt)[i] == AttemptStep(attempt(i + 1));
    NextIsBlocked(attempt(i + 1));
  }

  /** The trace of a run that four blocked attempts exhausted. */
  lemma ExhaustedShape(env: Env, attempt: nat -> AttemptEnd) returns (tail: seq<Event>)
    requires Run(Steps(attempt)) == Exhausted
    ensures BlockedBefore(attempt, MaxAttempts + 1)
    ensures SessionSpec(env, attempt).1 == Backoffs(FlowProxy(env), MaxAttempts) + tail
    ensures forall i :: 0 <= i < |tail| ==> tail[i].WriteLastPage?
  {
    var steps := Steps(attempt);
    assert steps[..MaxAttempts] == steps;
    BlockedFromSteps(attempt, MaxAttempts);
    var last := LastShown(attempt(MaxAttempts));
    tail := if last != "" then [WriteLastPage(last)] else [];
  }

  /** Every trace is a run of blocked attempts followed either by the
      events of the attempt that ended the loop or, after four blocked
      attempts, by the optional write of the last page. */
  lemma TraceShape(env: Env, attempt: nat -> AttemptEnd) returns (n: nat, tail: seq<Event>)
    ensures n <= MaxAttempts && BlockedBefore(attempt, n + 1)
    ensures SessionSpec(env, attempt).1 == Backoffs(FlowProxy(env), n) + tail
    ensures n < MaxAttempts ==> !Blocked(attempt(n + 1)) && tail == Finale(FlowProxy(env), n + 1, attempt(n + 1))
    ensures n == MaxAttempts ==> forall i :: 0 <= i < |tail| ==> tail[i].WriteLastPage?
  {
    var v := Run(Steps(attempt));
    if v.Exhausted? {
      n := MaxAttempts;
      tail := ExhaustedShape(env, attempt);
    } else {
      n := v.at;
      tail := Finale(FlowProxy(env), n + 1, attempt(n + 1));
      BlockedFromSteps(attempt, n);
      DecidingNotBlocked(attempt, n);
    }
  }

  lemma BackoffsAt(proxy: Option<string>, n: nat, tail: seq<Event>, i: nat)
    requires i < 3 * n
    ensures (Backoffs(proxy, n) + tail)[i] == BlockedEvent(proxy, i)
  {
  }

  lemma TailAt(proxy: Option<string>, n: nat, tail: seq<Event>, i: nat)
    requires 3 * n <= i < 3 * n + |tail|
    ensures (Backoffs(proxy, n) + tail)[i] == tail[i - 3 * n]
  {
  }

  lemma OpenEvent(proxy: Option<string>, i: nat)
    requires BlockedEvent(proxy, i).Open?
    ensures i == 3 * (BlockedEvent(proxy, i).attempt - 1)
  {
  }

  /** The event at `i`, if it opens a context, is numbered by its attempt
      (at most four), sits after the three events of each earlier attempt,
      and uses the proxy of the run. */
  predicate OpenNumbered(trace: seq<Event>, proxy: Option<string>, i: nat)
  {
    i < |trace| && trace[i].Open? ==>
      1 <= trace[i].attempt <= MaxAttempts && i == 3 * (trace[i].attempt - 1) && trace[i].proxy == proxy
  }

  lemma OpenNumberedAt(proxy: Option<string>, attempt: nat -> AttemptEnd, n: nat, tail: seq<Event>, i: nat)
    requires TailShaped(proxy, attempt, n, tail)
    ensures OpenNumbered(Backoffs(proxy, n) + tail, proxy, i)
  {
    var trace := Backoffs(proxy, n) + tail;
    if i < |trace| && trace[i].Open? {
      if i < 3 * n {
        BackoffsAt(proxy, n, tail, i);
        OpenEvent(proxy, i);
      } else {
        TailAt(proxy, n, tail, i);
      }
    }
  }

  /** Every context opened is numbered by its attempt and uses the same
      proxy. */
  lemma OpensNumbered(env: Env, attempt: nat -> AttemptEnd)
    ensures forall i: nat :: OpenNumbered(SessionSpec(env, attempt).1, FlowProxy(env), i)
  {
    var n, tail := TraceShape(env, attempt);
    forall i: nat ensures OpenNumbered(SessionSpec(env, attempt).1, FlowProxy(env), i) {
      OpenNumberedAt(FlowProxy(env), attempt, n, tail, i);
    }
  }

  /** What `TraceShape` says about the part after the blocked attempts. */
  predicate TailShaped(proxy: Option<string>, attempt: nat -> AttemptEnd, n: nat, tail: seq<Event>)
  {
    n <= MaxAttempts
    && (n < MaxAttempts ==> !Blocked(attempt(n + 1)) && tail == Finale(proxy, n + 1, attempt(n + 1)))
    && (n == MaxAttempts ==> forall i :: 0 <= i < |tail| ==> tail[i].WriteLastPage?)
  }

  /** The event at `i`, if it opens a context, is followed by that
      context's close, unless the set-up after the launch raised, which
      ends the trace. */
  predicate OpenClosed(trace: seq<Event>, attempt: nat -> AttemptEnd, i: nat)
  {
    i < |trace| && trace[i].Open? ==>
      (i + 1 < |trace| && trace[i + 1] == Close(trace[i].attempt))
      || (attempt(trace[i].attempt).SetupFailed? && i == |trace| - 1)
  }

  /** The event at `i`, if it closes a context, follows the open of the same
      attempt. */
  predicate CloseOpened(trace: seq<Event>, proxy: Option<string>, i: nat)
  {
    i < |trace| && trace[i].Close? ==> i > 0 && trace[i - 1] == Open(trace[i].attempt, proxy)
  }

  lemma OpenClosedAt(proxy: Option<string>, attempt: nat -> AttemptEnd, n: nat, tail: seq<Event>, i: nat)
    requires TailShaped(proxy, attempt, n, tail)
    ensures OpenClosed(Backoffs(proxy, n) + tail, attempt, i)
  {
    var trace := Backoffs(proxy, n) + tail;
    if i < |trace| && trace[i].Open? {
      if i < 3 * n {
        BackoffsAt(proxy, n, tail, i);
        BackoffsAt(proxy, n, tail, i + 1);
      } else {
        TailAt(proxy, n, tail, i);
        if i + 1 < 3 * n + |tail| {
          TailAt(proxy, n, tail, i + 1);
        }
      }
    }
  }

  lemma CloseOpenedAt(proxy: Option<string>, attempt: nat -> AttemptEnd, n: nat, tail: seq<Event>, i: nat)
    requires TailShaped(proxy, attempt, n, tail)
    ensures CloseOpened(Backoffs(proxy, n) + tail, proxy, i)
  {
    var trace := Backoffs(proxy, n) + tail;
    if i < |trace| && trace[i].Close? {
      if i < 3 * n {
        BackoffsAt(proxy, n, tail, i);
        BackoffsAt(proxy, n, tail, i - 1);
      } else {
        TailAt(proxy, n, tail, i);
        assert i != 3 * n;
        TailAt(proxy, n, tail, i - 1);
      }
    }
  }

  /** Every context opened is closed by the very next event, except when
      the set-up after the launch raised. */
  lemma EveryOpenClosed(env: Env, attempt: nat -> AttemptEnd)
    ensures forall i: nat :: OpenClosed(SessionSpec(env, attempt).1, attempt, i)
  {
    var n, tail := TraceShape(env, attempt);
    forall i: nat ensures OpenClosed(SessionSpec(env, attempt).1, attempt, i) {
      OpenClosedAt(FlowProxy(env), attempt, n, tail, i);
    }
  }

  /** Every close follows the open of the same attempt. */
  lemma EveryCloseOpened(env: Env, attempt: nat -> AttemptEnd)
    ensures forall i: nat :: CloseOpened(SessionSpec(env, attempt).1, FlowProxy(env), i)
  {
    var n, tail := TraceShape(env, attempt);
    forall i: nat ensures CloseOpened(SessionSpec(env, attempt).1, FlowProxy(env), i) {
      CloseOpenedAt(FlowProxy(env), attempt, n, tail, i);
    }
  }

  /** The event at `i`, if it opens a context for a blocked attempt, is
      followed by that context's close and the back-off of 0.9 + 0.5 *
      attempt seconds; the next attempt, if any is left and its launch does
      not raise, opens right after. */
  predicate BacksOffAt(trace: seq<Event>, attempt: nat -> AttemptEnd, proxy: Option<string>, i: nat)
  {
    i < |trace| && trace[i].Open? && Blocked(attempt(trace[i].attempt)) ==>
      i + 2 < |trace| && trace[i + 1] == Close(trace[i].attempt)
      && trace[i + 2] == Backoff(BackoffMs(trace[i].attempt))
      && (trace[i].attempt < MaxAttempts && !attempt(trace[i].attempt + 1).LaunchFailed? ==>
            i + 3 < |trace| && trace[i + 3] == Open(trace[i].attempt + 1, proxy))
  }

  /** A blocked attempt's open lies among the events of the blocked run. */
  lemma BlockedOpenInBackoffs(proxy: Option<string>, attempt: nat -> AttemptEnd, n: nat, tail: seq<Event>, i: nat)
    requires TailShaped(proxy, attempt, n, tail)
    requires i < |Backoffs(proxy, n) + tail| && (Backoffs(proxy, n) + tail)[i].Open?
    requires Blocked(attempt((Backoffs(proxy, n) + tail)[i].attempt))
    ensures i < 3 * n
  {
    if i >= 3 * n {
      TailAt(proxy, n, tail, i);
      assert false;
    }
  }

  /** The three events after the open at `i` of the blocked run. */
  lemma BackoffEvents(proxy: Option<string>, attempt: nat -> AttemptEnd, n: nat, tail: seq<Event>, i: nat)
    requires TailShaped(proxy, attempt, n, tail)
    requires i < 3 * n && i % 3 == 0
    ensures var trace, k := Backoffs(proxy, n) + tail, i / 3 + 1;
            i + 2 < |trace| && trace[i + 1] == Close(k) && trace[i + 2] == Backoff(BackoffMs(k))
            && (k < MaxAttempts && !attempt(k + 1).LaunchFailed? ==> i + 3 < |trace| && trace[i + 3] == Open(k + 1, proxy))
  {
    BlockedCloses(proxy, attempt, n, tail, i);
    NextOpens(proxy, attempt, n, tail, i);
  }

  /** A blocked attempt's open is followed by its close and its back-off. */
  lemma BlockedCloses(proxy: Option<string>, attempt: nat -> AttemptEnd, n: nat, tail: seq<Event>, i: nat)
    requires TailShaped(proxy, attempt, n, tail)
    requires i < 3 * n && i % 3 == 0
    ensures var trace, k := Backoffs(proxy, n) + tail, i / 3 + 1;
            i + 2 < |trace| && trace[i + 1] == Close(k) && trace[i + 2] == Backoff(BackoffMs(k))
  {
    BackoffsAt(proxy, n, tail, i + 1);
    BackoffsAt(proxy, n, tail, i + 2);
  }

  /** After a blocked attempt's back-off the next attempt opens, unless its
      launch failed or the attempts ran out. */
  lemma NextOpens(proxy: Option<string>, attempt: nat -> AttemptEnd, n: nat, tail: seq<Event>, i: nat)
    requires TailShaped(proxy, attempt, n, tail)
    requires i < 3 * n && i % 3 == 0
    ensures var trace, k := Backoffs(proxy, n) + tail, i / 3 + 1;
            k < MaxAttempts && !attempt(k + 1).LaunchFailed? ==> i + 3 < |trace| && trace[i + 3] == Open(k + 1, proxy)
  {
    if i + 3 < 3 * n {
      BackoffsAt(proxy, n, tail, i + 3);
    } else if i / 3 + 1 < MaxAttempts && !attempt(i / 3 + 2).LaunchFailed? {
      TailAt(proxy, n, tail, i + 3);
    }
  }

  lemma BacksOffFrom(proxy: Option<string>, attempt: nat -> AttemptEnd, n: nat, tail: seq<Event>, i: nat)
    requires TailShaped(proxy, attempt, n, tail)
    ensures BacksOffAt(Backoffs(proxy, n) + tail, attempt, proxy, i)
  {
    var trace := Backoffs(proxy, n) + tail;
    if i < |trace| && trace[i].Open? && Blocked(attempt(trace[i].attempt)) {
      BlockedOpenInBackoffs(proxy, attempt, n, tail, i);
      BackoffsAt(proxy, n, tail, i);
      OpenEvent(proxy, i);
      BackoffEvents(proxy, attempt, n, tail, i);
    }
  }

  /** Every blocked attempt is closed and backed off from before the next
      one opens. */
  lemma BlockedBacksOff(env: Env, attempt: nat -> AttemptEnd)
    ensures forall i: nat :: BacksOffAt(SessionSpec(env, attempt).1, attempt, FlowProxy(env), i)
  {
    var n, tail := TraceShape(env, attempt);
    forall i: nat ensures BacksOffAt(SessionSpec(env, attempt).1, attempt, FlowProxy(env), i) {
      BacksOffFrom(FlowProxy(env), attempt, n, tail, i);
    }
  }
}
