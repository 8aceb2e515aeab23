/** Ordered fallbacks ("strategy cascades").

    Every fallback list in the scraper has the same shape: the candidates are
    tried in order, a candidate either settles the matter (`Stop`), lets the
    next one be tried (`Next`, for instance after a swallowed timeout), or lets
    an exception escape (`Raise`). `Run` is the reference meaning of such a
    list; the methods that walk a concrete list are proved against it. */
module Cascade {
  import opened Wrappers

  datatype Step = Next | Stop | Raise(error: Error)

  /** Which candidate ended the walk, if any. */
  datatype Verdict = Stopped(at: nat) | Raised(at: nat, error: Error) | Exhausted

  predicate AllNext(steps: seq<Step>)
  {
    forall j :: 0 <= j < |steps| ==> steps[j] == Next
  }

  function Shift(v: Verdict, offset: nat): Verdict
  {
    match v
    case Stopped(a) => Stopped(a + offset)
    case Raised(a, e) => Raised(a + offset, e)
    case Exhausted => Exhausted
  }

  /** The first candidate that does not pass the turn decides. */
  function Run(steps: seq<Step>): (v: Verdict)
    ensures v.Stopped? ==> v.at < |steps| && steps[v.at] == Stop && AllNext(steps[..v.at])
    ensures v.Raised? ==> v.at < |steps| && steps[v.at] == Raise(v.error) && AllNext(steps[..v.at])
    ensures v.Exhausted? <==> AllNext(steps)
  {
    if |steps| == 0 then Exhausted
    else match steps[0]
      case Stop => Stopped(0)
      case Raise(e) => Raised(0, e)
      case Next => Shift(Run(steps[1..]), 1)
  }

  /** How many candidates were invoked: up to and including the deciding one. */
  function Tried(steps: seq<Step>): (n: nat)
    ensures n <= |steps|
  {
    match Run(steps)
    case Stopped(a) => a + 1
    case Raised(a, _) => a + 1
    case Exhausted => |steps|
  }

  /** A cascade that returns a flag: `True` at the first success, `False` when
      every candidate passed, or the escaping exception. */
  function AsFlag(v: Verdict): Result<bool>
  {
    match v
    case Stopped(_) => Ok(true)
    case Exhausted => Ok(false)
    case Raised(_, e) => Err(e)
  }

  /** The common catch clause `except PWTimeout: continue`: completing stops
      the walk, a timeout passes the turn, any other failure escapes. */
  function TimeoutStep(o: Outcome): (s: Step)
    ensures s == Next <==> o.TimedOut()
    ensures s.Raise? ==> o == Fail(s.error)
  {
    match o
    case Pass => Stop
    case Fail(e) => if e.Timeout? then Next else Raise(e)
  }

  /** The verdict is pinned down by the first candidate that does not pass. */
  lemma RunAt(steps: seq<Step>, i: nat)
    requires i < |steps| && AllNext(steps[..i]) && steps[i] != Next
    ensures Run(steps) == if steps[i] == Stop then Stopped(i) else Raised(i, steps[i].error)
    ensures Tried(steps) == i + 1
  {
    forall j | 0 <= j < i ensures steps[j] == Next {
      assert steps[..i][j] == steps[j];
    }
    var v := Run(steps);
    if !v.Exhausted? {
      forall j | 0 <= j < v.at ensures steps[j] == Next {
        assert steps[..v.at][j] == steps[j];
      }
    }
  }

  /** A further candidate that passes the turn keeps the prefix passing. */
  lemma AllNextGrow(steps: seq<Step>, k: nat)
    requires k < |steps| && AllNext(steps[..k]) && steps[k] == Next
    ensures AllNext(steps[..k + 1])
  {
    assert steps[..k + 1] == steps[..k] + [Next];
  }

  lemma RunAllNext(steps: seq<Step>)
    requires AllNext(steps)
    ensures Run(steps) == Exhausted && Tried(steps) == |steps|
  {
  }

  /** Walking `a + b` is walking `a`, and only if every candidate of `a`
      passed, walking `b` after it. */
  lemma {:induction false} RunAppend(a: seq<Step>, b: seq<Step>)
    ensures Run(a + b) == if Run(a).Exhausted? then Shift(Run(b), |a|) else Run(a)
    decreases |a|
  {
    if |a| > 0 {
      assert (a + b)[0] == a[0];
      if a[0] == Next {
        assert (a + b)[1..] == a[1..] + b;
        RunAppend(a[1..], b);
        match Run(b) {
          case Stopped(_) =>
          case Raised(_, _) =>
          case Exhausted =>
        }
      }
    } else {
      assert a + b == b;
      match Run(b) {
        case Stopped(_) =>
        case Raised(_, _) =>
        case Exhausted =>
      }
    }
  }

  /** Candidates after the deciding one are never consulted: two lists of
      the same length that agree up to it have the same verdict. */
  lemma RunIgnoresLater(s: seq<Step>, t: seq<Step>)
    requires |s| == |t| && s[..Tried(s)] == t[..Tried(s)]
    ensures Run(s) == Run(t) && Tried(s) == Tried(t)
  {
    match Run(s) {
      case Stopped(a) =>
        assert s[..a] == t[..a] && t[a] == s[a];
        RunAt(t, a);
      case Raised(a, _) =>
        assert s[..a] == t[..a] && t[a] == s[a];
        RunAt(t, a);
      case Exhausted =>
        assert t == s;
    }
  }
}
