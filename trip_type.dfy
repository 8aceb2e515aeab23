/** Trip-type control in src/playwright_utils.py: `ensure_one_way`, which
    clicks the first one-way control it can and never fails, and
    `force_one_way`, which ends by asserting that the radio is checked. */
module TripType {
  import opened Wrappers
  import opened Text
  import opened Cascade
  import opened Dom

  // ---------------------------------------------------------- ensure_one_way

  /** How a candidate control was activated. */
  datatype Action = Check | Click

  /** What the browser answered for one candidate: its tag name, its `type`
      property (read only for inputs), and the outcome of the check or click
      that was attempted. */
  datatype Probe = Probe(tag: Result<string>, kind: Result<string>, acted: Outcome)

  /** The action the code chooses for a candidate, or `None` when a read
      raised before any action. Radios are checked, everything else is
      clicked. */
  function ActionFor(p: Probe): (a: Option<Action>)
    ensures a == Some(Check) ==> p.tag.Ok? && Lower(Strip(p.tag.value)) == "input"
                                 && p.kind.Ok? && Lower(p.kind.value) == "radio"
    ensures p.tag.Ok? && Lower(Strip(p.tag.value)) != "input" ==> a == Some(Click)
  {
    if p.tag.Err? then None
    else if Lower(Strip(p.tag.value)) == "input" then
      if p.kind.Err? then None
      else if p.kind.value != "" && Lower(p.kind.value) == "radio" then Some(Check)
      else Some(Click)
    else Some(Click)
  }

  /** Every exception inside the loop moves on to the next candidate. */
  function ProbeStep(p: Probe): Step
  {
    if ActionFor(p).Some? && p.acted.Pass? then Stop else Next
  }

  /** The eight candidate controls: radio, button, label and text named
      "one way", then radios whose value, id or name mentions "one", then any
      element whose `data-trip` does. */
  const CandidateCount: nat := 8

  function EnsureSteps(probe: nat -> Probe): (steps: seq<Step>)
    ensures |steps| == CandidateCount
  {
    seq(CandidateCount, k requires 0 <= k < CandidateCount => ProbeStep(probe(k)))
  }

  /** `ensure_one_way`: walk the candidates in order and stop at the first
      whose check or click completes. `probe(k)` is what the k-th candidate
      answered. It never raises: `clicked` is false when every candidate
      failed, and the read-back that follows decides nothing. */
  method EnsureOneWay(probe: nat -> Probe) returns (clicked: bool, chosen: Option<(nat, Action)>)
    ensures clicked <==> Run(EnsureSteps(probe)).Stopped?
    ensures clicked ==> chosen.Some? && chosen.value.0 == Run(EnsureSteps(probe)).at
                        && Some(chosen.value.1) == ActionFor(probe(chosen.value.0))
                        && probe(chosen.value.0).acted == Pass
    ensures !clicked ==> chosen.None?
    ensures !Run(EnsureSteps(probe)).Raised?
  {
    ghost var steps := EnsureSteps(probe);
    clicked, chosen := false, None;
    var k := 0;
    while k < CandidateCount
      invariant 0 <= k <= CandidateCount
      invariant AllNext(steps[..k])
    {
      var p := probe(k);
      var action: Option<Action> := None;
      if p.tag.Ok? {
        if Lower(Strip(p.tag.value)) == "input" {
          if p.kind.Ok? {
            action := if p.kind.value != "" && Lower(p.kind.value) == "radio" then Some(Check) else Some(Click);
          }
        } else {
          action := Some(Click);
        }
      }
      if action.Some? && p.acted.Pass? {
        RunAt(steps, k);
        clicked, chosen := true, Some((k, action.value));
        return;
      }
      AllNextGrow(steps, k);
      k := k + 1;
    }
    assert steps[..k] == steps;
    RunAllNext(steps);
  }

  /** Candidates after the first that completes are never touched: changing
      what they would answer changes nothing. */
  lemma EnsureIgnoresLaterCandidates(probe: nat -> Probe, other: nat -> Probe)
    requires Run(EnsureSteps(probe)).Stopped?
    requires forall k :: 0 <= k <= Run(EnsureSteps(probe)).at ==> other(k) == probe(k)
    ensures Run(EnsureSteps(other)) == Run(EnsureSteps(probe))
  {
    var s, t := EnsureSteps(probe), EnsureSteps(other);
    var n := Tried(s);
    forall k | 0 <= k < n ensures s[..n][k] == t[..n][k] {
      assert s[k] == ProbeStep(probe(k)) && t[k] == ProbeStep(other(k));
    }
    assert s[..n] == t[..n];
    RunIgnoresLater(s, t);
  }

  // ----------------------------------------------------------- force_one_way

  /** The element the label `for="flightSearchForm.tripType.oneWay"` and the
      Playwright locator `#flightSearchForm\.tripType\.oneWay` designate. */
  predicate IsOneWayRadio(x: Input)
  {
    x.id == OneWayRadioId
  }

  /** The return-date input the script clears. */
  predicate IsReturnDate(x: Input)
  {
    x.id == "aa-returningFrom"
  }

  function CountWhere(xs: seq<Input>, p: Input -> bool): (n: nat)
    ensures n <= |xs|
    ensures n == 0 <==> forall j :: 0 <= j < |xs| ==> !p(xs[j])
  {
    if xs == [] then 0 else (if p(xs[0]) then 1 else 0) + CountWhere(xs[1..], p)
  }

  /** Playwright's `is_checked` on the radio locator: no match waits until
      the timeout, two or more matches violate strict mode. */
  function ReadRadio(xs: seq<Input>): (r: Result<bool>)
    ensures r.Ok? <==> CountWhere(xs, IsOneWayRadio) == 1
    ensures r.Ok? ==> FirstWhere(xs, IsOneWayRadio).Some?
                      && r.value == xs[FirstWhere(xs, IsOneWayRadio).value].checked
  {
    var n := CountWhere(xs, IsOneWayRadio);
    if n == 0 then Err(Timeout("is_checked"))
    else if n > 1 then Err(BrowserError("strict mode violation"))
    else
      var i := FirstWhere(xs, IsOneWayRadio).value;
      Ok(xs[i].checked)
  }

  /** Check the first element `p` selects, if any. */
  function SetFirst(xs: seq<Input>, p: Input -> bool, checked: bool): (ys: seq<Input>)
    ensures |ys| == |xs|
  {
    match FirstWhere(xs, p)
    case None => xs
    case Some(i) => xs[i := xs[i].(checked := checked)]
  }

  /** A completed label click (or forced check) checks the radio. */
  function ClickedRadio(xs: seq<Input>, clicked: Outcome): (ys: seq<Input>)
    ensures |ys| == |xs|
  {
    if clicked.Pass? then SetFirst(xs, IsOneWayRadio, true) else xs
  }

  /** The injected script of `force_one_way`: the elements its two radio
      selectors find are checked and unchecked, and the return-date input
      `#aa-returningFrom` is cleared and disabled. */
  function ScriptEffect(xs: seq<Input>, one: Compound, roundTrip: Compound): (ys: seq<Input>)
    ensures |ys| == |xs|
  {
    var afterOne := SetFirst(xs, x => MatchesCompound(x, one), true);
    var afterRt := SetFirst(afterOne, x => MatchesCompound(x, roundTrip), false);
    match FirstWhere(afterRt, IsReturnDate)
    case None => afterRt
    case Some(i) => afterRt[i := afterRt[i].(value := "", disabled := true)]
  }

  /** The radio selectors as the script reads them: the JavaScript literal
      drops the escapes. */
  const ScriptRoundTrip: Compound := Compound(SelectorForm, [SelectorTrip, "roundTrip"])

  /** The radio selectors the script evidently means: the radios' ids. */
  const RoundTripRadio: Compound := Compound(SelectorForm + "." + SelectorTrip + ".roundTrip", [])

  /** The document after every step of `force_one_way` but the final read.
      `labelClick` and `forceCheck` are the outcomes of the label click and
      of the forced check, whose failures are swallowed. */
  function ForceOneWayState(xs: seq<Input>, one: Compound, roundTrip: Compound,
                            labelClick: Outcome, forceCheck: Outcome): (ys: seq<Input>)
    ensures |ys| == |xs|
  {
    var afterScript := ScriptEffect(ClickedRadio(xs, labelClick), one, roundTrip);
    if ReadRadio(afterScript) == Ok(false) then ClickedRadio(afterScript, forceCheck) else afterScript
  }

  /** What `force_one_way` returns: the challenge guard's failure, or the
      final assertion on the radio. */
  function ForceOneWayOutcome(xs: seq<Input>, one: Compound, roundTrip: Compound, guard: Outcome,
                              labelClick: Outcome, forceCheck: Outcome): (r: Outcome)
    ensures guard.Fail? ==> r == guard
  {
    if guard.Fail? then guard
    else match ReadRadio(ForceOneWayState(xs, one, roundTrip, labelClick, forceCheck))
      case Err(e) => Fail(e)
      case Ok(true) => Pass
      case Ok(false) => Fail(AssertionError("One-way did not toggle"))
  }

  /** Sets `checked` on the first element `p` selects, in place. */
  method SetFirstInPlace(doc: array<Input>, p: Input -> bool, checked: bool)
    modifies doc
    ensures doc[..] == SetFirst(old(doc[..]), p, checked)
  {
    var i := FirstWhere(doc[..], p);
    if i.Some? {
      doc[i.value] := doc[i.value].(checked := checked);
    }
  }

  /** The script's three lookups, in place. */
  method RunScript(doc: array<Input>, one: Compound, roundTrip: Compound)
    modifies doc
    ensures doc[..] == ScriptEffect(old(doc[..]), one, roundTrip)
  {
    SetFirstInPlace(doc, x => MatchesCompound(x, one), true);
    SetFirstInPlace(doc, x => MatchesCompound(x, roundTrip), false);
    var ret := FirstWhere(doc[..], IsReturnDate);
    if ret.Some? {
      doc[ret.value] := doc[ret.value].(value := "", disabled := true);
    }
  }

  /** `force_one_way` on the document's inputs `doc`, with the script's radio
      lookups by the radios' ids. */
  method ForceOneWay(doc: array<Input>, guard: Outcome, labelClick: Outcome, forceCheck: Outcome)
    returns (r: Outcome)
    modifies doc
    ensures r == ForceOneWayOutcome(old(doc[..]), LocatorRadio, RoundTripRadio, guard, labelClick, forceCheck)
    ensures guard.Pass? ==> doc[..] == ForceOneWayState(old(doc[..]), LocatorRadio, RoundTripRadio, labelClick, forceCheck)
    ensures guard.Fail? ==> doc[..] == old(doc[..])
  {
    if guard.Fail? {
      return guard;
    }
    // 1) label click; a failure is swallowed
    if labelClick.Pass? {
      SetFirstInPlace(doc, IsOneWayRadio, true);
    }
    // 2) the injected script
    RunScript(doc, LocatorRadio, RoundTripRadio);
    // 3) force the radio when it reads unchecked; failures are swallowed
    var first := ReadRadio(doc[..]);
    if first == Ok(false) && forceCheck.Pass? {
      SetFirstInPlace(doc, IsOneWayRadio, true);
    }
    // 4) the final assertion
    var last := ReadRadio(doc[..]);
    r := match last
      case Err(e) => Fail(e)
      case Ok(true) => Pass
      case Ok(false) => Fail(AssertionError("One-way did not toggle"));
  }

  /** `force_one_way` succeeds only with a single radio that ends checked, and
      the assertion error is raised only when that radio reads unchecked. */
  lemma ForceOneWayPassMeansChecked(xs: seq<Input>, one: Compound, roundTrip: Compound, guard: Outcome,
                                    labelClick: Outcome, forceCheck: Outcome)
    ensures var ys := ForceOneWayState(xs, one, roundTrip, labelClick, forceCheck);
            ForceOneWayOutcome(xs, one, roundTrip, guard, labelClick, forceCheck) == Pass
            <==> guard.Pass? && ReadRadio(ys) == Ok(true)
    ensures var ys := ForceOneWayState(xs, one, roundTrip, labelClick, forceCheck);
            guard.Pass? ==>
              (ForceOneWayOutcome(xs, one, roundTrip, guard, labelClick, forceCheck)
                 == Fail(AssertionError("One-way did not toggle"))
               <==> ReadRadio(ys) == Ok(false))
  {
  }

  /** With the radio present once, a completed forced check is enough. */
  lemma ForcedCheckSuffices(xs: seq<Input>, one: Compound, roundTrip: Compound, labelClick: Outcome)
    requires CountWhere(ScriptEffect(ClickedRadio(xs, labelClick), one, roundTrip), IsOneWayRadio) == 1
    ensures ForceOneWayOutcome(xs, one, roundTrip, Pass, labelClick, Pass) == Pass
  {
    var s := ScriptEffect(ClickedRadio(xs, labelClick), one, roundTrip);
    if ReadRadio(s) == Ok(false) {
      CheckingTheRadio(s);
    }
  }

  /** Checking the single radio makes it read checked. */
  lemma CheckingTheRadio(s: seq<Input>)
    requires CountWhere(s, IsOneWayRadio) == 1
    ensures ReadRadio(ClickedRadio(s, Pass)) == Ok(true)
  {
    var i := FirstWhere(s, IsOneWayRadio).value;
    var t := ClickedRadio(s, Pass);
    assert t == s[i := s[i].(checked := true)];
    CountSameIds(s, t);
    assert FirstWhere(t, IsOneWayRadio) == Some(i) by {
      assert forall j :: 0 <= j < i ==> t[j] == s[j];
    }
  }

  /** Changing `checked` or `value` never changes which elements carry an
      id. */
  lemma CountSameIds(s: seq<Input>, t: seq<Input>)
    requires |s| == |t| && forall j :: 0 <= j < |s| ==> s[j].id == t[j].id
    ensures CountWhere(s, IsOneWayRadio) == CountWhere(t, IsOneWayRadio)
  {
    if s != [] {
      CountSameIds(s[1..], t[1..]);
    }
  }

  /** As written, the script looks the radio up with the selector that lost
      its escapes: on aa.com's form, with the label click and the forced check
      both failing, the call ends in the assertion error; with the radio
      looked up by its id, the script itself checks it and the call
      succeeds. */
  lemma ScriptMissesRadio()
    ensures ForceOneWayOutcome([AaRadio(false)], ScriptRadio, ScriptRoundTrip, Pass,
                               Fail(Timeout("click")), Fail(Timeout("check")))
            == Fail(AssertionError("One-way did not toggle"))
    ensures ForceOneWayOutcome([AaRadio(false)], LocatorRadio, RoundTripRadio, Pass,
                               Fail(Timeout("click")), Fail(Timeout("check")))
            == Pass
  {
    var xs := [AaRadio(false)];
    assert OneWayRadioId != SelectorForm by { assert |OneWayRadioId| != |SelectorForm|; }
    assert !MatchesCompound(xs[0], ScriptRadio) && !MatchesCompound(xs[0], ScriptRoundTrip);
    assert ScriptEffect(xs, ScriptRadio, ScriptRoundTrip) == xs;
    assert CountWhere(xs, IsOneWayRadio) == 1;
    assert MatchesCompound(xs[0], LocatorRadio);
    assert RoundTripRadio.id != OneWayRadioId by {
      assert RoundTripRadio.id[|RoundTripRadio.id| - 1] != OneWayRadioId[|OneWayRadioId| - 1];
    }
    var ys := ScriptEffect(xs, LocatorRadio, RoundTripRadio);
    assert ys == [AaRadio(true)];
    assert CountWhere(ys, IsOneWayRadio) == 1;
  }
}
