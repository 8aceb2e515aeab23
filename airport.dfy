/** Filling an airport field: the pattern list and four-stage cascade of
    `fill_airport` in src/search_and_capture.py, and the shorter cascade of
    `fill_airport` in src/playwright_flow.py. */
module Airport {
  import opened Wrappers
  import opened Text
  import opened Cascade

  // ---------------------------------------------------------------- patterns

  /** A character regular expressions count as part of a word (ASCII). */
  predicate IsWordChar(c: char)
  {
    'a' <= c <= 'z' || 'A' <= c <= 'Z' || IsDigit(c) || c == '_'
  }

  /** `\b` at position `p` of `t`: a word character on exactly one side. */
  predicate Boundary(t: string, p: int)
  {
    (0 < p <= |t| && IsWordChar(t[p - 1])) != (0 <= p < |t| && IsWordChar(t[p]))
  }

  /** `\b<w>\b` under `re.I` matches at `i`. */
  predicate WordAt(t: string, w: string, i: int)
  {
    IsAtIgnoreCase(t, Lower(w), i) && Boundary(t, i) && Boundary(t, i + |w|)
  }

  /** `.*` spans `t[i..j]`: it never crosses a line break. */
  predicate NoBreak(t: string, i: int, j: int)
    requires 0 <= i <= j <= |t|
  {
    forall k :: i <= k < j ==> t[k] != '\n'
  }

  /** The three regular expressions the cascade searches with; code and hint
      are inserted through `re.escape`, so they match literally. */
  datatype Pattern =
    | CodeThenCity(code: string, city: string)   // \bCODE\b.*CITY
    | CityThenCode(city: string, code: string)   // CITY.*\bCODE\b
    | Bare(code: string)                         // \bCODE\b

  /** `pattern.search(t)` succeeds. */
  predicate Matches(p: Pattern, t: string)
  {
    match p
    case Bare(c) => exists i | 0 <= i <= |t| :: WordAt(t, c, i)
    case CodeThenCity(c, h) =>
      exists i, j | 0 <= i <= |t| && i + |c| <= j <= |t| - |h| ::
        WordAt(t, c, i) && IsAtIgnoreCase(t, Lower(h), j) && NoBreak(t, i + |c|, j)
    case CityThenCode(h, c) =>
      exists j, i | 0 <= j <= |t| && j + |h| <= i <= |t| - |c| ::
        IsAtIgnoreCase(t, Lower(h), j) && WordAt(t, c, i) && NoBreak(t, j + |h|, i)
  }

  /** Builds `patterns` by appending, as the source does: with a non-empty
      city hint the two code-and-city orders come first, the bare code is
      always last. */
  method BuildPatterns(code: string, cityHint: Option<string>) returns (patterns: seq<Pattern>)
    ensures cityHint.Some? && cityHint.value != "" ==>
              patterns == [CodeThenCity(code, cityHint.value), CityThenCode(cityHint.value, code), Bare(code)]
    ensures !(cityHint.Some? && cityHint.value != "") ==> patterns == [Bare(code)]
  {
    patterns := [];
    if cityHint.Some? && cityHint.value != "" {
      patterns := patterns + [CodeThenCity(code, cityHint.value)];
      patterns := patterns + [CityThenCode(cityHint.value, code)];
    }
    patterns := patterns + [Bare(code)];
  }

  /** Every pattern of the list asks for the code as a whole word, letter
      case aside; the city is needed only by the patterns that name it. */
  lemma EveryPatternNeedsCode(code: string, cityHint: Option<string>, p: Pattern, t: string)
    requires p == Bare(code) || (cityHint.Some? && cityHint.value != ""
             && (p == CodeThenCity(code, cityHint.value) || p == CityThenCode(cityHint.value, code)))
    requires Matches(p, t)
    ensures Matches(Bare(code), t)
    ensures !p.Bare? ==> ContainsIgnoreCase(t, Lower(cityHint.value))
  {
    match p
    case Bare(_) =>
    case CodeThenCity(c, h) =>
      var i, j :| 0 <= i <= |t| && i + |c| <= j <= |t| - |h|
                  && WordAt(t, c, i) && IsAtIgnoreCase(t, Lower(h), j) && NoBreak(t, i + |c|, j);
      assert WordAt(t, code, i);
      assert IsAtIgnoreCase(t, Lower(h), j);
    case CityThenCode(h, c) =>
      var j, i :| 0 <= j <= |t| && j + |h| <= i <= |t| - |c|
                  && IsAtIgnoreCase(t, Lower(h), j) && WordAt(t, c, i) && NoBreak(t, j + |h|, i);
      assert WordAt(t, code, i);
      assert IsAtIgnoreCase(t, Lower(h), j);
  }

  /** A code glued to more letters is no match: `\b` fails inside a word. */
  lemma CodeInsideWordMisses(code: string, t: string)
    requires |code| >= 1 && forall k :: 0 <= k < |code| ==> IsWordChar(code[k])
    requires forall k :: 0 <= k < |t| ==> IsWordChar(t[k])
    requires |t| > |code|
    ensures !Matches(Bare(code), t)
  {
    forall i | 0 <= i <= |t| ensures !WordAt(t, code, i) {
      if i == 0 {
        assert IsWordChar(t[|code| - 1]) && IsWordChar(t[|code|]);
        assert !Boundary(t, |code|);
      } else if i < |t| {
        assert IsWordChar(t[i - 1]) && IsWordChar(t[i]);
        assert !Boundary(t, i);
      }
    }
  }

  // ----------------------------------------------------------------- cascade

  /** What the page shows and answers while the field is filled.
      `options` are the accessible names of the `option` elements and `items`
      the texts of the autocomplete list's links; `optionClick(k)` and
      `itemClick(k)` are what clicking the first one matching pattern `k`
      met; `keys(j)` is what the `j`-th ArrowDown+Enter try met. */
  datatype AirportPage = AirportPage(
    click: Outcome, clear: Outcome, typed: Outcome,
    options: seq<string>, optionClick: nat -> Outcome,
    items: seq<string>, itemClick: nat -> Outcome,
    keys: nat -> Outcome, nudge: Outcome)

  /** Which tactic selected the airport; the index is the pattern's or the
      keyboard try's. */
  datatype Tactic = ByOption(k: nat) | ByItem(k: nat) | ByKeys(k: nat) | ByNudge

  predicate AnyMatch(names: seq<string>, p: Pattern)
  {
    exists n | 0 <= n < |names| :: Matches(p, names[n])
  }

  /** Clicking `.first` of a locator that matches nothing waits out its
      800 ms and raises a timeout. */
  function ClickFirst(names: seq<string>, p: Pattern, click: Outcome): (o: Outcome)
    ensures !AnyMatch(names, p) ==> o.TimedOut()
    ensures AnyMatch(names, p) ==> o == click
  {
    if AnyMatch(names, p) then click else Fail(Timeout("locator.click: Timeout 800ms exceeded"))
  }

  /** One `for pat in patterns` click loop: pattern `k` clicks the first
      of `names` it matches, and only a timeout moves on to the next. */
  function ClickSteps(names: seq<string>, ps: seq<Pattern>, clicks: nat -> Outcome): (steps: seq<Step>)
    ensures |steps| == |ps|
  {
    seq(|ps|, k requires 0 <= k < |ps| => TimeoutStep(ClickFirst(names, ps[k], clicks(k))))
  }

  function OptionSteps(ps: seq<Pattern>, pg: AirportPage): (steps: seq<Step>)
    ensures |steps| == |ps|
  {
    ClickSteps(pg.options, ps, pg.optionClick)
  }

  function ItemSteps(ps: seq<Pattern>, pg: AirportPage): (steps: seq<Step>)
    ensures |steps| == |ps|
  {
    ClickSteps(pg.items, ps, pg.itemClick)
  }

  /** `except Exception`: any failure of the key presses passes the turn. */
  function KeySteps(keys: nat -> Outcome): (steps: seq<Step>)
    ensures |steps| == 2
  {
    seq(2, j requires 0 <= j < 2 => if keys(j).Pass? then Stop else Next)
  }

  /** What `fill_airport` returns and which tactic took effect. Clicking the
      field, typing the code and the last-resort nudge let every failure
      escape; clearing the field swallows a timeout only. The option clicks
      come first, the list-item clicks next, then the keyboard. */
  function FillSpec(ps: seq<Pattern>, pg: AirportPage): (res: (Outcome, Option<Tactic>))
    ensures res.1.Some? <==> res.0 == Pass
  {
    if pg.click.Fail? then (pg.click, None)
    else if pg.clear.Fail? && !pg.clear.TimedOut() then (pg.clear, None)
    else if pg.typed.Fail? then (pg.typed, None)
    else match Run(OptionSteps(ps, pg))
      case Stopped(k) => (Pass, Some(ByOption(k)))
      case Raised(_, e) => (Fail(e), None)
      case Exhausted =>
        match Run(ItemSteps(ps, pg))
        case Stopped(k) => (Pass, Some(ByItem(k)))
        case Raised(_, e) => (Fail(e), None)
        case Exhausted =>
          match Run(KeySteps(pg.keys))
          case Stopped(k) => (Pass, Some(ByKeys(k)))
          case Raised(_, e) => (Fail(e), None)
          case Exhausted => if pg.nudge.Fail? then (pg.nudge, None) else (Pass, Some(ByNudge))
  }

  /** `fill_airport` of src/search_and_capture.py. */
  method FillAirport(code: string, cityHint: Option<string>, pg: AirportPage)
    returns (r: Outcome, tactic: Option<Tactic>)
    ensures cityHint.Some? && cityHint.value != "" ==>
              (r, tactic) == FillSpec([CodeThenCity(code, cityHint.value), CityThenCode(cityHint.value, code), Bare(code)], pg)
    ensures !(cityHint.Some? && cityHint.value != "") ==> (r, tactic) == FillSpec([Bare(code)], pg)
  {
    var patterns := BuildPatterns(code, cityHint);
    if pg.click.Fail? {
      return pg.click, None;
    }
    if pg.clear.Fail? && !pg.clear.error.Timeout? {
      return pg.clear, None;
    }
    if pg.typed.Fail? {
      return pg.typed, None;
    }
    r, tactic := RunTactics(patterns, pg);
  }

  /** A click loop over the patterns, stopping at the first click that does
      not time out. */
  method ClickEach(names: seq<string>, patterns: seq<Pattern>, clicks: nat -> Outcome) returns (v: Verdict)
    ensures v == Run(ClickSteps(names, patterns, clicks))
  {
    ghost var steps := ClickSteps(names, patterns, clicks);
    var k := 0;
    while k < |patterns|
      invariant 0 <= k <= |patterns|
      invariant AllNext(steps[..k])
    {
      var o := ClickFirst(names, patterns[k], clicks(k));
      if o.Pass? || !o.error.Timeout? {
        RunAt(steps, k);
        if o.Pass? {
          return Stopped(k);
        }
        return Raised(k, o.error);
      }
      AllNextGrow(steps, k);
      k := k + 1;
    }
    assert steps[..k] == steps;
    RunAllNext(steps);
    v := Exhausted;
  }

  /** The two ArrowDown+Enter tries; any failure moves on. */
  method PressKeys(keys: nat -> Outcome) returns (v: Verdict)
    ensures v == Run(KeySteps(keys))
  {
    ghost var steps := KeySteps(keys);
    var tries := 0;
    while tries < 2
      invariant 0 <= tries <= 2
      invariant AllNext(steps[..tries])
    {
      var pressed := keys(tries);
      if pressed.Pass? {
        RunAt(steps, tries);
        return Stopped(tries);
      }
      AllNextGrow(steps, tries);
      tries := tries + 1;
    }
    assert steps[..tries] == steps;
    RunAllNext(steps);
    v := Exhausted;
  }

  /** The three loops of the cascade and the nudge, after the code is typed. */
  method RunTactics(patterns: seq<Pattern>, pg: AirportPage) returns (r: Outcome, tactic: Option<Tactic>)
    requires pg.click.Pass? && !(pg.clear.Fail? && !pg.clear.TimedOut()) && pg.typed.Pass?
    ensures (r, tactic) == FillSpec(patterns, pg)
  {
    var v := ClickEach(pg.options, patterns, pg.optionClick);
    match v
    case Stopped(k) => return Pass, Some(ByOption(k));
    case Raised(_, e) => return Fail(e), None;
    case Exhausted =>
    v := ClickEach(pg.items, patterns, pg.itemClick);
    match v
    case Stopped(k) => return Pass, Some(ByItem(k));
    case Raised(_, e) => return Fail(e), None;
    case Exhausted =>
    v := PressKeys(pg.keys);
    match v
    case Stopped(k) => return Pass, Some(ByKeys(k));
    case Raised(_, e) => return Fail(e), None;
    case Exhausted =>
    if pg.nudge.Fail? {
      return pg.nudge, None;
    }
    r, tactic := Pass, Some(ByNudge);
  }

  /** The tactic that took effect is the first that completed: every option
      click is tried before any list item, the keyboard only after both, the
      nudge only after everything else; and a tactic is skipped only when
      its click timed out (or matched nothing) or its key press failed. */
  lemma FillOrder(ps: seq<Pattern>, pg: AirportPage)
    requires FillSpec(ps, pg).0 == Pass
    ensures var opts, items := OptionSteps(ps, pg), ItemSteps(ps, pg);
            match FillSpec(ps, pg).1.value
            case ByOption(k) => k < |ps| && AnyMatch(pg.options, ps[k]) && pg.optionClick(k) == Pass
                                && AllNext(opts[..k])
            case ByItem(k) => k < |ps| && AnyMatch(pg.items, ps[k]) && pg.itemClick(k) == Pass
                              && AllNext(opts) && AllNext(items[..k])
            case ByKeys(k) => k < 2 && pg.keys(k) == Pass && AllNext(opts) && AllNext(items)
                              && forall j :: 0 <= j < k ==> pg.keys(j).Fail?
            case ByNudge => pg.nudge == Pass && AllNext(opts) && AllNext(items)
                            && pg.keys(0).Fail? && pg.keys(1).Fail?
  {
    var keys := KeySteps(pg.keys);
    var opts, items := OptionSteps(ps, pg), ItemSteps(ps, pg);
    match FillSpec(ps, pg).1.value
    case ByOption(k) =>
      assert opts[k] == TimeoutStep(ClickFirst(pg.options, ps[k], pg.optionClick(k)));
    case ByItem(k) =>
      assert items[k] == TimeoutStep(ClickFirst(pg.items, ps[k], pg.itemClick(k)));
    case ByKeys(k) =>
      forall j | 0 <= j < k ensures pg.keys(j).Fail? {
        assert keys[..k][j] == keys[j];
      }
    case ByNudge =>
      assert keys[0] == Next && keys[1] == Next;
  }

  /** Only a timeout moves the option and list-item loops on: when the call
      fails after the code was typed, the failure is a click's own error that
      was not a timeout, or the nudge's. */
  lemma FillFailureOrigin(ps: seq<Pattern>, pg: AirportPage)
    requires pg.click.Pass? && !(pg.clear.Fail? && !pg.clear.TimedOut()) && pg.typed.Pass?
    requires FillSpec(ps, pg).0.Fail?
    ensures var r := FillSpec(ps, pg).0;
            r == pg.nudge
            || exists k :: 0 <= k < |ps| && !r.TimedOut()
                           && ((AnyMatch(pg.options, ps[k]) && pg.optionClick(k) == r)
                               || (AnyMatch(pg.items, ps[k]) && pg.itemClick(k) == r))
  {
    var opts, items := OptionSteps(ps, pg), ItemSteps(ps, pg);
    match Run(opts)
    case Raised(at, _) =>
      assert opts[at] == TimeoutStep(ClickFirst(pg.options, ps[at], pg.optionClick(at)));
    case Stopped(_) =>
    case Exhausted =>
      match Run(items)
      case Raised(at, _) =>
        assert items[at] == TimeoutStep(ClickFirst(pg.items, ps[at], pg.itemClick(at)));
      case Stopped(_) =>
      case Exhausted =>
        assert Run(KeySteps(pg.keys)).Stopped? || Run(KeySteps(pg.keys)).Exhausted?;
  }

  // --------------------------------------------------- the form-scoped flow

  /** What the form-scoped `fill_airport` of src/playwright_flow.py met:
      the challenge wait, waiting for the field, clearing, typing, the two
      clicks (on the option and the list link matching the bare code) and
      the nudge. */
  datatype FlowAirportPage = FlowAirportPage(
    guard: Outcome, visible: Outcome, clear: Outcome, typed: Outcome,
    options: seq<string>, optionClick: Outcome, items: seq<string>, itemClick: Outcome, nudge: Outcome)

  /** The flow version catches every exception around its clicks and its
      nudge, and searches with the bare code only. */
  method FlowFillAirport(code: string, pg: FlowAirportPage) returns (r: Outcome, tactic: Option<Tactic>)
    ensures pg.guard.Fail? ==> r == pg.guard
    ensures pg.guard.Pass? && pg.visible.Fail? ==> r == pg.visible
    ensures pg.guard.Pass? && pg.visible.Pass? && pg.typed.Fail? ==> r == pg.typed
    ensures pg.guard.Pass? && pg.visible.Pass? && pg.typed.Pass? ==> r == Pass && tactic.Some?
    ensures tactic == Some(ByOption(0)) <==>
              r == Pass && ClickFirst(pg.options, Bare(code), pg.optionClick) == Pass
    ensures tactic == Some(ByItem(0)) <==>
              r == Pass && ClickFirst(pg.options, Bare(code), pg.optionClick).Fail?
              && ClickFirst(pg.items, Bare(code), pg.itemClick) == Pass
    ensures tactic == Some(ByNudge) <==>
              r == Pass && ClickFirst(pg.options, Bare(code), pg.optionClick).Fail?
              && ClickFirst(pg.items, Bare(code), pg.itemClick).Fail?
    ensures tactic.Some? ==> tactic.value in {ByOption(0), ByItem(0), ByNudge}
  {
    if pg.guard.Fail? {
      return pg.guard, None;
    }
    if pg.visible.Fail? {
      return pg.visible, None;
    }
    if pg.typed.Fail? {
      return pg.typed, None;
    }
    var o := ClickFirst(pg.options, Bare(code), pg.optionClick);
    if o.Pass? {
      return Pass, Some(ByOption(0));
    }
    var i := ClickFirst(pg.items, Bare(code), pg.itemClick);
    if i.Pass? {
      return Pass, Some(ByItem(0));
    }
    r, tactic := Pass, Some(ByNudge);
  }

  /** The two versions part ways on a click error that is not a timeout:
      the search-and-capture cascade lets it escape, the flow tries the next
      tactic. */
  lemma ClickErrorsDiffer(code: string, e: Error, names: seq<string>)
    requires !e.Timeout? && AnyMatch(names, Bare(code))
    ensures var pg := AirportPage(Pass, Pass, Pass, names, _ => Fail(e), [], _ => Fail(e), _ => Pass, Pass);
            FillSpec([Bare(code)], pg) == (Fail(e), None)
    ensures var fp := FlowAirportPage(Pass, Pass, Pass, Pass, names, Fail(e), [], Fail(e), Pass);
            ClickFirst(fp.options, Bare(code), fp.optionClick).Fail?
            && !AnyMatch(fp.items, Bare(code))
  {
    var pg := AirportPage(Pass, Pass, Pass, names, _ => Fail(e), [], _ => Fail(e), _ => Pass, Pass);
    var opts := OptionSteps([Bare(code)], pg);
    assert opts[0] == TimeoutStep(ClickFirst(names, Bare(code), pg.optionClick(0)));
    assert ClickFirst(names, Bare(code), Fail(e)) == Fail(e);
    assert opts[0] == Raise(e);
    RunAt(opts, 0);
  }
}
