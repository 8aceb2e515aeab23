/** Departure-date selection in src/playwright_utils.py: the calendar path
    (open the picker, page to the month, click the day), the typing path and
    the script path of `select_depart_date`, and `set_depart_date_quick`. */
module DepartDate {
  import opened Wrappers
  import opened Text
  import opened Cascade
  import opened Dates
  import opened Dom

  // --------------------------------------------------- _open_depart_calendar

  /** The five opener selectors, tried in order. */
  const OpenerCount: nat := 5

  function OpenerSteps(click: nat -> Outcome): (steps: seq<Step>)
    ensures |steps| == OpenerCount
  {
    seq(OpenerCount, k requires 0 <= k < OpenerCount => TimeoutStep(click(k)))
  }

  /** Waiting for the dialog swallows a timeout only. */
  function DialogWait(wait: Outcome): (r: Outcome)
    ensures r.Fail? <==> wait.Fail? && !wait.TimedOut()
  {
    if wait.Fail? && !wait.error.Timeout? then wait else Pass
  }

  /** What `_open_depart_calendar` returns: the first opener click that
      completes ends the loop, a timeout tries the next, any other failure
      escapes; when all five time out the "Depart" text is clicked instead
      (the `for ... else` branch). */
  function OpenSpec(click: nat -> Outcome, fallback: Outcome, wait: Outcome): Outcome
  {
    match Run(OpenerSteps(click))
    case Stopped(_) => DialogWait(wait)
    case Raised(_, e) => Fail(e)
    case Exhausted => if fallback.Fail? then fallback else DialogWait(wait)
  }

  method OpenDepartCalendar(click: nat -> Outcome, fallback: Outcome, wait: Outcome) returns (r: Outcome)
    ensures r == OpenSpec(click, fallback, wait)
    ensures r.Fail? ==> (exists k :: 0 <= k < OpenerCount && click(k) == r)
                        || fallback == r || wait == r
  {
    ghost var steps := OpenerSteps(click);
    var k := 0;
    var shown := false;
    while k < OpenerCount
      invariant 0 <= k <= OpenerCount
      invariant AllNext(steps[..k])
    {
      var c := click(k);
      if c.Pass? {
        RunAt(steps, k);
        shown := true;
        break;
      }
      if !c.error.Timeout? {
        RunAt(steps, k);
        return c;
      }
      AllNextGrow(steps, k);
      k := k + 1;
    }
    if !shown {
      assert steps[..k] == steps;
      RunAllNext(steps);
      if fallback.Fail? {
        return fallback;
      }
    }
    r := DialogWait(wait);
  }

  // ------------------------------------------------------------ month pager

  /** `_calendar_next` at pager round `i`: three "next" controls, only a
      timeout moves on to the next one, and when all three time out the Tab
      key is pressed. `click(i, j)` is what the j-th control met in round `i`,
      `tab(i)` what the key press met. */
  function NextSteps(click: (nat, nat) -> Outcome, i: nat): (steps: seq<Step>)
    ensures |steps| == 3
  {
    seq(3, j requires 0 <= j < 3 => TimeoutStep(click(i, j)))
  }

  function NextSpec(click: (nat, nat) -> Outcome, tab: nat -> Outcome, i: nat): (r: Outcome)
  {
    match Run(NextSteps(click, i))
    case Stopped(_) => Pass
    case Raised(_, e) => Fail(e)
    case Exhausted => tab(i)
  }

  method CalendarNext(click: (nat, nat) -> Outcome, tab: nat -> Outcome, i: nat) returns (r: Outcome)
    ensures r == NextSpec(click, tab, i)
    ensures r.Fail? ==> (exists j :: 0 <= j < 3 && click(i, j) == r) || tab(i) == r
  {
    ghost var steps := NextSteps(click, i);
    var j := 0;
    while j < 3
      invariant 0 <= j <= 3
      invariant AllNext(steps[..j])
    {
      var c := click(i, j);
      if c.Pass? || !c.error.Timeout? {
        RunAt(steps, j);
        return c;
      }
      AllNextGrow(steps, j);
      j := j + 1;
    }
    assert steps[..j] == steps;
    RunAllNext(steps);
    r := tab(i);
  }

  /** The upper bound on "next month" clicks. */
  const MaxPages: nat := 24

  /** Round `j` of the pager did not see the header and paged forward. */
  predicate PagedOn(header: nat -> Result<bool>, nextClick: (nat, nat) -> Outcome, nextTab: nat -> Outcome, j: nat)
  {
    header(j) == Ok(false) && NextSpec(nextClick, nextTab, j) == Pass
  }

  /** The pager from its `i`-th round on. `header(i)` is whether the target
      "Month Year" header is visible at round `i` (or the failure to count
      it), `nextClick(i, j)` and `nextTab(i)` what `_calendar_next` met at
      round `i`. Returns the outcome and the number of rounds that paged. */
  function PagerFrom(header: nat -> Result<bool>, nextClick: (nat, nat) -> Outcome,
                     nextTab: nat -> Outcome, i: nat): (res: (Outcome, nat))
    requires i <= MaxPages
    ensures i <= res.1 <= MaxPages
    ensures forall j :: i <= j < res.1 ==> PagedOn(header, nextClick, nextTab, j)
    ensures res.0 == Pass && res.1 < MaxPages ==> header(res.1) == Ok(true)
    ensures res.0.Fail? ==> res.1 < MaxPages
    decreases MaxPages - i
  {
    if i == MaxPages then (Pass, MaxPages)
    else match header(i)
      case Err(e) => (Fail(e), i)
      case Ok(true) => (Pass, i)
      case Ok(false) =>
        var n := NextSpec(nextClick, nextTab, i);
        if n.Fail? then (n, i) else PagerFrom(header, nextClick, nextTab, i + 1)
  }

  /** The `for _ in range(24)` loop of `select_depart_date`: stop as soon as
      the header is visible, otherwise page forward; at most 24 pages. */
  method MonthPager(header: nat -> Result<bool>, nextClick: (nat, nat) -> Outcome, nextTab: nat -> Outcome)
    returns (r: Outcome, pages: nat)
    ensures (r, pages) == PagerFrom(header, nextClick, nextTab, 0)
  {
    pages := 0;
    while pages < MaxPages
      invariant pages <= MaxPages
      invariant PagerFrom(header, nextClick, nextTab, pages) == PagerFrom(header, nextClick, nextTab, 0)
      decreases MaxPages - pages
    {
      PagerRound(header, nextClick, nextTab, pages);
      var visible := header(pages);
      if visible.Err? {
        return Fail(visible.error), pages;
      }
      if visible.value {
        return Pass, pages;
      }
      var n := CalendarNext(nextClick, nextTab, pages);
      if n.Fail? {
        return n, pages;
      }
      pages := pages + 1;
    }
    r := Pass;
  }

  /** One round of the pager: it ends on a header failure, on the header
      shown or on a failed "next"; otherwise it goes on to the next round. */
  lemma PagerRound(header: nat -> Result<bool>, nextClick: (nat, nat) -> Outcome, nextTab: nat -> Outcome, i: nat)
    requires i < MaxPages
    ensures header(i).Err? ==> PagerFrom(header, nextClick, nextTab, i) == (Fail(header(i).error), i)
    ensures header(i) == Ok(true) ==> PagerFrom(header, nextClick, nextTab, i) == (Pass, i)
    ensures header(i) == Ok(false) && NextSpec(nextClick, nextTab, i).Fail? ==>
              PagerFrom(header, nextClick, nextTab, i) == (NextSpec(nextClick, nextTab, i), i)
    ensures header(i) == Ok(false) && NextSpec(nextClick, nextTab, i).Pass? ==>
              PagerFrom(header, nextClick, nextTab, i) == PagerFrom(header, nextClick, nextTab, i + 1)
  {
  }

  // -------------------------------------------------- _try_click_calendar_cell

  /** The seven day-cell selectors, in the order they are tried. */
  function CellSelectors(monthName: string, year: nat, day: nat, iso: string): (sels: seq<string>)
    ensures |sels| == 7
  {
    ["button[aria-label='" + monthName + " " + Decimal(day) + ", " + Decimal(year) + "']",
     "button[aria-label='" + monthName + " " + ZeroPad(day, 2) + ", " + Decimal(year) + "']",
     "td[data-date='" + iso + "']",
     "[data-date='" + iso + "']",
     "[role='gridcell'] >> text=^" + Decimal(day) + "$",
     "button:has-text('^" + Decimal(day) + "$')",
     "[aria-label*='" + monthName + "'][aria-label*=' " + Decimal(day) + "'][aria-label*='" + Decimal(year) + "']"]
  }

  /** The zero-padded label differs from the plain one only for days below
      10; from the 10th on the second candidate repeats the first. */
  lemma PaddedLabelRepeats(monthName: string, year: nat, day: nat, iso: string)
    ensures var sels := CellSelectors(monthName, year, day, iso);
            sels[0] == sels[1] <==> day >= 10
  {
    var sels := CellSelectors(monthName, year, day, iso);
    DecimalLength(day, 1);
    if day >= 10 {
      assert ZeroPad(day, 2) == Decimal(day);
    } else {
      assert |Decimal(day)| == 1;
      ZeroPadLength(day, 2);
      assert |sels[0]| != |sels[1]|;
    }
  }

  function CellSteps(click: nat -> Outcome): (steps: seq<Step>)
    ensures |steps| == 7
  {
    seq(7, k requires 0 <= k < 7 => TimeoutStep(click(k)))
  }

  /** `_try_click_calendar_cell`: true at the first cell click that
      completes, false when all seven time out; any other failure escapes.
      `click(k)` is the outcome of the k-th click; scrolling first swallows
      its failures. */
  method TryClickCalendarCell(click: nat -> Outcome) returns (r: Result<bool>)
    ensures r == AsFlag(Run(CellSteps(click)))
    ensures r == Ok(true) ==> exists k :: 0 <= k < 7 && click(k) == Pass
    ensures r == Ok(false) <==> forall k :: 0 <= k < 7 ==> click(k).TimedOut()
  {
    ghost var steps := CellSteps(click);
    var k := 0;
    while k < 7
      invariant 0 <= k <= 7
      invariant AllNext(steps[..k])
    {
      var c := click(k);
      if c.Pass? {
        RunAt(steps, k);
        return Ok(true);
      }
      if !c.error.Timeout? {
        RunAt(steps, k);
        return Err(c.error);
      }
      AllNextGrow(steps, k);
      k := k + 1;
    }
    assert steps[..k] == steps;
    RunAllNext(steps);
    forall j | 0 <= j < 7 ensures click(j).TimedOut() {
      assert steps[j] == Next;
    }
    r := Ok(false);
  }

  // -------------------------------------------------- _type_depart_mmddyyyy

  /** `_depart_input_selectors`: five ways to find the departure input. */
  const InputSelectorCount: nat := 5

  /** What typing into one candidate input met: the click, the clearing,
      typing and Enter (one outcome: any failure skips the candidate), the
      first read-back, the Tab press and the second read-back. */
  datatype TypeAttempt = TypeAttempt(click: Outcome, entry: Outcome, read1: Result<string>,
                                     tab: Outcome, read2: Result<string>)

  /** The read-back test: `val and (mmdd in val or val.strip() == mmdd)`. */
  predicate ReadBackMatches(val: string, mmdd: string)
  {
    val != "" && (Contains(val, mmdd) || Strip(val) == mmdd)
  }

  /** The stripped comparison adds nothing: a value that strips to the target
      contains it. */
  lemma ReadBackIsContainment(val: string, mmdd: string)
    ensures ReadBackMatches(val, mmdd) <==> val != "" && Contains(val, mmdd)
  {
    StripContained(val);
  }

  /** A click timeout skips the candidate, any other click failure escapes
      (it is outside the inner `try`), and everything after the click that
      fails skips the candidate. */
  function TypeStep(a: TypeAttempt, mmdd: string): Step
  {
    if a.click.Fail? then TimeoutStep(a.click)
    else if a.entry.Fail? then Next
    else if a.read1.Ok? && ReadBackMatches(a.read1.value, mmdd) then Stop
    else if a.tab.Fail? then Next
    else if a.read2.Ok? && ReadBackMatches(a.read2.value, mmdd) then Stop
    else Next
  }

  function TypeSteps(attempt: nat -> TypeAttempt, mmdd: string): (steps: seq<Step>)
    ensures |steps| == InputSelectorCount
  {
    seq(InputSelectorCount, k requires 0 <= k < InputSelectorCount => TypeStep(attempt(k), mmdd))
  }

  function TypeSpec(iso: string, attempt: nat -> TypeAttempt): Result<bool>
  {
    match IsoToMmDdYyyy(iso)
    case Err(e) => Err(e)
    case Ok(mmdd) => AsFlag(Run(TypeSteps(attempt, mmdd)))
  }

  /** The candidate took the date: the click, the clearing and typing
      completed, and the first read-back matched, or the Tab press completed
      and the second one did. */
  predicate Typed(a: TypeAttempt, mmdd: string)
  {
    a.click.Pass? && a.entry.Pass?
    && ((a.read1.Ok? && ReadBackMatches(a.read1.value, mmdd))
        || (a.tab.Pass? && a.read2.Ok? && ReadBackMatches(a.read2.value, mmdd)))
  }

  /** The click failed with something other than a timeout. */
  predicate ClickEscapes(a: TypeAttempt)
  {
    a.click.Fail? && !a.click.error.Timeout?
  }

  /** Every candidate before the `k`-th neither took the date nor raised. */
  predicate SkippedBefore(attempt: nat -> TypeAttempt, mmdd: string, k: nat)
  {
    forall j :: 0 <= j < k ==> !Typed(attempt(j), mmdd) && !ClickEscapes(attempt(j))
  }

  /** One candidate: it stops the loop exactly when it took the date, raises
      exactly when its click failed other than by a timeout (with that
      error), and otherwise hands over to the next selector; in particular a
      click timeout skips it. */
  lemma TypeStepCases(a: TypeAttempt, mmdd: string)
    ensures TypeStep(a, mmdd) == Stop <==> Typed(a, mmdd)
    ensures TypeStep(a, mmdd).Raise? <==> ClickEscapes(a)
    ensures TypeStep(a, mmdd).Raise? ==> TypeStep(a, mmdd).error == a.click.error
    ensures a.click.TimedOut() ==> TypeStep(a, mmdd) == Next
  {
  }

  /** Past the date conversion, typing reports true exactly when some
      candidate took the date and every earlier one was skipped. */
  lemma TypeSpecTrue(iso: string, attempt: nat -> TypeAttempt, mmdd: string)
    requires IsoToMmDdYyyy(iso) == Ok(mmdd)
    ensures TypeSpec(iso, attempt) == Ok(true) <==>
            exists k :: 0 <= k < InputSelectorCount && Typed(attempt(k), mmdd) && SkippedBefore(attempt, mmdd, k)
  {
    var steps := TypeSteps(attempt, mmdd);
    assert TypeSpec(iso, attempt) == AsFlag(Run(steps));
    if TypeSpec(iso, attempt) == Ok(true) {
      var k := Run(steps).at;
      TypeStepCases(attempt(k), mmdd);
      AllNextSkipped(attempt, mmdd, k);
    }
    if k :| 0 <= k < InputSelectorCount && Typed(attempt(k), mmdd) && SkippedBefore(attempt, mmdd, k) {
      SkippedAllNext(attempt, mmdd, k);
      TypeStepCases(attempt(k), mmdd);
      RunAt(steps, k);
    }
  }

  /** Past the date conversion, typing raises exactly when some candidate's
      click failed other than by a timeout and every earlier one was
      skipped; the error is that click's. */
  lemma TypeSpecRaises(iso: string, attempt: nat -> TypeAttempt, mmdd: string)
    requires IsoToMmDdYyyy(iso) == Ok(mmdd)
    ensures TypeSpec(iso, attempt).Err? <==>
            exists k :: 0 <= k < InputSelectorCount && ClickEscapes(attempt(k)) && SkippedBefore(attempt, mmdd, k)
    ensures TypeSpec(iso, attempt).Err? ==>
            exists k :: 0 <= k < InputSelectorCount && ClickEscapes(attempt(k))
                        && TypeSpec(iso, attempt).error == attempt(k).click.error
  {
    var steps := TypeSteps(attempt, mmdd);
    assert TypeSpec(iso, attempt) == AsFlag(Run(steps));
    if TypeSpec(iso, attempt).Err? {
      var k := Run(steps).at;
      TypeStepCases(attempt(k), mmdd);
      AllNextSkipped(attempt, mmdd, k);
    }
    if k :| 0 <= k < InputSelectorCount && ClickEscapes(attempt(k)) && SkippedBefore(attempt, mmdd, k) {
      SkippedAllNext(attempt, mmdd, k);
      TypeStepCases(attempt(k), mmdd);
      RunAt(steps, k);
    }
  }

  /** Past the date conversion, typing reports false exactly when all five
      candidates were skipped. */
  lemma TypeSpecFalse(iso: string, attempt: nat -> TypeAttempt, mmdd: string)
    requires IsoToMmDdYyyy(iso) == Ok(mmdd)
    ensures TypeSpec(iso, attempt) == Ok(false) <==> SkippedBefore(attempt, mmdd, InputSelectorCount)
  {
    var steps := TypeSteps(attempt, mmdd);
    assert TypeSpec(iso, attempt) == AsFlag(Run(steps));
    if TypeSpec(iso, attempt) == Ok(false) {
      assert steps[..InputSelectorCount] == steps;
      AllNextSkipped(attempt, mmdd, InputSelectorCount);
    }
    if SkippedBefore(attempt, mmdd, InputSelectorCount) {
      SkippedAllNext(attempt, mmdd, InputSelectorCount);
      assert steps[..InputSelectorCount] == steps;
    }
  }

  /** Candidates that handed the turn on were skipped. */
  lemma AllNextSkipped(attempt: nat -> TypeAttempt, mmdd: string, k: nat)
    requires k <= InputSelectorCount && AllNext(TypeSteps(attempt, mmdd)[..k])
    ensures SkippedBefore(attempt, mmdd, k)
  {
    var steps := TypeSteps(attempt, mmdd);
    forall j | 0 <= j < k ensures !Typed(attempt(j), mmdd) && !ClickEscapes(attempt(j)) {
      assert steps[..k][j] == Next;
      TypeStepCases(attempt(j), mmdd);
    }
  }

  /** Skipped candidates hand the turn on. */
  lemma SkippedAllNext(attempt: nat -> TypeAttempt, mmdd: string, k: nat)
    requires k <= InputSelectorCount && SkippedBefore(attempt, mmdd, k)
    ensures AllNext(TypeSteps(attempt, mmdd)[..k])
  {
    var steps := TypeSteps(attempt, mmdd);
    forall j | 0 <= j < k ensures steps[..k][j] == Next {
      TypeStepCases(attempt(j), mmdd);
    }
  }

  /** `_type_depart_mmddyyyy`: true only when a read-back is non-empty and
      holds the `MM/DD/YYYY` target. */
  method TypeDepart(iso: string, attempt: nat -> TypeAttempt) returns (r: Result<bool>)
    ensures r == TypeSpec(iso, attempt)
  {
    var formatted := IsoToMmDdYyyy(iso);
    if formatted.Err? {
      return Err(formatted.error);
    }
    var mmdd := formatted.value;
    ghost var steps := TypeSteps(attempt, mmdd);
    var k := 0;
    while k < InputSelectorCount
      invariant 0 <= k <= InputSelectorCount
      invariant AllNext(steps[..k])
    {
      var a := attempt(k);
      var step := Next;
      if a.click.Fail? {
        if !a.click.error.Timeout? {
          step := Raise(a.click.error);
        }
      } else if a.entry.Pass? {
        if a.read1.Ok? && ReadBackMatches(a.read1.value, mmdd) {
          ReadBackIsContainment(a.read1.value, mmdd);
          step := Stop;
        } else if a.tab.Pass? && a.read2.Ok? && ReadBackMatches(a.read2.value, mmdd) {
          ReadBackIsContainment(a.read2.value, mmdd);
          step := Stop;
        }
      }
      assert step == steps[k];
      if step == Stop {
        RunAt(steps, k);
        return Ok(true);
      }
      if step.Raise? {
        RunAt(steps, k);
        return Err(step.error);
      }
      AllNextGrow(steps, k);
      k := k + 1;
    }
    assert steps[..k] == steps;
    RunAllNext(steps);
    r := Ok(false);
  }

  // --------------------------------------------------- _js_set_depart_value

  function ScriptSteps(script: nat -> Result<bool>): (steps: seq<Step>)
    ensures |steps| == InputSelectorCount
  {
    seq(InputSelectorCount, k requires 0 <= k < InputSelectorCount => if script(k) == Ok(true) then Stop else Next)
  }

  function ScriptSpec(iso: string, script: nat -> Result<bool>): Result<bool>
  {
    match IsoToMmDdYyyy(iso)
    case Err(e) => Err(e)
    case Ok(_) => AsFlag(Run(ScriptSteps(script)))
  }

  /** `_js_set_depart_value`: true at the first selector whose script found
      an element and set it; a script that raised or found nothing moves on.
      Past the date conversion it never raises. `script(k)` is what the k-th
      script returned. */
  method JsSetDepart(iso: string, script: nat -> Result<bool>) returns (r: Result<bool>)
    ensures r == ScriptSpec(iso, script)
    ensures IsoToMmDdYyyy(iso).Ok? ==>
              r == Ok(exists k :: 0 <= k < InputSelectorCount && script(k) == Ok(true))
  {
    var formatted := IsoToMmDdYyyy(iso);
    if formatted.Err? {
      return Err(formatted.error);
    }
    var found := RunScripts(script);
    r := Ok(found);
  }

  /** The loop over the selectors, past the date conversion. */
  method RunScripts(script: nat -> Result<bool>) returns (found: bool)
    ensures AsFlag(Run(ScriptSteps(script))) == Ok(found)
    ensures found <==> exists k :: 0 <= k < InputSelectorCount && script(k) == Ok(true)
  {
    ghost var steps := ScriptSteps(script);
    var k := 0;
    while k < InputSelectorCount
      invariant 0 <= k <= InputSelectorCount
      invariant AllNext(steps[..k])
      invariant forall j :: 0 <= j < k ==> script(j) != Ok(true)
    {
      var ok := script(k);
      if ok == Ok(true) {
        RunAt(steps, k);
        return true;
      }
      AllNextGrow(steps, k);
      k := k + 1;
    }
    assert steps[..k] == steps;
    RunAllNext(steps);
    found := false;
  }

  // ------------------------------------------------------ select_depart_date

  /** The browser's answers to every step of `select_depart_date`. */
  datatype DateOracles = DateOracles(
    openClick: nat -> Outcome, openFallback: Outcome, dialogWait: Outcome,
    header: nat -> Result<bool>, nextClick: (nat, nat) -> Outcome, nextTab: nat -> Outcome,
    cellClick: nat -> Outcome, typing: nat -> TypeAttempt, script: nat -> Result<bool>)

  datatype Path = ByCalendar | ByTyping | ByScript

  function NoMethodError(iso: string): Error
  {
    RuntimeError("Could not set depart date " + iso + " via any method.")
  }

  /** What each stage of `select_depart_date` reports, were it reached. */
  datatype Stages = Stages(calendar: Outcome, parsed: Result<Date>, paged: Outcome,
                           cell: Result<bool>, typed: Result<bool>, scripted: Result<bool>)

  function StagesOf(iso: string, o: DateOracles): Stages
  {
    Stages(OpenSpec(o.openClick, o.openFallback, o.dialogWait), ParseIsoDate(iso),
           PagerFrom(o.header, o.nextClick, o.nextTab, 0).0, AsFlag(Run(CellSteps(o.cellClick))),
           TypeSpec(iso, o.typing), ScriptSpec(iso, o.script))
  }

  /** What `select_depart_date` returns and which path set the date, given
      what its stages report: a failure ends the call, a path reporting false
      hands over to the next one. */
  function Select(st: Stages, iso: string): (res: (Outcome, Option<Path>))
    ensures res.1.Some? <==> res.0 == Pass
  {
    if st.calendar.Fail? then (st.calendar, None)
    else if st.parsed.Err? then (Fail(st.parsed.error), None)
    else if st.paged.Fail? then (st.paged, None)
    else match st.cell
      case Err(e) => (Fail(e), None)
      case Ok(true) => (Pass, Some(ByCalendar))
      case Ok(false) =>
        match st.typed
        case Err(e) => (Fail(e), None)
        case Ok(true) => (Pass, Some(ByTyping))
        case Ok(false) =>
          match st.scripted
          case Err(e) => (Fail(e), None)
          case Ok(true) => (Pass, Some(ByScript))
          case Ok(false) => (Fail(NoMethodError(iso)), None)
  }

  /** `select_depart_date`: open the calendar, parse the date, page to its
      month, then try the day cell, typing and the script in that order,
      returning at the first that reports success. */
  method SelectDepartDate(iso: string, o: DateOracles) returns (r: Outcome, path: Option<Path>)
    ensures (r, path) == Select(StagesOf(iso, o), iso)
  {
    r := OpenDepartCalendar(o.openClick, o.openFallback, o.dialogWait);
    if r.Fail? {
      return r, None;
    }
    var target := ParseIsoDate(iso);
    if target.Err? {
      return Fail(target.error), None;
    }
    var pages;
    r, pages := MonthPager(o.header, o.nextClick, o.nextTab);
    if r.Fail? {
      return r, None;
    }
    var cell := TryClickCalendarCell(o.cellClick);
    if cell.Err? {
      return Fail(cell.error), None;
    }
    if cell.value {
      return Pass, Some(ByCalendar);
    }
    var typed := TypeDepart(iso, o.typing);
    if typed.Err? {
      return Fail(typed.error), None;
    }
    if typed.value {
      return Pass, Some(ByTyping);
    }
    var scripted := JsSetDepart(iso, o.script);
    if scripted == Ok(true) {
      return Pass, Some(ByScript);
    }
    r, path := Fail(NoMethodError(iso)), None;
  }

  /** Once the calendar is open, the date parses and the pager is done, the
      call succeeds exactly when one of the three paths reports success, in
      order, and it raises the "any method" error when all three report
      failure. */
  lemma SelectFallsThroughInOrder(st: Stages, iso: string)
    requires st.calendar == Pass && st.parsed.Ok? && st.paged == Pass && st.scripted.Ok?
    ensures Select(st, iso).0 == Pass
            <==> st.cell == Ok(true)
                 || (st.cell == Ok(false) && (st.typed == Ok(true) || (st.typed == Ok(false) && st.scripted == Ok(true))))
    ensures st.cell == Ok(false) && st.typed == Ok(false) && st.scripted == Ok(false)
            ==> Select(st, iso).0 == Fail(NoMethodError(iso))
    ensures Select(st, iso).0.Fail? ==> st.cell.Err? || st.typed.Err? || Select(st, iso).0 == Fail(NoMethodError(iso))
  {
  }

  /** Past a parsed date the script stage always reports, so the lemma above
      applies to every run that gets through the pager. */
  lemma StagesAfterPager(iso: string, o: DateOracles)
    requires ParseIsoDate(iso).Ok?
    ensures StagesOf(iso, o).scripted.Ok?
  {
    assert IsoToMmDdYyyy(iso).Ok?;
  }

  /** The typing and script paths cannot fail on the date: it already parsed
      for the calendar path. */
  lemma LaterPathsParse(iso: string, attempt: nat -> TypeAttempt, script: nat -> Result<bool>)
    requires ParseIsoDate(iso).Ok?
    ensures ScriptSpec(iso, script).Ok?
    ensures TypeSpec(iso, attempt).Err? ==>
              exists k :: 0 <= k < InputSelectorCount && attempt(k).click.Fail?
                          && !attempt(k).click.TimedOut() && TypeSpec(iso, attempt) == Err(attempt(k).click.error)
  {
    var mmdd := IsoToMmDdYyyy(iso).value;
    var steps := TypeSteps(attempt, mmdd);
    assert TypeSpec(iso, attempt) == AsFlag(Run(steps));
    if TypeSpec(iso, attempt).Err? {
      var v := Run(steps);
      assert v.Raised?;
      assert steps[v.at] == TypeStep(attempt(v.at), mmdd);
    }
  }

  // --------------------------------------------------- set_depart_date_quick

  /** The element `#aa-leavingOn, input[name='departDate']` selects. */
  predicate QuickTarget(x: Input)
  {
    x.id == "aa-leavingOn" || x.name == "departDate"
  }

  /** `set_depart_date_quick` on the document's inputs: after the challenge
      guard and the date formatting, the first element either selector
      matches gets the formatted date; nothing is read back. */
  method QuickSetDepart(doc: array<Input>, iso: string, guard: Outcome) returns (r: Outcome)
    modifies doc
    ensures guard.Fail? ==> r == guard && doc[..] == old(doc[..])
    ensures guard.Pass? && MmDdYyyy(iso).Err? ==> r == Fail(MmDdYyyy(iso).error) && doc[..] == old(doc[..])
    ensures guard.Pass? && MmDdYyyy(iso).Ok? ==> r == Pass
    ensures guard.Pass? && MmDdYyyy(iso).Ok? ==>
              match FirstWhere(old(doc[..]), QuickTarget)
              case None => doc[..] == old(doc[..])
              case Some(i) => doc[..] == old(doc[..])[i := old(doc[i]).(value := MmDdYyyy(iso).value)]
  {
    if guard.Fail? {
      return guard;
    }
    var formatted := MmDdYyyy(iso);
    if formatted.Err? {
      return Fail(formatted.error);
    }
    var dep := FirstWhere(doc[..], QuickTarget);
    if dep.Some? {
      doc[dep.value] := doc[dep.value].(value := formatted.value);
    }
    r := Pass;
  }
}
