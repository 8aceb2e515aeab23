/** Challenge detection: the two `blocked` classifiers and the bounded waits
    that gate interactive steps (src/playwright_flow.py,
    src/playwright_utils.py). */
module Challenge {
  import opened Wrappers
  import opened Text

  // ------------------------------------------------------------ classifiers

  /** `blocked` of src/playwright_flow.py. `content` is `None` when reading
      the page content raised. */
  function FlowBlocked(content: Option<string>): (b: bool)
    ensures b <==> content.Some?
                   && ContainsIgnoreCase(content.value, "access denied")
                   && (ContainsIgnoreCase(content.value, "edgesuite.net")
                       || ContainsIgnoreCase(content.value, "akamai"))
  {
    match content
    case None => false
    case Some(html) =>
      var h := Lower(html);
      LowerContains(html, "access denied");
      LowerContains(html, "edgesuite.net");
      LowerContains(html, "akamai");
      Contains(h, "access denied") && (Contains(h, "edgesuite.net") || Contains(h, "akamai"))
  }

  const ResubmitMarker: string := "akamai-challenge-resubmit=true"

  /** `BLOCK_SIGS` of src/playwright_utils.py. */
  const BlockSigs: seq<string> := [ResubmitMarker, "access denied", "edgesuite"]

  /** `blocked` of src/playwright_utils.py: the URL is checked first, and the
      content only when the URL carries no signature. */
  function UtilsBlocked(url: string, content: Option<string>): (b: bool)
    ensures b <==> (exists k | 0 <= k < |BlockSigs| :: ContainsIgnoreCase(url, BlockSigs[k]))
                   || (content.Some?
                       && exists k | 0 <= k < |BlockSigs| :: ContainsIgnoreCase(content.value, BlockSigs[k]))
  {
    forall k | 0 <= k < |BlockSigs| { LowerContains(url, BlockSigs[k]); }
    if ContainsAny(Lower(url), BlockSigs) then true
    else match content
      case None => false
      case Some(html) =>
        forall k | 0 <= k < |BlockSigs| { LowerContains(html, BlockSigs[k]); }
        ContainsAny(Lower(html), BlockSigs)
  }

  /** Whatever the flow classifier calls blocked, the utils classifier calls
      blocked too, whatever the URL: an access-denied page is a signature of
      both. */
  lemma FlowBlockedImpliesUtilsBlocked(url: string, content: Option<string>)
    requires FlowBlocked(content)
    ensures UtilsBlocked(url, content)
  {
    assert ContainsIgnoreCase(content.value, BlockSigs[1]);
  }

  /** The converse fails: a CDN token alone is enough for the utils
      classifier but not for the flow classifier. */
  lemma EdgesuiteAloneDiffers()
    ensures UtilsBlocked("", Some("edgesuite")) && !FlowBlocked(Some("edgesuite"))
  {
    assert IsAtIgnoreCase("edgesuite", BlockSigs[2], 0);
  }

  /** The resubmit marker in the URL is a block in any letter case, and the
      content is then not consulted. */
  lemma ResubmitUrlIsBlocked(url: string, content: Option<string>)
    requires ContainsIgnoreCase(url, ResubmitMarker)
    ensures UtilsBlocked(url, content) && UtilsBlocked(url, None)
  {
    assert ContainsIgnoreCase(url, BlockSigs[0]);
  }

  /** A page whose content could not be read counts as blocked only through
      its URL. */
  lemma UnreadableContentNeedsUrl(url: string)
    ensures UtilsBlocked(url, None) <==> exists k | 0 <= k < |BlockSigs| :: ContainsIgnoreCase(url, BlockSigs[k])
    ensures !FlowBlocked(None)
  {
  }

  // ------------------------------------------------------------------ waits

  /** `wait_akamai_clear` of src/playwright_utils.py: nothing to do unless the
      URL carries the resubmit marker (case-sensitive); then poll every 250 ms
      until the marker is gone or the deadline has passed. The clock reading at
      the k-th poll is `250 * k + lag(k)` ms after the start: `k` sleeps of
      250 ms have elapsed, plus whatever the page loads took. `urlAt(k)` is the
      URL when the loop condition is tested for the k-th time, `load(k)` the
      outcome of the k-th wait for the DOM to load inside the loop, and
      `finalLoad` that of the wait after the loop. Returns the outcome and how
      many polls were made. */
  method WaitAkamaiClear(urlAt: nat -> string, load: nat -> Outcome, lag: nat -> nat,
                         finalLoad: Outcome, timeoutMs: nat)
    returns (r: Outcome, polls: nat)
    ensures !Contains(urlAt(0), ResubmitMarker) ==> r == Pass && polls == 0
    ensures Contains(urlAt(0), ResubmitMarker) ==> 1 <= polls <= timeoutMs / 250 + 2
    ensures forall j | 0 <= j < polls :: Contains(urlAt(j), ResubmitMarker)
    ensures forall j | 0 <= j < polls - 1 :: load(j) == Pass && 250 * j + lag(j) <= timeoutMs
    ensures polls > 0 && load(polls - 1).Fail? ==> r == load(polls - 1)
    ensures polls > 0 && load(polls - 1) == Pass ==> r == finalLoad
    ensures polls > 0 && load(polls - 1) == Pass && 250 * (polls - 1) + lag(polls - 1) <= timeoutMs
            ==> !Contains(urlAt(polls), ResubmitMarker)
  {
    if !Contains(urlAt(0), ResubmitMarker) {
      return Pass, 0;
    }
    var deadline := timeoutMs;
    polls := 0;
    while Contains(urlAt(polls), ResubmitMarker)
      invariant polls <= timeoutMs / 250 + 1
      invariant forall j | 0 <= j < polls :: Contains(urlAt(j), ResubmitMarker)
      invariant forall j | 0 <= j < polls :: load(j) == Pass && 250 * j + lag(j) <= timeoutMs
      invariant polls == 0 ==> Contains(urlAt(0), ResubmitMarker)
      decreases timeoutMs / 250 + 1 - polls
    {
      var loaded := load(polls);
      polls := polls + 1;
      if loaded.Fail? {
        return loaded, polls;
      }
      if 250 * (polls - 1) + lag(polls - 1) > deadline {
        break;
      }
    }
    r := finalLoad;
  }

  /** `wait_busy_clear` of src/playwright_utils.py: poll the busy overlay every
      150 ms while the clock is before the deadline; stop as soon as it is not
      visible or asking raises. It never raises and a timeout is not an error.
      `visible(k)` is the k-th answer (`None` when asking raised); the k-th
      clock reading is `150 * k + lag(k)` ms after the start. Returns the
      number of checks and whether the overlay was found gone (or unreadable). */
  method WaitBusyClear(visible: nat -> Option<bool>, lag: nat -> nat, timeoutMs: nat)
    returns (checks: nat, cleared: bool)
    ensures checks <= timeoutMs / 150 + 1
    ensures forall j | 0 <= j < checks :: 150 * j + lag(j) < timeoutMs
    ensures forall j | 0 <= j < checks - 1 :: visible(j) == Some(true)
    ensures cleared <==> checks > 0 && visible(checks - 1) != Some(true)
    ensures !cleared ==> 150 * checks + lag(checks) >= timeoutMs
  {
    checks := 0;
    while 150 * checks + lag(checks) < timeoutMs
      invariant checks <= timeoutMs / 150 + 1
      invariant forall j | 0 <= j < checks :: 150 * j + lag(j) < timeoutMs
      invariant forall j | 0 <= j < checks :: visible(j) == Some(true)
      decreases timeoutMs / 150 + 1 - checks
    {
      var v := visible(checks);
      checks := checks + 1;
      if v != Some(true) {
        return checks, true;
      }
    }
    cleared := false;
  }

  // ------------------------------------------------------- flow's own guard

  /** `wait_akamai_clear` of src/playwright_flow.py as written: the title
      check raises inside a `try` whose handler swallows every exception, so
      only the wait for the DOM (`loaded`) can fail. `title` is the page title
      or the failure to read it. */
  function FlowWaitAkamaiClear(loaded: Outcome, title: Result<string>): (r: Outcome)
    ensures r == loaded
  {
    // a failed title read and the deliberate RuntimeError alike end in
    // `except Exception: pass`, so the title never matters
    if loaded.Fail? then loaded else Pass
  }

  /** The same guard with the title check taking effect: an "Access Denied"
      title raises `RuntimeError("akamai_denied_title")`; a title that cannot
      be read is still ignored. */
  function FlowWaitAkamaiClearIntended(loaded: Outcome, title: Result<string>): (r: Outcome)
    ensures loaded.Fail? ==> r == loaded
    ensures loaded.Pass? ==> (r.Fail? <==> title.Ok? && Contains(title.value, "Access Denied"))
    ensures r.Fail? && loaded.Pass? ==> r.error == RuntimeError("akamai_denied_title")
  {
    if loaded.Fail? then loaded
    else if title.Ok? && Contains(title.value, "Access Denied") then Fail(RuntimeError("akamai_denied_title"))
    else Pass
  }

  /** The guard as written lets an access-denied page through, the intended
      one stops it. */
  lemma DeniedTitleIgnored()
    ensures FlowWaitAkamaiClear(Pass, Ok("Access Denied")) == Pass
    ensures FlowWaitAkamaiClearIntended(Pass, Ok("Access Denied")).Fail?
  {
    ContainsItself("Access Denied");
  }
}
