# American Airlines award-search scraper: decision logic

This project models the decision logic of a Playwright scraper for aa.com
award searches. Every browser action becomes an input to the model: a click
that completes or times out, a value read back, page content, a response
seen by a listener. What is left is deterministic code, and the model proves
properties of it:

- **Challenge detection.** There are two `blocked` classifiers: the flow's,
  which needs "access denied" together with a CDN token, and the utilities',
  where any one signature is enough. The model also covers the bounded
  resubmit-URL wait, the busy-overlay wait and the flow's own title guard.
- **The attempt loop of `search_and_capture`.** There are at most four
  attempts with one browser context each. A blocked result page closes the
  context, backs off for 0.9 + 0.5·attempt seconds and retries. Any other
  exception closes the context and is re-raised. Exhaustion raises its own
  `RuntimeError`. The loop is a method that returns the result together
  with a trace of the contexts it opened and closed and the back-offs it
  slept.
- **Strategy cascades.** These are the ordered fallbacks for the trip type
  (`ensure_one_way`, `force_one_way`, `force_one_way_hard`), the airport
  fields (both `fill_airport`s) and the departure date (`select_depart_date`
  with its calendar opener, 24-step month pager, day-cell click, typing and
  script paths, plus `set_depart_date` and `set_depart_date_quick`). They
  share one notion of "the first candidate that does not pass the turn
  decides" (module `Cascade`).
- **Response capture and selection.**
  - The `NETWORK_KEEP`/content-type filter of `_capture_json`.
  - The `AA_HOOK|kind|url|b64` console framing and its round trip with the
    injected tag.
  - `_looks_like_shopping` and `looks_like_flights` over a JSON datatype
    that `json.dumps` serialises.
  - The candidate score with Python's stable sort.
  - The order of the direct API tries.
  - The replay-body patch of `slices[0]` and the error paths of
    `fetch_shopping_json`.
- **Formatting and assembly.**
  - Both `Y-M-D` to `MM/DD/YYYY` conversions and ISO dates with their round
    trip.
  - The proxy choice from the environment.
  - The pydantic validators and defaults of `src/models.py`.
  - The result assembly of `src/__main__.py`: the network parse, else the
    DOM parse, never merged, with one item per flight and
    `total_results == len(items)`.

Where the source works in place, so does the model:
- The injected scripts that loop over a form's inputs work on an
  `array<Input>` of a `Form` object.
- The candidate and capture lists are classes whose methods append.
- The loops with early return are methods with loop invariants.

Each method is proved equal to a reference function, and the properties are
lemmas about those functions.

Several behaviours of the code are narrower than its names and comments
suggest. The model follows the code:
- The flow's `blocked` reads only the page content. It needs "access
  denied" and a CDN token, and it never looks at the URL. The utilities'
  `blocked` treats any single signature in the URL or the content as a
  block.
- A response is captured only when the URL keyword filter AND a JSON
  content type both hold, not either one.
- `check_count` does not keep `total_results` in sync with `flights` (see
  Findings).
- The cascades do not all verify by reading state back:
  - `ensure_one_way` stops at the first action that does not raise and never
    fails.
  - `fill_airport` never reads the field back.
  - `set_depart_date` accepts any `MM/DD/YYYY`-shaped value in the form.
  - `_type_depart_mmddyyyy` checks that the read-back contains the target.
- The loop checks for a block only after submitting the form. The flow's
  proxy ignores the attempt index.

## Model

| member | source | states |
|---|---|---|
| Challenge.FlowBlocked | src/playwright_flow.py:50-55 | blocked exactly when the content could be read and contains "access denied" and also "edgesuite.net" or "akamai", letter case aside; unreadable content is not blocked |
| Challenge.UtilsBlocked | src/playwright_utils.py:46-54 | blocked exactly when the URL contains one of the three `BLOCK_SIGS`, or the URL contains none and the readable content contains one, letter case aside |
| Challenge.FlowBlockedImpliesUtilsBlocked | src/playwright_utils.py:8 | every page the flow classifier calls blocked the utilities classifier calls blocked too |
| Challenge.EdgesuiteAloneDiffers | src/playwright_flow.py:53 | the converse fails: a CDN token alone is a block for one classifier and not the other |
| Challenge.ResubmitUrlIsBlocked | src/playwright_utils.py:47-49 | the resubmit marker in the URL, in any letter case, is a block whatever the content, even unreadable |
| Challenge.UnreadableContentNeedsUrl | src/playwright_utils.py:50-54 | with unreadable content the utilities classifier decides on the URL alone, and the flow classifier says not blocked |
| Challenge.WaitAkamaiClear | src/playwright_utils.py:373-384 | no marker means no poll; otherwise polls at most timeout/250 + 2 times, every poll saw the marker, it stops once the marker is gone within the deadline, and a failed page load escapes |
| Challenge.WaitBusyClear | src/playwright_utils.py:35-44 | at most timeout/150 + 1 checks, all before the deadline; it stops at the first check where the overlay is hidden or unreadable and never fails |
| Challenge.FlowWaitAkamaiClear | src/playwright_flow.py:32-39 | as written only the DOM-load wait can fail; the title check's own raise is swallowed |
| Challenge.FlowWaitAkamaiClearIntended | src/playwright_flow.py:32-39 | with the title check taking effect it fails exactly on an "Access Denied" title, with `akamai_denied_title` |
| Challenge.DeniedTitleIgnored | src/playwright_flow.py:35-39 | an "Access Denied" page passes the guard as written and fails the intended one |
| Proxy.FirstSet | src/playwright_utils.py:70-78 | `getenv(a) or getenv(b) or ...`: the first non-empty variable in order, None exactly when all are empty |
| Proxy.ProxyFromEnv | src/playwright_utils.py:56-78 | a returned proxy is never empty; a usable `PROXIES` list always gives one of its entries; no proxy exactly when the list and all six fallback variables are unusable |
| Proxy.KeepStrippedMembers | src/playwright_utils.py:64 | the kept list holds exactly the non-blank stripped parts, and it is empty exactly when every part is blank |
| Proxy.RotationIndex | src/playwright_utils.py:62-67 | proxies rotate: attempt `index` and attempt `index` plus the list's length get the same proxy, and an index below the length gets the entry listed at that position |
| Proxy.RotationPicksListedEntry | src/playwright_utils.py:62-67 | the rotated proxy is non-empty, already stripped, and one of the variable's comma-separated parts |
| Proxy.FallbackWhenNoList | src/playwright_utils.py:69-78 | a `PROXIES` value of only blanks and commas falls back to the six variables in their listed order; None when none is set |
| Proxy.FlowProxyIsFirstSet | src/playwright_flow.py:20-22 | the flow's proxy is the first set of `AA_HTTP_PROXY`, `HTTP_PROXY`, whatever the attempt index |
| Proxy.FlowProxy | src/playwright_flow.py:20-22 | a set `AA_HTTP_PROXY` wins; no proxy exactly when neither `AA_HTTP_PROXY` nor `HTTP_PROXY` is set; a returned proxy is never empty |
| Proxy.VariantsAgreeOnHttpProxy | src/crawler_api.py:18-20 | with no `AA_HTTP_PROXY` and no usable `PROXIES`, both variants give `HTTP_PROXY` |
| Session.SearchAndCapture | src/playwright_flow.py:341-474 | the loop's result and trace of opens, closes, back-offs and last-page write equal the reference `SessionSpec`; a blocked attempt keeps the page it reads again, and only the last such page can be written |
| Session.SessionSpec | src/playwright_flow.py:341-474 | at most three events for each of the four attempts plus one last-page write; a successful run ends by closing its context |
| Session.DecidedAt | src/playwright_flow.py:342-345 | after blocked attempts only, the first attempt that is not blocked decides the loop: a submission stops it, anything else raises |
| Session.FirstUnblockedEndsLoop | src/playwright_flow.py:456-470 | that attempt returns its results page and its captured JSON, or re-raises its exception, and no later attempt opens a context |
| Session.FirstUnblockedResult | src/playwright_flow.py:456-470 | the first unblocked attempt's submission gives its page and captured JSON as the result; any other end re-raises its error |
| Session.FirstUnblockedOpensLast | src/playwright_flow.py:342-357 | no context opened in the trace belongs to an attempt after the first unblocked one |
| Session.SuccessIsFirstUnblocked | src/playwright_flow.py:440-460 | success comes only from a submission that is not blocked, after blocked attempts only |
| Session.ExhaustionWritesLastPage | src/playwright_flow.py:439-474 | four blocked attempts raise the "Blocked or failed after multiple attempts" error after 12 loop events; the fourth attempt's re-read page is written after them exactly when it is not empty |
| Session.TraceShape | src/playwright_flow.py:342-474 | every trace is n blocked attempts (open, close, back off each) followed by the deciding attempt's events, or by the last-page write after four |
| Session.OpensNumbered | src/playwright_flow.py:342-357 | every context opened belongs to an attempt numbered 1 to 4, comes after the three events of each earlier attempt, and uses the flow's proxy |
| Session.EveryOpenClosed | src/playwright_flow.py:440-470 | every opened context is closed by the very next event, except when the set-up after the launch raised, which ends the trace |
| Session.EveryCloseOpened | src/playwright_flow.py:440-470 | every close follows the open of the same attempt |
| Session.BlockedBacksOff | src/playwright_flow.py:440-444 | a blocked attempt is closed and followed by a back-off of 900 + 500·attempt ms; the next attempt, if one is left and its launch does not fail, opens right after |
| Capture.HookTag | src/crawler_api.py:25-28 | the injected tag's line starts with the `AA_HOOK` prefix and its separator |
| Capture.ScrapeEntry | src/crawler_api.py:87-93 | at most one entry; one exactly for a string with the prefix, four parts when split at the first three separators and an empty or decodable Base64 part; its URL, its `console-<kind>` source, and body "" for an empty Base64 part |
| Capture.HookSplit | src/crawler_api.py:28 | a tag line whose kind and URL hold no separator splits back into prefix, kind, URL and Base64 part |
| Capture.HookRoundTrip | src/crawler_api.py:87-93 | such a line is scraped back into one entry with the tagged URL, kind and decoded body |
| Capture.LooksLikeShopping | src/crawler_api.py:95-97 | true exactly when the URL, letter case aside, contains "aa.com" and one of "/booking/api", "/shopping", "/bff/"; a missing URL counts as "" |
| Capture.Bucket.ConsoleScrape | src/crawler_api.py:87-93 | appends exactly what `ScrapeEntry` gives and nothing else |
| Capture.Bucket.OnRequest | src/crawler_api.py:258-262 | appends the URL and body (or "") of a POST, in any letter case, to a shopping URL; leaves every other request out |
| Capture.Score | src/crawler_api.py:294-298 | the score is at most 3; it is 2 or more exactly for a `/booking/api/` URL and odd exactly for a non-empty body |
| Capture.SortByScoreDescending | src/crawler_api.py:300 | the sorted list has non-increasing scores |
| Capture.SortByScore | src/crawler_api.py:294-300 | the sorted list is a permutation of the candidates |
| Capture.SortByScoreIsStable | src/crawler_api.py:300 | the sort is a permutation and keeps candidates of equal score in their original order |
| Capture.BestIsEarliestTop | src/crawler_api.py:300-301 | `candidates[0]` after the sort is the earliest candidate with the highest score |
| Capture.PickBest | src/crawler_api.py:290-301 | an empty list raises "No API calls captured"; otherwise the bucket is sorted and the result is its first entry |
| Capture.NetworkKeepKeywords | src/playwright_flow.py:17 | the `NETWORK_KEEP` regular expression matches exactly when the URL contains one of its eight keywords, letter case aside |
| Capture.KeptOfAppend | src/playwright_flow.py:394 | the captured list of a run of responses is the concatenation of those of its parts, in arrival order |
| Capture.KeptOf | src/playwright_flow.py:312-321 | a run of responses never leaves more entries than there were responses |
| Capture.Keeps | src/playwright_flow.py:315-317 | a response without a content-type header, or with one too short to mention "json", is never kept |
| Capture.KeptAreKept | src/playwright_flow.py:312-321 | every captured entry comes from a response that passed both the URL and the content-type filter and decoded, with its URL and JSON |
| Capture.JsonBucket.CaptureJson | src/playwright_flow.py:312-321 | appends `{url, json}` for a response that passes both filters and decodes; any failure leaves the bucket unchanged |
| Capture.JsonBucket.CaptureAll | src/playwright_flow.py:393-394 | after a run of responses the bucket holds the kept entries in arrival order |
| Capture.CaptureAttempt | src/playwright_flow.py:393-394 | a fresh `captured` list with the listener attached ends holding the kept responses in arrival order |
| Json.LooksLikeFlights | src/crawler_api.py:70-73 | only an object can look like flights |
| Json.MarkerKeyLooksLikeFlights | src/crawler_api.py:72-73 | an object with one of the five markers as a key looks like flights, whatever its values |
| Json.EmptyOrNonObjectIsNotFlights | src/crawler_api.py:71 | a value that is not an object, and the empty object, do not look like flights |
| Json.KeyInDumps | src/crawler_api.py:72 | a plain-ASCII key of an object appears in its `json.dumps` serialisation |
| Json.Dumps | src/crawler_api.py:72 | the serialisation is never empty; a string is written between quotes, a list between brackets and an object between braces |
| Json.PutGet | src/crawler_api.py:329-333 | after `d[k] = v` the key reads `v`, every other key reads as before, and the existing keys keep their order |
| Crawler.DirectTry | src/crawler_api.py:179-187 | a try yields a payload only when it looks like flights |
| Crawler.TryDirectApi | src/crawler_api.py:162-188 | the nested loops return what the reference `DirectSpec` gives: the first try, in order, that yields a flight payload |
| Crawler.TryModes | src/crawler_api.py:174-187 | on one URL, "cash" then "award": a hit is the overall answer; no hit means every try so far failed |
| Crawler.DirectSpec | src/crawler_api.py:162-188 | a hit is a flight payload met at one of the two URLs in one of the two modes |
| Crawler.DirectOrder | src/crawler_api.py:166-188 | a hit looks like flights; "award" on a URL is used only after "cash" on it failed, the second URL only after both tries on the first failed; no hit means every try failed |
| Crawler.DirectHitOrder | src/crawler_api.py:166-188 | before a hit every earlier try failed: "cash" before "award" on a URL, both tries on the first URL before the second |
| Crawler.DirectMissTriedAll | src/crawler_api.py:166-188 | no hit means all four URL and mode tries failed |
| Crawler.Listen | src/crawler_api.py:258-264 | after the traffic the candidate list holds the console entries and shopping POSTs in the order they arrived |
| Crawler.DiscoverViaForm | src/crawler_api.py:254-307 | a failure while filling escapes; no candidate raises "No API calls captured"; otherwise the first candidate of the stably sorted list |
| Crawler.ReplayBody | src/crawler_api.py:326-335 | an empty or unparsable template body becomes `{}` |
| Crawler.PatchTouchesFirstSliceOnly | src/crawler_api.py:326-333 | on an object with a non-empty `slices` list whose first element is an object, the patch sets origin, destination and date of `slices[0]`; every other key of the body and of the first slice, the other slices, and the key order are kept |
| Crawler.PatchLeavesOthers | src/crawler_api.py:328 | an object without a truthy `slices` passes through unchanged |
| Crawler.PatchDecoded | src/crawler_api.py:326-335 | null, a boolean or a number always raises (the body becomes `{}`); a list or a string raises or passes through unchanged; a patched object stays an object |
| Crawler.ReplayOutcome | src/crawler_api.py:341-347 | a replay succeeds only with a flight payload; a response that is not ok raises "Replay failed: …" |
| Crawler.ReplayFailureNamesStatus | src/crawler_api.py:341-342 | the "Replay failed" message ends with the status code, which reads back as that number |
| Crawler.ReplayRejectsNonFlights | src/crawler_api.py:344-347 | an ok replay with a decoded payload succeeds exactly when the payload looks like flights, and otherwise raises "Replay didn't return flights" |
| Crawler.FetchShoppingJson | src/crawler_api.py:310-362 | the browser is closed exactly when it was opened; launch and seeding failures escape; a direct hit is returned without a template; otherwise the form failure, "No API calls captured", or the replay of the best candidate's patched body; a success always looks like flights |
| Dates.MmDdYyyy | src/crawler_api.py:83-85 | succeeds exactly when the text splits on "-" into three parts whose month and day parse as integers; the result is at least six characters longer than the year part |
| Dates.MmDdYyyyReadsBack | src/playwright_flow.py:254-255 | with month and day below 100 the result reads back as a two-digit month, "/", a two-digit day, "/" and the year exactly as given |
| Dates.MmDdYyyyShaped | src/playwright_flow.py:304-305 | with a digit year and month and day below 100, the result passes the form's `MM/DD/YYYY` test exactly when the year has four digits |
| Dates.IsoFormat | src/__main__.py:34 | `date.isoformat()` is ten characters with dashes at positions 4 and 7 |
| Dates.ParseIsoDate | src/__main__.py:28 | an accepted text is ten characters and gives a valid date |
| Dates.IsoRoundTrip | src/__main__.py:28-34 | every valid date survives a trip through its ISO form |
| Dates.IsoCanonical | src/__main__.py:28 | an accepted text is already the ISO form of the date it gives |
| Dates.IsoToMmDdYyyy | src/playwright_utils.py:171-173 | succeeds exactly when the text parses as an ISO date; the result reads back as the date's month, day and year |
| Dates.ConversionsAgree | src/playwright_utils.py:171-173 | from year 1000 on, the split-based conversion and the `strftime` one give the same text, and it is `MM/DD/YYYY`-shaped |
| Dates.IsoParts | src/crawler_api.py:83-84 | an ISO date splits on "-" into exactly its padded year, month and day |
| Dom.FirstWhere | src/playwright_flow.py:168 | `querySelector` gives the first element, in document order, that matches, or none when nothing does |
| Dom.EscapedDotsStayInId | src/playwright_flow.py:153 | handed to a locator, `#a\.b\.c` selects the element whose id is `a.b.c` |
| Dom.ScriptTextDropsEscapes | src/playwright_flow.py:206 | inside an injected script's string literal the same selector loses its backslashes |
| Dom.ScriptDropsEscapes | src/playwright_flow.py:206 | so the script's selector asks for id `a` with classes `b` and `c` |
| Dom.OneWaySelectorReadings | src/playwright_utils.py:396-423 | the one-way selector read by a locator designates the radio's id; read by the script it designates a form id with two classes |
| FlowForm.BookingFormSelector | src/playwright_flow.py:124-144 | a selector exactly when some form holds an `originAirport` input, and it starts with "form"; otherwise "Booking form not found"; a guard failure escapes |
| FlowForm.FormSelector | src/playwright_flow.py:134-136 | every selector built for a form starts with "form" |
| FlowForm.InjectDate | src/playwright_flow.py:276-298 | every input of the form ends as the date script leaves it; the events fire once for each visible or hidden date mirror and never twice for one element |
| FlowForm.FillMirrors | src/playwright_flow.py:277-289 | the four selectors in turn fill exactly the date mirrors, and each fires its events once |
| FlowForm.FillSelector | src/playwright_flow.py:284-289 | one selector fills the elements it matches that are not yet in `seen`, adds them to `seen` and fires each once |
| FlowForm.FillHiddenMirrors | src/playwright_flow.py:290-295 | exactly the hidden inputs named for departing or leaving get the value; nothing else changes |
| FlowForm.SetDepartDate | src/playwright_flow.py:253-309 | a malformed date raises before anything changes; otherwise the mirrors are filled, and the call succeeds exactly when the form exists and some input holds a `MM/DD/YYYY`-shaped value, and otherwise raises "Depart date not set correctly" |
| FlowForm.InjectedDateConfirmed | src/playwright_flow.py:276-305 | with a date mirror in the form and a shaped date, the read-back succeeds |
| FlowForm.AnyShapedValuePasses | src/playwright_flow.py:300-305 | any shaped value in an input the script does not touch passes the read-back, whatever date was asked for |
| FlowForm.NoMirrorNoConfirmation | src/playwright_flow.py:276-305 | without a mirror and without a shaped value elsewhere the read-back fails |
| FlowForm.InjectOneWay | src/playwright_flow.py:166-199 | the form is marked `data-triptype=oneWay`, and every input ends as the radio, hidden-mirror and return-field passes leave it |
| FlowForm.MarkedFormConfirmed | src/playwright_flow.py:189-217 | once the form is marked, the read-back succeeds whatever the radios say |
| FlowForm.ForceOneWayHard | src/playwright_flow.py:147-221 | a guard failure escapes; when the form exists the script marks it and the call succeeds; "One-way did not toggle" is raised exactly when the form does not exist |
| FlowForm.ReadBackMissesCheckedRadio | src/playwright_flow.py:206-207 | as written the read-back does not see aa.com's checked one-way radio; looked up by its id it does |
| FlowForm.ReadBackAfterScriptUnaffected | src/playwright_flow.py:189-219 | after the script has run, both lookups give the same verdict, so the lost escapes do not change the outcome there |
| TripType.ActionFor | src/playwright_utils.py:111-119 | a candidate is checked only when it is an input of type radio, letter case aside; anything that is not an input is clicked |
| TripType.EnsureOneWay | src/playwright_utils.py:81-168 | stops at the first candidate whose check or click completes, reports that candidate and its action, and never raises; it reports nothing when every candidate failed |
| TripType.EnsureIgnoresLaterCandidates | src/playwright_utils.py:108-123 | candidates after the first that completes are never consulted |
| TripType.ReadRadio | src/playwright_utils.py:423-425 | reading the radio succeeds exactly when one element has its id (no match times out; two or more break strict mode) |
| TripType.SetFirstInPlace | src/playwright_utils.py:408-415 | sets `checked` on the first element the selector matches, in place, and changes nothing else |
| TripType.RunScript | src/playwright_utils.py:406-420 | the injected script's lookups, in place, give the reference `ScriptEffect` |
| TripType.ForceOneWay | src/playwright_utils.py:387-431 | a guard failure escapes and changes nothing; otherwise the document ends in `ForceOneWayState` and the outcome is the final assertion on the radio |
| TripType.ForceOneWayPassMeansChecked | src/playwright_utils.py:431 | success exactly when the guard passed and a single radio reads checked; the assertion error exactly when it reads unchecked |
| TripType.ForcedCheckSuffices | src/playwright_utils.py:422-431 | with the radio present once, a completed forced check makes the call succeed |
| TripType.CheckingTheRadio | src/playwright_utils.py:422-431 | checking the single radio makes it read checked |
| TripType.CountSameIds | src/playwright_utils.py:408-426 | changing `checked` or `value` never changes which elements carry the radio's id |
| TripType.ScriptMissesRadio | src/playwright_utils.py:408-409 | as written, with the label click and the forced check failing, the call ends in the assertion error on aa.com's form; with the radio looked up by id it succeeds |
| DepartDate.DialogWait | src/playwright_utils.py:192-197 | waiting for the calendar dialog fails only on an error that is not a timeout |
| DepartDate.OpenDepartCalendar | src/playwright_utils.py:175-197 | the loop gives the reference `OpenSpec`; a failure comes from an opener click, the fallback click or the dialog wait |
| DepartDate.CalendarNext | src/playwright_utils.py:203-214 | the loop gives the reference `NextSpec`; a failure comes from one of the three "next" clicks or the Tab press |
| DepartDate.PagerFrom | src/playwright_utils.py:342-347 | at most 24 pages; the pager pages only while the header is not visible, and a finished pager below 24 pages stops at a visible header |
| DepartDate.MonthPager | src/playwright_utils.py:342-347 | the 24-step loop gives the reference `PagerFrom` from round 0 |
| DepartDate.PaddedLabelRepeats | src/playwright_utils.py:218-219 | the zero-padded day label differs from the plain one exactly for days below 10 |
| DepartDate.TryClickCalendarCell | src/playwright_utils.py:216-237 | true only after some cell click completed; false exactly when all seven timed out; any other failure escapes |
| DepartDate.ReadBackIsContainment | src/playwright_utils.py:272-273 | the read-back test holds exactly when the value is non-empty and contains the target |
| DepartDate.TypeDepart | src/playwright_utils.py:248-289 | the loop over the five input selectors gives the reference `TypeSpec` |
| DepartDate.TypeStepCases | src/playwright_utils.py:252-288 | one input selector stops the loop exactly when its click, clearing and typing completed and a read-back matched; it raises exactly when its click failed other than by a timeout, with that error; a click timeout skips it |
| DepartDate.TypeSpecTrue | src/playwright_utils.py:248-289 | past the date conversion, true exactly when some selector took the date and every earlier one was skipped |
| DepartDate.TypeSpecRaises | src/playwright_utils.py:252-256 | past the date conversion, an error escapes exactly when some selector's click failed other than by a timeout after only skipped ones, and it is that click's error |
| DepartDate.TypeSpecFalse | src/playwright_utils.py:248-289 | past the date conversion, false exactly when all five selectors were skipped |
| DepartDate.JsSetDepart | src/playwright_utils.py:291-327 | past the date conversion, true exactly when some selector's script reported success |
| DepartDate.RunScripts | src/playwright_utils.py:296-327 | the selector loop reports success exactly when some selector's script set the value, as the reference cascade does |
| DepartDate.Select | src/playwright_utils.py:329-370 | a path is reported exactly when the call succeeds |
| DepartDate.SelectDepartDate | src/playwright_utils.py:329-370 | the method gives the reference `Select` over what its stages report |
| DepartDate.SelectFallsThroughInOrder | src/playwright_utils.py:349-370 | past the pager the call succeeds exactly when the cell, typing or script path reports success in that order, and raises "Could not set depart date … via any method." when all three report failure |
| DepartDate.StagesAfterPager | src/playwright_utils.py:339-359 | once the date parsed, the script path always reports |
| DepartDate.LaterPathsParse | src/playwright_utils.py:248-327 | the typing and script paths cannot fail on the date; typing fails only on a click error that is not a timeout |
| DepartDate.QuickSetDepart | src/playwright_utils.py:433-451 | guard and date-format failures change nothing; otherwise the first element matching either selector gets the formatted date, nothing else changes, and the call succeeds |
| Airport.BuildPatterns | src/search_and_capture.py:29-33 | with a non-empty city hint: code-then-city, city-then-code, bare code; otherwise the bare code only |
| Airport.EveryPatternNeedsCode | src/search_and_capture.py:31-33 | every pattern that matches a text finds the code there as a whole word, and a hint pattern finds the city as well |
| Airport.CodeInsideWordMisses | src/search_and_capture.py:33 | a code glued to more word characters is no match |
| Airport.ClickFirst | src/search_and_capture.py:37-42 | clicking the first match of a locator that matches nothing times out |
| Airport.FillSpec | src/search_and_capture.py:4-65 | a tactic is reported exactly when the call succeeds |
| Airport.FillAirport | src/search_and_capture.py:4-65 | the method gives the reference `FillSpec` over the pattern list `BuildPatterns` describes |
| Airport.RunTactics | src/search_and_capture.py:35-65 | the option loop, the list-item loop, the keyboard and the nudge, in that order, give the reference `FillSpec` |
| Airport.ClickEach | src/search_and_capture.py:35-51 | one click loop over the patterns gives the reference cascade's verdict: the first click that does not time out decides |
| Airport.PressKeys | src/search_and_capture.py:53-60 | the two ArrowDown+Enter tries give the reference verdict: the first that completes stops, any failure moves on |
| Airport.FillOrder | src/search_and_capture.py:36-65 | the tactic that took effect was the first to complete: every option before any list item, the keyboard after both, the nudge last; earlier tactics were skipped only on a timeout or failed key presses |
| Airport.FillFailureOrigin | src/search_and_capture.py:36-65 | after typing, a failure is a click's own error that was not a timeout, or the nudge's |
| Airport.FlowFillAirport | src/playwright_flow.py:224-250 | the guard, visibility and typing failures escape; after typing the call always succeeds, by the option, the list link or the nudge, in that order |
| Airport.ClickErrorsDiffer | src/search_and_capture.py:41-42 | a click error that is not a timeout escapes one version and is passed over by the other |
| Models.DefaultMetadata | src/models.py:12-13 | passengers default to 1 and the cabin to "economy" |
| Models.NormalizedShape | src/models.py:27-30 | a normalised flight number neither starts nor ends with whitespace, holds no lower-case letter, and equals the stripped input up to letter case |
| Models.NormalizeIdempotent | src/models.py:27-30 | normalising twice is normalising once |
| Models.NormalizeFlight | src/models.py:27-30 | a normalised flight number is never longer than the input and holds no lower-case letter |
| Models.MakeFlightItem | src/models.py:18-30 | the flight number is normalised and every other field is kept |
| Models.AsWrittenKeepsStaleCount | src/models.py:43-47 | `check_count` as written keeps any count: no flights with a count of 5 passes |
| Models.CheckCountAsWritten | src/models.py:43-47 | as written, a count out of step with the flights stays out of step |
| Models.MakeSearchResultAsWritten | src/models.py:38-47 | as written, the metadata and flights are kept and a wrong count gives an inconsistent result |
| Models.CheckCount | src/models.py:43-47 | the corrected validator gives the number of flights and agrees with the given count when that count is right |
| Models.MakeSearchResult | src/models.py:38-47 | the metadata and flights are kept and the result is consistent |
| Models.SearchResultConsistent | src/models.py:38-47 | every result built is consistent; with the right count the corrected and as-written validators agree |
| Models.DefaultResult | src/models.py:40-41 | a default result has no flights and a count of 0 |
| Models.DefaultsConsistent | src/models.py:40-41 | the defaults are consistent and pass both validators unchanged |
| Assemble.CaptureParamsOf | src/__main__.py:28-35 | the capture gets the ISO form of the requested date, which parses back to that date |
| Assemble.ChosenFlights | src/__main__.py:36-38 | the network parse unless it is empty, then the DOM parse; never a mix |
| Assemble.ItemOf | src/__main__.py:42-51 | an item keeps a flight's fields, normalises its number, and carries the cpp of its cash, taxes and points |
| Assemble.BuildResult | src/__main__.py:36-53 | the items are the chosen flights' items, same length and order; `total_results` is their count; the metadata is the request's |

## Left out

- Real time, sleeps and randomness are left out. Deadlines are abstract
  clocks (`250·k + lag(k)`), and back-offs are events that carry their
  duration.
- Every Playwright call is an input and is not modelled. This covers
  navigation, clicks, fills, waits, `evaluate` transport errors, screenshots,
  `launch_context`, `seed_home`, `prewarm`, `accept_banners`,
  `ensure_book_flights_panel`, `warm_up`, `safe_click`, and the crawler's
  `setup_oneway`, `fill_airport` and `fill_date`.
- Debug and file output is left out (`debug_step`, `_dump`, the
  `results.html` and `last.html` writes, the calendar-failure snapshot). Only
  the `akamai_last.html` write is an event of the trace.
- The response and request listeners run concurrently in the source.
  - `Capture.JsonBucket.CaptureAll` assumes each response is handled before
    the next arrives. The source schedules `_capture_json` as separate tasks
    that may finish out of order.
  - `Crawler.Listen` likewise hands the traffic over in arrival order.
- Session.SearchAndCapture: a context whose set-up after the launch raised
  (headers, init script, new page) is left to Playwright's teardown. The
  trace records no close for it. Its exception escapes like any other.
- Session.SearchAndCapture: the `AA_ROTATE` switch is not modelled. The
  flow's proxy ignores the index either way.
- `AA_PREWARM` and the media-blocking route filter are left out: they only
  add navigation.
- src/cpp.py is an input function. Its float division and `round(·, 2)` are
  floating-point numerics. Prices are `real`s, and pydantic's coercion of
  field types is not modelled.
- src/parse_aa.py, src/fetch.py, src/parse_bs4.py and src/config.py are not
  part of this model. The two parsers are inputs to `Assemble.BuildResult`.
- argparse, output writing and the crawler's command-line `_main` are left
  out.
- Base64, UTF-8 decoding, `btoa`/`encodeURIComponent` and `json.loads` are
  input functions.
- JSON numbers are integers. Floats, and objects with duplicate keys, are
  not modelled.
- Letter case is folded for ASCII only. `\w` in the airport patterns is
  ASCII word characters. Unicode case folding and Unicode word characters
  are left out.
- Dates.ParseIsoDate accepts only `YYYY-MM-DD`. The extended forms Python
  3.11's `fromisoformat` also accepts are left out.
- Dates.MmDdYyyy: `int()` is modelled on plain decimal digits. Signs,
  surrounding whitespace and underscores are left out.
- Dates.IsoToMmDdYyyy: `%Y` prints years below 1000 unpadded, as glibc's
  `strftime` does. Other C libraries differ.
- The `%B` month header check (`_month_header_visible`) and the dialog scope
  choice of `select_depart_date` are inputs.
- The `role="tabpanel"` un-hiding in `get_booking_form_selector` is left
  out. So are radio-group exclusivity and the case-insensitive matching of
  the `type` attribute in CSS.
- TripType.EnsureOneWay: the read-back after the loop (radio checked,
  `aria-pressed`, return field disabled) is left out. It changes nothing the
  function returns.
- Airport.FlowFillAirport: the locators' scoping to the form and Playwright's
  `text=`/`has-text` matching are left out. The option and link clicks are
  inputs.
- Models.MakeSearchResult uses the corrected count validator (see Findings).
  `Models.MakeSearchResultAsWritten` models the code as written.

## Findings

| source | as written | input that shows it | evidently intended | confidence | as-written member | corrected member |
|---|---|---|---|---|---|---|
| src/playwright_flow.py:35-39 | the `RuntimeError("akamai_denied_title")` is raised inside a `try` whose `except Exception: pass` swallows it, so the title check never stops anything | the DOM loads and the title is "Access Denied" | the guard fails on an access-denied title | not executed; high | Challenge.DeniedTitleIgnored | Challenge.FlowWaitAkamaiClearIntended |
| src/playwright_utils.py:408-409 | the radio selectors sit in a non-raw Python string inside a JavaScript string literal, so `\\.` reaches `querySelector` as a bare `.` and selects id `flightSearchForm` with classes `tripType` and `oneWay` | aa.com's form with its one-way radio unchecked, the label click and the forced check failing | the script checks the radio whose id is `flightSearchForm.tripType.oneWay` | not executed; high | TripType.ScriptMissesRadio | TripType.ForceOneWay |
| src/playwright_flow.py:206 | the read-back's radio lookup loses its escapes the same way and never finds the one-way radio | a form whose one-way radio is checked and which carries no `data-triptype` or hidden mirror | the radio branch of the read-back confirms a checked radio | not executed; masked in practice, because the injection sets `data-triptype` first | FlowForm.ReadBackMissesCheckedRadio | FlowForm.ForceOneWayHard |
| src/models.py:43-47 | `check_count` returns `total_results` unchanged; its comment says it keeps the count in sync with `flights` | `SearchResult(flights=[], total_results=5)` | `total_results == len(flights)` for every result built | not executed; high | Models.AsWrittenKeepsStaleCount | Models.CheckCount |
