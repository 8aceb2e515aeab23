/** The API-replay crawler of src/crawler_api.py: the direct API tries of
    `try_direct_api`, the capture-and-pick of `discover_via_form`, the replay
    body patch and the error paths of `fetch_shopping_json`. */
module Crawler {
  import opened Wrappers
  import opened Text
  import opened Cascade
  import opened Json
  import opened Capture

  /** The search the caller asks for. */
  datatype Params = Params(origin: string, destination: string, date: string)

  /** An HTTP response: `r.ok`, `r.status` and what `r.json()` gives. */
  datatype Response = Response(ok: bool, status: nat, json: Result<Value>)

  // --------------------------------------------------------- try_direct_api

  const DirectUrls: seq<string> :=
    ["https://www.aa.com/booking/api/search", "https://www.aa.com/booking/api/1/shopping/flightSearch"]

  const Modes: seq<string> := ["cash", "award"]

  /** The request body of one direct try. */
  function DirectBody(mode: string, p: Params): Value
  {
    JObj([("tripType", JStr("ONE_WAY")),
          ("redeemMiles", JBool(mode == "award")),
          ("slices", JArr([JObj([("origin", JStr(p.origin)), ("destination", JStr(p.destination)),
                                 ("date", JStr(p.date))])])),
          ("passengers", JObj([("adult", JInt(1))]))])
  }

  /** The flight payload one try yields, if it does: the POST went through,
      the response is ok, decodes, and looks like flights. A failure anywhere
      is swallowed. `post(url, data)` is what posting `data` to `url` met. */
  function DirectTry(post: (string, string) -> Result<Response>, url: string, mode: string, p: Params): (r: Option<Value>)
    ensures r.Some? ==> LooksLikeFlights(r.value)
  {
    match post(url, Dumps(DirectBody(mode, p)))
    case Err(_) => None
    case Ok(resp) =>
      if !resp.ok then None
      else match resp.json
        case Err(_) => None
        case Ok(js) => if LooksLikeFlights(js) then Some(js) else None
  }

  /** The four tries in order: each URL with "cash", then with "award". */
  function DirectSteps(post: (string, string) -> Result<Response>, p: Params): (steps: seq<Step>)
    ensures |steps| == 4
  {
    seq(4, k requires 0 <= k < 4 => if DirectTry(post, DirectUrls[k / 2], Modes[k % 2], p).Some? then Stop else Next)
  }

  datatype DirectHit = DirectHit(mode: string, json: Value, url: string)

  /** The reference meaning of `try_direct_api`: a hit is a flight payload
      met at one of the two URLs in one of the two modes. */
  function DirectSpec(post: (string, string) -> Result<Response>, p: Params): (r: Option<DirectHit>)
    ensures r.Some? ==> LooksLikeFlights(r.value.json) && r.value.url in DirectUrls && r.value.mode in Modes
  {
    match Run(DirectSteps(post, p))
    case Stopped(k) =>
      var url, mode := DirectUrls[k / 2], Modes[k % 2];
      (match DirectTry(post, url, mode, p)
       case Some(js) => Some(DirectHit(mode, js, url))
       case None => None)
    case _ => None
  }

  /** Try `2 * u + m` is URL `u` with mode `m`. */
  lemma DirectStepAt(post: (string, string) -> Result<Response>, p: Params, u: nat, m: nat)
    requires u < 2 && m < 2
    ensures DirectSteps(post, p)[2 * u + m] == if DirectTry(post, DirectUrls[u], Modes[m], p).Some? then Stop else Next
  {
    assert (2 * u + m) / 2 == u && (2 * u + m) % 2 == m;
  }

  /** `try_direct_api`: the first try that yields a flight payload, else
      nothing; it never raises. */
  method TryDirectApi(post: (string, string) -> Result<Response>, p: Params) returns (r: Option<DirectHit>)
    ensures r == DirectSpec(post, p)
  {
    ghost var steps := DirectSteps(post, p);
    var u := 0;
    while u < 2
      invariant 0 <= u <= 2
      invariant AllNext(steps[..2 * u])
    {
      r := TryModes(post, p, u);
      if r.Some? {
        return;
      }
      u := u + 1;
    }
    assert steps[..4] == steps;
    RunAllNext(steps);
    r := None;
  }

  /** The first try that yields a payload is the hit. */
  lemma HitAt(post: (string, string) -> Result<Response>, p: Params, u: nat, m: nat)
    requires u < 2 && m < 2 && AllNext(DirectSteps(post, p)[..2 * u + m])
    requires DirectTry(post, DirectUrls[u], Modes[m], p).Some?
    ensures DirectSpec(post, p) == Some(DirectHit(Modes[m], DirectTry(post, DirectUrls[u], Modes[m], p).value, DirectUrls[u]))
  {
    DirectStepAt(post, p, u, m);
    RunAt(DirectSteps(post, p), 2 * u + m);
    assert (2 * u + m) / 2 == u && (2 * u + m) % 2 == m;
  }

  /** The inner loop of `try_direct_api` on URL `u`: "cash", then "award".
      A hit there is the overall answer, since every earlier try failed. */
  method TryModes(post: (string, string) -> Result<Response>, p: Params, u: nat) returns (r: Option<DirectHit>)
    requires u < 2 && AllNext(DirectSteps(post, p)[..2 * u])
    ensures r.Some? ==> r == DirectSpec(post, p)
    ensures r.None? ==> AllNext(DirectSteps(post, p)[..2 * u + 2])
  {
    ghost var steps := DirectSteps(post, p);
    var m := 0;
    while m < 2
      invariant 0 <= m <= 2
      invariant AllNext(steps[..2 * u + m])
    {
      var js := DirectTry(post, DirectUrls[u], Modes[m], p);
      if js.Some? {
        HitAt(post, p, u, m);
        return Some(DirectHit(Modes[m], js.value, DirectUrls[u]));
      }
      DirectStepAt(post, p, u, m);
      AllNextGrow(steps, 2 * u + m);
      m := m + 1;
    }
    r := None;
  }

  /** A hit is a flight payload from the first try that yields one: "award"
      on a URL only after "cash" on it failed, the second URL only after both
      tries on the first failed. Without a hit every try failed. */
  lemma DirectOrder(post: (string, string) -> Result<Response>, p: Params)
    ensures var r := DirectSpec(post, p);
            (r.Some? ==> LooksLikeFlights(r.value.json)
                         && (r.value.mode == "award" ==> DirectTry(post, r.value.url, "cash", p).None?)
                         && (r.value.url == DirectUrls[1] ==>
                               DirectTry(post, DirectUrls[0], "cash", p).None?
                               && DirectTry(post, DirectUrls[0], "award", p).None?))
            && (r.None? ==> forall u, m :: 0 <= u < 2 && 0 <= m < 2 ==> DirectTry(post, DirectUrls[u], Modes[m], p).None?)
  {
    if DirectSpec(post, p).Some? {
      DirectHitOrder(post, p);
    } else {
      DirectMissTriedAll(post, p);
    }
  }

  /** The tries before a hit all failed, in URL-then-mode order. */
  lemma DirectHitOrder(post: (string, string) -> Result<Response>, p: Params)
    requires DirectSpec(post, p).Some?
    ensures var r := DirectSpec(post, p).value;
            (r.mode == "award" ==> DirectTry(post, r.url, "cash", p).None?)
            && (r.url == DirectUrls[1] ==>
                  DirectTry(post, DirectUrls[0], "cash", p).None?
                  && DirectTry(post, DirectUrls[0], "award", p).None?)
  {
    var steps := DirectSteps(post, p);
    var k := Run(steps).at;
    forall j | 0 <= j < k ensures DirectTry(post, DirectUrls[j / 2], Modes[j % 2], p).None? {
      assert steps[..k][j] == steps[j];
    }
    if Modes[k % 2] == "award" {
      assert k % 2 == 1;
      assert DirectUrls[(k - 1) / 2] == DirectUrls[k / 2];
    }
    if DirectUrls[k / 2] == DirectUrls[1] {
      assert k >= 2;
      assert DirectUrls[0] == DirectUrls[0 / 2] && DirectUrls[0] == DirectUrls[1 / 2];
    }
  }

  /** No hit means all four tries failed. */
  lemma DirectMissTriedAll(post: (string, string) -> Result<Response>, p: Params)
    requires DirectSpec(post, p).None?
    ensures forall u, m :: 0 <= u < 2 && 0 <= m < 2 ==> DirectTry(post, DirectUrls[u], Modes[m], p).None?
  {
    var steps := DirectSteps(post, p);
    assert Run(steps).Exhausted?;
    forall u, m | 0 <= u < 2 && 0 <= m < 2 ensures DirectTry(post, DirectUrls[u], Modes[m], p).None? {
      assert steps[2 * u + m] == Next;
      assert (2 * u + m) / 2 == u && (2 * u + m) % 2 == m;
    }
  }

  // ------------------------------------------------------ discover_via_form

  /** What the listeners saw while the form was filled, in order. */
  datatype Traffic =
    | ConsoleLine(text: Option<string>)
    | Request(httpMethod: string, url: string, postData: Option<string>)

  /** The candidate list the listeners build from `traffic`. */
  function Collected(traffic: seq<Traffic>, decode: string -> Result<string>): seq<Candidate>
  {
    if traffic == [] then []
    else Collected(traffic[..|traffic| - 1], decode) + Heard(traffic[|traffic| - 1], decode)
  }

  /** What one event adds: the console scrape's entry, or a shopping POST
      with its body. */
  function Heard(t: Traffic, decode: string -> Result<string>): (r: seq<Candidate>)
    ensures |r| <= 1
  {
    match t
    case ConsoleLine(text) => ScrapeEntry(text, decode)
    case Request(m, u, d) => RequestEntry(m, u, d)
  }

  lemma CollectedStep(traffic: seq<Traffic>, k: nat, decode: string -> Result<string>)
    requires k < |traffic|
    ensures Collected(traffic[..k + 1], decode) == Collected(traffic[..k], decode) + Heard(traffic[k], decode)
  {
    assert traffic[..k + 1][..k] == traffic[..k];
  }

  lemma AppendAssoc(a: seq<Candidate>, b: seq<Candidate>, c: seq<Candidate>)
    ensures a + b + c == a + (b + c)
  {
  }

  /** Fills the candidate list from the listeners' traffic. */
  method Listen(bucket: Bucket, traffic: seq<Traffic>, decode: string -> Result<string>)
    modifies bucket
    ensures bucket.entries == old(bucket.entries) + Collected(traffic, decode)
  {
    for k := 0 to |traffic|
      invariant bucket.entries == old(bucket.entries) + Collected(traffic[..k], decode)
    {
      match traffic[k] {
        case ConsoleLine(text) => bucket.ConsoleScrape(text, decode);
        case Request(m, u, d) => bucket.OnRequest(m, u, d);
      }
      CollectedStep(traffic, k, decode);
      AppendAssoc(old(bucket.entries), Collected(traffic[..k], decode), Heard(traffic[k], decode));
    }
    assert traffic[..|traffic|] == traffic;
  }

  /** `discover_via_form` past its listeners: a failure while filling and
      submitting the form escapes, no capture is an error, otherwise the
      best-scoring capture, earliest first. `form` is what filling and
      submitting met. */
  method DiscoverViaForm(form: Outcome, traffic: seq<Traffic>, decode: string -> Result<string>)
    returns (r: Result<Candidate>)
    ensures form.Fail? ==> r == Err(form.error)
    ensures form.Pass? && Collected(traffic, decode) == [] ==> r == Err(RuntimeError("No API calls captured"))
    ensures form.Pass? && Collected(traffic, decode) != [] ==> r == Ok(SortByScore(Collected(traffic, decode))[0])
  {
    var bucket := new Bucket();
    Listen(bucket, traffic, decode);
    assert bucket.entries == Collected(traffic, decode);
    if form.Fail? {
      return Err(form.error);
    }
    r := PickBest(bucket);
  }

  // ------------------------------------------------------------ replay body

  /** The three fields the replay writes into the first slice. */
  function SlicePatch(p: Params): seq<(string, Value)>
  {
    [("origin", JStr(p.origin)), ("destination", JStr(p.destination)), ("date", JStr(p.date))]
  }

  /** The patch on a decoded body, or `None` where Python raises (and the
      body becomes `{}`): `"slices" in body`, `body["slices"]`,
      `body["slices"][0]` and `.update(...)` each raise on some values.
      Null, a boolean or a number always raises; a list or a string either
      raises or passes through unchanged; an object stays an object. */
  function PatchDecoded(v: Value, p: Params): (r: Option<Value>)
    ensures v.JNull? || v.JBool? || v.JInt? ==> r.None?
    ensures (v.JArr? || v.JStr?) && r.Some? ==> r.value == v
    ensures v.JObj? && r.Some? ==> r.value.JObj?
  {
    match v
    case JObj(fs) =>
      (match Get(fs, "slices")
       case None => Some(v)
       case Some(sl) =>
         if !Truthy(sl) then Some(v)
         else if sl.JArr? && sl.items[0].JObj? then
           var first := JObj(Update(sl.items[0].fields, SlicePatch(p)));
           Some(JObj(Put(fs, "slices", JArr([first] + sl.items[1..]))))
         else None)
    case JArr(xs) => if JStr("slices") in xs then None else Some(v)
    case JStr(s) => if Contains(s, "slices") then None else Some(v)
    case _ => None
  }

  /** The body the replay posts. `loads` is `json.loads`. */
  function ReplayBody(body: string, loads: string -> Result<Value>, p: Params): (v: Value)
    ensures body == "" ==> v == JObj([])
    ensures body != "" && loads(body).Err? ==> v == JObj([])
  {
    if body == "" then JObj([])
    else match loads(body)
      case Err(_) => JObj([])
      case Ok(decoded) =>
        match PatchDecoded(decoded, p)
        case None => JObj([])
        case Some(patched) => patched
  }

  lemma UpdateThree(f: seq<(string, Value)>, p: Params, k: string)
    ensures var g := Update(f, SlicePatch(p));
            Get(g, "origin") == Some(JStr(p.origin)) && Get(g, "destination") == Some(JStr(p.destination))
            && Get(g, "date") == Some(JStr(p.date))
            && (k != "origin" && k != "destination" && k != "date" ==> Get(g, k) == Get(f, k))
  {
    var pt := SlicePatch(p);
    var f1 := Put(f, "origin", JStr(p.origin));
    var f2 := Put(f1, "destination", JStr(p.destination));
    var f3 := Put(f2, "date", JStr(p.date));
    assert Update(f, pt) == f3 by {
      assert pt[0] == ("origin", JStr(p.origin));
      assert Update(f, pt) == Update(f1, pt[1..]);
      assert pt[1..][0] == ("destination", JStr(p.destination));
      assert Update(f1, pt[1..]) == Update(f2, pt[1..][1..]);
      assert pt[1..][1..][0] == ("date", JStr(p.date));
      assert Update(f2, pt[1..][1..]) == Update(f3, pt[1..][1..][1..]);
      assert pt[1..][1..][1..] == [];
    }
    PutGet(f, "origin", JStr(p.origin), k);
    PutGet(f1, "destination", JStr(p.destination), k);
    PutGet(f2, "date", JStr(p.date), k);
    PutGet(f1, "destination", JStr(p.destination), "origin");
    PutGet(f2, "date", JStr(p.date), "origin");
    PutGet(f2, "date", JStr(p.date), "destination");
  }

  /** On an object whose `slices` is a non-empty list starting with an
      object, the patch sets origin, destination and date of `slices[0]`
      and changes nothing else: every other key of the body and of the first
      slice keeps its value, the other slices stay, the body's keys keep
      their order. */
  lemma PatchTouchesFirstSliceOnly(fs: seq<(string, Value)>, p: Params, k: string, k2: string)
    requires Get(fs, "slices").Some? && Get(fs, "slices").value.JArr?
    requires Get(fs, "slices").value.items != [] && Get(fs, "slices").value.items[0].JObj?
    ensures var xs := Get(fs, "slices").value.items;
            var out := PatchDecoded(JObj(fs), p);
            out.Some? && out.value.JObj?
            && |out.value.fields| == |fs|
            && (forall j :: 0 <= j < |fs| ==> out.value.fields[j].0 == fs[j].0)
            && (k != "slices" ==> Get(out.value.fields, k) == Get(fs, k))
            && Get(out.value.fields, "slices").Some? && Get(out.value.fields, "slices").value.JArr?
            && var ys := Get(out.value.fields, "slices").value.items;
               |ys| == |xs| && ys[1..] == xs[1..] && ys[0].JObj?
               && Get(ys[0].fields, "origin") == Some(JStr(p.origin))
               && Get(ys[0].fields, "destination") == Some(JStr(p.destination))
               && Get(ys[0].fields, "date") == Some(JStr(p.date))
               && (k2 != "origin" && k2 != "destination" && k2 != "date"
                   ==> Get(ys[0].fields, k2) == Get(xs[0].fields, k2))
  {
    var xs := Get(fs, "slices").value.items;
    var first := JObj(Update(xs[0].fields, SlicePatch(p)));
    var ys := [first] + xs[1..];
    PutGet(fs, "slices", JArr(ys), k);
    UpdateThree(xs[0].fields, p, k2);
    assert ys[1..] == xs[1..];
  }

  /** Anything else that decodes passes through unchanged or becomes `{}`;
      an object without a truthy `slices` passes through unchanged. */
  lemma PatchLeavesOthers(fs: seq<(string, Value)>, p: Params)
    requires Get(fs, "slices").None? || !Truthy(Get(fs, "slices").value)
    ensures PatchDecoded(JObj(fs), p) == Some(JObj(fs))
  {
  }

  // ---------------------------------------------------- fetch_shopping_json

  /** Everything `fetch_shopping_json` meets: opening the browser, loading
      the home page, every POST, filling the form, the listeners' traffic,
      Base64 decoding and `json.loads`. */
  datatype FetchWorld = FetchWorld(
    launch: Outcome, seed: Outcome, post: (string, string) -> Result<Response>,
    form: Outcome, traffic: seq<Traffic>, decode: string -> Result<string>,
    loads: string -> Result<Value>)

  /** The returned dictionary: the replay template (absent for a direct
      hit), the flight payload, its URL and, for a direct hit, its mode. */
  datatype Fetched = Fetched(template: Option<(string, Value)>, json: Value, url: string, mode: Option<string>)

  /** What the replay step yields for the response it met: a network
      error or an undecodable payload escapes, a response that is not ok and
      one that does not look like flights are errors of their own. */
  function ReplayOutcome(resp: Result<Response>): (r: Result<Value>)
    ensures r.Ok? ==> LooksLikeFlights(r.value)
    ensures resp.Ok? && !resp.value.ok ==>
              r.Err? && r.error.RuntimeError? && StartsWith(r.error.msg, ReplayFailedPrefix)
  {
    match resp
    case Err(e) => Err(e)
    case Ok(rs) =>
      if !rs.ok then Err(RuntimeError(ReplayFailedPrefix + Decimal(rs.status)))
      else match rs.json
        case Err(e) => Err(e)
        case Ok(js) => if LooksLikeFlights(js) then Ok(js) else Err(RuntimeError("Replay didn't return flights"))
  }

  const ReplayFailedPrefix := "Replay failed: "

  /** The "Replay failed" message carries the status: what follows the
      prefix reads back as the status code. */
  lemma ReplayFailureNamesStatus(rs: Response)
    requires !rs.ok
    ensures var r := ReplayOutcome(Ok(rs));
            r.Err? && ParseInt(r.error.msg[|ReplayFailedPrefix|..]) == Ok(rs.status)
  {
    var msg := ReplayFailedPrefix + Decimal(rs.status);
    assert msg[|ReplayFailedPrefix|..] == Decimal(rs.status);
    DecimalValue(rs.status);
  }

  /** An ok response with a decodable payload that is not a flight payload
      is exactly the "didn't return flights" case. */
  lemma ReplayRejectsNonFlights(rs: Response, js: Value)
    requires rs.ok && rs.json == Ok(js)
    ensures ReplayOutcome(Ok(rs)).Ok? <==> LooksLikeFlights(js)
    ensures !LooksLikeFlights(js) ==> ReplayOutcome(Ok(rs)) == Err(RuntimeError("Replay didn't return flights"))
  {
  }

  /** `fetch_shopping_json`. `closed` tells whether the `finally` clause ran
      (it closes the browser): always, once the browser is open. */
  method FetchShoppingJson(p: Params, w: FetchWorld) returns (r: Result<Fetched>, closed: bool)
    ensures closed <==> w.launch.Pass?
    ensures w.launch.Fail? ==> r == Err(w.launch.error)
    ensures w.launch.Pass? && w.seed.Fail? ==> r == Err(w.seed.error)
    ensures w.launch.Pass? && w.seed.Pass? && DirectSpec(w.post, p).Some? ==>
              var h := DirectSpec(w.post, p).value;
              r == Ok(Fetched(None, h.json, h.url, Some(h.mode)))
    ensures w.launch.Pass? && w.seed.Pass? && DirectSpec(w.post, p).None? ==>
              if w.form.Fail? then r == Err(w.form.error)
              else if Collected(w.traffic, w.decode) == [] then r == Err(RuntimeError("No API calls captured"))
              else
                var best := SortByScore(Collected(w.traffic, w.decode))[0];
                var body := ReplayBody(best.body, w.loads, p);
                match ReplayOutcome(w.post(best.url, Dumps(body)))
                case Ok(js) => r == Ok(Fetched(Some((best.url, body)), js, best.url, None))
                case Err(e) => r == Err(e)
    ensures r.Ok? ==> LooksLikeFlights(r.value.json)
  {
    if w.launch.Fail? {
      return Err(w.launch.error), false;
    }
    closed := true;
    if w.seed.Fail? {
      return Err(w.seed.error), closed;
    }
    var direct := TryDirectApi(w.post, p);
    if direct.Some? {
      DirectOrder(w.post, p);
      return Ok(Fetched(None, direct.value.json, direct.value.url, Some(direct.value.mode))), closed;
    }
    var template := DiscoverViaForm(w.form, w.traffic, w.decode);
    if template.Err? {
      return Err(template.error), closed;
    }
    var body := ReplayBody(template.value.body, w.loads, p);
    var replay := ReplayOutcome(w.post(template.value.url, Dumps(body)));
    match replay
    case Err(e) => r := Err(e);
    case Ok(js) => r := Ok(Fetched(Some((template.value.url, body)), js, template.value.url, None));
  }
}
