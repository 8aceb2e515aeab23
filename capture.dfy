/** Capturing the site's API traffic: the console framing written by the
    injected hook and read back by `_console_scrape`, the request filter
    `_looks_like_shopping` and the best-candidate pick of
    `discover_via_form` (src/crawler_api.py), and the JSON response filter
    `NETWORK_KEEP` / `_capture_json` (src/playwright_flow.py). */
module Capture {
  import opened Wrappers
  import opened Text
  import opened Json

  // ------------------------------------------------------ console framing

  const HookPrefix: string := "AA_HOOK|"

  /** The line the injected `tag(kind, url, body)` logs; `b64` is the
      Base64 form of the body, or "" for an empty body. */
  function HookTag(kind: string, url: string, b64: string): (line: string)
    ensures StartsWith(line, HookPrefix)
  {
    "AA_HOOK|" + kind + "|" + url + "|" + b64
  }

  /** A captured request: its URL, its body and, for console captures,
      `"console-" + kind`. */
  datatype Candidate = Candidate(url: string, body: string, source: Option<string>)

  /** What `_console_scrape` appends for one console text: nothing for a
      non-string (`None`), a text without the prefix, a text with fewer than
      three `|`, or a Base64 part that does not decode; otherwise one entry.
      `decode` is Base64 decoding followed by lenient UTF-8 decoding. */
  function ScrapeEntry(text: Option<string>, decode: string -> Result<string>): (r: seq<Candidate>)
    ensures |r| <= 1
    ensures r != [] <==> text.Some? && StartsWith(text.value, HookPrefix)
                         && |SplitN(text.value, '|', 3)| == 4
                         && (SplitN(text.value, '|', 3)[3] == "" || decode(SplitN(text.value, '|', 3)[3]).Ok?)
    ensures r != [] ==> r[0].url == SplitN(text.value, '|', 3)[2]
                        && r[0].source == Some("console-" + SplitN(text.value, '|', 3)[1])
                        && (SplitN(text.value, '|', 3)[3] == "" ==> r[0].body == "")
  {
    if text.None? || !StartsWith(text.value, HookPrefix) then []
    else
      var parts := SplitN(text.value, '|', 3);
      if |parts| != 4 then []
      else if parts[3] == "" then [Candidate(parts[2], "", Some("console-" + parts[1]))]
      else match decode(parts[3])
        case Err(_) => []
        case Ok(body) => [Candidate(parts[2], body, Some("console-" + parts[1]))]
  }

  lemma HookSplit(kind: string, url: string, b64: string)
    requires '|' !in kind && '|' !in url
    ensures SplitN(HookTag(kind, url, b64), '|', 3) == ["AA_HOOK", kind, url, b64]
  {
    var tail := url + ['|'] + b64;
    var mid := kind + ['|'] + tail;
    var head: string := "AA_HOOK";
    assert HookTag(kind, url, b64) == head + ['|'] + mid;
    assert '|' !in head by {
      assert forall i :: 0 <= i < |head| ==> head[i] != '|';
    }
    SplitNCons(url, '|', b64, 0);
    assert SplitN(tail, '|', 1) == [url, b64];
    SplitNCons(kind, '|', tail, 1);
    assert SplitN(mid, '|', 2) == [kind, url, b64];
    SplitNCons(head, '|', mid, 2);
  }

  /** A line the hook wrote, for a kind and URL without `|`, is read back as
      that kind and URL with the decoded body. */
  lemma HookRoundTrip(kind: string, url: string, b64: string, decode: string -> Result<string>)
    requires '|' !in kind && '|' !in url
    requires b64 == "" || decode(b64).Ok?
    ensures ScrapeEntry(Some(HookTag(kind, url, b64)), decode)
            == [Candidate(url, if b64 == "" then "" else decode(b64).value, Some("console-" + kind))]
  {
    HookSplit(kind, url, b64);
  }

  // ------------------------------------------------------------ the bucket

  /** `_looks_like_shopping`: an aa.com URL on one of the booking API paths,
      letter case aside; a missing URL counts as "". Headers play no part. */
  function LooksLikeShopping(url: Option<string>): (r: bool)
    ensures var u := if url.Some? then url.value else "";
            r <==> ContainsIgnoreCase(u, "aa.com")
                   && (ContainsIgnoreCase(u, "/booking/api") || ContainsIgnoreCase(u, "/shopping")
                       || ContainsIgnoreCase(u, "/bff/"))
  {
    var u := if url.Some? then url.value else "";
    LowerContains(u, "aa.com");
    LowerContains(u, "/booking/api");
    LowerContains(u, "/shopping");
    LowerContains(u, "/bff/");
    var paths := ["/booking/api", "/shopping", "/bff/"];
    assert ContainsAny(Lower(u), paths) <==>
           Contains(Lower(u), paths[0]) || Contains(Lower(u), paths[1]) || Contains(Lower(u), paths[2]);
    Contains(Lower(u), "aa.com") && ContainsAny(Lower(u), paths)
  }

  /** What `on_req` keeps of one request: a POST, in any letter case, to a
      shopping URL, with its body or "". */
  function RequestEntry(httpMethod: string, url: string, postData: Option<string>): (r: seq<Candidate>)
    ensures |r| <= 1
    ensures r != [] <==> Upper(httpMethod) == "POST" && LooksLikeShopping(Some(url))
    ensures r != [] ==> r[0] == Candidate(url, if postData.Some? then postData.value else "", None)
  {
    if Upper(httpMethod) == "POST" && LooksLikeShopping(Some(url)) then
      [Candidate(url, if postData.Some? then postData.value else "", None)]
    else []
  }

  /** The candidate list `discover_via_form` fills from its request and
      console listeners. */
  class Bucket {
    var entries: seq<Candidate>

    constructor ()
      ensures entries == []
    {
      entries := [];
    }

    /** `_console_scrape(text, bucket)` */
    method ConsoleScrape(text: Option<string>, decode: string -> Result<string>)
      modifies this
      ensures entries == old(entries) + ScrapeEntry(text, decode)
    {
      if text.None? || !(HookPrefix <= text.value) {
        return;
      }
      var parts := SplitN(text.value, '|', 3);
      if |parts| != 4 {
        return;
      }
      var body := "";
      if parts[3] != "" {
        var decoded := decode(parts[3]);
        if decoded.Err? {
          return;
        }
        body := decoded.value;
      }
      entries := entries + [Candidate(parts[2], body, Some("console-" + parts[1]))];
    }

    /** `on_req`: a POST to a shopping URL is kept with its body (or "");
        `method` is the request's HTTP method. */
    method OnRequest(httpMethod: string, url: string, postData: Option<string>)
      modifies this
      ensures entries == old(entries) + RequestEntry(httpMethod, url, postData)
    {
      if Upper(httpMethod) == "POST" && LooksLikeShopping(Some(url)) {
        entries := entries + [Candidate(url, if postData.Some? then postData.value else "", None)];
      }
    }
  }

  // ------------------------------------------------------- best candidate

  /** `-score(c)` is the sort key: two points for a booking-API URL, one for
      a non-empty body. */
  function Score(c: Candidate): (s: nat)
    ensures s <= 3
    ensures s >= 2 <==> Contains(c.url, "/booking/api/")
    ensures s % 2 == 1 <==> c.body != ""
  {
    (if Contains(c.url, "/booking/api/") then 2 else 0) + (if c.body != "" then 1 else 0)
  }

  /** The candidates scoring `k`, in their original order. */
  function WithScore(cs: seq<Candidate>, k: nat): (r: seq<Candidate>)
    ensures forall i :: 0 <= i < |r| ==> Score(r[i]) == k
    ensures |r| <= |cs|
  {
    if cs == [] then []
    else (if Score(cs[0]) == k then [cs[0]] else []) + WithScore(cs[1..], k)
  }

  /** `candidates.sort(key=score)`. Python's sort is stable, and a stable
      sort on a key with four values is the concatenation of the four
      groups, best score first, each in its original order. */
  function SortByScore(cs: seq<Candidate>): (r: seq<Candidate>)
    ensures multiset(r) == multiset(cs)
  {
    GroupsPartition(cs);
    WithScore(cs, 3) + WithScore(cs, 2) + WithScore(cs, 1) + WithScore(cs, 0)
  }

  lemma {:induction false} GroupsPartition(cs: seq<Candidate>)
    ensures multiset(WithScore(cs, 3)) + multiset(WithScore(cs, 2))
            + multiset(WithScore(cs, 1)) + multiset(WithScore(cs, 0)) == multiset(cs)
    decreases |cs|
  {
    if cs != [] {
      var c, t := cs[0], cs[1..];
      GroupsPartition(t);
      assert cs == [c] + t;
      forall k | 0 <= k <= 3
        ensures multiset(WithScore(cs, k)) == (if Score(c) == k then multiset{c} else multiset{}) + multiset(WithScore(t, k))
      {
        assert WithScore(cs, k) == (if Score(c) == k then [c] else []) + WithScore(t, k);
      }
    }
  }

  lemma {:induction false} GroupOfGroups(a: seq<Candidate>, k: nat, j: nat)
    requires forall i :: 0 <= i < |a| ==> Score(a[i]) == k
    ensures WithScore(a, j) == if j == k then a else []
    decreases |a|
  {
    if a != [] {
      GroupOfGroups(a[1..], k, j);
      assert a == [a[0]] + a[1..];
    }
  }

  lemma {:induction false} GroupOfAppend(a: seq<Candidate>, b: seq<Candidate>, k: nat)
    ensures WithScore(a + b, k) == WithScore(a, k) + WithScore(b, k)
    decreases |a|
  {
    if a == [] {
      assert a + b == b;
    } else {
      GroupOfAppend(a[1..], b, k);
      assert (a + b)[1..] == a[1..] + b;
    }
  }

  /** Scores never increase along `r`. */
  predicate Descending(r: seq<Candidate>)
  {
    forall i, j :: 0 <= i < j < |r| ==> Score(r[i]) >= Score(r[j])
  }

  lemma AppendGroup(a: seq<Candidate>, b: seq<Candidate>, k: nat)
    requires Descending(a) && forall i :: 0 <= i < |a| ==> Score(a[i]) >= k
    requires forall i :: 0 <= i < |b| ==> Score(b[i]) == k
    ensures Descending(a + b) && forall i :: 0 <= i < |a + b| ==> Score((a + b)[i]) >= k
  {
    var r := a + b;
    forall i, j | 0 <= i < j < |r| ensures Score(r[i]) >= Score(r[j]) {
      if j >= |a| {
        assert r[j] == b[j - |a|];
        if i >= |a| {
          assert r[i] == b[i - |a|];
        }
      }
    }
  }

  /** The sort puts higher scores first. */
  lemma SortByScoreDescending(cs: seq<Candidate>)
    ensures Descending(SortByScore(cs))
  {
    var g3, g2, g1, g0 := WithScore(cs, 3), WithScore(cs, 2), WithScore(cs, 1), WithScore(cs, 0);
    assert Descending(g3);
    AppendGroup(g3, g2, 2);
    AppendGroup(g3 + g2, g1, 1);
    AppendGroup(g3 + g2 + g1, g0, 0);
  }

  /** Selecting one score from the sorted list selects it from each group. */
  lemma GroupsOfSorted(cs: seq<Candidate>, k: nat)
    ensures WithScore(SortByScore(cs), k)
            == WithScore(WithScore(cs, 3), k) + WithScore(WithScore(cs, 2), k)
               + WithScore(WithScore(cs, 1), k) + WithScore(WithScore(cs, 0), k)
  {
    var g3, g2, g1, g0 := WithScore(cs, 3), WithScore(cs, 2), WithScore(cs, 1), WithScore(cs, 0);
    GroupOfAppend(g3 + g2 + g1, g0, k);
    GroupOfAppend(g3 + g2, g1, k);
    GroupOfAppend(g3, g2, k);
  }

  /** Sorting does not change which candidates score `k`, nor their order. */
  lemma SortKeepsGroup(cs: seq<Candidate>, k: nat)
    requires k <= 3
    ensures WithScore(SortByScore(cs), k) == WithScore(cs, k)
  {
    var g3, g2, g1, g0 := WithScore(cs, 3), WithScore(cs, 2), WithScore(cs, 1), WithScore(cs, 0);
    GroupsOfSorted(cs, k);
    GroupOfGroups(g3, 3, k);
    GroupOfGroups(g2, 2, k);
    GroupOfGroups(g1, 1, k);
    GroupOfGroups(g0, 0, k);
    OnlyOneGroup(WithScore(g3, k), WithScore(g2, k), WithScore(g1, k), WithScore(g0, k),
                 WithScore(cs, k));
  }

  /** Four groups of which at most one is non-empty concatenate to that one. */
  lemma OnlyOneGroup(a: seq<Candidate>, b: seq<Candidate>, c: seq<Candidate>, d: seq<Candidate>,
                     x: seq<Candidate>)
    requires || (a == x && b == [] && c == [] && d == [])
             || (a == [] && b == x && c == [] && d == [])
             || (a == [] && b == [] && c == x && d == [])
             || (a == [] && b == [] && c == [] && d == x)
    ensures a + b + c + d == x
  {
  }

  /** The sort keeps every candidate, and keeps the order of candidates with
      equal scores. */
  lemma SortByScoreIsStable(cs: seq<Candidate>)
    ensures multiset(SortByScore(cs)) == multiset(cs)
    ensures forall k :: 0 <= k <= 3 ==> WithScore(SortByScore(cs), k) == WithScore(cs, k)
  {
    forall k | 0 <= k <= 3 ensures WithScore(SortByScore(cs), k) == WithScore(cs, k) {
      SortKeepsGroup(cs, k);
    }
  }

  lemma {:induction false} GroupHead(cs: seq<Candidate>, k: nat, i: nat)
    requires i < |cs| && Score(cs[i]) == k && forall j :: 0 <= j < i ==> Score(cs[j]) != k
    ensures WithScore(cs, k) != [] && WithScore(cs, k)[0] == cs[i]
    decreases i
  {
    if i > 0 {
      GroupHead(cs[1..], k, i - 1);
    }
  }

  lemma {:induction false} GroupEmpty(cs: seq<Candidate>, k: nat)
    requires forall j :: 0 <= j < |cs| ==> Score(cs[j]) != k
    ensures WithScore(cs, k) == []
    decreases |cs|
  {
    if cs != [] {
      GroupEmpty(cs[1..], k);
    }
  }

  /** `candidates[0]` after the sort is the earliest candidate with the
      highest score. */
  lemma BestIsEarliestTop(cs: seq<Candidate>, i: nat)
    requires i < |cs|
    requires forall j :: 0 <= j < |cs| ==> Score(cs[j]) <= Score(cs[i])
    requires forall j :: 0 <= j < i ==> Score(cs[j]) < Score(cs[i])
    ensures SortByScore(cs) != [] && SortByScore(cs)[0] == cs[i]
  {
    var k := Score(cs[i]);
    GroupHead(cs, k, i);
    forall h | k < h <= 3 ensures WithScore(cs, h) == [] {
      GroupEmpty(cs, h);
    }
  }

  /** Sorts the bucket and takes the first entry; an empty bucket is
      an error and is left as it is. */
  method PickBest(bucket: Bucket) returns (r: Result<Candidate>)
    modifies bucket
    ensures old(bucket.entries) == [] ==> r == Err(RuntimeError("No API calls captured"))
                                           && bucket.entries == []
    ensures old(bucket.entries) != [] ==> bucket.entries == SortByScore(old(bucket.entries))
                                           && bucket.entries != [] && r == Ok(bucket.entries[0])
  {
    if bucket.entries == [] {
      return Err(RuntimeError("No API calls captured"));
    }
    SortByScoreIsStable(bucket.entries);
    bucket.entries := SortByScore(bucket.entries);
    assert |bucket.entries| > 0 by {
      assert |multiset(bucket.entries)| > 0;
    }
    r := Ok(bucket.entries[0]);
  }

  // --------------------------------------------- NETWORK_KEEP / _capture_json

  /** The alternatives of `(availability|shopping|offers?|price|itinerary|
      calendar|miles|fare)`, with `offers?` written out. */
  const KeepAlternatives: seq<string> :=
    ["availability", "shopping", "offers", "offer", "price", "itinerary", "calendar", "miles", "fare"]

  /** The eight keywords the filter stands for. */
  const KeepKeywords: seq<string> :=
    ["availability", "shopping", "offer", "price", "itinerary", "calendar", "miles", "fare"]

  /** `NETWORK_KEEP.search(url)` under `re.I`. */
  predicate NetworkKeep(url: string)
  {
    exists k | 0 <= k < |KeepAlternatives| :: ContainsIgnoreCase(url, KeepAlternatives[k])
  }

  /** The optional `s` adds nothing: the filter holds exactly when one of
      the eight keywords occurs, letter case aside. */
  lemma NetworkKeepKeywords(url: string)
    ensures NetworkKeep(url) <==> exists k | 0 <= k < |KeepKeywords| :: ContainsIgnoreCase(url, KeepKeywords[k])
  {
    if ContainsIgnoreCase(url, "offers") {
      var i :| 0 <= i <= |url| - 6 && IsAtIgnoreCase(url, "offers", i);
      LowerSlice(url, i, i + 6);
      assert Lower(url[i..i + 5]) == Lower(url[i..i + 6])[..5];
      assert IsAtIgnoreCase(url, "offer", i);
      assert ContainsIgnoreCase(url, KeepKeywords[2]);
    }
    if NetworkKeep(url) {
      var k :| 0 <= k < |KeepAlternatives| && ContainsIgnoreCase(url, KeepAlternatives[k]);
      if k >= 3 {
        assert KeepAlternatives[k] == KeepKeywords[k - 1];
      } else if k < 2 {
        assert KeepAlternatives[k] == KeepKeywords[k];
      }
    }
    if exists k | 0 <= k < |KeepKeywords| :: ContainsIgnoreCase(url, KeepKeywords[k]) {
      var k :| 0 <= k < |KeepKeywords| && ContainsIgnoreCase(url, KeepKeywords[k]);
      if k >= 2 {
        assert KeepKeywords[k] == KeepAlternatives[k + 1];
      } else {
        assert KeepKeywords[k] == KeepAlternatives[k];
      }
    }
  }

  /** A response as the listener sees it: its URL, its content-type header
      if any, and what `resp.json()` gives. */
  datatype Arrival = Arrival(url: string, contentType: Option<string>, body: Result<Value>)

  datatype Captured = Captured(url: string, json: Value)

  /** The test `_capture_json` applies before decoding: the URL filter AND a
      content type that mentions "json", letter case aside. A response
      without a content-type header is never kept. */
  predicate Keeps(a: Arrival): (r: bool)
    ensures r ==> a.contentType.Some? && |a.contentType.value| >= 4
  {
    NetworkKeep(a.url) && ContainsIgnoreCase(if a.contentType.Some? then a.contentType.value else "", "json")
  }

  /** The entries a run of responses leaves, in arrival order: those that
      pass the test and decode. */
  function KeptOf(arrivals: seq<Arrival>): (r: seq<Captured>)
    ensures |r| <= |arrivals|
  {
    if arrivals == [] then [] else EntryOf(arrivals[0]) + KeptOf(arrivals[1..])
  }

  /** What one response contributes: its JSON when it passes the test and
      decodes, nothing otherwise. */
  function EntryOf(a: Arrival): (r: seq<Captured>)
    ensures |r| <= 1
    ensures r != [] <==> Keeps(a) && a.body.Ok?
    ensures r != [] ==> r[0] == Captured(a.url, a.body.value)
  {
    if Keeps(a) && a.body.Ok? then [Captured(a.url, a.body.value)] else []
  }

  lemma {:induction false} KeptOfAppend(a: seq<Arrival>, b: seq<Arrival>)
    ensures KeptOf(a + b) == KeptOf(a) + KeptOf(b)
    decreases |a|
  {
    if a == [] {
      assert a + b == b;
    } else {
      assert (a + b)[0] == a[0];
      assert (a + b)[1..] == a[1..] + b;
      calc {
        KeptOf(a + b);
        EntryOf(a[0]) + KeptOf(a[1..] + b);
        { KeptOfAppend(a[1..], b); }
        EntryOf(a[0]) + (KeptOf(a[1..]) + KeptOf(b));
        (EntryOf(a[0]) + KeptOf(a[1..])) + KeptOf(b);
      }
    }
  }

  /** One more response extends the entries by what it contributes. */
  lemma KeptOfStep(arrivals: seq<Arrival>, k: nat)
    requires k < |arrivals|
    ensures KeptOf(arrivals[..k + 1]) == KeptOf(arrivals[..k]) + EntryOf(arrivals[k])
  {
    assert arrivals[..k + 1] == arrivals[..k] + [arrivals[k]];
    KeptOfAppend(arrivals[..k], [arrivals[k]]);
    assert [arrivals[k]][1..] == [];
  }

  /** `c` is what `a` leaves: `a` passed the test and decoded to `c`'s JSON,
      and `c` carries `a`'s URL. */
  predicate CameFrom(c: Captured, a: Arrival)
  {
    Keeps(a) && a.body.Ok? && c == Captured(a.url, a.body.value)
  }

  /** Every entry came from a kept response, with its URL and JSON. */
  lemma {:induction false} KeptAreKept(arrivals: seq<Arrival>, i: nat)
    requires i < |KeptOf(arrivals)|
    ensures exists j :: 0 <= j < |arrivals| && CameFrom(KeptOf(arrivals)[i], arrivals[j])
    decreases |arrivals|
  {
    var tail := arrivals[1..];
    var head := EntryOf(arrivals[0]);
    assert KeptOf(arrivals) == head + KeptOf(tail);
    if i < |head| {
      assert CameFrom(KeptOf(arrivals)[i], arrivals[0]);
    } else {
      KeptAreKept(tail, i - |head|);
      var j :| 0 <= j < |tail| && CameFrom(KeptOf(tail)[i - |head|], tail[j]);
      assert KeptOf(arrivals)[i] == KeptOf(tail)[i - |head|];
      assert tail[j] == arrivals[j + 1];
    }
  }

  /** The `captured` list of one attempt. */
  class JsonBucket {
    var entries: seq<Captured>

    constructor ()
      ensures entries == []
    {
      entries := [];
    }

    /** `_capture_json(resp, bucket)`: any failure leaves the bucket as it
        was. */
    method CaptureJson(a: Arrival)
      modifies this
      ensures entries == old(entries) + EntryOf(a)
    {
      if !NetworkKeep(a.url) {
        return;
      }
      var ct := Lower(if a.contentType.Some? then a.contentType.value else "");
      LowerContains(if a.contentType.Some? then a.contentType.value else "", "json");
      if !Contains(ct, "json") {
        return;
      }
      if a.body.Err? {
        return;
      }
      entries := entries + [Captured(a.url, a.body.value)];
    }

    /** The listener's calls, in arrival order. */
    method CaptureAll(arrivals: seq<Arrival>)
      modifies this
      ensures entries == old(entries) + KeptOf(arrivals)
    {
      var k := 0;
      while k < |arrivals|
        invariant 0 <= k <= |arrivals|
        invariant entries == old(entries) + KeptOf(arrivals[..k])
      {
        CaptureJson(arrivals[k]);
        KeptOfStep(arrivals, k);
        k := k + 1;
      }
      assert arrivals[..k] == arrivals;
    }
  }

  /** One attempt's `captured = []` with the listener attached: a fresh
      bucket that ends holding the kept responses in arrival order. */
  method CaptureAttempt(arrivals: seq<Arrival>) returns (entries: seq<Captured>)
    ensures entries == KeptOf(arrivals)
  {
    var bucket := new JsonBucket();
    bucket.CaptureAll(arrivals);
    entries := bucket.entries;
  }
}
