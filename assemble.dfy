/** Result assembly in src/__main__.py (lines 28 and 33-53): the capture is
    asked for the ISO form of the requested date, the network parse is used
    unless it found nothing, in which case the DOM parse is, every parsed
    flight becomes one item, and the count is the number of items. The two
    parsers and the cents-per-point computation are inputs. */
module Assemble {
  import opened Wrappers
  import opened Dates
  import opened Capture
  import opened Session
  import opened Models

  /** One flight as a parser reports it. */
  datatype RawFlight = RawFlight(
    flightNumber: string, departureTime: string, arrivalTime: string,
    pointsRequired: int, cashPriceUsd: real, taxesFeesUsd: real)

  /** The search parameters handed to the capture: the date in ISO form. */
  datatype CaptureParams = CaptureParams(origin: string, destination: string, date: string)

  function CaptureParamsOf(meta: SearchMetadata): (p: CaptureParams)
    requires ValidDate(meta.date)
    ensures p.origin == meta.origin && p.destination == meta.destination
    ensures ParseIsoDate(p.date) == Ok(meta.date)
  {
    IsoRoundTrip(meta.date);
    CaptureParams(meta.origin, meta.destination, IsoFormat(meta.date))
  }

  /** The flight list used: the network parse unless it is empty, and then
      the DOM parse; never a mix of the two. */
  function ChosenFlights(network: seq<RawFlight>, dom: seq<RawFlight>): (fs: seq<RawFlight>)
    ensures fs == network || fs == dom
    ensures network != [] ==> fs == network
    ensures network == [] ==> fs == dom
  {
    if network != [] then network else dom
  }

  /** The item built for one parsed flight. */
  function ItemOf(f: RawFlight, cpp: (real, real, int) -> real): (item: FlightItem)
    ensures item.flightNumber == NormalizeFlight(f.flightNumber)
    ensures item.cpp == cpp(f.cashPriceUsd, f.taxesFeesUsd, f.pointsRequired)
    ensures item.pointsRequired == f.pointsRequired && item.cashPriceUsd == f.cashPriceUsd
    ensures item.taxesFeesUsd == f.taxesFeesUsd
    ensures item.departureTime == f.departureTime && item.arrivalTime == f.arrivalTime
  {
    MakeFlightItem(f.flightNumber, f.departureTime, f.arrivalTime, f.pointsRequired,
                   f.cashPriceUsd, f.taxesFeesUsd, cpp(f.cashPriceUsd, f.taxesFeesUsd, f.pointsRequired))
  }

  /** Lines 36-53 of src/__main__.py. `parseNetwork` and `parseDom` are the
      two parsers, `cpp` is `cpp_cents_per_point`. */
  method BuildResult(meta: SearchMetadata, payload: Payload,
                     parseNetwork: seq<Captured> -> seq<RawFlight>, parseDom: string -> seq<RawFlight>,
                     cpp: (real, real, int) -> real)
    returns (result: SearchResult)
    ensures var fs := ChosenFlights(parseNetwork(payload.networkJson), parseDom(payload.pageHtml));
            |result.flights| == |fs|
            && (forall j :: 0 <= j < |fs| ==> result.flights[j] == ItemOf(fs[j], cpp))
    ensures result.totalResults == |result.flights|
    ensures result.searchMetadata == meta
  {
    var flights := parseNetwork(payload.networkJson);
    if |flights| == 0 {
      flights := parseDom(payload.pageHtml);
    }
    var items: seq<FlightItem> := [];
    for k := 0 to |flights|
      invariant |items| == k
      invariant forall j :: 0 <= j < k ==> items[j] == ItemOf(flights[j], cpp)
    {
      ItemsGrow(items, flights, k, cpp);
      items := items + [ItemOf(flights[k], cpp)];
    }
    result := MakeSearchResult(meta, items, |items|);
    SearchResultConsistent(meta, items, |items|);
  }

  /** One more flight converted keeps the items in step with the flights. */
  lemma ItemsGrow(items: seq<FlightItem>, flights: seq<RawFlight>, k: nat, cpp: (real, real, int) -> real)
    requires |items| == k < |flights|
    requires forall j :: 0 <= j < k ==> items[j] == ItemOf(flights[j], cpp)
    ensures var next := items + [ItemOf(flights[k], cpp)];
            |next| == k + 1 && forall j :: 0 <= j < k + 1 ==> next[j] == ItemOf(flights[j], cpp)
  {
  }
}
