/** The result records of src/models.py: search metadata with its defaults,
    flight items with the flight-number validator, and the search result with
    its `total_results` validator. Prices are `real`s (see README, "Left
    out"). */
module Models {
  import opened Text
  import opened Dates

  // ------------------------------------------------------- SearchMetadata

  datatype SearchMetadata = SearchMetadata(
    origin: string, destination: string, date: Date, passengers: int, cabinClass: string)

  const DefaultPassengers: int := 1
  const DefaultCabin: string := "economy"

  /** `SearchMetadata(origin=..., destination=..., date=...)` with the other
      fields left to their defaults. */
  function DefaultMetadata(origin: string, destination: string, date: Date): (m: SearchMetadata)
    ensures m.passengers == 1 && m.cabinClass == "economy"
    ensures m.origin == origin && m.destination == destination && m.date == date
  {
    SearchMetadata(origin, destination, date, DefaultPassengers, DefaultCabin)
  }

  // ----------------------------------------------------------- FlightItem

  /** `normalize_flight`: surrounding whitespace removed, then upper-cased;
      never longer than the input and free of lower-case ASCII letters. */
  function NormalizeFlight(v: string): (r: string)
    ensures |r| <= |v|
    ensures forall i :: 0 <= i < |r| ==> !('a' <= r[i] <= 'z')
  {
    StripIsTrimmedSlice(v);
    Upper(Strip(v))
  }

  lemma UpperKeepsSpaces(s: string)
    ensures |Upper(s)| == |s|
    ensures forall i :: 0 <= i < |s| ==> (IsSpace(Upper(s)[i]) <==> IsSpace(s[i]))
  {
  }

  lemma UpperIdempotent(s: string)
    ensures Upper(Upper(s)) == Upper(s)
  {
  }

  /** A normalised flight number neither begins nor ends with whitespace,
      holds no lower-case ASCII letter, and matches the input's stripped
      text letter case aside. */
  lemma NormalizedShape(v: string)
    ensures var r := NormalizeFlight(v);
            (r == [] || (!IsSpace(r[0]) && !IsSpace(r[|r| - 1])))
            && (forall i :: 0 <= i < |r| ==> !('a' <= r[i] <= 'z'))
            && Lower(r) == Lower(Strip(v))
  {
    StripIsTrimmedSlice(v);
    UpperKeepsSpaces(Strip(v));
    UpperLowerSame(Strip(v));
  }

  /** Validating an already validated flight number changes nothing. */
  lemma NormalizeIdempotent(v: string)
    ensures NormalizeFlight(NormalizeFlight(v)) == NormalizeFlight(v)
  {
    var r := NormalizeFlight(v);
    NormalizedShape(v);
    StripOfTrimmed(r);
    UpperIdempotent(Strip(v));
  }

  datatype FlightItem = FlightItem(
    flightNumber: string, departureTime: string, arrivalTime: string,
    pointsRequired: int, cashPriceUsd: real, taxesFeesUsd: real, cpp: real)

  /** `FlightItem(...)`: the flight number goes through its validator, the
      other fields are kept. */
  function MakeFlightItem(flightNumber: string, departureTime: string, arrivalTime: string,
                          pointsRequired: int, cashPriceUsd: real, taxesFeesUsd: real, cpp: real): (f: FlightItem)
    ensures f.flightNumber == NormalizeFlight(flightNumber)
    ensures f.departureTime == departureTime && f.arrivalTime == arrivalTime
    ensures f.pointsRequired == pointsRequired && f.cashPriceUsd == cashPriceUsd
    ensures f.taxesFeesUsd == taxesFeesUsd && f.cpp == cpp
  {
    FlightItem(NormalizeFlight(flightNumber), departureTime, arrivalTime, pointsRequired, cashPriceUsd, taxesFeesUsd, cpp)
  }

  // --------------------------------------------------------- SearchResult

  datatype SearchResult = SearchResult(searchMetadata: SearchMetadata, flights: seq<FlightItem>, totalResults: int)

  /** The count agrees with the list it counts. */
  predicate Consistent(r: SearchResult)
  {
    r.totalResults == |r.flights|
  }

  /** `check_count` as written: the value is returned unchanged, whatever
      the flights are, so a count out of step with them stays so. */
  function CheckCountAsWritten(v: int, flights: seq<FlightItem>): (r: int)
    ensures v != |flights| ==> r != |flights|
  {
    v
  }

  /** `SearchResult(...)` with the validator as written: a wrong count
      gives an inconsistent result. */
  function MakeSearchResultAsWritten(meta: SearchMetadata, flights: seq<FlightItem>, total: int): (r: SearchResult)
    ensures r.searchMetadata == meta && r.flights == flights
    ensures total != |flights| ==> !Consistent(r)
  {
    SearchResult(meta, flights, CheckCountAsWritten(total, flights))
  }

  /** The validator as written lets an inconsistent count through: no
      flights and a count of 5. */
  lemma AsWrittenKeepsStaleCount(meta: SearchMetadata)
    ensures !Consistent(MakeSearchResultAsWritten(meta, [], 5))
    ensures forall fs: seq<FlightItem>, t: int :: MakeSearchResultAsWritten(meta, fs, t).totalResults == t
  {
  }

  /** `check_count` as its comment says it should behave: the count kept in
      sync with the flights. */
  function CheckCount(v: int, flights: seq<FlightItem>): (r: int)
    ensures r == |flights|
    ensures v == |flights| ==> r == v
  {
    |flights|
  }

  /** `SearchResult(...)`. */
  function MakeSearchResult(meta: SearchMetadata, flights: seq<FlightItem>, total: int): (r: SearchResult)
    ensures r.searchMetadata == meta && r.flights == flights
    ensures Consistent(r)
  {
    SearchResult(meta, flights, CheckCount(total, flights))
  }

  /** Every result built is consistent; where the caller already passes the
      right count, as src/__main__.py does, the two validators agree. */
  lemma SearchResultConsistent(meta: SearchMetadata, flights: seq<FlightItem>, total: int)
    ensures Consistent(MakeSearchResult(meta, flights, total))
    ensures total == |flights| ==> MakeSearchResult(meta, flights, total) == MakeSearchResultAsWritten(meta, flights, total)
  {
  }

  /** `SearchResult(search_metadata=meta)`: no flights and a count of 0. */
  function DefaultResult(meta: SearchMetadata): (r: SearchResult)
    ensures r.flights == [] && r.totalResults == 0 && r.searchMetadata == meta
  {
    SearchResult(meta, [], 0)
  }

  /** The defaults are consistent, and validating them changes nothing under
      either validator. */
  lemma DefaultsConsistent(meta: SearchMetadata)
    ensures Consistent(DefaultResult(meta))
    ensures DefaultResult(meta) == MakeSearchResult(meta, [], 0) == MakeSearchResultAsWritten(meta, [], 0)
  {
  }
}
