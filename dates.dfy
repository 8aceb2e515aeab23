/** Departure dates: the `Y-M-D` to `MM/DD/YYYY` conversions, the shape the
    booking form's read-back accepts, and calendar dates in ISO form. */
module Dates {
  import opened Wrappers
  import opened Text

  // ------------------------------------------------- split-based conversion

  /** `y, m, d = date_iso.split("-")` then `f"{int(m):02d}/{int(d):02d}/{y}"`.
      The year part is copied as given; month and day are re-rendered with at
      least two digits. */
  function MmDdYyyy(iso: string): (r: Result<string>)
    ensures r.Ok? <==> |Split(iso, '-')| == 3
                       && ParseInt(Split(iso, '-')[1]).Ok? && ParseInt(Split(iso, '-')[2]).Ok?
    ensures r.Ok? ==> |r.value| >= 6 + |Split(iso, '-')[0]|
  {
    var p := Split(iso, '-');
    if |p| < 3 then Err(ValueError("not enough values to unpack (expected 3)"))
    else if |p| > 3 then Err(ValueError("too many values to unpack (expected 3)"))
    else match (ParseInt(p[1]), ParseInt(p[2]))
      case (Ok(m), Ok(d)) => Ok(ZeroPad(m, 2) + "/" + ZeroPad(d, 2) + "/" + p[0])
      case (Err(e), _) => Err(e)
      case (_, Err(e)) => Err(e)
  }

  /** Month and day below 100 occupy two characters each, so the result reads
      back as month, day and the untouched year. */
  lemma MmDdYyyyReadsBack(iso: string)
    requires MmDdYyyy(iso).Ok?
    requires DigitsValue(Split(iso, '-')[1]) < 100 && DigitsValue(Split(iso, '-')[2]) < 100
    ensures var r := MmDdYyyy(iso).value; var p := Split(iso, '-');
            |r| == 6 + |p[0]| && r[2] == '/' && r[5] == '/'
            && ParseInt(r[..2]) == Ok(DigitsValue(p[1]))
            && ParseInt(r[3..5]) == Ok(DigitsValue(p[2]))
            && r[6..] == p[0]
  {
    var p := Split(iso, '-');
    var m := DigitsValue(p[1]);
    var d := DigitsValue(p[2]);
    ZeroPadValue(m, 2);
    ZeroPadValue(d, 2);
    assert MmDdYyyy(iso).value == ZeroPad(m, 2) + "/" + ZeroPad(d, 2) + "/" + p[0];
    SlashedFields(m, d, p[0]);
  }

  /** Where the three fields of a slashed date sit when month and day take
      two characters each. */
  lemma SlashedFields(m: nat, d: nat, y: string)
    requires m < 100 && d < 100
    ensures var r := ZeroPad(m, 2) + "/" + ZeroPad(d, 2) + "/" + y;
            |r| == 6 + |y| && r[2] == '/' && r[5] == '/'
            && r[..2] == ZeroPad(m, 2) && r[3..5] == ZeroPad(d, 2) && r[6..] == y
  {
    ZeroPadLength(m, 2);
    ZeroPadLength(d, 2);
  }

  /** The test the booking form's read-back applies to an input's value:
      the JavaScript regular expression `^\d{2}\/\d{2}\/\d{4}$`. */
  predicate DateShaped(v: string)
  {
    |v| == 10 && v[2] == '/' && v[5] == '/'
    && AllDigits(v[..2]) && AllDigits(v[3..5]) && AllDigits(v[6..])
  }

  /** A four-digit year, month and day below 100 give a value the read-back
      accepts; with any other year length it rejects it. */
  lemma MmDdYyyyShaped(iso: string)
    requires MmDdYyyy(iso).Ok? && AllDigits(Split(iso, '-')[0])
    requires DigitsValue(Split(iso, '-')[1]) < 100 && DigitsValue(Split(iso, '-')[2]) < 100
    ensures DateShaped(MmDdYyyy(iso).value) <==> |Split(iso, '-')[0]| == 4
  {
    MmDdYyyyReadsBack(iso);
    var p := Split(iso, '-');
    SlashedFields(DigitsValue(p[1]), DigitsValue(p[2]), p[0]);
  }

  // --------------------------------------------------------- calendar dates

  datatype Date = Date(year: nat, month: nat, day: nat)

  predicate IsLeap(y: nat)
  {
    y % 4 == 0 && (y % 100 != 0 || y % 400 == 0)
  }

  function DaysIn(y: nat, m: nat): nat
    requires 1 <= m <= 12
  {
    if m == 2 then (if IsLeap(y) then 29 else 28)
    else if m == 4 || m == 6 || m == 9 || m == 11 then 30
    else 31
  }

  /** What Python's `date` can represent. */
  predicate ValidDate(d: Date)
  {
    1 <= d.year <= 9999 && 1 <= d.month <= 12 && 1 <= d.day <= DaysIn(d.year, d.month)
  }

  /** `date.isoformat()`: `YYYY-MM-DD`, every field zero-padded. */
  function IsoFormat(d: Date): (s: string)
    requires ValidDate(d)
    ensures |s| == 10 && s[4] == '-' && s[7] == '-'
  {
    ZeroPadLength(d.year, 4);
    ZeroPadLength(d.month, 2);
    ZeroPadLength(d.day, 2);
    ZeroPad(d.year, 4) + "-" + ZeroPad(d.month, 2) + "-" + ZeroPad(d.day, 2)
  }

  /** `date.fromisoformat(s)` / `datetime.fromisoformat(s)` for the
      `YYYY-MM-DD` form: three digit fields of widths 4, 2 and 2 naming a day
      that exists; anything else is a `ValueError`. */
  function ParseIsoDate(s: string): (r: Result<Date>)
    ensures r.Ok? ==> ValidDate(r.value) && |s| == 10
  {
    if |s| == 10 && s[4] == '-' && s[7] == '-'
       && AllDigits(s[..4]) && AllDigits(s[5..7]) && AllDigits(s[8..])
    then
      var d := Date(DigitsValue(s[..4]), DigitsValue(s[5..7]), DigitsValue(s[8..]));
      if ValidDate(d) then Ok(d) else Err(ValueError("day is out of range for month"))
    else Err(ValueError("Invalid isoformat string: " + s))
  }

  /** Every date survives a trip through its ISO form. */
  lemma IsoRoundTrip(d: Date)
    requires ValidDate(d)
    ensures ParseIsoDate(IsoFormat(d)) == Ok(d)
  {
    var s := IsoFormat(d);
    ZeroPadLength(d.year, 4);
    ZeroPadLength(d.month, 2);
    ZeroPadLength(d.day, 2);
    ZeroPadValue(d.year, 4);
    ZeroPadValue(d.month, 2);
    ZeroPadValue(d.day, 2);
    assert s[..4] == ZeroPad(d.year, 4);
    assert s[5..7] == ZeroPad(d.month, 2);
    assert s[8..] == ZeroPad(d.day, 2);
  }

  /** A string the parser accepts is already the ISO form of what it parses
      to, so re-formatting the parsed date gives back the input. */
  lemma IsoCanonical(s: string)
    requires ParseIsoDate(s).Ok?
    ensures IsoFormat(ParseIsoDate(s).value) == s
  {
    var d := ParseIsoDate(s).value;
    PadOfDigits(s[..4]);
    PadOfDigits(s[5..7]);
    PadOfDigits(s[8..]);
    assert s == s[..4] + "-" + s[5..7] + "-" + s[8..];
  }

  /** `_iso_to_mmddyyyy`: parse, then `strftime("%m/%d/%Y")`. The C library's
      `%Y` prints the year without padding. */
  function IsoToMmDdYyyy(s: string): (r: Result<string>)
    ensures r.Ok? <==> ParseIsoDate(s).Ok?
    ensures r.Ok? ==> |r.value| >= 7 && r.value[2] == '/' && r.value[5] == '/'
    ensures r.Ok? ==> ParseInt(r.value[..2]) == Ok(ParseIsoDate(s).value.month)
                      && ParseInt(r.value[3..5]) == Ok(ParseIsoDate(s).value.day)
                      && ParseInt(r.value[6..]) == Ok(ParseIsoDate(s).value.year)
  {
    match ParseIsoDate(s)
    case Err(e) => Err(e)
    case Ok(d) =>
      ZeroPadLength(d.month, 2);
      ZeroPadLength(d.day, 2);
      ZeroPadValue(d.month, 2);
      ZeroPadValue(d.day, 2);
      DecimalValue(d.year);
      var r := ZeroPad(d.month, 2) + "/" + ZeroPad(d.day, 2) + "/" + Decimal(d.year);
      assert r[..2] == ZeroPad(d.month, 2);
      assert r[3..5] == ZeroPad(d.day, 2);
      assert r[6..] == Decimal(d.year);
      Ok(r)
  }

  /** On an ISO date from year 1000 on, the split-based conversion and the
      `strftime` one agree, and the read-back accepts their result. */
  lemma ConversionsAgree(s: string)
    requires ParseIsoDate(s).Ok? && ParseIsoDate(s).value.year >= 1000
    ensures MmDdYyyy(s) == IsoToMmDdYyyy(s)
    ensures DateShaped(MmDdYyyy(s).value)
  {
    var d := ParseIsoDate(s).value;
    IsoParts(s);
    ZeroPadValue(d.month, 2);
    ZeroPadValue(d.day, 2);
    DecimalLength(d.year, 3);
    assert ZeroPad(d.year, 4) == Decimal(d.year);
    MmDdYyyyShaped(s);
  }

  /** An ISO date splits on '-' into its three padded fields. */
  lemma IsoParts(s: string)
    requires ParseIsoDate(s).Ok?
    ensures var d := ParseIsoDate(s).value;
            Split(s, '-') == [ZeroPad(d.year, 4), ZeroPad(d.month, 2), ZeroPad(d.day, 2)]
  {
    var d := ParseIsoDate(s).value;
    IsoCanonical(s);
    var y, m, dd := ZeroPad(d.year, 4), ZeroPad(d.month, 2), ZeroPad(d.day, 2);
    assert s == y + "-" + m + "-" + dd;
    ZeroPadLength(d.year, 4);
    ZeroPadLength(d.month, 2);
    ZeroPadLength(d.day, 2);
    assert '-' !in y && '-' !in m && '-' !in dd by {
      assert AllDigits(y) && AllDigits(m) && AllDigits(dd);
    }
    SplitThree(y, m, dd);
  }

  /** Three dash-free fields joined by dashes split back into those fields. */
  lemma SplitThree(y: string, m: string, dd: string)
    requires '-' !in y && '-' !in m && '-' !in dd
    ensures Split(y + "-" + m + "-" + dd, '-') == [y, m, dd]
  {
    var rest := m + ['-'] + dd;
    assert y + "-" + m + "-" + dd == y + ['-'] + rest;
    assert Split(dd, '-') == [dd] by {
      assert IndexOf(dd, '-').None?;
    }
    assert Split(rest, '-') == [m, dd] by {
      SplitCons(m, '-', dd);
    }
    assert Split(y + ['-'] + rest, '-') == [y, m, dd] by {
      SplitCons(y, '-', rest);
    }
  }
}
