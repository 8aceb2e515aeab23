/** The slice of the booking page's DOM that the injected scripts read and
    write: the `<input>` elements of a form (or of the document) in document
    order, the form's `data-triptype` attribute, and the compound CSS
    selectors `#id.class.class` that the scripts look elements up with. */
module Dom {
  import opened Wrappers
  import opened Text

  /** An `<input>` element. `kind` is its `type` attribute; a missing
      attribute is the empty string, as `(el.name || '')` reads it. */
  datatype Input = Input(kind: string, name: string, id: string, classes: seq<string>,
                         value: string, checked: bool, disabled: bool, placeholder: string)

  /** A `<form>` element: its inputs in document order, which the scripts
      update in place, and its `data-triptype` attribute ("" when absent). */
  class Form {
    var inputs: array<Input>
    var tripType: string

    constructor (inputs: array<Input>, tripType: string)
      ensures this.inputs == inputs && this.tripType == tripType
    {
      this.inputs := inputs;
      this.tripType := tripType;
    }
  }

  /** `querySelector`: the first element, in document order, that satisfies
      `p`. */
  function FirstWhere(xs: seq<Input>, p: Input -> bool): (r: Option<nat>)
    ensures r.Some? ==> r.value < |xs| && p(xs[r.value]) && forall j :: 0 <= j < r.value ==> !p(xs[j])
    ensures r.None? ==> forall j :: 0 <= j < |xs| ==> !p(xs[j])
  {
    if |xs| == 0 then None
    else if p(xs[0]) then Some(0)
    else match FirstWhere(xs[1..], p)
      case None => None
      case Some(i) => Some(i + 1)
  }

  // ------------------------------------------------- compound id selectors

  /** The selector `#id.c1.c2...`: an element id and the classes it must
      carry. */
  datatype Compound = Compound(id: string, classes: seq<string>)

  predicate MatchesCompound(x: Input, c: Compound)
  {
    x.id == c.id && forall k :: 0 <= k < |c.classes| ==> c.classes[k] in x.classes
  }

  /** The parts of a selector between the unescaped dots; a backslash makes
      the character after it literal (CSS escaping). */
  function Segments(s: string): (r: seq<string>)
    ensures |r| >= 1
    decreases |s|
  {
    if s == [] then [""]
    else if s[0] == '\\' && |s| >= 2 then
      var rest := Segments(s[2..]); [[s[1]] + rest[0]] + rest[1..]
    else if s[0] == '.' then [""] + Segments(s[1..])
    else
      var rest := Segments(s[1..]); [[s[0]] + rest[0]] + rest[1..]
  }

  /** Reads a `#id.class...` selector; anything else is not one. */
  function ParseCompound(s: string): (r: Option<Compound>)
    ensures r.Some? <==> |s| >= 1 && s[0] == '#'
  {
    if |s| >= 1 && s[0] == '#' then
      var seg := Segments(s[1..]);
      Some(Compound(seg[0], seg[1..]))
    else None
  }

  /** The value of a JavaScript string literal whose source text is `s`: a
      backslash before an ordinary character such as `.` or `\` is dropped
      (exact for texts holding no `\n`-style escapes). */
  function JsUnescape(s: string): (r: string)
    ensures |r| <= |s|
    decreases |s|
  {
    if s == [] then []
    else if s[0] == '\\' && |s| >= 2 then [s[1]] + JsUnescape(s[2..])
    else [s[0]] + JsUnescape(s[1..])
  }

  /** No dot and no backslash. */
  predicate Plain(w: string)
  {
    forall i :: 0 <= i < |w| ==> w[i] != '.' && w[i] != '\\'
  }

  lemma {:induction false} SegmentsPlain(w: string)
    requires Plain(w)
    ensures Segments(w) == [w]
    decreases |w|
  {
    if w != [] {
      SegmentsPlain(w[1..]);
      assert [w[0]] + w[1..] == w;
    }
  }

  lemma {:induction false} SegmentsDot(a: string, b: string)
    requires Plain(a)
    ensures Segments(a + "." + b) == [a] + Segments(b)
    decreases |a|
  {
    if a == [] {
      assert a + "." + b == "." + b;
      assert ("." + b)[1..] == b;
    } else {
      SegmentsDot(a[1..], b);
      assert (a + "." + b)[1..] == a[1..] + "." + b;
      assert [a[0]] + a[1..] == a;
    }
  }

  lemma {:induction false} SegmentsEscapedDot(a: string, b: string)
    requires Plain(a)
    ensures Segments(a + "\\." + b) == [a + "." + Segments(b)[0]] + Segments(b)[1..]
    decreases |a|
  {
    if a == [] {
      var s := "\\." + b;
      assert a + "\\." + b == s;
      assert s[0] == '\\' && s[1] == '.' && s[2..] == b;
      assert Segments(s) == [['.'] + Segments(b)[0]] + Segments(b)[1..];
      assert a + "." + Segments(b)[0] == ['.'] + Segments(b)[0];
    } else {
      SegmentsEscapedDot(a[1..], b);
      assert (a + "\\." + b)[1..] == a[1..] + "\\." + b;
      assert [a[0]] + (a[1..] + "." + Segments(b)[0]) == a + "." + Segments(b)[0];
    }
  }

  lemma {:induction false} JsUnescapePlain(a: string)
    requires Plain(a)
    ensures JsUnescape(a) == a
    decreases |a|
  {
    if a != [] {
      JsUnescapePlain(a[1..]);
      assert [a[0]] + a[1..] == a;
    }
  }

  lemma PlainTail(a: string)
    requires Plain(a) && a != []
    ensures Plain(a[1..])
  {
    forall i | 0 <= i < |a| - 1 ensures a[1..][i] != '.' && a[1..][i] != '\\' {
      assert a[1..][i] == a[i + 1];
    }
  }

  /** A plain prefix is read verbatim. */
  lemma {:induction false} JsUnescapePlainPrefix(a: string, rest: string)
    requires Plain(a)
    ensures JsUnescape(a + rest) == a + JsUnescape(rest)
    decreases |a|
  {
    if a == [] {
      assert a + rest == rest;
    } else {
      var s := a + rest;
      PlainTail(a);
      JsUnescapePlainPrefix(a[1..], rest);
      assert s[0] == a[0] && a[0] != '\\';
      assert s[1..] == a[1..] + rest;
      assert [a[0]] + (a[1..] + JsUnescape(rest)) == a + JsUnescape(rest);
    }
  }

  lemma JsUnescapeDotEscape(b: string)
    ensures JsUnescape("\\." + b) == "." + JsUnescape(b)
  {
    var s := "\\." + b;
    assert s[0] == '\\' && s[1] == '.' && s[2..] == b;
  }

  lemma JsUnescapeEscapedDot(a: string, b: string)
    requires Plain(a)
    ensures JsUnescape(a + "\\." + b) == a + "." + JsUnescape(b)
  {
    assert a + "\\." + b == a + ("\\." + b);
    JsUnescapePlainPrefix(a, "\\." + b);
    JsUnescapeDotEscape(b);
    assert a + ("." + JsUnescape(b)) == a + "." + JsUnescape(b);
  }

  /** Handed to a Playwright locator, `#a\.b\.c` is CSS whose escaped dots
      are part of the id. */
  lemma EscapedDotsStayInId(a: string, b: string, c: string)
    requires Plain(a) && Plain(b) && Plain(c)
    ensures ParseCompound("#" + a + "\\." + b + "\\." + c) == Some(Compound(a + "." + b + "." + c, []))
  {
    var s := "#" + a + "\\." + b + "\\." + c;
    assert s[1..] == a + "\\." + (b + "\\." + c);
    SegmentsPlain(c);
    SegmentsEscapedDot(b, c);
    SegmentsEscapedDot(a, b + "\\." + c);
    assert a + "." + (b + "." + c) == a + "." + b + "." + c;
  }

  lemma PlainHash(a: string)
    requires Plain(a)
    ensures Plain("#" + a)
  {
    assert forall i :: 1 <= i < |"#" + a| ==> ("#" + a)[i] == a[i - 1];
  }

  /** How the selector text groups around its first separator. */
  lemma Regroup(h: string, a: string, sep: string, b: string, c: string)
    ensures h + a + sep + b + sep + c == (h + a) + sep + (b + sep + c)
  {
  }

  lemma UnescapeTail(b: string, c: string)
    requires Plain(b) && Plain(c)
    ensures JsUnescape(b + "\\." + c) == b + "." + c
  {
    JsUnescapePlain(c);
    JsUnescapeEscapedDot(b, c);
  }

  lemma SegmentsTail(b: string, c: string)
    requires Plain(b) && Plain(c)
    ensures Segments(b + "." + c) == [b, c]
  {
    SegmentsPlain(c);
    SegmentsDot(b, c);
  }

  /** Embedded in the source of an injected script, the same text is first
      read as a JavaScript string literal, which drops the backslashes. */
  lemma ScriptTextDropsEscapes(a: string, b: string, c: string)
    requires Plain(a) && Plain(b) && Plain(c)
    ensures JsUnescape("#" + a + "\\." + b + "\\." + c) == "#" + a + "." + b + "." + c
  {
    Regroup("#", a, "\\.", b, c);
    Regroup("#", a, ".", b, c);
    PlainHash(a);
    UnescapeTail(b, c);
    JsUnescapeEscapedDot("#" + a, b + "\\." + c);
  }

  /** The selector the script then runs asks for id `a` with classes `b` and
      `c`. */
  lemma ScriptDropsEscapes(a: string, b: string, c: string)
    requires Plain(a) && Plain(b) && Plain(c)
    ensures ParseCompound(JsUnescape("#" + a + "\\." + b + "\\." + c)) == Some(Compound(a, [b, c]))
  {
    ScriptTextDropsEscapes(a, b, c);
    var js := "#" + a + "." + b + "." + c;
    Regroup("#", a, ".", b, c);
    assert js[1..] == a + "." + (b + "." + c);
    SegmentsTail(b, c);
    SegmentsDot(a, b + "." + c);
  }

  const SelectorForm: string := "flightSearchForm"
  const SelectorTrip: string := "tripType"
  const SelectorOneWay: string := "oneWay"

  /** The id of the booking form's one-way radio button on aa.com. */
  const OneWayRadioId: string := SelectorForm + "." + SelectorTrip + "." + SelectorOneWay

  /** The one-way selector as the Python strings hold it once Python has read
      the source text `"#flightSearchForm\\.tripType\\.oneWay"`: one backslash
      before each dot. */
  const OneWaySelectorText: string := "#" + SelectorForm + "\\." + SelectorTrip + "\\." + SelectorOneWay

  /** What a Playwright locator selects with that text: the radio button. */
  const LocatorRadio: Compound := Compound(OneWayRadioId, [])

  /** What `document.querySelector` selects with it inside an injected
      script. */
  const ScriptRadio: Compound := Compound(SelectorForm, [SelectorTrip, SelectorOneWay])

  lemma OneWaySelectorReadings()
    ensures ParseCompound(OneWaySelectorText) == Some(LocatorRadio)
    ensures ParseCompound(JsUnescape(OneWaySelectorText)) == Some(ScriptRadio)
  {
    assert Plain(SelectorForm) && Plain(SelectorTrip) && Plain(SelectorOneWay);
    EscapedDotsStayInId(SelectorForm, SelectorTrip, SelectorOneWay);
    ScriptDropsEscapes(SelectorForm, SelectorTrip, SelectorOneWay);
  }

  /** The one-way radio as aa.com renders it: id
      `flightSearchForm.tripType.oneWay`, no classes. */
  function AaRadio(checked: bool): (x: Input)
    ensures x.id == OneWayRadioId && x.classes == [] && x.checked == checked
  {
    Input("radio", "flightSearchForm.tripType", OneWayRadioId, [], "oneWay", checked, false, "")
  }
}
