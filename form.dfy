/** The form-scoped steps of src/playwright_flow.py: locating the booking
    form, setting the departure date inside it and forcing the one-way trip
    type. Each injected script is a method over the form's inputs; each
    read-back script is a function of the form's state. */
module FlowForm {
  import opened Wrappers
  import opened Text
  import opened Dates
  import opened Dom

  // ------------------------------------------------ get_booking_form_selector

  /** A `<form>` of the page: its id ("" when absent) and whether it holds an
      `input[name='originAirport']`. */
  datatype FormInfo = FormInfo(id: string, hasOrigin: bool)

  /** The selector the lookup script returns for the form at index `i`. */
  function FormSelector(f: FormInfo, i: nat): (sel: string)
    ensures |sel| > 4 && sel[..4] == "form"
  {
    if f.id != "" then "form#" + f.id else "form:nth-of-type(" + Decimal(i + 1) + ")"
  }

  /** `get_booking_form_selector`: after the challenge guard (`guard`), the
      first form holding the origin-airport input, named by its id when it has
      one and by its position otherwise; no such form raises. */
  method BookingFormSelector(guard: Outcome, forms: seq<FormInfo>) returns (r: Result<string>)
    ensures guard.Fail? ==> r == Err(guard.error)
    ensures guard.Pass? ==> (r.Ok? <==> exists i :: 0 <= i < |forms| && forms[i].hasOrigin)
    ensures r.Ok? ==> exists i :: 0 <= i < |forms| && forms[i].hasOrigin
                                  && (forall j :: 0 <= j < i ==> !forms[j].hasOrigin)
                                  && r.value == FormSelector(forms[i], i)
    ensures guard.Pass? && r.Err? ==> r.error == RuntimeError("Booking form not found")
  {
    if guard.Fail? {
      return Err(guard.error);
    }
    var sel := "";
    var i := 0;
    while i < |forms|
      invariant 0 <= i <= |forms|
      invariant forall j :: 0 <= j < i ==> !forms[j].hasOrigin
      invariant sel == ""
    {
      if forms[i].hasOrigin {
        sel := FormSelector(forms[i], i);
        break;
      }
      i := i + 1;
    }
    if sel == "" {
      return Err(RuntimeError("Booking form not found"));
    }
    r := Ok(sel);
  }

  // --------------------------------------------------------- set_depart_date

  /** The `s`-th of the four mirror selectors the date script fills, in the
      order it tries them. */
  predicate MirrorSel(x: Input, s: nat)
  {
    if s == 0 then x.name == "departDate"
    else if s == 1 then x.id == "aa-leavingOn"
    else if s == 2 then ContainsIgnoreCase(x.name, "leave")
    else s == 3 && ContainsIgnoreCase(x.placeholder, "mm/dd")
  }

  /** Some selector before the `s`-th matches `x`. */
  predicate MatchedBefore(x: Input, s: nat)
  {
    s > 0 && (MatchedBefore(x, s - 1) || MirrorSel(x, s - 1))
  }

  predicate DateMirror(x: Input)
  {
    MatchedBefore(x, 4)
  }

  /** A hidden input whose name mentions departing or leaving. */
  predicate HiddenDateMirror(x: Input)
  {
    x.kind == "hidden" && (Contains(Lower(x.name), "depart") || Contains(Lower(x.name), "leave"))
  }

  /** An input as the date script leaves it. */
  function DateFilled(x: Input, val: string): Input
  {
    if DateMirror(x) || HiddenDateMirror(x) then x.(value := val) else x
  }

  function FillDate(xs: seq<Input>, val: string): (ys: seq<Input>)
    ensures |ys| == |xs|
  {
    seq(|xs|, i requires 0 <= i < |xs| => DateFilled(xs[i], val))
  }

  /** The date-mirror script (src/playwright_flow.py:276-298) on an existing
      form: every input matched by one of the four selectors gets `val`, once,
      through the `seen` set; then every hidden departure mirror gets it.
      `fired` lists the inputs of the first pass in the order their events
      were fired. */
  method InjectDate(root: Form, val: string) returns (fired: seq<nat>)
    modifies root.inputs
    ensures forall i :: 0 <= i < root.inputs.Length ==> root.inputs[i] == DateFilled(old(root.inputs[i]), val)
    ensures forall i :: i in fired <==> 0 <= i < root.inputs.Length && DateMirror(old(root.inputs[i]))
    ensures forall p, q :: 0 <= p < q < |fired| ==> fired[p] != fired[q]
  {
    fired := FillMirrors(root.inputs, val);
    FillHiddenMirrors(root.inputs, val);
  }

  /** The four mirror selectors in turn; an element several of them match
      is filled, and fires its events, once. */
  method FillMirrors(a: array<Input>, val: string) returns (fired: seq<nat>)
    modifies a
    ensures forall i :: 0 <= i < a.Length ==>
              a[i] == if DateMirror(old(a[i])) then old(a[i]).(value := val) else old(a[i])
    ensures forall i :: i in fired <==> 0 <= i < a.Length && DateMirror(old(a[i]))
    ensures forall p, q :: 0 <= p < q < |fired| ==> fired[p] != fired[q]
  {
    var seen: set<nat> := {};
    fired := [];
    var s := 0;
    while s < 4
      invariant 0 <= s <= 4
      invariant forall k :: 0 <= k < a.Length ==>
        a[k] == (if MatchedBefore(old(a[k]), s) then old(a[k]).(value := val) else old(a[k]))
      invariant forall k :: k in seen <==> 0 <= k < a.Length && MatchedBefore(old(a[k]), s)
      invariant forall k :: k in fired <==> k in seen
      invariant forall p, q :: 0 <= p < q < |fired| ==> fired[p] != fired[q]
    {
      seen, fired := FillSelector(a, val, s, seen, fired);
      s := s + 1;
    }
  }

  /** One selector of the four: the elements it matches that no earlier
      selector matched get the value and are appended to `fired`. */
  method FillSelector(a: array<Input>, val: string, s: nat, seen0: set<nat>, fired0: seq<nat>)
    returns (seen: set<nat>, fired: seq<nat>)
    modifies a
    requires forall k :: k in fired0 <==> k in seen0
    requires forall p, q :: 0 <= p < q < |fired0| ==> fired0[p] != fired0[q]
    ensures forall k :: 0 <= k < a.Length ==>
              a[k] == if MirrorSel(old(a[k]), s) && k !in seen0 then old(a[k]).(value := val) else old(a[k])
    ensures forall k :: k in seen <==> k in seen0 || (0 <= k < a.Length && MirrorSel(old(a[k]), s))
    ensures forall k :: k in fired <==> k in seen
    ensures forall p, q :: 0 <= p < q < |fired| ==> fired[p] != fired[q]
  {
    seen, fired := seen0, fired0;
    var i := 0;
    while i < a.Length
      invariant 0 <= i <= a.Length
      invariant forall k :: 0 <= k < a.Length ==>
        a[k] == (if k < i && MirrorSel(old(a[k]), s) && k !in seen0 then old(a[k]).(value := val) else old(a[k]))
      invariant forall k :: k in seen <==> k in seen0 || (0 <= k < i && MirrorSel(old(a[k]), s))
      invariant forall k :: k in fired <==> k in seen
      invariant forall p, q :: 0 <= p < q < |fired| ==> fired[p] != fired[q]
    {
      if MirrorSel(a[i], s) && i !in seen {
        a[i] := a[i].(value := val);
        seen := seen + {i};
        fired := fired + [i];
      }
      i := i + 1;
    }
  }

  /** The hidden inputs named for departing or leaving. */
  method FillHiddenMirrors(a: array<Input>, val: string)
    modifies a
    ensures forall i :: 0 <= i < a.Length ==>
              a[i] == if HiddenDateMirror(old(a[i])) then old(a[i]).(value := val) else old(a[i])
  {
    var i := 0;
    while i < a.Length
      invariant 0 <= i <= a.Length
      invariant forall k :: 0 <= k < a.Length ==>
        a[k] == (if k < i && HiddenDateMirror(old(a[k])) then old(a[k]).(value := val) else old(a[k]))
    {
      if a[i].kind == "hidden" && (Contains(Lower(a[i].name), "depart") || Contains(Lower(a[i].name), "leave")) {
        a[i] := a[i].(value := val);
      }
      i := i + 1;
    }
  }

  /** The read-back script: some input of the form holds a `MM/DD/YYYY`-shaped
      value. */
  predicate DateConfirmed(xs: seq<Input>)
  {
    exists i :: 0 <= i < |xs| && DateShaped(xs[i].value)
  }

  /** `set_depart_date`: format the date (a malformed one raises before
      anything else), fill the mirrors when the form exists, then raise unless
      the read-back succeeds. The direct typing attempt before the script
      swallows its failures; whatever it typed is part of the form state
      `root` is given in. */
  method SetDepartDate(root: Form?, dateIso: string) returns (r: Outcome)
    modifies if root != null then {root.inputs} else {}
    ensures MmDdYyyy(dateIso).Err? ==> r == Fail(MmDdYyyy(dateIso).error)
    ensures MmDdYyyy(dateIso).Ok? && root != null ==>
              forall i :: 0 <= i < root.inputs.Length ==>
                root.inputs[i] == DateFilled(old(root.inputs[i]), MmDdYyyy(dateIso).value)
    ensures MmDdYyyy(dateIso).Ok? ==>
              (r == Pass <==> root != null && DateConfirmed(root.inputs[..]))
    ensures MmDdYyyy(dateIso).Ok? && r.Fail? ==>
              r.error == RuntimeError("Depart date not set correctly")
    ensures root != null && MmDdYyyy(dateIso).Err? ==> unchanged(root.inputs)
  {
    var formatted := MmDdYyyy(dateIso);
    if formatted.Err? {
      return Fail(formatted.error);
    }
    var ok := false;
    if root != null {
      var _ := InjectDate(root, formatted.value);
      ok := DateConfirmed(root.inputs[..]);
    }
    if !ok {
      return Fail(RuntimeError("Depart date not set correctly"));
    }
    r := Pass;
  }

  /** When the form has at least one date mirror and the formatted date is
      `MM/DD/YYYY`-shaped, the read-back after the script succeeds. */
  lemma InjectedDateConfirmed(xs: seq<Input>, val: string, i: nat)
    requires i < |xs| && DateMirror(xs[i]) && DateShaped(val)
    ensures DateConfirmed(FillDate(xs, val))
  {
    assert FillDate(xs, val)[i].value == val;
  }

  /** The read-back accepts any shaped value: an input the script does not
      touch holding some other date is enough, whatever `val` is. */
  lemma AnyShapedValuePasses(xs: seq<Input>, val: string, i: nat)
    requires i < |xs| && !DateMirror(xs[i]) && !HiddenDateMirror(xs[i]) && DateShaped(xs[i].value)
    ensures DateConfirmed(FillDate(xs, val))
  {
    assert FillDate(xs, val)[i] == xs[i];
  }

  /** Without a mirror and without a shaped value elsewhere, the read-back
      fails, so the step raises. */
  lemma NoMirrorNoConfirmation(xs: seq<Input>, val: string)
    requires forall i :: 0 <= i < |xs| ==> !DateMirror(xs[i]) && !HiddenDateMirror(xs[i]) && !DateShaped(xs[i].value)
    ensures !DateConfirmed(FillDate(xs, val))
  {
    forall i | 0 <= i < |xs| ensures FillDate(xs, val)[i] == xs[i] {
    }
  }

  // ------------------------------------------------------ force_one_way_hard

  /** A radio the one-way script checks: its name or id mentions the trip
      type, or its value mentions "one"; and its id says one-way or its value
      mentions "one". */
  predicate OneWayRadioLike(x: Input)
  {
    x.kind == "radio"
    && (Contains(Lower(x.name), "triptype") || Contains(Lower(x.id), "triptype") || Contains(Lower(x.value), "one"))
    && (Contains(Lower(x.id), "oneway") || Contains(Lower(x.value), "one"))
  }

  predicate HiddenTripMirror(x: Input)
  {
    x.kind == "hidden" && Contains(Lower(x.name), "triptype")
  }

  /** An input whose name mentions the return leg, in any letter case
      (`returnDate` is covered by `return`). */
  predicate ReturnMirror(x: Input)
  {
    ContainsIgnoreCase(x.name, "return") || ContainsIgnoreCase(x.name, "back")
  }

  function RadioPass(x: Input): Input
  {
    if OneWayRadioLike(x) then x.(checked := true) else x
  }

  function HiddenPass(x: Input): Input
  {
    if HiddenTripMirror(x) then x.(value := "oneWay") else x
  }

  function ReturnPass(x: Input): Input
  {
    if ReturnMirror(x) then x.(value := "", disabled := true) else x
  }

  /** An input as the one-way script leaves it: the three passes, in order. */
  function OneWayMirrored(x: Input): Input
  {
    ReturnPass(HiddenPass(RadioPass(x)))
  }

  /** The one-way script (src/playwright_flow.py:166-199) on an existing
      form: check the one-way radios, set the hidden trip-type mirrors, mark
      the form `data-triptype="oneWay"`, then clear and disable the return
      mirrors. */
  method InjectOneWay(root: Form)
    modifies root, root.inputs
    ensures root.inputs == old(root.inputs) && root.tripType == "oneWay"
    ensures forall i :: 0 <= i < root.inputs.Length ==> root.inputs[i] == OneWayMirrored(old(root.inputs[i]))
  {
    var a := root.inputs;
    var i := 0;
    while i < a.Length
      invariant 0 <= i <= a.Length
      invariant root.inputs == a
      invariant forall k :: 0 <= k < a.Length ==> a[k] == (if k < i then RadioPass(old(a[k])) else old(a[k]))
    {
      if a[i].kind == "radio" {
        var name, id, val := Lower(a[i].name), Lower(a[i].id), Lower(a[i].value);
        if Contains(name, "triptype") || Contains(id, "triptype") || Contains(val, "one") {
          if Contains(id, "oneway") || Contains(val, "one") {
            a[i] := a[i].(checked := true);
          }
        }
      }
      i := i + 1;
    }
    i := 0;
    while i < a.Length
      invariant 0 <= i <= a.Length
      invariant root.inputs == a
      invariant forall k :: 0 <= k < a.Length ==>
        a[k] == (if k < i then HiddenPass(RadioPass(old(a[k]))) else RadioPass(old(a[k])))
    {
      if a[i].kind == "hidden" && Contains(Lower(a[i].name), "triptype") {
        a[i] := a[i].(value := "oneWay");
      }
      i := i + 1;
    }
    root.tripType := "oneWay";
    i := 0;
    while i < a.Length
      invariant 0 <= i <= a.Length
      invariant root.inputs == a && root.tripType == "oneWay"
      invariant forall k :: 0 <= k < a.Length ==>
        a[k] == (if k < i then OneWayMirrored(old(a[k])) else HiddenPass(RadioPass(old(a[k]))))
    {
      if ContainsIgnoreCase(a[i].name, "return") || ContainsIgnoreCase(a[i].name, "back") {
        a[i] := a[i].(value := "", disabled := true);
      }
      i := i + 1;
    }
  }

  /** The first input the radio selector `sel` selects is checked. */
  predicate SelectedRadioChecked(xs: seq<Input>, sel: Compound)
  {
    match FirstWhere(xs, x => MatchesCompound(x, sel))
    case Some(i) => xs[i].checked
    case None => false
  }

  /** The one-way read-back (src/playwright_flow.py:202-219) with the radio
      looked up by `sel`: the radio is checked, or a hidden trip-type mirror
      mentions "one", or the form's `data-triptype` does. */
  predicate OneWayConfirmed(xs: seq<Input>, tripType: string, sel: Compound)
  {
    SelectedRadioChecked(xs, sel)
    || (exists i :: 0 <= i < |xs| && HiddenTripMirror(xs[i]) && Contains(Lower(xs[i].value), "one"))
    || Contains(Lower(tripType), "one")
  }

  /** Once the script has marked the form, the read-back succeeds whatever
      the inputs are and whichever radio selector it uses. */
  lemma MarkedFormConfirmed(xs: seq<Input>, sel: Compound)
    ensures OneWayConfirmed(xs, "oneWay", sel)
  {
    assert IsAt(Lower("oneWay"), "one", 0);
  }

  /** `force_one_way_hard`: the radio and label clicks swallow their failures
      (their effect is part of the state `root` is given in); the script runs
      when the form exists; the read-back fails, and "One-way did not toggle"
      is raised, exactly when the form does not exist. The read-back looks
      the radio up by its id, as the page-side selector intends. */
  method ForceOneWayHard(root: Form?, guard: Outcome) returns (r: Outcome)
    modifies if root != null then {root, root.inputs} else {}
    ensures guard.Fail? ==> r == guard
    ensures guard.Pass? ==> (r == Pass <==> root != null)
    ensures guard.Pass? && r.Fail? ==> r.error == RuntimeError("One-way did not toggle")
    ensures guard.Pass? && root != null ==>
              root.tripType == "oneWay" && root.inputs == old(root.inputs)
              && forall i :: 0 <= i < root.inputs.Length ==> root.inputs[i] == OneWayMirrored(old(root.inputs[i]))
  {
    if guard.Fail? {
      return guard;
    }
    var ok := false;
    if root != null {
      InjectOneWay(root);
      MarkedFormConfirmed(root.inputs[..], LocatorRadio);
      ok := OneWayConfirmed(root.inputs[..], root.tripType, LocatorRadio);
    }
    if !ok {
      return Fail(RuntimeError("One-way did not toggle"));
    }
    r := Pass;
  }


  /** As written, the read-back script looks the radio up with the selector
      that lost its escapes, and a form whose only evidence of one-way is its
      checked radio is not confirmed; looked up by its id, it is. */
  lemma ReadBackMissesCheckedRadio()
    ensures !OneWayConfirmed([AaRadio(true)], "", ScriptRadio)
    ensures OneWayConfirmed([AaRadio(true)], "", LocatorRadio)
  {
    var xs := [AaRadio(true)];
    assert !MatchesCompound(xs[0], ScriptRadio) by {
      assert OneWayRadioId != SelectorForm by { assert |OneWayRadioId| != |SelectorForm|; }
    }
    assert MatchesCompound(xs[0], LocatorRadio);
    assert FirstWhere(xs, x => MatchesCompound(x, LocatorRadio)) == Some(0);
  }

  /** After the script has run the two lookups give the same verdict, so the
      broken selector does not change what `force_one_way_hard` returns. */
  lemma ReadBackAfterScriptUnaffected(xs: seq<Input>)
    ensures OneWayConfirmed(xs, "oneWay", ScriptRadio) == OneWayConfirmed(xs, "oneWay", LocatorRadio)
  {
    MarkedFormConfirmed(xs, ScriptRadio);
    MarkedFormConfirmed(xs, LocatorRadio);
  }
}
