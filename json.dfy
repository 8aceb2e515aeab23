/** JSON values as the scraper's Python code sees them after `json.loads`,
    their serialisation by `json.dumps` with its default settings, the
    flight-payload test `looks_like_flights` (src/crawler_api.py:70-73), and
    `dict` lookup and `update`. */
module Json {
  import opened Wrappers
  import opened Text

  /** A decoded JSON value; objects keep their keys in insertion order, as a
      Python `dict` does. Numbers are integers (see README, "Left out"). */
  datatype Value =
    | JNull
    | JBool(b: bool)
    | JInt(n: int)
    | JStr(s: string)
    | JArr(items: seq<Value>)
    | JObj(fields: seq<(string, Value)>)

  // ------------------------------------------------------------ json.dumps

  function HexDigit(d: nat): char
    requires d < 16
  {
    "0123456789abcdef"[d]
  }

  /** `\uXXXX` with four lower-case hexadecimal digits. */
  function UEscape(u: nat): (r: string)
    requires u < 0x10000
    ensures |r| == 6
  {
    ['\\', 'u', HexDigit(u / 0x1000), HexDigit(u / 0x100 % 16), HexDigit(u / 16 % 16), HexDigit(u % 16)]
  }

  /** How `json.dumps` (with `ensure_ascii=True`) writes one character of a
      string: quote and backslash escaped, the usual control escapes, every
      other character outside printable ASCII as `\uXXXX` (a surrogate pair
      above U+FFFF). */
  function EscapeChar(c: char): (r: string)
    ensures |r| >= 1
  {
    if c == '"' then "\\\""
    else if c == '\\' then "\\\\"
    else if c == '\n' then "\\n"
    else if c == '\r' then "\\r"
    else if c == '\t' then "\\t"
    else if c == '\U{8}' then "\\b"
    else if c == '\U{c}' then "\\f"
    else if ' ' <= c <= '~' then [c]
    else if c as int < 0x10000 then UEscape(c as int)
    else
      var v := c as int - 0x10000;
      UEscape(0xd800 + v / 0x400) + UEscape(0xdc00 + v % 0x400)
  }

  function Escape(s: string): string
  {
    if s == [] then [] else EscapeChar(s[0]) + Escape(s[1..])
  }

  function Quote(s: string): string
  {
    "\"" + Escape(s) + "\""
  }

  /** `sep.join(parts)` for a string separator. */
  function JoinWith(sep: string, parts: seq<string>): string
  {
    if |parts| == 0 then ""
    else if |parts| == 1 then parts[0]
    else parts[0] + sep + JoinWith(sep, parts[1..])
  }

  /** `json.dumps(v)`: separators `", "` and `": "`, no indentation. A
      string is written between quotes, a list between brackets and an
      object between braces. */
  function Dumps(v: Value): (r: string)
    ensures |r| >= 1
    ensures v.JStr? ==> |r| >= 2 && r[0] == '"' && r[|r| - 1] == '"'
    ensures v.JArr? ==> |r| >= 2 && r[0] == '[' && r[|r| - 1] == ']'
    ensures v.JObj? ==> |r| >= 2 && r[0] == '{' && r[|r| - 1] == '}'
    decreases v, 1
  {
    match v
    case JNull => "null"
    case JBool(b) => if b then "true" else "false"
    case JInt(n) => if n < 0 then "-" + Decimal(-n) else Decimal(n)
    case JStr(s) => Quote(s)
    case JArr(xs) => "[" + JoinWith(", ", seq(|xs|, i requires 0 <= i < |xs| => Dumps(xs[i]))) + "]"
    case JObj(fs) => "{" + JoinWith(", ", Members(fs)) + "}"
  }

  /** The `"key": value` parts of an object's serialisation. */
  function Members(fs: seq<(string, Value)>): (r: seq<string>)
    ensures |r| == |fs|
    decreases JObj(fs), 0
  {
    seq(|fs|, i requires 0 <= i < |fs| => Quote(fs[i].0) + ": " + Dumps(fs[i].1))
  }

  /** Printable ASCII other than quote and backslash: written as is. */
  predicate Verbatim(s: string)
  {
    forall i :: 0 <= i < |s| ==> ' ' <= s[i] <= '~' && s[i] != '"' && s[i] != '\\'
  }

  lemma {:induction false} EscapeVerbatim(s: string)
    requires Verbatim(s)
    ensures Escape(s) == s
    decreases |s|
  {
    if s != [] {
      EscapeVerbatim(s[1..]);
      assert [s[0]] + s[1..] == s;
    }
  }

  /** Every part of a join appears in it between two other strings. */
  lemma {:induction false} JoinHolds(sep: string, parts: seq<string>, i: nat)
    requires i < |parts|
    ensures exists a, b :: JoinWith(sep, parts) == a + parts[i] + b
    decreases |parts|
  {
    if |parts| == 1 {
      assert JoinWith(sep, parts) == "" + parts[0] + "";
    } else if i == 0 {
      assert JoinWith(sep, parts) == "" + parts[0] + (sep + JoinWith(sep, parts[1..]));
    } else {
      JoinHolds(sep, parts[1..], i - 1);
      var a, b :| JoinWith(sep, parts[1..]) == a + parts[1..][i - 1] + b;
      assert JoinWith(sep, parts) == (parts[0] + sep + a) + parts[i] + b;
    }
  }

  lemma PartHoldsKey(k: string, d: string)
    requires Verbatim(k)
    ensures Contains(Quote(k) + ": " + d, k)
  {
    EscapeVerbatim(k);
    ContainsItself(k);
    ContainsInside("\"", k, "\"" + ": " + d, k);
    assert Quote(k) + ": " + d == "\"" + k + ("\"" + ": " + d);
  }

  /** A verbatim key of an object shows up in its serialisation. */
  lemma ContainsInBraces(a: string, p: string, b: string, key: string)
    requires Contains(p, key)
    ensures Contains("{" + (a + p + b) + "}", key)
  {
    ContainsInside("{" + a, p, b + "}", key);
    assert "{" + (a + p + b) + "}" == ("{" + a) + p + (b + "}");
  }

  lemma KeyInDumps(fs: seq<(string, Value)>, i: nat)
    requires i < |fs| && Verbatim(fs[i].0)
    ensures Contains(Dumps(JObj(fs)), fs[i].0)
  {
    var key := fs[i].0;
    var parts := Members(fs);
    PartHoldsKey(key, Dumps(fs[i].1));
    JoinHolds(", ", parts, i);
    var a, b :| JoinWith(", ", parts) == a + parts[i] + b;
    ContainsInBraces(a, parts[i], b, key);
  }

  lemma ContainsLowered(s: string, w: string)
    requires Contains(s, w) && Lower(w) == w
    ensures Contains(Lower(s), w)
  {
    var i :| 0 <= i <= |s| - |w| && IsAt(s, w, i);
    LowerSlice(s, i, i + |w|);
    assert IsAt(Lower(s), w, i);
  }

  // ---------------------------------------------------- looks_like_flights

  const FlightMarkers: seq<string> := ["offer", "itineraries", "slices", "segments", "fares"]

  /** `looks_like_flights`: only an object qualifies, and then exactly when
      its lower-cased serialisation holds one of the markers. */
  function LooksLikeFlights(v: Value): (r: bool)
    ensures r ==> v.JObj?
  {
    v.JObj? && ContainsAny(Lower(Dumps(v)), FlightMarkers)
  }

  /** An object with one of the markers as a key looks like flights, whatever
      its values are. */
  lemma MarkerKeyLooksLikeFlights(fs: seq<(string, Value)>, i: nat, m: nat)
    requires i < |fs| && m < |FlightMarkers| && fs[i].0 == FlightMarkers[m]
    ensures LooksLikeFlights(JObj(fs))
  {
    var w := FlightMarkers[m];
    assert Verbatim(w) && Lower(w) == w;
    KeyInDumps(fs, i);
    ContainsLowered(Dumps(JObj(fs)), w);
  }

  /** The empty object and every value that is not an object do not. */
  lemma EmptyOrNonObjectIsNotFlights(v: Value)
    requires v == JObj([]) || !v.JObj?
    ensures !LooksLikeFlights(v)
  {
    if v == JObj([]) {
      assert Dumps(v) == "{}";
      forall k | 0 <= k < |FlightMarkers| ensures !Contains(Lower(Dumps(v)), FlightMarkers[k]) {
        assert |FlightMarkers[k]| > 2;
      }
    }
  }

  // ------------------------------------------------------------ dict access

  predicate Truthy(v: Value)
  {
    match v
    case JNull => false
    case JBool(b) => b
    case JInt(n) => n != 0
    case JStr(s) => s != ""
    case JArr(xs) => xs != []
    case JObj(fs) => fs != []
  }

  function KeyIndex(fs: seq<(string, Value)>, k: string): (r: Option<nat>)
    ensures r.Some? ==> r.value < |fs| && fs[r.value].0 == k && forall j :: 0 <= j < r.value ==> fs[j].0 != k
    ensures r.None? ==> forall j :: 0 <= j < |fs| ==> fs[j].0 != k
  {
    if |fs| == 0 then None
    else if fs[0].0 == k then Some(0)
    else match KeyIndex(fs[1..], k)
      case None => None
      case Some(i) => Some(i + 1)
  }

  /** `d.get(k)` */
  function Get(fs: seq<(string, Value)>, k: string): Option<Value>
  {
    match KeyIndex(fs, k)
    case None => None
    case Some(i) => Some(fs[i].1)
  }

  /** `d[k] = v`: an existing key keeps its place, a new one goes last. */
  function Put(fs: seq<(string, Value)>, k: string, v: Value): (r: seq<(string, Value)>)
    ensures KeyIndex(fs, k).Some? ==> |r| == |fs|
    ensures KeyIndex(fs, k).None? ==> r == fs + [(k, v)]
  {
    match KeyIndex(fs, k)
    case None => fs + [(k, v)]
    case Some(i) => fs[i := (k, v)]
  }

  lemma KeyIndexAt(fs: seq<(string, Value)>, k: string, i: nat)
    requires i < |fs| && fs[i].0 == k && forall j :: 0 <= j < i ==> fs[j].0 != k
    ensures KeyIndex(fs, k) == Some(i)
  {
  }

  /** After `d[k] = v` the key reads back as `v`, every other key as before,
      and the keys already present keep their order. */
  lemma PutGet(fs: seq<(string, Value)>, k: string, v: Value, k2: string)
    ensures Get(Put(fs, k, v), k) == Some(v)
    ensures k2 != k ==> Get(Put(fs, k, v), k2) == Get(fs, k2)
    ensures forall j :: 0 <= j < |fs| ==> Put(fs, k, v)[j].0 == fs[j].0
  {
    var r := Put(fs, k, v);
    match KeyIndex(fs, k)
    case None =>
      KeyIndexAt(r, k, |fs|);
      if k2 != k {
        match KeyIndex(fs, k2) {
          case None =>
          case Some(i2) => KeyIndexAt(r, k2, i2);
        }
      }
    case Some(i) =>
      KeyIndexAt(r, k, i);
      if k2 != k {
        match KeyIndex(fs, k2) {
          case None =>
          case Some(i2) => KeyIndexAt(r, k2, i2);
        }
      }
  }

  /** `d.update(pairs)`: the pairs assigned in order. */
  function Update(fs: seq<(string, Value)>, pairs: seq<(string, Value)>): seq<(string, Value)>
    decreases |pairs|
  {
    if pairs == [] then fs else Update(Put(fs, pairs[0].0, pairs[0].1), pairs[1..])
  }
}
