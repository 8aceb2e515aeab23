/** Proxy selection from the environment: the rotating variant of
    src/playwright_utils.py and the single-variable variant of
    src/playwright_flow.py and src/crawler_api.py. The environment is a map;
    an unset variable and an empty one are alike, as they are to Python's
    `or`. A returned proxy is the `server` of the dictionary Python builds. */
module Proxy {
  import opened Wrappers
  import opened Text

  type Env = map<string, string>

  /** `os.getenv(name)`, with the empty string for an unset variable. */
  function Getenv(env: Env, name: string): string
  {
    if name in env then env[name] else ""
  }

  /** `getenv(n0) or getenv(n1) or ...`: the first variable set to a
      non-empty value. */
  function FirstSet(env: Env, names: seq<string>): (r: Option<string>)
    ensures r.Some? ==> r.value != ""
    ensures r.None? <==> forall j :: 0 <= j < |names| ==> Getenv(env, names[j]) == ""
    ensures r.Some? ==> exists j :: 0 <= j < |names| && Getenv(env, names[j]) == r.value
                                    && forall i :: 0 <= i < j ==> Getenv(env, names[i]) == ""
  {
    if names == [] then None
    else if Getenv(env, names[0]) != "" then Some(Getenv(env, names[0]))
    else
      var r := FirstSet(env, names[1..]);
      if r.Some? then
        var j :| 0 <= j < |names[1..]| && Getenv(env, names[1..][j]) == r.value
                 && forall i :: 0 <= i < j ==> Getenv(env, names[1..][i]) == "";
        assert Getenv(env, names[j + 1]) == r.value;
        assert forall i :: 0 <= i < j + 1 ==> Getenv(env, names[i]) == "" by {
          forall i | 0 <= i < j + 1 ensures Getenv(env, names[i]) == "" {
            if i > 0 { assert names[i] == names[1..][i - 1]; }
          }
        }
        r
      else
        assert forall j :: 0 <= j < |names| ==> Getenv(env, names[j]) == "" by {
          forall j | 0 <= j < |names| ensures Getenv(env, names[j]) == "" {
            if j > 0 { assert names[j] == names[1..][j - 1]; }
          }
        }
        r
  }

  /** `[p.strip() for p in parts if p.strip()]` */
  function KeepStripped(parts: seq<string>): (r: seq<string>)
    ensures |r| <= |parts|
    ensures forall i :: 0 <= i < |r| ==> r[i] != ""
  {
    if parts == [] then []
    else (if Strip(parts[0]) != "" then [Strip(parts[0])] else []) + KeepStripped(parts[1..])
  }

  /** Every kept entry is a non-blank stripped part. */
  lemma {:induction false} KeptAreStrippedParts(parts: seq<string>)
    ensures forall e :: e in KeepStripped(parts) ==> e != "" && exists p :: p in parts && Strip(p) == e
    decreases |parts|
  {
    if parts != [] {
      var tail := parts[1..];
      KeptAreStrippedParts(tail);
      var h := if Strip(parts[0]) != "" then [Strip(parts[0])] else [];
      assert KeepStripped(parts) == h + KeepStripped(tail);
      forall e | e in KeepStripped(parts) ensures e != "" && exists p :: p in parts && Strip(p) == e {
        if e in h {
          assert parts[0] in parts && Strip(parts[0]) == e;
        } else {
          var p :| p in tail && Strip(p) == e;
          assert p in parts;
        }
      }
    }
  }

  /** Every non-blank stripped part is kept. */
  lemma {:induction false} StrippedPartsAreKept(parts: seq<string>)
    ensures forall p :: p in parts && Strip(p) != "" ==> Strip(p) in KeepStripped(parts)
    decreases |parts|
  {
    if parts != [] {
      var tail := parts[1..];
      StrippedPartsAreKept(tail);
      var h := if Strip(parts[0]) != "" then [Strip(parts[0])] else [];
      assert KeepStripped(parts) == h + KeepStripped(tail);
      forall p | p in parts && Strip(p) != "" ensures Strip(p) in KeepStripped(parts) {
        if p != parts[0] {
          assert p in tail;
        }
      }
    }
  }

  /** The kept list holds exactly the non-blank stripped parts. */
  lemma KeepStrippedMembers(parts: seq<string>)
    ensures forall e :: e in KeepStripped(parts) ==> e != "" && exists p :: p in parts && Strip(p) == e
    ensures forall p :: p in parts && Strip(p) != "" ==> Strip(p) in KeepStripped(parts)
    ensures KeepStripped(parts) == [] <==> forall p :: p in parts ==> Strip(p) == ""
  {
    KeptAreStrippedParts(parts);
    StrippedPartsAreKept(parts);
    if KeepStripped(parts) != [] {
      assert KeepStripped(parts)[0] in KeepStripped(parts);
    }
  }

  /** A proxy entry is its own strip: it neither begins nor ends with
      whitespace. */
  lemma StripIdempotent(s: string)
    ensures Strip(Strip(s)) == Strip(s)
  {
    StripIsTrimmedSlice(s);
    StripOfTrimmed(Strip(s));
  }

  /** The `PROXIES` entries: the variable split on ',', stripped, blanks
      dropped. */
  function ProxyList(env: Env): seq<string>
  {
    KeepStripped(Split(Getenv(env, "PROXIES"), ','))
  }

  const FallbackVars: seq<string> := ["HTTP_PROXY", "HTTPS_PROXY", "PROXY", "http_proxy", "https_proxy", "proxy"]

  /** `proxy_from_env(index)` of src/playwright_utils.py: a listed entry
      whenever `PROXIES` lists one; no proxy only when the list and all six
      fallback variables are unusable. */
  function ProxyFromEnv(env: Env, index: int): (r: Option<string>)
    ensures r.Some? ==> r.value != ""
    ensures ProxyList(env) != [] ==> r.Some? && r.value in ProxyList(env)
    ensures r.None? <==> ProxyList(env) == [] && forall j :: 0 <= j < |FallbackVars| ==> Getenv(env, FallbackVars[j]) == ""
  {
    var lst := ProxyList(env);
    if lst != [] then Some(Rotated(lst, index)) else FirstSet(env, FallbackVars)
  }

  /** `lst[index % len(lst)]`: Python's `%` by a positive length, like
      Dafny's, lands in the list. */
  function Rotated(lst: seq<string>, index: int): (e: string)
    requires lst != []
    ensures e in lst
  {
    lst[index % |lst|]
  }

  /** Proxies rotate: attempt `index` and attempt `index` plus the list's
      length get the same proxy, and the first attempts take the entries in
      the order they are listed. */
  lemma RotationIndex(env: Env, index: int)
    ensures ProxyFromEnv(env, index + |ProxyList(env)|) == ProxyFromEnv(env, index)
    ensures 0 <= index < |ProxyList(env)| ==> ProxyFromEnv(env, index) == Some(ProxyList(env)[index])
  {
    var lst := ProxyList(env);
    if lst != [] {
      ModShift(index, |lst|);
      assert Rotated(lst, index + |lst|) == Rotated(lst, index);
      if 0 <= index < |lst| {
        ModSmall(index, |lst|);
      }
    }
  }

  /** Adding the divisor leaves a remainder alone. */
  lemma ModShift(i: int, n: int)
    requires n > 0
    ensures (i + n) % n == i % n
  {
    var q, r := i / n, i % n;
    var q2, r2 := (i + n) / n, (i + n) % n;
    assert n * (q2 - q - 1) == r - r2;
    SmallMultiple(q2 - q - 1, n);
  }

  /** A remainder by a larger divisor is the number itself. */
  lemma ModSmall(i: int, n: int)
    requires 0 <= i < n
    ensures i % n == i
  {
    SmallMultiple(i / n, n);
  }

  /** The only multiple of `n` strictly between `-n` and `n` is zero. */
  lemma SmallMultiple(k: int, n: int)
    requires n > 0 && -n < n * k < n
    ensures k == 0
  {
  }

  /** That entry is one of the variable's non-blank stripped parts. */
  lemma RotationPicksListedEntry(env: Env, index: int)
    requires ProxyList(env) != []
    ensures var r := ProxyFromEnv(env, index);
            r.Some? && r.value != "" && Strip(r.value) == r.value
            && exists p :: p in Split(Getenv(env, "PROXIES"), ',') && Strip(p) == r.value
  {
    var parts := Split(Getenv(env, "PROXIES"), ',');
    var lst := KeepStripped(parts);
    KeepStrippedMembers(parts);
    var e := lst[index % |lst|];
    assert e in lst;
    var p :| p in parts && Strip(p) == e;
    StripIdempotent(p);
  }

  /** Without one, the fallback variables are read in their listed order;
      nothing set gives no proxy. `PROXIES` holding only blanks and commas
      counts as no list. */
  lemma FallbackWhenNoList(env: Env, index: int)
    requires forall p :: p in Split(Getenv(env, "PROXIES"), ',') ==> Strip(p) == ""
    ensures ProxyFromEnv(env, index) == FirstSet(env, FallbackVars)
    ensures ProxyFromEnv(env, index).None? <==> forall j :: 0 <= j < |FallbackVars| ==> Getenv(env, FallbackVars[j]) == ""
  {
    KeepStrippedMembers(Split(Getenv(env, "PROXIES"), ','));
  }

  /** `proxy_from_env` of src/playwright_flow.py and src/crawler_api.py:
      `AA_HTTP_PROXY`, else `HTTP_PROXY`; the attempt index is ignored. */
  function FlowProxy(env: Env): (r: Option<string>)
    ensures r.Some? ==> r.value != ""
    ensures Getenv(env, "AA_HTTP_PROXY") != "" ==> r == Some(Getenv(env, "AA_HTTP_PROXY"))
    ensures r.None? <==> Getenv(env, "AA_HTTP_PROXY") == "" && Getenv(env, "HTTP_PROXY") == ""
  {
    var p := Getenv(env, "AA_HTTP_PROXY");
    if p != "" then Some(p)
    else
      var q := Getenv(env, "HTTP_PROXY");
      if q != "" then Some(q) else None
  }

  /** The flow's variant is the same first-set rule over its two names. */
  lemma FlowProxyIsFirstSet(env: Env)
    ensures FlowProxy(env) == FirstSet(env, ["AA_HTTP_PROXY", "HTTP_PROXY"])
  {
    var names := ["AA_HTTP_PROXY", "HTTP_PROXY"];
    assert names[1..] == ["HTTP_PROXY"];
    assert names[1..][1..] == [];
  }

  /** The two variants agree whenever `AA_HTTP_PROXY` and `PROXIES` are
      unusable and `HTTP_PROXY` is set. */
  lemma VariantsAgreeOnHttpProxy(env: Env, index: int)
    requires Getenv(env, "AA_HTTP_PROXY") == "" && ProxyList(env) == [] && Getenv(env, "HTTP_PROXY") != ""
    ensures FlowProxy(env) == ProxyFromEnv(env, index) == Some(Getenv(env, "HTTP_PROXY"))
  {
  }
}
