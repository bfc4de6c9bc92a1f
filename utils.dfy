/**
 * The shared helpers of `src/utils.js`: integer clamping, dotted-path lookup,
 * first-defined selection, message normalisation, URL extraction from chat
 * text, YouTube video ids and the URL host whitelist.
 *
 * URLs are parsed by the WHATWG URL Standard's parser, which is not part of
 * this model: callers pass it in as `parse`, returning the parsed record or
 * `None` where `new URL(...)` throws.
 */
module Utils {
  import opened Opt
  import opened Text
  import opened Js
  import opened Seqs

  /** The parts of a parsed URL the application reads. */
  datatype Url = Url(hostname: string, pathname: string, query: seq<(string, string)>)

  type UrlParser = string -> Option<Url>

  // ---------------------------------------------------------------- clampInt

  /** `clampInt(n, {min, max, fallback})` */
  function ClampInt(n: Value, min: int, max: int, fallback: int): (r: int)
    ensures ParseIntOf(n).None? ==> r == fallback
    ensures ParseIntOf(n).Some? && min <= max ==> min <= r <= max
    ensures ParseIntOf(n).Some? && min <= ParseIntOf(n).value <= max ==> r == ParseIntOf(n).value
  {
    match ParseIntOf(n)
    case None => fallback
    case Some(x) =>
      var lo := if min < x then x else min;
      if max < lo then max else lo
  }

  /** An integral number in range passes through `clampInt` unchanged. */
  lemma ClampIntOfInteger(i: int, min: int, max: int, fallback: int)
    requires min <= i <= max
    ensures ClampInt(Num(i as real), min, max, fallback) == i
  {
    IntegerRoundTrip(i);
  }

  // --------------------------------------------------------------- getByPath

  /** `String(dotPath).split(".").map((p) => p.trim()).filter(Boolean)`, given `String(dotPath)` */
  function PathParts(path: string): (parts: seq<string>)
    ensures forall i :: 0 <= i < |parts| ==> parts[i] != "" && '.' !in parts[i]
  {
    var raw := Split(path, '.');
    var trimmed := seq(|raw|, i requires 0 <= i < |raw| => Trim(raw[i]));
    TrimmedHasNoDot(raw, trimmed);
    NonEmpty(trimmed)
  }

  lemma TrimmedHasNoDot(raw: seq<string>, trimmed: seq<string>)
    requires forall i :: 0 <= i < |raw| ==> '.' !in raw[i]
    requires |trimmed| == |raw| && forall i :: 0 <= i < |raw| ==> trimmed[i] == Trim(raw[i])
    ensures forall p :: p in trimmed ==> '.' !in p
  {
    forall p | p in trimmed
      ensures '.' !in p
    {
      var i :| 0 <= i < |trimmed| && trimmed[i] == p;
      TrimIsSlice(raw[i]);
    }
  }

  lemma TrimIsSlice(s: string)
    ensures forall c :: c in Trim(s) ==> c in s
  {
    var t := TrimStart(s);
    TrimStartDrops(s);
    TrimEndKeeps(t);
    assert forall c :: c in t ==> c in s;
    assert forall c :: c in TrimEnd(t) ==> c in t;
  }

  /** Following `parts` from `cur`, giving up with undefined at a null or undefined step. */
  function Walk(cur: Value, parts: seq<string>): Value
    decreases |parts|
  {
    if parts == [] then cur
    else if Nullish(cur) then Undefined
    else Walk(Get(cur, parts[0]), parts[1..])
  }

  /** The value `getByPath(obj, dotPath)` returns. */
  function PathValue(obj: Value, dotPath: Value): (r: Value)
    ensures !Truthy(dotPath) || PathParts(ToStr(dotPath)) == [] ==> r == Undefined
  {
    if !Truthy(dotPath) then Undefined
    else
      var parts := PathParts(ToStr(dotPath));
      if parts == [] then Undefined else Walk(obj, parts)
  }

  /** Walking a prefix and then the rest is walking the whole path. */
  lemma {:induction false} WalkAppend(cur: Value, a: seq<string>, b: seq<string>)
    ensures Walk(cur, a + b) == Walk(Walk(cur, a), b)
    decreases |a|
  {
    if a == [] {
      assert a + b == b;
    } else if Nullish(cur) {
      assert Walk(cur, a) == Undefined;
      if b != [] {
        assert Walk(Undefined, b) == Undefined;
      }
    } else {
      assert (a + b)[1..] == a[1..] + b;
      WalkAppend(Get(cur, a[0]), a[1..], b);
    }
  }

  /** A numeric segment steps into an array's element (`"data.items.0.amount"`), and `length` reads its size. */
  lemma WalkIntoArray(items: seq<Value>, n: nat, rest: seq<string>)
    ensures n < |items| ==> Walk(Arr(items), [NatToString(n)] + rest) == Walk(items[n], rest)
    ensures Walk(Arr(items), ["length"]) == Num(|items| as real)
  {
    GetElement(Arr(items), n);
    assert ([NatToString(n)] + rest)[1..] == rest;
  }

  /** Once an intermediate value is null or undefined, the lookup gives undefined. */
  lemma WalkStopsAtNullish(cur: Value, parts: seq<string>, j: nat)
    requires j < |parts| && Nullish(Walk(cur, parts[..j]))
    ensures Walk(cur, parts) == Undefined
  {
    assert parts == parts[..j] + parts[j..];
    WalkAppend(cur, parts[..j], parts[j..]);
  }

  /** `getByPath(obj, dotPath)` */
  method GetByPath(obj: Value, dotPath: Value) returns (r: Value)
    ensures r == PathValue(obj, dotPath)
  {
    if !Truthy(dotPath) {
      return Undefined;
    }
    var parts := PathParts(ToStr(dotPath));
    if |parts| == 0 {
      return Undefined;
    }
    r := WalkParts(obj, parts);
  }

  /** The loop of `getByPath` over the path's parts. */
  method WalkParts(obj: Value, parts: seq<string>) returns (r: Value)
    ensures r == Walk(obj, parts)
  {
    var cur := obj;
    var i := 0;
    while i < |parts|
      invariant 0 <= i <= |parts|
      invariant Walk(cur, parts[i..]) == Walk(obj, parts)
    {
      if Nullish(cur) {
        return Undefined;
      }
      assert parts[i..][1..] == parts[i + 1..];
      cur := Get(cur, parts[i]);
      i := i + 1;
    }
    assert parts[i..] == [];
    return cur;
  }

  // ------------------------------------------------------------ firstDefined

  /** The value `firstDefined(...vals)` returns. */
  function FirstDefinedOf(vals: seq<Value>): (r: Value)
    ensures Nullish(r) ==> r == Undefined
  {
    if vals == [] then Undefined
    else if !Nullish(vals[0]) then vals[0]
    else FirstDefinedOf(vals[1..])
  }

  /** The first value that is neither null nor undefined is the one chosen. */
  lemma {:induction false} FirstDefinedIsFirst(vals: seq<Value>, k: nat)
    requires k < |vals| && !Nullish(vals[k])
    requires forall j :: 0 <= j < k ==> Nullish(vals[j])
    ensures FirstDefinedOf(vals) == vals[k]
    decreases k
  {
    if k > 0 {
      assert Nullish(vals[0]);
      FirstDefinedIsFirst(vals[1..], k - 1);
    }
  }

  /** With every value null or undefined, the result is undefined. */
  lemma {:induction false} FirstDefinedNone(vals: seq<Value>)
    requires forall i :: 0 <= i < |vals| ==> Nullish(vals[i])
    ensures FirstDefinedOf(vals) == Undefined
    decreases |vals|
  {
    if vals != [] {
      FirstDefinedNone(vals[1..]);
    }
  }

  /** `firstDefined(...vals)` */
  method FirstDefined(vals: seq<Value>) returns (r: Value)
    ensures r == FirstDefinedOf(vals)
  {
    var i := 0;
    while i < |vals|
      invariant 0 <= i <= |vals|
      invariant FirstDefinedOf(vals[i..]) == FirstDefinedOf(vals)
    {
      if !Nullish(vals[i]) {
        return vals[i];
      }
      assert vals[i..][1..] == vals[i + 1..];
      i := i + 1;
    }
    return Undefined;
  }

  // ---------------------------------------------------------------- asNumber

  /** `s.replace(",", ".")`: the first comma, if any, becomes a decimal point. */
  function CommaToPoint(s: string): (r: string)
    ensures |r| == |s|
    ensures ',' !in s ==> r == s
    ensures IndexOf(s, ',') < |s| ==> r == s[..IndexOf(s, ',')] + "." + s[IndexOf(s, ',') + 1..]
  {
    var k := IndexOf(s, ',');
    if k == |s| then s else s[..k] + "." + s[k + 1..]
  }

  /**
   * `asNumber(value)`: a number as it is, a string read by `parseFloat` once
   * trimmed and with its first comma read as a decimal point, and nothing for
   * any other value (NaN, the `None` of `ParseFloat`, is nothing as well).
   */
  function AsNumber(value: Value): (r: Option<real>)
    ensures value.Num? ==> r == Some(value.n)
    ensures !value.Num? && !value.Str? ==> r.None?
    ensures value.Str? ==> r == ParseFloat(CommaToPoint(Trim(value.s)))
  {
    match value
    case Num(n) => Some(n)
    case Str(s) => ParseFloat(CommaToPoint(Trim(s)))
    case _ => None
  }

  /** The decimal digits of a whole number read back as that number. */
  lemma AsNumberOfDigits(m: nat)
    ensures AsNumber(Str(NatToString(m))) == Some(m as real)
  {
    var s := NatToString(m);
    Untouched(s);
    ParseFloatOfDigits(s);
    NatToStringValue(m);
  }

  /** A decimal comma between two runs of digits reads as a decimal point. */
  lemma AsNumberOfDecimalComma(w: string, f: string)
    requires w != [] && forall i :: 0 <= i < |w| ==> IsDigit(w[i])
    requires f != [] && forall i :: 0 <= i < |f| ==> IsDigit(f[i])
    ensures AsNumber(Str(w + "," + f)) == AsNumber(Str(w + "." + f))
  {
    CommaJoinedIsTrimmed(w, f);
    CommaAt(w, f);
    PointHasNoComma(w, f);
    PointJoinedIsTrimmed(w, f);
    SameReading(w + "," + f, w + "." + f);
  }

  lemma CommaJoinedIsTrimmed(w: string, f: string)
    requires w != [] && forall i :: 0 <= i < |w| ==> IsDigit(w[i])
    requires f != [] && forall i :: 0 <= i < |f| ==> IsDigit(f[i])
    ensures Trim(w + "," + f) == w + "," + f
  {
    JoinedIsTrimmed(w, ',', f);
  }

  lemma PointJoinedIsTrimmed(w: string, f: string)
    requires w != [] && forall i :: 0 <= i < |w| ==> IsDigit(w[i])
    requires f != [] && forall i :: 0 <= i < |f| ==> IsDigit(f[i])
    ensures Trim(w + "." + f) == w + "." + f
  {
    JoinedIsTrimmed(w, '.', f);
  }

  lemma SameReading(c: string, p: string)
    requires Trim(c) == c && CommaToPoint(c) == p
    requires Trim(p) == p && CommaToPoint(p) == p
    ensures AsNumber(Str(c)) == AsNumber(Str(p))
  {
  }

  lemma JoinedIsTrimmed(w: string, sep: char, f: string)
    requires w != [] && IsDigit(w[0])
    requires f != [] && IsDigit(f[|f| - 1])
    ensures Trim(w + [sep] + f) == w + [sep] + f
  {
    var s := w + [sep] + f;
    assert s[0] == w[0] && s[|s| - 1] == f[|f| - 1];
    EdgesNotSpace(s);
  }

  lemma PointHasNoComma(w: string, f: string)
    requires w != [] && forall i :: 0 <= i < |w| ==> IsDigit(w[i])
    requires f != [] && forall i :: 0 <= i < |f| ==> IsDigit(f[i])
    ensures CommaToPoint(w + "." + f) == w + "." + f
  {
    assert ',' !in w && ',' !in f by {
      assert !IsDigit(',');
    }
  }

  lemma EdgesNotSpace(s: string)
    requires s != [] && IsDigit(s[0]) && IsDigit(s[|s| - 1])
    ensures Trim(s) == s
  {
    TrimOfTrimmed(s);
  }

  lemma CommaAt(w: string, f: string)
    requires w != [] && forall i :: 0 <= i < |w| ==> IsDigit(w[i])
    requires f != [] && forall i :: 0 <= i < |f| ==> IsDigit(f[i])
    ensures CommaToPoint(w + "," + f) == w + "." + f
  {
    var c := w + "," + f;
    assert c[|w|] == ',';
    assert forall i :: 0 <= i < |w| ==> c[i] != ',' by {
      assert forall i :: 0 <= i < |w| ==> c[i] == w[i];
    }
    IndexOfFirst(c, ',', |w|);
    assert c[..|w|] == w && c[|w| + 1..] == f;
  }

  lemma {:induction false} IndexOfFirst(s: string, sep: char, k: nat)
    requires k < |s| && s[k] == sep
    requires forall i :: 0 <= i < k ==> s[i] != sep
    ensures IndexOf(s, sep) == k
  {
    if k > 0 {
      IndexOfFirst(s[1..], sep, k - 1);
    }
  }

  lemma Untouched(s: string)
    requires s != [] && forall i :: 0 <= i < |s| ==> IsDigit(s[i])
    ensures Trim(s) == s && CommaToPoint(s) == s
  {
    EdgesNotSpace(s);
    assert ',' !in s by {
      assert !IsDigit(',');
    }
  }

  lemma ParseFloatOfDigits(s: string)
    requires s != [] && forall i :: 0 <= i < |s| ==> IsDigit(s[i])
    ensures ParseFloat(s) == Some(DigitsValue(s) as real)
  {
    ScanDigits(s);
    StartsWithDigit(s);
  }

  lemma StartsWithDigit(s: string)
    requires s != [] && IsDigit(s[0])
    ensures TrimStart(s) == s
    ensures ScanDecimal(s) == ScanUnsignedDecimal(s)
  {
  }

  lemma ScanDigits(s: string)
    requires s != [] && forall i :: 0 <= i < |s| ==> IsDigit(s[i])
    ensures ScanUnsignedDecimal(s) == Some((DigitsValue(s) as real, |s|))
  {
    DigitRunAll(s);
    assert s[..|s|] == s;
  }

  // ----------------------------------------------------------- normalizeText

  /** `normalizeText(s)`: lower case, white-space runs collapsed to one space, trimmed. */
  function NormalizeText(v: Value): (r: string)
    ensures IsLower(r) && SpacesCollapsed(r)
    ensures r == [] || (!IsSpace(r[0]) && !IsSpace(r[|r| - 1]))
  {
    var lowered := Lower(ToStrOrEmpty(v));
    var collapsed := CollapseSpaces(lowered);
    CollapseKeepsLower(lowered);
    TrimKeeps(collapsed);
    Trim(collapsed)
  }

  lemma {:induction false} CollapseKeepsLower(s: string)
    requires IsLower(s)
    ensures IsLower(CollapseSpaces(s))
    decreases |s|
  {
    if s != [] {
      if IsSpace(s[0]) {
        var t := TrimStart(s[1..]);
        TrimStartDrops(s[1..]);
        assert IsLower(t);
        CollapseKeepsLower(t);
      } else {
        CollapseKeepsLower(s[1..]);
      }
    }
  }

  lemma TrimKeeps(s: string)
    requires IsLower(s) && SpacesCollapsed(s)
    ensures IsLower(Trim(s)) && SpacesCollapsed(Trim(s))
  {
    var t := TrimStart(s);
    TrimStartDrops(s);
    assert IsLower(t) && SpacesCollapsed(t);
    var u := TrimEnd(t);
    TrimEndKeeps(t);
  }

  /** Normalising normalised text changes nothing. */
  lemma NormalizeTextIdempotent(v: Value)
    ensures NormalizeText(Str(NormalizeText(v))) == NormalizeText(v)
  {
    var r := NormalizeText(v);
    assert ToStrOrEmpty(Str(r)) == r;
    LowerOfLower(r);
    CollapseOfCollapsed(r);
    TrimOfTrimmed(r);
  }

  // --------------------------------------------------------- extractFirstUrl

  /** The characters `[^\s<>()]` allows inside a URL match. */
  predicate UrlChar(c: char) {
    !IsSpace(c) && c != '<' && c != '>' && c != '(' && c != ')'
  }

  /** The length of the longest prefix of `s` made of URL characters. */
  function UrlRun(s: string): (k: nat)
    ensures k <= |s|
    ensures forall i :: 0 <= i < k ==> UrlChar(s[i])
    ensures k < |s| ==> !UrlChar(s[k])
  {
    if s != [] && UrlChar(s[0]) then 1 + UrlRun(s[1..]) else 0
  }

  /** `s` starts with the lower-case word `p`, ignoring case. */
  predicate StartsWithCI(s: string, p: string) {
    |p| <= |s| && forall k :: 0 <= k < |p| ==> LowerChar(s[k]) == p[k]
  }

  /** The end of a match of `/https?:\/\/[^\s<>()]+/i` that starts at `i`, if there is one. */
  function SchemeMatchAt(s: string, i: nat): (e: Option<nat>)
    requires i <= |s|
    ensures e.Some? ==> i < e.value <= |s|
  {
    var t := s[i..];
    if StartsWithCI(t, "https://") && 8 < |t| && UrlChar(t[8]) then Some(i + 8 + UrlRun(t[8..]))
    else if StartsWithCI(t, "http://") && 7 < |t| && UrlChar(t[7]) then Some(i + 7 + UrlRun(t[7..]))
    else None
  }

  /** `SchemeMatchAt` as a total function of the position. */
  function SchemeAt(s: string): nat -> Option<nat> {
    (j: nat) => if j <= |s| then SchemeMatchAt(s, j) else None
  }

  /** The leftmost schemed match, as its start and end. */
  function FirstSchemeMatch(s: string): (m: Option<(nat, nat)>)
    ensures m.Some? ==> m.value.0 <= |s| && SchemeMatchAt(s, m.value.0) == Some(m.value.1)
  {
    FirstHit(SchemeAt(s), 0, |s|)
  }

  /** No schemed match starts before the one found; with none found there is none at all. */
  lemma FirstSchemeMatchIsLeftmost(s: string)
    ensures FirstSchemeMatch(s).Some? ==> forall j :: 0 <= j < FirstSchemeMatch(s).value.0 ==> SchemeMatchAt(s, j).None?
    ensures FirstSchemeMatch(s).None? ==> forall j :: 0 <= j <= |s| ==> SchemeMatchAt(s, j).None?
  {
    FirstHitIsLeftmost(SchemeAt(s), 0, |s|);
    forall j | 0 <= j <= |s|
      ensures SchemeAt(s)(j) == SchemeMatchAt(s, j)
    {
    }
  }

  /** The characters `\w` matches. */
  predicate IsWordChar(c: char) {
    ('a' <= c <= 'z') || ('A' <= c <= 'Z') || ('0' <= c <= '9') || c == '_'
  }

  predicate WordAt(s: string, j: int) {
    0 <= j < |s| && IsWordChar(s[j])
  }

  /** `\b` at position `j`. */
  predicate Boundary(s: string, j: int) {
    WordAt(s, j - 1) != WordAt(s, j)
  }

  /** The largest `j` in `[lo, hi]` where `\b` holds. */
  function LastBoundary(s: string, lo: int, hi: int): (j: Option<int>)
    ensures j.Some? ==> lo <= j.value <= hi && Boundary(s, j.value)
    ensures j.Some? ==> forall k :: j.value < k <= hi ==> !Boundary(s, k)
    ensures j.None? ==> forall k :: lo <= k <= hi ==> !Boundary(s, k)
    decreases hi - lo
  {
    if hi < lo then None
    else if Boundary(s, hi) then Some(hi)
    else LastBoundary(s, lo, hi - 1)
  }

  /** The end of a match of `/\b(www\.[^\s<>()]+)\b/i` that starts at `i`, if there is one. */
  function WwwMatchAt(s: string, i: nat): (e: Option<nat>)
    requires i <= |s|
    ensures e.Some? ==> i + 4 < e.value <= |s|
  {
    var t := s[i..];
    if Boundary(s, i) && StartsWithCI(t, "www.") then
      var runEnd := i + 4 + UrlRun(t[4..]);
      match LastBoundary(s, i + 5, runEnd)
      case Some(j) => Some(j as nat)
      case None => None
    else None
  }

  /** `WwwMatchAt` as a total function of the position. */
  function WwwAt(s: string): nat -> Option<nat> {
    (j: nat) => if j <= |s| then WwwMatchAt(s, j) else None
  }

  /** The leftmost `www.` match, as its start and end. */
  function FirstWwwMatch(s: string): (m: Option<(nat, nat)>)
    ensures m.Some? ==> m.value.0 <= |s| && WwwMatchAt(s, m.value.0) == Some(m.value.1)
  {
    FirstHit(WwwAt(s), 0, |s|)
  }

  /** No `www.` match starts before the one found; with none found there is none at all. */
  lemma FirstWwwMatchIsLeftmost(s: string)
    ensures FirstWwwMatch(s).Some? ==> forall j :: 0 <= j < FirstWwwMatch(s).value.0 ==> WwwMatchAt(s, j).None?
    ensures FirstWwwMatch(s).None? ==> forall j :: 0 <= j <= |s| ==> WwwMatchAt(s, j).None?
  {
    FirstHitIsLeftmost(WwwAt(s), 0, |s|);
    forall j | 0 <= j <= |s|
      ensures WwwAt(s)(j) == WwwMatchAt(s, j)
    {
    }
  }

  /** The trailing punctuation `/[),.;:!?\]'\"»]+$/` removes. */
  predicate TrailingPunct(c: char) {
    c == ')' || c == ',' || c == '.' || c == ';' || c == ':' || c == '!' || c == '?'
    || c == ']' || c == '\'' || c == '"' || c == '\U{00BB}'
  }

  /** `s.replace(/[),.;:!?\]'\"»]+$/g, "")`: the longest prefix not ending in that punctuation. */
  function StripTrailing(s: string): (r: string)
    ensures |r| <= |s| && r == s[..|r|]
    ensures r == [] || !TrailingPunct(r[|r| - 1])
    ensures forall i :: |r| <= i < |s| ==> TrailingPunct(s[i])
  {
    if s != [] && TrailingPunct(s[|s| - 1]) then StripTrailing(s[..|s| - 1]) else s
  }

  /** `extractFirstUrl(text)` on the string it is given */
  function ExtractFirstUrl(s: string): Option<string> {
    match FirstSchemeMatch(s)
    case Some((a, b)) => Some(StripTrailing(s[a..b]))
    case None =>
      match FirstWwwMatch(s)
      case Some((a, b)) => Some(StripTrailing("https://" + s[a..b]))
      case None => None
  }

  /** A URL as the extraction returns it: non-empty, not ending in punctuation and with its scheme. */
  predicate WellFormedUrl(u: string) {
    u != [] && !TrailingPunct(u[|u| - 1]) && (StartsWithCI(u, "http://") || StartsWithCI(u, "https://"))
  }

  /** An extracted URL is never empty, never ends in punctuation and always carries its scheme. */
  lemma ExtractedUrlShape(s: string)
    ensures ExtractFirstUrl(s).Some? ==> WellFormedUrl(ExtractFirstUrl(s).value)
  {
    FirstSchemeMatchIsLeftmost(s);
    FirstWwwMatchIsLeftmost(s);
    match FirstSchemeMatch(s)
    case Some((a, b)) =>
      SchemedStripKeepsScheme(s, a, b);
    case None =>
      match FirstWwwMatch(s)
      case Some((a, b)) =>
        WwwStripKeepsScheme(s, a, b);
        WwwIsHttps(StripTrailing("https://" + s[a..b]));
      case None =>
  }

  lemma WwwIsHttps(u: string)
    requires u != [] && !TrailingPunct(u[|u| - 1]) && StartsWithCI(u, "https://www")
    ensures WellFormedUrl(u)
  {
  }

  /** With no schemed URL in the text, a bare `www.` match is returned behind `https://`. */
  lemma ExtractFallsBackToWww(s: string)
    requires forall i :: 0 <= i <= |s| ==> SchemeMatchAt(s, i).None?
    ensures ExtractFirstUrl(s).Some? <==> exists i :: 0 <= i <= |s| && WwwMatchAt(s, i).Some?
    ensures ExtractFirstUrl(s).Some? ==> StartsWithCI(ExtractFirstUrl(s).value, "https://www")
  {
    FirstSchemeMatchIsLeftmost(s);
    FirstWwwMatchIsLeftmost(s);
    assert FirstSchemeMatch(s).None?;
    match FirstWwwMatch(s)
    case Some((a, b)) =>
      WwwStripKeepsScheme(s, a, b);
    case None =>
  }

  /**
   * A schemed URL anywhere in the text wins over any `www.` match: the result
   * is the leftmost schemed match, stripped of its trailing punctuation.
   */
  lemma ExtractPrefersSchemed(s: string, i: nat)
    requires i <= |s| && SchemeMatchAt(s, i).Some?
    ensures exists a: nat, e: nat ::
      && a <= i && SchemeMatchAt(s, a) == Some(e)
      && (forall j :: 0 <= j < a ==> SchemeMatchAt(s, j).None?)
      && ExtractFirstUrl(s) == Some(StripTrailing(s[a..e]))
  {
    var m := FirstSchemeMatch(s);
    FirstSchemeMatchIsLeftmost(s);
    assert m.Some?;
    var a, e := m.value.0, m.value.1;
    assert ExtractFirstUrl(s) == Some(StripTrailing(s[a..e]));
    assert a <= i;
    assert SchemeMatchAt(s, a) == Some(e);
  }

  /** Stripping trailing punctuation keeps every character up to one that is not punctuation. */
  lemma StripKeepsPrefix(m: string, n: nat)
    requires 0 < n <= |m| && !TrailingPunct(m[n - 1])
    ensures n <= |StripTrailing(m)| && StripTrailing(m)[..n] == m[..n]
  {
    var u := StripTrailing(m);
    assert u == m[..|u|];
  }

  lemma SharedPrefixStartsWith(u: string, m: string, p: string)
    requires |p| <= |u| && |p| <= |m| && u[..|p|] == m[..|p|] && StartsWithCI(m, p)
    ensures StartsWithCI(u, p)
  {
    forall k | 0 <= k < |p|
      ensures LowerChar(u[k]) == p[k]
    {
      assert u[k] == u[..|p|][k] == m[..|p|][k] == m[k];
    }
  }

  lemma SchemedStripKeepsScheme(s: string, a: nat, b: nat)
    requires a <= |s| && SchemeMatchAt(s, a) == Some(b)
    ensures WellFormedUrl(StripTrailing(s[a..b]))
  {
    var m := s[a..b];
    var t := s[a..];
    var p := if StartsWithCI(t, "https://") && 8 < |t| && UrlChar(t[8]) then "https://" else "http://";
    assert StartsWithCI(t, p);
    assert |p| <= |m|;
    assert StartsWithCI(m, p) by {
      forall k | 0 <= k < |p|
        ensures LowerChar(m[k]) == p[k]
      {
        assert m[k] == t[k];
      }
    }
    assert !TrailingPunct(m[|p| - 1]) by {
      assert LowerChar(m[|p| - 1]) == '/';
    }
    StripKeepsPrefix(m, |p|);
    SharedPrefixStartsWith(StripTrailing(m), m, p);
  }

  lemma WwwStripKeepsScheme(s: string, a: nat, b: nat)
    requires a <= |s| && WwwMatchAt(s, a) == Some(b)
    ensures var u := StripTrailing("https://" + s[a..b]);
      u != [] && !TrailingPunct(u[|u| - 1]) && StartsWithCI(u, "https://www")
  {
    var m := "https://" + s[a..b];
    var t := s[a..];
    assert StartsWithCI(t, "www.");
    assert |m| >= 12;
    assert StartsWithCI(m, "https://www") by {
      forall k | 0 <= k < 11
        ensures LowerChar(m[k]) == "https://www"[k]
      {
        if k >= 8 {
          assert m[k] == t[k - 8];
        }
      }
    }
    assert !TrailingPunct(m[10]) by {
      assert LowerChar(m[10]) == 'w';
    }
    StripKeepsPrefix(m, 11);
    SharedPrefixStartsWith(StripTrailing(m), m, "https://www");
  }

  // ----------------------------------------------------- parseYoutubeVideoId

  /** `pathname.split("/").filter(Boolean)` */
  function PathSegments(pathname: string): (parts: seq<string>)
    ensures forall i :: 0 <= i < |parts| ==> parts[i] != "" && '/' !in parts[i]
  {
    var raw := Split(pathname, '/');
    NonEmpty(raw)
  }

  /** `searchParams.get(name)`: the first value under `name`. */
  function QueryGet(query: seq<(string, string)>, name: string): (r: Option<string>)
    ensures r.Some? ==> exists i :: 0 <= i < |query| && query[i] == (name, r.value)
  {
    if query == [] then None
    else if query[0].0 == name then Some(query[0].1)
    else QueryGet(query[1..], name)
  }

  /** `parseYoutubeVideoId(urlString)` */
  function ParseYoutubeVideoId(urlString: string, parse: UrlParser): (r: Option<string>)
    ensures r.Some? ==> r.value != ""
    ensures parse(urlString).None? ==> r.None?
    ensures parse(urlString).Some? && Lower(parse(urlString).value.hostname) == "youtu.be" ==>
      var parts := PathSegments(parse(urlString).value.pathname);
      r == (if parts == [] then None else Some(parts[0]))
    ensures r.Some? ==> var host := Lower(parse(urlString).value.hostname);
      host == "youtu.be" || EndsWith(host, "youtube.com")
    ensures (&& parse(urlString).Some? && EndsWith(Lower(parse(urlString).value.hostname), "youtube.com")
             && parse(urlString).value.pathname == "/watch") ==>
        r == (match QueryGet(parse(urlString).value.query, "v")
              case Some(id) => if id != "" then Some(id) else None
              case None => None)
    ensures (&& parse(urlString).Some? && EndsWith(Lower(parse(urlString).value.hostname), "youtube.com")
             && parse(urlString).value.pathname != "/watch") ==>
        var parts := PathSegments(parse(urlString).value.pathname);
        r == (if |parts| >= 2 && parts[0] in ["shorts", "live", "embed"] then Some(parts[1]) else None)
  {
    match parse(urlString)
    case None => None
    case Some(u) =>
      var host := Lower(u.hostname);
      if host == "youtu.be" then
        var parts := PathSegments(u.pathname);
        if parts == [] then None else Some(parts[0])
      else if EndsWith(host, "youtube.com") then
        if u.pathname == "/watch" then
          match QueryGet(u.query, "v")
          case Some(id) => if id != "" then Some(id) else None
          case None => None
        else
          var parts := PathSegments(u.pathname);
          if |parts| >= 2 && (parts[0] == "shorts" || parts[0] == "live" || parts[0] == "embed")
          then Some(parts[1])
          else None
      else None
  }

  // -------------------------------------------------------- isWhitelistedUrl

  /** `whitelistHosts.map((h) => String(h).toLowerCase())` */
  function LowerHosts(hosts: seq<Value>): (r: seq<string>)
    ensures |r| == |hosts| && forall i :: 0 <= i < |hosts| ==> r[i] == Lower(ToStr(hosts[i]))
  {
    seq(|hosts|, i requires 0 <= i < |hosts| => Lower(ToStr(hosts[i])))
  }

  /** `isWhitelistedUrl(urlString, whitelistHosts)` */
  function IsWhitelistedUrl(urlString: string, whitelist: Value, parse: UrlParser): (r: bool)
    ensures r <==> (&& urlString != "" && parse(urlString).Some? && whitelist.Arr?
                    && exists h :: h in whitelist.items && Lower(ToStr(h)) == Lower(parse(urlString).value.hostname))
  {
    if urlString == "" then false
    else match parse(urlString)
      case None => false
      case Some(u) =>
        // a truthy non-array whitelist makes `.map` throw, which is caught: false
        if !whitelist.Arr? then false
        else
          var hosts := LowerHosts(whitelist.items);
          var found := Lower(u.hostname) in hosts;
          assert found ==> exists h :: h in whitelist.items && Lower(ToStr(h)) == Lower(u.hostname) by {
            if found {
              var i :| 0 <= i < |hosts| && hosts[i] == Lower(u.hostname);
              assert whitelist.items[i] in whitelist.items;
            }
          }
          assert (exists h :: h in whitelist.items && Lower(ToStr(h)) == Lower(u.hostname)) ==> found by {
            if exists h :: h in whitelist.items && Lower(ToStr(h)) == Lower(u.hostname) {
              var h :| h in whitelist.items && Lower(ToStr(h)) == Lower(u.hostname);
              var i :| 0 <= i < |whitelist.items| && whitelist.items[i] == h;
              assert hosts[i] == Lower(u.hostname);
            }
          }
          found
  }
}
