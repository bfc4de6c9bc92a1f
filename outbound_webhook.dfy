/**
 * The outgoing JSON webhook of `src/actions/outboundWebhook.js`: header
 * clean-up, the host allow-list and the guards of `postJson` in front of the
 * HTTP request. URL parsing and `fetch` (with its abort timer) are passed in;
 * `JSON.stringify` is not modelled, the request carries the body value.
 */
module OutboundWebhook {
  import opened Opt
  import opened Text
  import opened Js
  import opened Utils

  // ------------------------------------------------------- normalizeHeaders

  /**
   * A header entry the loop writes: its trimmed name is non-empty and its value is neither
   * null nor undefined, and the name is not `__proto__`, whose assignment on a plain `{}`
   * reaches the inherited prototype setter, which ignores a string.
   */
  predicate Kept(e: (string, Value)) {
    Trim(e.0) != "" && !Nullish(e.1) && Trim(e.0) != "__proto__"
  }

  /** The header the loop writes for a kept entry: the trimmed name and `String(v)`. */
  function HeaderName(e: (string, Value)): string {
    Trim(e.0)
  }

  /** The object the `normalizeHeaders` loop has built after the given entries. */
  function HeadersOf(entries: seq<(string, Value)>): seq<(string, Value)>
    decreases |entries|
  {
    if entries == [] then []
    else
      var n := |entries| - 1;
      var out := HeadersOf(entries[..n]);
      if Kept(entries[n]) then SetProp(out, HeaderName(entries[n]), Str(ToStr(entries[n].1))) else out
  }

  /** A non-empty name with no white space at either end, which trimming leaves as it is. */
  predicate CleanName(name: string) {
    name != "" && !IsSpace(name[0]) && !IsSpace(name[|name| - 1])
  }

  lemma CleanNameTrimmed(name: string)
    requires CleanName(name)
    ensures Trim(name) == name
  {
    TrimOfTrimmed(name);
  }

  /** Every pair of a header object has a clean name and a string value, and no name appears twice. */
  predicate CleanHeaders(props: seq<(string, Value)>) {
    && (forall i :: 0 <= i < |props| ==> CleanName(props[i].0) && props[i].1.Str?)
    && (forall i, j :: 0 <= i < j < |props| ==> props[i].0 != props[j].0)
  }

  /** The position of the first pair named `key`, or the length when there is none. */
  function KeyIndex(props: seq<(string, Value)>, key: string): (k: nat)
    ensures k <= |props|
  {
    if props == [] then 0
    else if props[0].0 == key then 0
    else 1 + KeyIndex(props[1..], key)
  }

  /** `KeyIndex` finds the first pair with the name. */
  lemma {:induction false} KeyIndexIsFirst(props: seq<(string, Value)>, key: string)
    ensures forall i :: 0 <= i < KeyIndex(props, key) ==> props[i].0 != key
    ensures KeyIndex(props, key) < |props| ==> props[KeyIndex(props, key)].0 == key
    decreases |props|
  {
    if props != [] && props[0].0 != key {
      KeyIndexIsFirst(props[1..], key);
      assert forall i :: 1 <= i < |props| ==> props[i] == props[1..][i - 1];
    }
  }

  /** Setting a property with a new name appends a pair. */
  lemma {:induction false} SetPropAppends(props: seq<(string, Value)>, key: string, val: Value)
    requires KeyIndex(props, key) == |props|
    ensures SetProp(props, key, val) == props + [(key, val)]
    decreases |props|
  {
    if props != [] {
      var t := props[1..];
      SetPropAppends(t, key, val);
      ConsAppend(props[0], t, (key, val));
      ConsSplit(props);
    }
  }

  /** Setting a property with a name already present replaces its first pair. */
  lemma {:induction false} SetPropReplaces(props: seq<(string, Value)>, key: string, val: Value)
    requires KeyIndex(props, key) < |props|
    ensures SetProp(props, key, val) == props[KeyIndex(props, key) := (key, val)]
    decreases |props|
  {
    if props[0].0 != key {
      var t := props[1..];
      SetPropReplaces(t, key, val);
      ConsUpdate(props[0], t, KeyIndex(t, key), (key, val));
      ConsSplit(props);
    }
  }

  lemma ConsAppend<T>(x: T, t: seq<T>, y: T)
    ensures [x] + (t + [y]) == ([x] + t) + [y]
  {
  }

  lemma ConsSplit<T>(s: seq<T>)
    requires s != []
    ensures s == [s[0]] + s[1..]
  {
  }

  lemma ConsUpdate<T>(x: T, t: seq<T>, k: nat, y: T)
    requires k < |t|
    ensures [x] + t[k := y] == ([x] + t)[k + 1 := y]
  {
  }

  /** Setting a clean name to a string value keeps a header object clean. */
  lemma CleanAfterSet(props: seq<(string, Value)>, key: string, s: string)
    requires CleanHeaders(props) && CleanName(key)
    ensures CleanHeaders(SetProp(props, key, Str(s)))
  {
    var k := KeyIndex(props, key);
    KeyIndexIsFirst(props, key);
    if k == |props| {
      SetPropAppends(props, key, Str(s));
      CleanAppend(props, key, s);
    } else {
      SetPropReplaces(props, key, Str(s));
      CleanUpdate(props, k, s);
    }
  }

  lemma CleanAppend(props: seq<(string, Value)>, key: string, s: string)
    requires CleanHeaders(props) && CleanName(key)
    requires forall i :: 0 <= i < |props| ==> props[i].0 != key
    ensures CleanHeaders(props + [(key, Str(s))])
  {
    var r := props + [(key, Str(s))];
    assert forall i :: 0 <= i < |props| ==> r[i] == props[i];
  }

  lemma CleanUpdate(props: seq<(string, Value)>, k: nat, s: string)
    requires CleanHeaders(props) && k < |props|
    ensures CleanHeaders(props[k := (props[k].0, Str(s))])
  {
  }

  /** The headers object only ever holds clean pairs. */
  lemma {:induction false} HeadersAreClean(entries: seq<(string, Value)>)
    ensures CleanHeaders(HeadersOf(entries))
    decreases |entries|
  {
    if entries != [] {
      var n := |entries| - 1;
      HeadersAreClean(entries[..n]);
      if Kept(entries[n]) {
        var key := HeaderName(entries[n]);
        CleanAfterSet(HeadersOf(entries[..n]), key, ToStr(entries[n].1));
      }
    }
  }

  /** A last entry that does not set `key` leaves that header as the earlier entries made it. */
  lemma StepKeeps(entries: seq<(string, Value)>, key: string)
    requires entries != []
    requires var e := entries[|entries| - 1]; !(Kept(e) && HeaderName(e) == key)
    ensures Lookup(HeadersOf(entries), key) == Lookup(HeadersOf(entries[..|entries| - 1]), key)
  {
    var e := entries[|entries| - 1];
    if Kept(e) {
      SetPropOther(HeadersOf(entries[..|entries| - 1]), HeaderName(e), Str(ToStr(e.1)), key);
    }
  }

  lemma SetPropOther(props: seq<(string, Value)>, name: string, val: Value, key: string)
    requires name != key
    ensures Lookup(SetProp(props, name, val), key) == Lookup(props, key)
  {
  }

  /** The last kept entry under a name decides that header's value. */
  lemma {:induction false} LastKeptWins(entries: seq<(string, Value)>, key: string, j: nat)
    requires j < |entries| && Kept(entries[j]) && HeaderName(entries[j]) == key
    requires forall k :: j < k < |entries| ==> !(Kept(entries[k]) && HeaderName(entries[k]) == key)
    ensures Lookup(HeadersOf(entries), key) == Str(ToStr(entries[j].1))
    decreases |entries|
  {
    var n := |entries| - 1;
    var before := entries[..n];
    if j < n {
      forall k | j < k < |before|
        ensures !(Kept(before[k]) && HeaderName(before[k]) == key)
      {
        assert before[k] == entries[k];
      }
      assert before[j] == entries[j];
      LastKeptWins(before, key, j);
      StepKeeps(entries, key);
    } else {
      StepSets(entries);
    }
  }

  /** A kept last entry sets its header. */
  lemma StepSets(entries: seq<(string, Value)>)
    requires entries != [] && Kept(entries[|entries| - 1])
    ensures var e := entries[|entries| - 1]; Lookup(HeadersOf(entries), HeaderName(e)) == Str(ToStr(e.1))
  {
  }

  /** A name no kept entry trims to is absent: in particular the empty name and names whose every value was null or undefined. */
  lemma {:induction false} UnkeptIsAbsent(entries: seq<(string, Value)>, key: string)
    requires forall k :: 0 <= k < |entries| ==> !(Kept(entries[k]) && HeaderName(entries[k]) == key)
    ensures Lookup(HeadersOf(entries), key) == Undefined
    decreases |entries|
  {
    if entries != [] {
      var n := |entries| - 1;
      var before := entries[..n];
      forall k | 0 <= k < |before|
        ensures !(Kept(before[k]) && HeaderName(before[k]) == key)
      {
        assert before[k] == entries[k];
      }
      UnkeptIsAbsent(before, key);
      StepKeeps(entries, key);
    }
  }

  /** No header ever has an empty name. */
  lemma EmptyNameNeverSet(entries: seq<(string, Value)>)
    ensures Lookup(HeadersOf(entries), "") == Undefined
  {
    UnkeptIsAbsent(entries, "");
  }

  /** One pass of the `normalizeHeaders` loop. */
  lemma HeadersStep(entries: seq<(string, Value)>, i: nat)
    requires i < |entries|
    ensures HeadersOf(entries[..i + 1]) == (if Kept(entries[i])
      then SetProp(HeadersOf(entries[..i]), HeaderName(entries[i]), Str(ToStr(entries[i].1)))
      else HeadersOf(entries[..i]))
  {
    assert entries[..i + 1][..i] == entries[..i];
  }

  /** No header is ever named `__proto__`: assigning that name sets no own property. */
  lemma ProtoNameNeverSet(entries: seq<(string, Value)>)
    ensures Lookup(HeadersOf(entries), "__proto__") == Undefined
  {
    UnkeptIsAbsent(entries, "__proto__");
  }

  /** `normalizeHeaders(headers)` */
  method NormalizeHeaders(headers: Value) returns (out: seq<(string, Value)>)
    ensures out == HeadersOf(Entries(headers))
    ensures !IsObject(headers) ==> out == []
  {
    out := [];
    if !IsObject(headers) {
      return;
    }
    var entries := Entries(headers);
    var i := 0;
    while i < |entries|
      invariant 0 <= i <= |entries|
      invariant out == HeadersOf(entries[..i])
    {
      var (k, v) := entries[i];
      HeadersStep(entries, i);
      var key := Trim(k);
      if key != "" && !Nullish(v) {
        // `out[key] = String(v)`: the `__proto__` setter ignores the string
        if key != "__proto__" {
          out := SetProp(out, key, Str(ToStr(v)));
        }
      }
      i := i + 1;
    }
    assert entries[..i] == entries;
  }

  // ----------------------------------------------------------- isHostAllowed

  /** `String(h || "").trim().toLowerCase()` */
  function HostEntry(h: Value): string {
    Lower(Trim(ToStrOrEmpty(h)))
  }

  /** The allow-list: the non-empty normalised entries of an array, or nothing. */
  function AllowList(allowHosts: Value): seq<string> {
    if allowHosts.Arr? then NonEmpty(seq(|allowHosts.items|, i requires 0 <= i < |allowHosts.items| => HostEntry(allowHosts.items[i])))
    else []
  }

  /** `isHostAllowed(urlString, allowHosts)`: an unparsable URL throws inside the `try` and is refused. */
  function IsHostAllowed(urlString: string, allowHosts: Value, parse: UrlParser): (r: bool)
    ensures r ==> parse(urlString).Some?
    ensures r <==> parse(urlString).Some? && ("*" in AllowList(allowHosts) || Lower(parse(urlString).value.hostname) in AllowList(allowHosts))
  {
    match parse(urlString)
    case None => false
    case Some(u) =>
      var host := Lower(u.hostname);
      var list := AllowList(allowHosts);
      if "*" in list then true else host in list
  }

  /** A name is on the allow-list exactly when some entry of the array normalises to it and it is not empty. */
  lemma AllowListMembers(allowHosts: Value, name: string)
    ensures name in AllowList(allowHosts) <==>
      allowHosts.Arr? && name != "" && exists i :: 0 <= i < |allowHosts.items| && HostEntry(allowHosts.items[i]) == name
  {
    if allowHosts.Arr? {
      var mapped := seq(|allowHosts.items|, i requires 0 <= i < |allowHosts.items| => HostEntry(allowHosts.items[i]));
      if name != "" && exists i :: 0 <= i < |allowHosts.items| && HostEntry(allowHosts.items[i]) == name {
        var i :| 0 <= i < |allowHosts.items| && HostEntry(allowHosts.items[i]) == name;
        assert mapped[i] == name;
      }
      if name in AllowList(allowHosts) {
        assert name in mapped;
        var i :| 0 <= i < |mapped| && mapped[i] == name;
        assert HostEntry(allowHosts.items[i]) == name;
      }
    }
  }

  /** A wildcard entry (after trimming) lets every parsable URL through. */
  lemma WildcardAllowsAll(urlString: string, allowHosts: Value, parse: UrlParser, i: nat)
    requires allowHosts.Arr? && i < |allowHosts.items| && HostEntry(allowHosts.items[i]) == "*"
    ensures IsHostAllowed(urlString, allowHosts, parse) <==> parse(urlString).Some?
  {
    AllowListMembers(allowHosts, "*");
  }

  /** Without a wildcard, the host must equal one normalised entry exactly (a suffix or a sub-domain is not enough). */
  lemma HostMustMatchEntry(urlString: string, allowHosts: Value, parse: UrlParser)
    requires "*" !in AllowList(allowHosts)
    ensures IsHostAllowed(urlString, allowHosts, parse) <==>
      && parse(urlString).Some? && allowHosts.Arr? && Lower(parse(urlString).value.hostname) != ""
      && exists i :: 0 <= i < |allowHosts.items| && HostEntry(allowHosts.items[i]) == Lower(parse(urlString).value.hostname)
  {
    if parse(urlString).Some? {
      AllowListMembers(allowHosts, Lower(parse(urlString).value.hostname));
    }
  }

  /** An allow-list that is not an array refuses everything. */
  lemma NonArrayRefuses(urlString: string, allowHosts: Value, parse: UrlParser)
    requires !allowHosts.Arr?
    ensures !IsHostAllowed(urlString, allowHosts, parse)
  {
  }

  // ---------------------------------------------------------------- postJson

  /** The request handed to `fetch`; the body is the value `JSON.stringify` would serialise. */
  datatype Request = Request(url: string, headers: seq<(string, Value)>, body: Value, timeoutMs: real)

  /** What `fetch` and `resp.text()` (with its failure read as `""`) produce, or the message of what they threw. */
  datatype Fetched = Got(ok: bool, status: int, text: string) | Threw(message: string)

  /** `fetch` behind its abort timer. */
  type Fetcher = Request -> Fetched

  /** `{ok:false, reason}` or `{ok, status, body}`. */
  datatype PostResult = Refused(reason: string) | Responded(ok: bool, status: int, body: string)

  /** The longest response body returned. */
  const MaxBody: nat := 1000

  /** `Math.max(500, Number(timeoutMs) || 3000)` */
  function TimeoutOf(timeoutMs: Value): (r: real)
    ensures r >= 500.0
  {
    var n := NumberOrZero(timeoutMs);
    var t := if n == 0.0 then 3000.0 else n;
    if t < 500.0 then 500.0 else t
  }

  /** A missing, zero or non-numeric timeout is three seconds. */
  lemma DefaultTimeout(timeoutMs: Value)
    requires ToNumber(timeoutMs).None? || ToNumber(timeoutMs) == Some(0.0)
    ensures TimeoutOf(timeoutMs) == 3000.0
  {
  }

  /** A numeric timeout is honoured, but never below half a second. */
  lemma GivenTimeout(timeoutMs: Value, n: real)
    requires ToNumber(timeoutMs) == Some(n) && n != 0.0
    ensures TimeoutOf(timeoutMs) == if n < 500.0 then 500.0 else n
  {
  }

  /** `String(url || "").trim()` */
  function Target(url: Value): string {
    Trim(ToStrOrEmpty(url))
  }

  /** `{"content-type": "application/json", ...normalizeHeaders(headers)}` */
  function RequestHeaders(headers: Value): seq<(string, Value)> {
    Assign([("content-type", Str("application/json"))], HeadersOf(Entries(headers)))
  }

  /** On a header object with distinct names, the last pair under a name is the first. */
  lemma {:induction false} DistinctLastIsFirst(props: seq<(string, Value)>, key: string)
    requires forall i, j :: 0 <= i < j < |props| ==> props[i].0 != props[j].0
    ensures LastValue(props, key) == Lookup(props, key)
    ensures HasKey(props, key) <==> exists i :: 0 <= i < |props| && props[i].0 == key
    decreases |props|
  {
    if props != [] {
      var tail := props[1..];
      assert forall i, j :: 0 <= i < j < |tail| ==> tail[i].0 != tail[j].0 by {
        forall i, j | 0 <= i < j < |tail| ensures tail[i].0 != tail[j].0 {
          assert tail[i] == props[i + 1] && tail[j] == props[j + 1];
        }
      }
      DistinctLastIsFirst(tail, key);
      if !HasKey(tail, key) {
        assert forall i :: 0 <= i < |tail| ==> tail[i].0 != key;
      }
    }
  }

  /** The caller's headers win over the default content type; a content type left unset stays JSON. */
  lemma RequestHeaderLookup(headers: Value, key: string)
    ensures var own := Lookup(HeadersOf(Entries(headers)), key);
      Lookup(RequestHeaders(headers), key) ==
        if own != Undefined then own else if key == "content-type" then Str("application/json") else Undefined
  {
    var own := HeadersOf(Entries(headers));
    HeadersAreClean(Entries(headers));
    AssignLookup([("content-type", Str("application/json"))], own, key);
    DistinctLastIsFirst(own, key);
    if HasKey(own, key) {
      var i :| 0 <= i < |own| && own[i].0 == key;
      if Lookup(own, key) == Undefined {
        LookupFindsKey(own, key, i);
      }
    }
  }

  /** A present key never looks up as undefined when no value is undefined. */
  lemma {:induction false} LookupFindsKey(props: seq<(string, Value)>, key: string, i: nat)
    requires i < |props| && props[i].0 == key
    requires forall j :: 0 <= j < |props| ==> props[j].1 != Undefined
    ensures Lookup(props, key) != Undefined
    decreases |props|
  {
    if props[0].0 != key {
      assert forall j :: 0 <= j < |props[1..]| ==> props[1..][j].1 != Undefined by {
        forall j | 0 <= j < |props[1..]| ensures props[1..][j].1 != Undefined {
          assert props[1..][j] == props[j + 1];
        }
      }
      LookupFindsKey(props[1..], key, i - 1);
    }
  }

  /** The request `postJson` sends, once its guards have passed. */
  function RequestOf(target: string, body: Value, headers: Value, timeoutMs: Value): Request {
    Request(target, RequestHeaders(headers), Or(body, Obj([])), TimeoutOf(timeoutMs))
  }

  /** What `postJson` makes of what `fetch` produced. */
  function Answer(f: Fetched): (r: PostResult)
    ensures r.Responded? <==> f.Got?
    ensures r.Responded? ==> f.Got? && |r.body| <= MaxBody && |r.body| <= |f.text| && r.body == f.text[..|r.body|]
    ensures r.Responded? && |f.text| <= MaxBody ==> r.body == f.text
    ensures r.Responded? ==> r.ok == f.ok && r.status == f.status
    ensures f.Threw? ==> r == Refused(f.message)
  {
    match f
    case Got(ok, status, text) => Responded(ok, status, Prefix(text, MaxBody))
    case Threw(message) => Refused(message)
  }

  /** `postJson({url, body, headers, timeoutMs, allowHosts})` */
  function PostJson(url: Value, body: Value, headers: Value, timeoutMs: Value, allowHosts: Value,
                    parse: UrlParser, fetch: Fetcher): (r: PostResult)
    ensures Target(url) == "" ==> r == Refused("missing_url")
    ensures Target(url) != "" && !IsHostAllowed(Target(url), allowHosts, parse) ==> r == Refused("host_not_allowed")
    ensures Target(url) != "" && IsHostAllowed(Target(url), allowHosts, parse) ==>
      r == Answer(fetch(RequestOf(Target(url), body, headers, timeoutMs)))
  {
    var target := Target(url);
    if target == "" then Refused("missing_url")
    else if !IsHostAllowed(target, allowHosts, parse) then Refused("host_not_allowed")
    else Answer(fetch(RequestOf(target, body, headers, timeoutMs)))
  }

  /** The guards decide before any request: a refused call gives the same answer whatever the network does. */
  lemma GuardsPrecedeFetch(url: Value, body: Value, headers: Value, timeoutMs: Value, allowHosts: Value,
                           parse: UrlParser, f1: Fetcher, f2: Fetcher)
    requires Target(url) == "" || !IsHostAllowed(Target(url), allowHosts, parse)
    ensures PostJson(url, body, headers, timeoutMs, allowHosts, parse, f1) == PostJson(url, body, headers, timeoutMs, allowHosts, parse, f2)
    ensures PostJson(url, body, headers, timeoutMs, allowHosts, parse, f1).Refused?
  {
  }

  /** Only an allowed, non-empty target is ever fetched, and it is fetched trimmed. */
  lemma FetchedTargetAllowed(url: Value, body: Value, headers: Value, timeoutMs: Value, allowHosts: Value,
                             parse: UrlParser, fetch: Fetcher)
    requires PostJson(url, body, headers, timeoutMs, allowHosts, parse, fetch).Responded?
    ensures var t := Target(url); t != "" && Trim(t) == t && IsHostAllowed(t, allowHosts, parse)
    ensures |PostJson(url, body, headers, timeoutMs, allowHosts, parse, fetch).body| <= MaxBody
  {
    TrimOfTrimmed(Target(url));
  }
}
