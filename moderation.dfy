/** The moderation store: blocked senders and blocked keywords, each a list of normalised entries. */
module Moderation {
  import opened Opt
  import opened Text
  import opened Js
  import opened Seqs

  /** `{value, label, reason, at}`; `labelText` is `label`, a reserved word here. */
  datatype Entry = Entry(value: string, labelText: string, reason: string, at: real)

  /** `{ok: true, entry}` (or `{ok: true}` for an unblock), or `{ok: false, reason}`. */
  datatype Outcome = Ok(entry: Option<Entry>) | Fail(reason: string)

  /** `String(v || "").trim()`: a label. */
  function CleanLabel(v: Value): (r: string)
    ensures r == [] || (!IsSpace(r[0]) && !IsSpace(r[|r| - 1]))
    ensures !Truthy(v) ==> r == ""
  {
    Trim(ToStrOrEmpty(v))
  }

  /** The store's `normalizeText`: trimmed and lower-cased, `""` for a falsy input. */
  function NormalizeText(v: Value): (r: string)
    ensures IsLower(r)
    ensures r == [] || (!IsSpace(r[0]) && !IsSpace(r[|r| - 1]))
    ensures !Truthy(v) ==> r == ""
  {
    Lower(CleanLabel(v))
  }

  /** A normalised value normalises to itself. */
  lemma NormalizeTextIdempotent(v: Value)
    ensures NormalizeText(Str(NormalizeText(v))) == NormalizeText(v)
  {
    var s := NormalizeText(v);
    if s != "" {
      TrimOfTrimmed(s);
      LowerOfLower(s);
    }
  }

  /** `cleanReason`: the trimmed reason, cut to 300 characters. */
  function CleanReason(v: Value): (r: string)
    ensures |r| <= 300 && |r| <= |CleanLabel(v)|
    ensures r == CleanLabel(v)[..|r|]
    ensures |CleanLabel(v)| <= 300 ==> r == CleanLabel(v)
  {
    Prefix(CleanLabel(v), 300)
  }

  /** What makes a list a store list: non-empty values, each value once. */
  ghost predicate Normalized(list: seq<Entry>) {
    && (forall i :: 0 <= i < |list| ==> list[i].value != "")
    && (forall i, j :: 0 <= i < j < |list| ==> list[i].value != list[j].value)
  }

  predicate HasValue(list: seq<Entry>, value: string) {
    exists i :: 0 <= i < |list| && list[i].value == value
  }

  // ------------------------------------------------------- loading lists

  /** `item[field] ?? item.value ?? item.label` */
  function RawValue(item: Value, field: string): Value {
    Coalesce(Coalesce(Get(item, field), Get(item, "value")), Get(item, "label"))
  }

  /** The normalised value of a list item; `""` for a falsy or non-object item, which is skipped. */
  function ItemValue(item: Value, field: string): string {
    if Truthy(item) && IsObject(item) then NormalizeText(RawValue(item, field)) else ""
  }

  /** The entry a surviving item becomes; `Number(item.at) || now`. */
  function ItemEntry(item: Value, field: string, now: int): (e: Entry)
    ensures e.value == ItemValue(item, field) || !(Truthy(item) && IsObject(item))
    ensures |e.reason| <= 300
  {
    var raw := RawValue(item, field);
    var value := NormalizeText(raw);
    var at := NumberOrZero(Get(item, "at"));
    Entry(value, CleanLabel(Or(Or(Get(item, "label"), raw), Str(value))), CleanReason(Get(item, "reason")),
          if at != 0.0 then at else now as real)
  }

  function ItemKey(field: string): Value -> string {
    item => ItemValue(item, field)
  }

  function ItemMaker(field: string, now: int): Value -> Entry {
    item => ItemEntry(item, field, now)
  }

  function EntryValue(e: Entry): string {
    e.value
  }

  /**
   * The specification of `_normalizeList`: for an array, the entries of the items that are the
   * first with their non-empty value, in item order; nothing for anything else.
   */
  function NormalizedList(list: Value, field: string, now: int): seq<Entry> {
    if list.Arr? then FirstOfEachKey(list.items, ItemKey(field), "", ItemMaker(field, now)) else []
  }

  /** What `_normalizeList` keeps is a store list: values non-empty and unique. */
  lemma NormalizedListIsNormalized(list: Value, field: string, now: int)
    ensures Normalized(NormalizedList(list, field, now))
  {
    if list.Arr? {
      var items := list.items;
      forall k | 0 <= k < |items| && ItemKey(field)(items[k]) != ""
        ensures EntryValue(ItemMaker(field, now)(items[k])) == ItemKey(field)(items[k])
      {
        assert Truthy(items[k]) && IsObject(items[k]);
      }
      FirstOfEachKeyDistinct(items, ItemKey(field), "", ItemMaker(field, now), EntryValue);
    }
  }

  // ------------------------------------------------------------ the store

  /**
   * `blockSender`/`blockKeyword` on one list, given the normalised value, the cleaned label and
   * the cleaned reason: the outcome and the new list.
   */
  function Blocking(list: seq<Entry>, value: string, shown: string, reasonText: string, now: int, missing: string)
    : (r: (Outcome, seq<Entry>))
    ensures value == "" ==> r == (Fail(missing), list)
    ensures value != "" && HasValue(list, value) ==> r == (Fail("already_blocked"), list)
    ensures value != "" && !HasValue(list, value) ==>
      var e := Entry(value, if shown != "" then shown else value, reasonText, now as real);
      r == (Ok(Some(e)), list + [e])
  {
    if value == "" then (Fail(missing), list)
    else if HasValue(list, value) then (Fail("already_blocked"), list)
    else
      var e := Entry(value, if shown != "" then shown else value, reasonText, now as real);
      (Ok(Some(e)), list + [e])
  }

  /** Blocking keeps a store list normalised; only a success changes the list, by one entry. */
  lemma BlockingKeepsNormalized(list: seq<Entry>, value: string, shown: string, reasonText: string, now: int, missing: string)
    requires Normalized(list)
    ensures Normalized(Blocking(list, value, shown, reasonText, now, missing).1)
    ensures Blocking(list, value, shown, reasonText, now, missing).0.Ok? <==>
      |Blocking(list, value, shown, reasonText, now, missing).1| == |list| + 1
    ensures Blocking(list, value, shown, reasonText, now, missing).0.Fail? ==>
      Blocking(list, value, shown, reasonText, now, missing).1 == list
  {
  }

  /** `list.filter((x) => x.value !== value)` */
  function Without(list: seq<Entry>, value: string): (r: seq<Entry>)
    ensures forall e :: e in r <==> e in list && e.value != value
    ensures |r| <= |list|
    ensures |r| == |list| <==> !HasValue(list, value)
    decreases |list|
  {
    if list == [] then []
    else
      var rest := Without(list[1..], value);
      assert forall i :: 1 <= i < |list| ==> list[i] == list[1..][i - 1];
      if list[0].value == value then rest else [list[0]] + rest
  }

  /** The filter keeps what is left in list order: filtering a concatenation filters each part. */
  lemma {:induction false} WithoutAppend(a: seq<Entry>, b: seq<Entry>, value: string)
    ensures Without(a + b, value) == Without(a, value) + Without(b, value)
    decreases |a|
  {
    if a == [] {
      assert a + b == b;
    } else {
      var ab := a + b;
      assert ab[0] == a[0] && ab[1..] == a[1..] + b;
      WithoutAppend(a[1..], b, value);
      var rest := Without(a[1..], value);
      if a[0].value == value {
        assert Without(ab, value) == Without(ab[1..], value);
        assert Without(a, value) == rest;
      } else {
        assert Without(ab, value) == [a[0]] + Without(ab[1..], value);
        assert Without(a, value) == [a[0]] + rest;
      }
    }
  }

  /** A single entry stays exactly when its value differs. */
  lemma WithoutOne(e: Entry, value: string)
    ensures Without([e], value) == (if e.value == value then [] else [e])
  {
    assert [e][1..] == [];
  }

  /** Removing entries keeps a list normalised. */
  lemma {:induction false} WithoutKeepsNormalized(list: seq<Entry>, value: string)
    requires Normalized(list)
    ensures Normalized(Without(list, value))
    decreases |list|
  {
    if list != [] {
      assert Normalized(list[1..]) by {
        assert forall i :: 0 <= i < |list| - 1 ==> list[1..][i] == list[i + 1];
      }
      WithoutKeepsNormalized(list[1..], value);
      var rest := Without(list[1..], value);
      if list[0].value != value {
        forall i | 0 <= i < |rest|
          ensures rest[i].value != list[0].value
        {
          assert rest[i] in list[1..];
        }
      }
    }
  }

  /** `unblockSender`/`unblockKeyword` on one list, given the normalised value: the outcome and the new list. */
  function Unblocking(list: seq<Entry>, value: string, missing: string): (r: (Outcome, seq<Entry>))
    ensures value == "" ==> r == (Fail(missing), list)
    ensures value != "" && !HasValue(list, value) ==> r == (Fail("not_found"), list)
    ensures value != "" && HasValue(list, value) ==>
      r.0 == Ok(None) && r.1 == Without(list, value) && (forall e :: e in r.1 <==> e in list && e.value != value)
  {
    if value == "" then (Fail(missing), list)
    else
      var kept := Without(list, value);
      if |kept| == |list| then (Fail("not_found"), list) else (Ok(None), kept)
  }

  class Store {
    /** `state.blockedSenders` and `state.blockedKeywords` */
    var senders: seq<Entry>
    var keywords: seq<Entry>

    ghost predicate Valid()
      reads this
    {
      Normalized(senders) && Normalized(keywords)
    }

    /** A store without a file, or before its file is read. */
    constructor()
      ensures Valid()
      ensures senders == [] && keywords == []
    {
      senders := [];
      keywords := [];
    }

    /** `_loadFromDisk` given the parsed document; `None` when the file is missing, blank or not JSON. */
    method Load(doc: Option<Value>, now: int)
      modifies this
      ensures Valid()
      ensures doc.None? ==> senders == [] && keywords == []
      ensures doc.Some? ==> senders == NormalizedList(Get(doc.value, "blockedSenders"), "sender", now)
      ensures doc.Some? ==> keywords == NormalizedList(Get(doc.value, "blockedKeywords"), "keyword", now)
    {
      if doc.None? {
        senders, keywords := [], [];
      } else {
        senders := NormalizeList(Get(doc.value, "blockedSenders"), "sender", now);
        keywords := NormalizeList(Get(doc.value, "blockedKeywords"), "keyword", now);
        NormalizedListIsNormalized(Get(doc.value, "blockedSenders"), "sender", now);
        NormalizedListIsNormalized(Get(doc.value, "blockedKeywords"), "keyword", now);
      }
    }

    /** `snapshot()`: the lists are values here, so the caller's copy never aliases the store. */
    function Snapshot(): (seq<Entry>, seq<Entry>)
      reads this
    {
      (senders, keywords)
    }

    /** `isSenderBlocked(sender)`: the first entry with the normalised sender as value. */
    function IsSenderBlocked(sender: Value): (r: Option<Entry>)
      reads this
      ensures r.Some? <==> NormalizeText(sender) != "" && HasValue(senders, NormalizeText(sender))
      ensures r.Some? ==> r.value in senders && r.value.value == NormalizeText(sender)
    {
      var key := NormalizeText(sender);
      if key == "" then None else FindValue(senders, key)
    }

    /** `findBlockedKeyword(message)`: the first keyword entry contained in the normalised message. */
    method FindBlockedKeyword(message: Value) returns (r: Option<Entry>)
      ensures NormalizeText(message) == "" ==> r == None
      ensures NormalizeText(message) != "" ==> r == FirstKeywordHit(keywords, NormalizeText(message))
    {
      var text := NormalizeText(message);
      if text == "" {
        return None;
      }
      r := ScanKeywords(text);
    }

    /** The loop of `findBlockedKeyword` over the keyword list. */
    method ScanKeywords(text: string) returns (r: Option<Entry>)
      ensures r == FirstKeywordHit(keywords, text)
    {
      var i := 0;
      while i < |keywords|
        invariant 0 <= i <= |keywords|
        invariant FirstKeywordHit(keywords[i..], text) == FirstKeywordHit(keywords, text)
      {
        var item := keywords[i];
        assert keywords[i..] == [item] + keywords[i + 1..];
        if item.value != "" && Contains(text, item.value) {
          return Some(item);
        }
        i := i + 1;
      }
      return None;
    }

    method BlockSender(sender: Value, reason: Value, now: int) returns (r: Outcome)
      requires Valid()
      modifies this
      ensures Valid()
      ensures (r, senders) == Blocking(old(senders), NormalizeText(sender), CleanLabel(sender), CleanReason(reason), now, "missing_sender")
      ensures keywords == old(keywords)
    {
      var res := Blocking(senders, NormalizeText(sender), CleanLabel(sender), CleanReason(reason), now, "missing_sender");
      BlockingKeepsNormalized(senders, NormalizeText(sender), CleanLabel(sender), CleanReason(reason), now, "missing_sender");
      r, senders := res.0, res.1;
    }

    method UnblockSender(sender: Value) returns (r: Outcome)
      requires Valid()
      modifies this
      ensures Valid()
      ensures (r, senders) == Unblocking(old(senders), NormalizeText(sender), "missing_sender")
      ensures keywords == old(keywords)
    {
      var res := Unblocking(senders, NormalizeText(sender), "missing_sender");
      WithoutKeepsNormalized(senders, NormalizeText(sender));
      r, senders := res.0, res.1;
    }

    method BlockKeyword(keyword: Value, reason: Value, now: int) returns (r: Outcome)
      requires Valid()
      modifies this
      ensures Valid()
      ensures (r, keywords) == Blocking(old(keywords), NormalizeText(keyword), CleanLabel(keyword), CleanReason(reason), now, "missing_keyword")
      ensures senders == old(senders)
    {
      var res := Blocking(keywords, NormalizeText(keyword), CleanLabel(keyword), CleanReason(reason), now, "missing_keyword");
      BlockingKeepsNormalized(keywords, NormalizeText(keyword), CleanLabel(keyword), CleanReason(reason), now, "missing_keyword");
      r, keywords := res.0, res.1;
    }

    method UnblockKeyword(keyword: Value) returns (r: Outcome)
      requires Valid()
      modifies this
      ensures Valid()
      ensures (r, keywords) == Unblocking(old(keywords), NormalizeText(keyword), "missing_keyword")
      ensures senders == old(senders)
    {
      var res := Unblocking(keywords, NormalizeText(keyword), "missing_keyword");
      WithoutKeepsNormalized(keywords, NormalizeText(keyword));
      r, keywords := res.0, res.1;
    }
  }

  /** `list.find((x) => x.value === key)` */
  function FindValue(list: seq<Entry>, key: string): (r: Option<Entry>)
    ensures r.Some? <==> HasValue(list, key)
    ensures r.Some? ==> r.value in list && r.value.value == key
    decreases |list|
  {
    if list == [] then None
    else if list[0].value == key then Some(list[0])
    else
      assert forall i :: 1 <= i < |list| ==> list[i] == list[1..][i - 1];
      FindValue(list[1..], key)
  }

  /** An entry matches a message when its value is non-empty and a substring of it. */
  predicate KeywordHit(text: string, item: Entry) {
    item.value != "" && Contains(text, item.value)
  }

  /** The first entry of `list` that matches `text`. */
  function FirstKeywordHit(list: seq<Entry>, text: string): (r: Option<Entry>)
    ensures r.Some? ==> exists i ::
      && 0 <= i < |list| && list[i] == r.value && KeywordHit(text, list[i])
      && forall j :: 0 <= j < i ==> !KeywordHit(text, list[j])
    ensures r.None? ==> forall i :: 0 <= i < |list| ==> !KeywordHit(text, list[i])
    decreases |list|
  {
    if list == [] then None
    else if KeywordHit(text, list[0]) then Some(list[0])
    else
      var r := FirstKeywordHit(list[1..], text);
      assert forall i :: 1 <= i < |list| ==> list[i] == list[1..][i - 1];
      r
  }

  /** `_normalizeList(list, {field})`, with the clock passed in. */
  method NormalizeList(list: Value, field: string, now: int) returns (out: seq<Entry>)
    ensures out == NormalizedList(list, field, now)
  {
    if !list.Arr? {
      return [];
    }
    out := KeepFirstOfEachKey(list.items, ItemKey(field), "", ItemMaker(field, now));
  }
}
