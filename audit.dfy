/** The audit log: a bounded in-memory buffer of event objects and the reports read from it. */
module Audit {
  import opened Opt
  import opened Js
  import opened Seqs
  import Moderation

  // ----------------------------------------------------------- helpers

  /** A parsed integer (`None` for NaN) made positive: the fallback unless it is at least 1, then capped at `max`. */
  function PositiveOr(n: Option<int>, fallback: int, max: int): (r: int)
    ensures n.None? || n.value <= 0 ==> r == fallback
    ensures n.Some? && n.value > 0 ==> r <= n.value && r <= max && (r == n.value || r == max)
    ensures fallback >= 1 && max >= 1 ==> r >= 1
  {
    if n.None? || n.value <= 0 then fallback else Min(n.value, max)
  }

  /** `asPositiveInt(value, fallback, max)` */
  function AsPositiveInt(value: Value, fallback: int, max: int): int {
    PositiveOr(ParseIntOf(value), fallback, max)
  }

  /** On an integer, `asPositiveInt` is the fallback below 1 and the integer capped at `max` otherwise. */
  lemma AsPositiveIntOfInteger(n: int, fallback: int, max: int)
    ensures AsPositiveInt(Num(n as real), fallback, max) == if n <= 0 then fallback else Min(n, max)
  {
    IntegerRoundTrip(n);
  }

  /** `normalizeName`: the trimmed name, `"Anon"` when blank. */
  function NormalizeName(v: Value): (r: string)
    ensures r != ""
    ensures Moderation.CleanLabel(v) != "" ==> r == Moderation.CleanLabel(v)
  {
    var s := Moderation.CleanLabel(v);
    if s == "" then "Anon" else s
  }

  /** `Math.max(1, Math.min(720, parseInt(hours) || 24))`: the report window in hours. */
  function WindowHours(hours: Value): int {
    HoursOf(ParseIntOf(hours))
  }

  /** The window for a parsed hour count: 24 for NaN and 0, otherwise clamped to `[1, 720]`. */
  function HoursOf(n: Option<int>): (h: int)
    ensures 1 <= h <= 720
    ensures n.None? || n == Some(0) ==> h == 24
    ensures n.Some? && 1 <= n.value <= 720 ==> h == n.value
    ensures n.Some? && n.value < 0 ==> h == 1
    ensures n.Some? && n.value > 720 ==> h == 720
  {
    var k := if n.None? || n.value == 0 then 24 else n.value;
    if k > 720 then 720 else if k < 1 then 1 else k
  }

  /** `sinceAt`: the start of the report window ending at `now`, in milliseconds. */
  function SinceAt(now: int, hours: Value): real {
    (now - WindowHours(hours) * 3600000) as real
  }

  lemma WindowHoursOfInteger(n: int)
    ensures WindowHours(Num(n as real)) == if n == 0 then 24 else if n < 1 then 1 else if n > 720 then 720 else n
  {
    IntegerRoundTrip(n);
  }

  // ------------------------------------------------------------ events

  predicate IsEvent(e: Value) {
    Truthy(e) && IsObject(e)
  }

  /** `Number(e.at) < since`; an `at` that is not a number (NaN) is never before anything. */
  predicate Before(e: Value, since: real) {
    match ToNumber(Get(e, "at"))
    case Some(a) => a < since
    case None => false
  }

  predicate InWindow(e: Value, since: real) {
    IsEvent(e) && !Before(e, since)
  }

  /** `e.type === t` */
  predicate HasType(e: Value, t: string) {
    Get(e, "type") == Str(t)
  }

  /** `Number(e.value) || 0` */
  function EventValue(e: Value): real {
    NumberOrZero(Get(e, "value"))
  }

  function EventSender(e: Value): string {
    NormalizeName(Get(e, "sender"))
  }

  /** The case-insensitive key of the sender (`normalizeKey(normalizeName(e.sender))`). */
  function SenderKey(e: Value): string {
    Moderation.NormalizeText(Str(EventSender(e)))
  }

  /** `String(e.actionType || "unknown")` */
  function ActionName(e: Value): string {
    ToStr(Or(Get(e, "actionType"), Str("unknown")))
  }

  predicate Accepted(e: Value, since: real) {
    InWindow(e, since) && HasType(e, "donation.accepted")
  }

  function AcceptedIn(since: real): Value -> bool {
    e => Accepted(e, since)
  }

  function TypedIn(since: real, t: string): Value -> bool {
    e => InWindow(e, since) && HasType(e, t)
  }

  function AcceptedFrom(since: real, key: string): Value -> bool {
    e => Accepted(e, since) && SenderKey(e) == key
  }

  // ------------------------------------------------------------ replay

  /** A replayed line that parsed to an object. */
  predicate EventLine(line: Option<Value>) {
    line.Some? && IsEvent(line.value)
  }

  function LineEvent(line: Option<Value>): Value {
    if line.Some? then line.value else Undefined
  }

  /** What replay keeps: the last `max` of the lines that parse to objects, in file order. */
  function Replayed(lines: seq<Option<Value>>, max: nat): seq<Value> {
    LastN(FilterMap(lines, EventLine, LineEvent), max)
  }

  lemma ReplayedKeepsObjects(lines: seq<Option<Value>>, max: nat, e: Value)
    ensures |Replayed(lines, max)| <= max
    ensures e in Replayed(lines, max) ==> exists j :: 0 <= j < |lines| && lines[j] == Some(e) && IsEvent(e)
  {
    var parsed := FilterMap(lines, EventLine, LineEvent);
    if e in Replayed(lines, max) {
      assert e in parsed;
      FilterMapMembers(lines, EventLine, LineEvent, e);
    }
  }

  // ----------------------------------------------------------- entries

  /** `{id, at, ...(event is an object ? event : {payload: event})}` */
  function NewEntry(event: Value, id: string, now: int): Value {
    var src := if IsEvent(event) then Entries(event) else [("payload", event)];
    Obj(Assign([("id", Str(id)), ("at", Num(now as real))], src))
  }

  /** The entry carries the event's own fields over the fresh `id` and `at`. */
  lemma NewEntryFields(event: Value, id: string, now: int, key: string)
    ensures !IsEvent(event) ==>
      Get(NewEntry(event, id, now), "payload") == event
      && Get(NewEntry(event, id, now), "id") == Str(id) && Get(NewEntry(event, id, now), "at") == Num(now as real)
    ensures IsEvent(event) ==>
      Get(NewEntry(event, id, now), key) ==
        if HasKey(Entries(event), key) then LastValue(Entries(event), key)
        else if key == "id" then Str(id) else if key == "at" then Num(now as real) else Undefined
  {
    var base := [("id", Str(id)), ("at", Num(now as real))];
    if IsEvent(event) {
      EventEntryFields(base, Entries(event), id, now, key);
    } else {
      PayloadEntryFields(base, event, id, now);
    }
  }

  lemma EventEntryFields(base: seq<(string, Value)>, src: seq<(string, Value)>, id: string, now: int, key: string)
    requires base == [("id", Str(id)), ("at", Num(now as real))]
    ensures Get(Obj(Assign(base, src)), key) ==
      if HasKey(src, key) then LastValue(src, key)
      else if key == "id" then Str(id) else if key == "at" then Num(now as real) else Undefined
  {
    AssignLookup(base, src, key);
  }

  lemma PayloadEntryFields(base: seq<(string, Value)>, event: Value, id: string, now: int)
    requires base == [("id", Str(id)), ("at", Num(now as real))]
    ensures var e := Obj(Assign(base, [("payload", event)]));
      Get(e, "payload") == event && Get(e, "id") == Str(id) && Get(e, "at") == Num(now as real)
  {
    var src := [("payload", event)];
    AssignLookup(base, src, "payload");
    AssignLookup(base, src, "id");
    AssignLookup(base, src, "at");
    assert !HasKey(src, "id") && !HasKey(src, "at");
  }

  // ------------------------------------------------------------- query

  /** The needles of a query; `since` only when `Number(sinceAt)` is finite and positive. */
  datatype Filter = Filter(typeNeedle: string, donationNeedle: string, actionNeedle: string, senderNeedle: string,
                           since: Option<real>)

  function FilterOf(typ: Value, sinceAt: Value, sender: Value, donationId: Value, actionType: Value): Filter {
    var since := ToNumber(sinceAt);
    Filter(Moderation.CleanLabel(typ), Moderation.CleanLabel(donationId), Moderation.CleanLabel(actionType),
           Moderation.NormalizeText(sender), if since.Some? && since.value > 0.0 then since else None)
  }

  /** An event passes when it is an object and agrees with every non-empty needle. */
  predicate Passes(f: Filter, e: Value) {
    && IsEvent(e)
    && (f.typeNeedle == "" || ToStrOrEmpty(Get(e, "type")) == f.typeNeedle)
    && (f.donationNeedle == "" || ToStrOrEmpty(Get(e, "donationId")) == f.donationNeedle)
    && (f.actionNeedle == "" || ToStrOrEmpty(Get(e, "actionType")) == f.actionNeedle)
    && (f.senderNeedle == "" || Moderation.NormalizeText(Get(e, "sender")) == f.senderNeedle)
    && (f.since.None? || !Before(e, f.since.value))
  }

  function Matches(f: Filter): Value -> bool {
    e => Passes(f, e)
  }

  /** The query result: at most `max` passing events, the newest first. */
  lemma QueryResult(events: seq<Value>, f: Filter, max: nat, e: Value)
    ensures |Take(NewestFirst(events, Matches(f)), max)| <= max
    ensures e in Take(NewestFirst(events, Matches(f)), max) ==> e in events && Passes(f, e)
  {
    NewestFirstMembers(events, Matches(f), e);
  }

  // ----------------------------------------------------------- summary

  datatype Stats = Stats(total: nat, ok: nat, failed: nat, skipped: nat)

  /** `topDonation` of the summary. */
  datatype TopEntry = TopEntry(donationId: Value, sender: string, value: real)

  datatype Report = Report(generatedAt: int, windowHours: int, donations: nat, value: real, averageValue: real,
                           uniqueSenders: nat, blocked: nat, duplicates: nat, errors: nat,
                           top: Option<TopEntry>, stats: map<string, Stats>)

  function TopOfEvent(e: Value): TopEntry {
    TopEntry(Or(Get(e, "donationId"), Str("")), EventSender(e), EventValue(e))
  }

  /** The summary entry of the element at `k`, if any. */
  function TopAt(s: seq<Value>, k: Option<nat>): Option<TopEntry>
    requires k.Some? ==> k.value < |s|
  {
    if k.None? then None else Some(TopOfEvent(s[k.value]))
  }

  /**
   * One executed action: skipped wins over ok, anything else is a failure. A name that
   * `actionStats`, a plain `{}`, inherits from `Object.prototype` already reads as truthy, so
   * it gets no counters of its own and stays out of the summary.
   */
  function Bump(m: map<string, Stats>, e: Value): map<string, Stats> {
    var name := ActionName(e);
    if name in ObjectPrototypeNames then m
    else
      var st := if name in m then m[name] else Stats(0, 0, 0, 0);
      m[name := if Truthy(Get(e, "skipped")) then st.(total := st.total + 1, skipped := st.skipped + 1)
                else if Truthy(Get(e, "ok")) then st.(total := st.total + 1, ok := st.ok + 1)
                else st.(total := st.total + 1, failed := st.failed + 1)]
  }

  predicate AddsUp(m: map<string, Stats>) {
    forall name :: name in m ==> m[name].total == m[name].ok + m[name].failed + m[name].skipped
  }

  lemma BumpAddsUp(m: map<string, Stats>, e: Value)
    requires AddsUp(m)
    ensures AddsUp(Bump(m, e))
  {
  }

  /** An action named after an inherited member of `Object.prototype` is not counted. */
  lemma InheritedNameNotCounted(m: map<string, Stats>, e: Value)
    requires ActionName(e) in ObjectPrototypeNames
    ensures Bump(m, e) == m
  {
  }

  /** A skipped action counts as skipped even when it also reports ok. */
  lemma SkippedWins(m: map<string, Stats>, e: Value)
    requires Truthy(Get(e, "skipped"))
    ensures ActionName(e) !in ObjectPrototypeNames && ActionName(e) in m ==>
      Bump(m, e)[ActionName(e)] == m[ActionName(e)].(total := m[ActionName(e)].total + 1, skipped := m[ActionName(e)].skipped + 1)
    ensures ActionName(e) !in ObjectPrototypeNames && ActionName(e) !in m ==> Bump(m, e)[ActionName(e)] == Stats(1, 0, 0, 1)
    ensures ActionName(e) in ObjectPrototypeNames ==> Bump(m, e) == m
  {
  }

  /** `totalValue / totalDonations`, 0 without donations. */
  function Average(value: real, count: nat): real {
    if count > 0 then value / count as real else 0.0
  }

  /** The summary's accumulators. */
  datatype Tally = Tally(donations: nat, value: real, senders: set<string>, top: Option<TopEntry>,
                         blocked: nat, duplicates: nat, errors: nat, stats: map<string, Stats>)

  function Flag(b: bool): nat {
    if b then 1 else 0
  }

  /** One pass of the summary loop: what the event `e` adds to the accumulators. */
  function Step(t: Tally, e: Value, since: real): Tally {
    if !InWindow(e, since) then t
    else
      var t1 :=
        if HasType(e, "donation.accepted") then
          t.(donations := t.donations + 1, value := t.value + EventValue(e), senders := t.senders + {SenderKey(e)},
             top := if t.top.None? || EventValue(e) > t.top.value.value then Some(TopOfEvent(e)) else t.top)
        else t;
      t1.(blocked := t1.blocked + Flag(HasType(e, "donation.blocked")),
          duplicates := t1.duplicates + Flag(HasType(e, "donation.duplicate")),
          errors := t1.errors + Flag(HasType(e, "error")),
          stats := if HasType(e, "action.executed") then Bump(t1.stats, e) else t1.stats)
  }

  /** The accumulators after the events of `s`, in order. */
  function TallyOf(s: seq<Value>, since: real): Tally
    decreases |s|
  {
    if s == [] then Tally(0, 0.0, {}, None, 0, 0, 0, map[])
    else Step(TallyOf(s[..|s| - 1], since), s[|s| - 1], since)
  }

  /** The counters are counts and sums over the in-window events of each type. */
  lemma {:induction false} TallyCounts(s: seq<Value>, since: real)
    ensures TallyOf(s, since).donations == Count(s, AcceptedIn(since))
    ensures TallyOf(s, since).value == Sum(s, AcceptedIn(since), EventValue)
    ensures TallyOf(s, since).blocked == Count(s, TypedIn(since, "donation.blocked"))
    ensures TallyOf(s, since).duplicates == Count(s, TypedIn(since, "donation.duplicate"))
    ensures TallyOf(s, since).errors == Count(s, TypedIn(since, "error"))
    decreases |s|
  {
    if s != [] {
      TallyCounts(s[..|s| - 1], since);
    }
  }

  lemma {:induction false} TallySenderSet(s: seq<Value>, since: real)
    ensures TallyOf(s, since).senders == KeySet(s, AcceptedIn(since), SenderKey)
    decreases |s|
  {
    if s != [] {
      TallySenderSet(s[..|s| - 1], since);
    }
  }

  /** The unique senders are the keys of the accepted in-window donations. */
  lemma TallySenders(s: seq<Value>, since: real, k: string)
    ensures k in TallyOf(s, since).senders <==> exists i :: 0 <= i < |s| && Accepted(s[i], since) && SenderKey(s[i]) == k
  {
    TallySenderSet(s, since);
    KeySetMembers(s, AcceptedIn(since), SenderKey, k);
  }

  lemma StepTop(t: Tally, e: Value, since: real)
    ensures Step(t, e, since).top ==
      if Accepted(e, since) && (t.top.None? || EventValue(e) > t.top.value.value) then Some(TopOfEvent(e)) else t.top
  {
  }

  /**
   * The top donation is the first accepted in-window event of maximal value
   * (a later equal value does not replace it), and is absent exactly when there is none.
   */
  lemma {:induction false} TallyTop(s: seq<Value>, since: real)
    ensures TallyOf(s, since).top == TopAt(s, FirstMax(s, AcceptedIn(since), EventValue))
    decreases |s|
  {
    if s != [] {
      var n := |s| - 1;
      TallyTop(s[..n], since);
      StepTop(TallyOf(s[..n], since), s[n], since);
      FirstMaxPrefix(s, n, AcceptedIn(since), EventValue);
      assert s[..n + 1] == s;
      var k := FirstMax(s[..n], AcceptedIn(since), EventValue);
      if k.Some? {
        assert s[..n][k.value] == s[k.value];
      }
    }
  }

  /** Every action's total is the sum of its ok, failed and skipped counts. */
  lemma {:induction false} TallyStatsAddUp(s: seq<Value>, since: real)
    ensures AddsUp(TallyOf(s, since).stats)
    decreases |s|
  {
    if s != [] {
      var prev := TallyOf(s[..|s| - 1], since);
      TallyStatsAddUp(s[..|s| - 1], since);
      BumpAddsUp(prev.stats, s[|s| - 1]);
    }
  }

  function ReportOf(t: Tally, now: int, h: int): Report {
    Report(now, h, t.donations, t.value, Average(t.value, t.donations), |t.senders|, t.blocked, t.duplicates, t.errors,
           t.top, t.stats)
  }

  // ------------------------------------------------------- top senders

  /** What an accepted donation contributes to its sender's row. */
  datatype Donor = Donor(sender: string, key: string, value: real, at: real)

  function DonorOf(e: Value): Donor {
    Donor(EventSender(e), SenderKey(e), EventValue(e), NumberOrZero(Get(e, "at")))
  }

  /** The donors of the accepted in-window donations, in log order. */
  function Donors(s: seq<Value>, since: real): seq<Donor> {
    FilterMap(s, AcceptedIn(since), DonorOf)
  }

  datatype SenderRow = SenderRow(sender: string, donations: nat, totalValue: real, lastAt: real)

  /** The `bySender` map, with the order in which its keys were first set. */
  type Groups = (seq<string>, map<string, SenderRow>)

  /** The key order lists exactly the keys of the map, each once. */
  ghost predicate WellGrouped(g: Groups) {
    && (forall k :: k in g.0 <==> k in g.1)
    && (forall i, j :: 0 <= i < j < |g.0| ==> g.0[i] != g.0[j])
  }

  /** One donation folded into `bySender`: the latest name, one more donation, its value, the latest time. */
  function AddRow(g: Groups, d: Donor): Groups {
    var cur := if d.key in g.1 then g.1[d.key] else SenderRow(d.sender, 0, 0.0, 0.0);
    (if d.key in g.1 then g.0 else g.0 + [d.key],
     g.1[d.key := SenderRow(d.sender, cur.donations + 1, cur.totalValue + d.value, if d.at > cur.lastAt then d.at else cur.lastAt)])
  }

  /** The row update of `AddRow`, spelled out for a loop that computes `cur` and the new pair itself. */
  lemma AddRowStep(g: Groups, d: Donor, cur: SenderRow, g2: Groups)
    requires cur == if d.key in g.1 then g.1[d.key] else SenderRow(d.sender, 0, 0.0, 0.0)
    requires g2.0 == if d.key in g.1 then g.0 else g.0 + [d.key]
    requires g2.1 == g.1[d.key := SenderRow(d.sender, cur.donations + 1, cur.totalValue + d.value,
                                            if d.at > cur.lastAt then d.at else cur.lastAt)]
    ensures g2 == AddRow(g, d)
  {
  }

  /** `bySender` after the donations of `ds`. */
  function GroupRows(ds: seq<Donor>): Groups
    decreases |ds|
  {
    if ds == [] then ([], map[]) else AddRow(GroupRows(ds[..|ds| - 1]), ds[|ds| - 1])
  }

  function KeyIs(key: string): Donor -> bool {
    (d: Donor) => d.key == key
  }

  function DonorValue(d: Donor): real {
    d.value
  }

  lemma {:induction false} GroupRowsWellGrouped(ds: seq<Donor>)
    ensures WellGrouped(GroupRows(ds))
    decreases |ds|
  {
    if ds != [] {
      GroupRowsWellGrouped(ds[..|ds| - 1]);
    }
  }

  /** A sender has a row exactly when some donation has its key. */
  lemma {:induction false} GroupKeys(ds: seq<Donor>, key: string)
    ensures key in GroupRows(ds).1 <==> exists i :: 0 <= i < |ds| && ds[i].key == key
    decreases |ds|
  {
    if ds != [] {
      var n := |ds| - 1;
      GroupKeys(ds[..n], key);
      if key in GroupRows(ds[..n]).1 {
        var i :| 0 <= i < n && ds[..n][i].key == key;
        assert ds[..n][i] == ds[i];
      }
      if exists i :: 0 <= i < |ds| && ds[i].key == key {
        var i :| 0 <= i < |ds| && ds[i].key == key;
        if i < n {
          assert ds[..n][i] == ds[i];
        }
      }
    }
  }

  /** Each sender's row counts and sums exactly that sender's donations. */
  lemma {:induction false} GroupTotals(ds: seq<Donor>, key: string)
    ensures key in GroupRows(ds).1 <==> Count(ds, KeyIs(key)) > 0
    ensures key in GroupRows(ds).1 ==>
      && GroupRows(ds).1[key].donations == Count(ds, KeyIs(key))
      && GroupRows(ds).1[key].totalValue == Sum(ds, KeyIs(key), DonorValue)
    decreases |ds|
  {
    if ds != [] {
      var n := |ds| - 1;
      GroupTotals(ds[..n], key);
      if key !in GroupRows(ds[..n]).1 {
        SumOfNone(ds[..n], KeyIs(key), DonorValue);
      }
    }
  }

  /** Each sender's row carries the name given with the latest of that sender's donations. */
  lemma {:induction false} GroupSender(ds: seq<Donor>, key: string)
    ensures key in GroupRows(ds).1 ==>
      exists i ::
        && 0 <= i < |ds| && ds[i].key == key && GroupRows(ds).1[key].sender == ds[i].sender
        && forall j :: i < j < |ds| ==> ds[j].key != key
    decreases |ds|
  {
    if ds != [] {
      var n := |ds| - 1;
      GroupSender(ds[..n], key);
      if key in GroupRows(ds).1 && ds[n].key != key {
        var i :| && 0 <= i < n && ds[..n][i].key == key && GroupRows(ds[..n]).1[key].sender == ds[..n][i].sender
                 && forall j :: i < j < n ==> ds[..n][j].key != key;
        assert ds[..n][i] == ds[i];
        assert forall j :: i < j < n ==> ds[..n][j] == ds[j];
      }
    }
  }

  /** The latest time of a row is the largest `at` among its donations, and never below 0. */
  lemma {:induction false} GroupLastAt(ds: seq<Donor>, key: string)
    ensures key in GroupRows(ds).1 ==>
      && GroupRows(ds).1[key].lastAt >= 0.0
      && (forall i :: 0 <= i < |ds| && ds[i].key == key ==> ds[i].at <= GroupRows(ds).1[key].lastAt)
      && (GroupRows(ds).1[key].lastAt == 0.0
          || exists i :: 0 <= i < |ds| && ds[i].key == key && ds[i].at == GroupRows(ds).1[key].lastAt)
    decreases |ds|
  {
    if ds != [] {
      var n := |ds| - 1;
      GroupLastAt(ds[..n], key);
      GroupKeys(ds[..n], key);
      assert forall i :: 0 <= i < n ==> ds[..n][i] == ds[i];
    }
  }

  /** `Array.from(bySender.values())`: the rows in key order (a key without a row contributes nothing). */
  function RowsOf(keys: seq<string>, m: map<string, SenderRow>): (r: seq<SenderRow>)
    ensures (forall k :: k in keys ==> k in m) ==> |r| == |keys| && forall i :: 0 <= i < |keys| ==> r[i] == m[keys[i]]
    ensures forall x :: x in r ==> exists k :: k in m && m[k] == x
  {
    if keys == [] then []
    else if keys[0] in m then [m[keys[0]]] + RowsOf(keys[1..], m)
    else RowsOf(keys[1..], m)
  }

  function RowValue(r: SenderRow): real {
    r.totalValue
  }

  function RowCount(r: SenderRow): real {
    r.donations as real
  }

  function RowLast(r: SenderRow): real {
    r.lastAt
  }

  /** The ranking: by total value, then count, then latest time, all highest first, cut to `max`. */
  function Ranking(g: Groups, max: nat): seq<SenderRow> {
    Take(SortRanked(RowsOf(g.0, g.1), RowValue, RowCount, RowLast), max)
  }

  /** At most `max` rows, ranked, each one sender's row; all of them when there are at most `max` senders. */
  lemma RankingProps(g: Groups, max: nat)
    requires WellGrouped(g)
    ensures |Ranking(g, max)| == Min(|g.0|, max)
    ensures Ranked(Ranking(g, max), RowValue, RowCount, RowLast)
    ensures forall r :: r in Ranking(g, max) ==> exists k :: k in g.1 && g.1[k] == r
    ensures |g.0| <= max ==> multiset(Ranking(g, max)) == multiset(RowsOf(g.0, g.1))
  {
    var rows := RowsOf(g.0, g.1);
    var all := SortRanked(rows, RowValue, RowCount, RowLast);
    forall r | r in Ranking(g, max)
      ensures exists k :: k in g.1 && g.1[k] == r
    {
      assert r in all;
      assert r in multiset(rows);
    }
  }

  lemma GroupRowsSnoc(ds: seq<Donor>, d: Donor)
    ensures GroupRows(ds + [d]) == AddRow(GroupRows(ds), d)
  {
    assert (ds + [d])[..|ds|] == ds;
  }

  /** The body of the `topSenders` loop for one accepted donation `e`. */
  method CountDonation(keys: seq<string>, bySender: map<string, SenderRow>, e: Value)
    returns (keys': seq<string>, bySender': map<string, SenderRow>)
    ensures (keys', bySender') == AddRow((keys, bySender), DonorOf(e))
  {
    var d := DonorOf(e);
    var cur := if d.key in bySender then bySender[d.key] else SenderRow(d.sender, 0, 0.0, 0.0);
    keys' := keys;
    if d.key !in bySender {
      keys' := keys + [d.key];
    }
    bySender' := bySender[d.key := SenderRow(d.sender, cur.donations + 1, cur.totalValue + d.value,
                                             if d.at > cur.lastAt then d.at else cur.lastAt)];
    AddRowStep((keys, bySender), d, cur, (keys', bySender'));
  }

  // -------------------------------------------------------------- the log

  class Log {
    const maxEvents: nat
    var events: seq<Value>

    ghost predicate Valid()
      reads this
    {
      1 <= maxEvents <= 200000 && |events| <= maxEvents
    }

    /** `new AuditLog({maxEvents})` before any file is read. */
    constructor(maxEventsOption: Value)
      ensures Valid()
      ensures maxEvents == AsPositiveInt(maxEventsOption, 5000, 200000)
      ensures events == []
    {
      maxEvents := AsPositiveInt(maxEventsOption, 5000, 200000);
      events := [];
    }

    /** The replay in `_loadFromDisk`, given each non-empty line's parse (`None` for a corrupt line). */
    method Replay(lines: seq<Option<Value>>)
      requires Valid()
      modifies this
      ensures Valid()
      ensures events == Replayed(lines, maxEvents)
    {
      var parsed: seq<Value> := [];
      var i := 0;
      while i < |lines|
        invariant 0 <= i <= |lines|
        invariant parsed == FilterMap(lines[..i], EventLine, LineEvent)
      {
        var line := lines[i];
        if line.Some? && IsEvent(line.value) {
          parsed := parsed + [line.value];
        }
        assert lines[..i + 1][..i] == lines[..i];
        i := i + 1;
      }
      assert lines[..i] == lines;
      if |parsed| > maxEvents {
        events := parsed[|parsed| - maxEvents..];
      } else {
        events := parsed;
      }
    }

    /** `append(event)`, with the id and the clock passed in. */
    method Append(event: Value, id: string, now: int) returns (entry: Value)
      requires Valid()
      modifies this
      ensures Valid()
      ensures entry == NewEntry(event, id, now)
      ensures events == LastN(old(events) + [entry], maxEvents)
      ensures events[|events| - 1] == entry
    {
      entry := NewEntry(event, id, now);
      events := events + [entry];
      if |events| > maxEvents {
        events := events[|events| - maxEvents..];
      }
    }

    /** `query({limit, type, sinceAt, sender, donationId, actionType})` */
    method Query(limit: Value, typ: Value, sinceAt: Value, sender: Value, donationId: Value, actionType: Value)
      returns (out: seq<Value>)
      ensures out == Take(NewestFirst(events, Matches(FilterOf(typ, sinceAt, sender, donationId, actionType))),
                          AsPositiveInt(limit, 100, 1000))
    {
      var max := AsPositiveInt(limit, 100, 1000);
      var f := FilterOf(typ, sinceAt, sender, donationId, actionType);
      out := ScanNewest(events, Matches(f), max);
    }

    /** `summary({hours})` at time `now`. */
    method Summary(hours: Value, now: int) returns (r: Report)
      ensures r == ReportOf(TallyOf(events, SinceAt(now, hours)), now, WindowHours(hours))
      ensures var since := SinceAt(now, hours);
        && r.donations == Count(events, AcceptedIn(since))
        && r.value == Sum(events, AcceptedIn(since), EventValue)
        && r.uniqueSenders == |KeySet(events, AcceptedIn(since), SenderKey)|
        && r.top == TopAt(events, FirstMax(events, AcceptedIn(since), EventValue))
        && AddsUp(r.stats)
    {
      var h := WindowHours(hours);
      var since := SinceAt(now, hours);
      var t := Tally(0, 0.0, {}, None, 0, 0, 0, map[]);
      var i := 0;
      while i < |events|
        invariant 0 <= i <= |events|
        invariant t == TallyOf(events[..i], since)
      {
        assert events[..i + 1][..i] == events[..i];
        t := Step(t, events[i], since);
        i := i + 1;
      }
      assert events[..i] == events;
      TallyCounts(events, since);
      TallySenderSet(events, since);
      TallyTop(events, since);
      TallyStatsAddUp(events, since);
      r := ReportOf(t, now, h);
    }

    /** `topSenders({hours, limit})` at time `now`. */
    method TopSenders(hours: Value, limit: Value, now: int) returns (rows: seq<SenderRow>)
      ensures rows == Ranking(GroupRows(Donors(events, SinceAt(now, hours))), AsPositiveInt(limit, 10, 100))
    {
      var h := WindowHours(hours);
      var max := AsPositiveInt(limit, 10, 100);
      var since := SinceAt(now, hours);
      var keys: seq<string> := [];
      var bySender: map<string, SenderRow> := map[];
      ghost var ds: seq<Donor> := [];
      var i := 0;
      while i < |events|
        invariant 0 <= i <= |events|
        invariant ds == Donors(events[..i], since)
        invariant (keys, bySender) == GroupRows(ds)
      {
        var e := events[i];
        FilterMapPrefix(events, i, AcceptedIn(since), DonorOf);
        if IsEvent(e) && HasType(e, "donation.accepted") && !Before(e, since) {
          keys, bySender := CountDonation(keys, bySender, e);
          GroupRowsSnoc(ds, DonorOf(e));
          ds := ds + [DonorOf(e)];
        }
        i := i + 1;
      }
      assert events[..i] == events;
      rows := Ranking((keys, bySender), max);
    }
  }
}
