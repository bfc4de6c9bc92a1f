/**
 * The rule engine of `src/rules.js`: a donation's context, rule matching and
 * the decision of which actions a donation triggers.
 *
 * A rule is a JSON value `{id, enabled, priority, when, actions}`; `when`
 * holds the optional predicates. Every matching rule contributes its
 * well-formed actions, stamped with the rule's id and priority. Per channel
 * (the prefix of the action type) conflicts are resolved: the music channel
 * keeps one action, the others keep all. The result is sorted by priority.
 *
 * The JavaScript regular-expression engine is not part of this model: a
 * rule's pattern is compiled by the `compile` parameter, which returns the
 * case-insensitive matcher or `None` where `new RegExp` throws.
 */
module Rules {
  import opened Opt
  import opened Text
  import opened Js
  import opened Utils
  import opened Records
  import opened Seqs

  /** `{normalizedMessage, url, videoId, isNewTop}` */
  datatype Context = Context(normalizedMessage: string, url: Option<string>, videoId: Option<string>, isNewTop: bool)

  /** `new RegExp(source, "i")`, as a matcher or `None` where it throws. */
  type RegexCompiler = string -> Option<string -> bool>

  datatype Channel = Music | Minecraft | System

  /** `ctx.url` is truthy. */
  predicate HasUrl(ctx: Context) {
    ctx.url.Some? && ctx.url.value != ""
  }

  /** `(rulesConfig || {}).urlWhitelist` */
  function Whitelist(rulesConfig: Value): Value {
    Get(Or(rulesConfig, Obj([])), "urlWhitelist")
  }

  // ---------------------------------------------------- parseDonationContext

  /**
   * `parseDonationContext(donation, rulesConfig)`. The context it returns has
   * no `isNewTop` (which reads as false); the dispatcher sets it.
   */
  function ParseDonationContext(d: Donation, rulesConfig: Value, parse: UrlParser): (ctx: Context)
    ensures ctx.normalizedMessage == NormalizeText(Str(d.message))
    // only a whitelisted first URL is exposed
    ensures ctx.url.Some? <==>
      ExtractFirstUrl(d.message).Some? && IsWhitelistedUrl(ExtractFirstUrl(d.message).value, Whitelist(rulesConfig), parse)
    ensures ctx.url.Some? ==> ctx.url == ExtractFirstUrl(d.message) && HasUrl(ctx)
    // a video id only ever comes from the exposed URL
    ensures ctx.url.None? ==> ctx.videoId.None?
    ensures ctx.url.Some? ==> ctx.videoId == ParseYoutubeVideoId(ctx.url.value, parse)
    ensures !ctx.isNewTop
  {
    var normalized := NormalizeText(Str(d.message));
    var found := ExtractFirstUrl(d.message);
    var allowed :=
      if found.Some? && IsWhitelistedUrl(found.value, Whitelist(rulesConfig), parse) then found else None;
    var videoId := if allowed.Some? then ParseYoutubeVideoId(allowed.value, parse) else None;
    Context(normalized, allowed, videoId, false)
  }

  // ------------------------------------------------------------- matchRule

  /** `includesKeyword(messageNorm, keyword)` */
  function IncludesKeyword(messageNorm: string, keyword: Value): (b: bool)
    ensures b <==>
      && NormalizeText(keyword) != ""
      && exists i :: 0 <= i <= |messageNorm| - |NormalizeText(keyword)|
                       && StartsWith(messageNorm[i..], NormalizeText(keyword))
  {
    var k := NormalizeText(keyword);
    ContainsAt(messageNorm, k);
    k != "" && Contains(messageNorm, k)
  }

  /** `rule.when || {}` */
  function When(rule: Value): Value {
    Or(Get(rule, "when"), Obj([]))
  }

  /** `keywordsAny`: a non-empty array needs one keyword in the message. */
  predicate KeywordsAnyHold(list: Value, messageNorm: string) {
    list.Arr? && |list.items| > 0 ==>
      exists i :: 0 <= i < |list.items| && IncludesKeyword(messageNorm, list.items[i])
  }

  /** `keywordsAll`: every keyword of an array must be in the message. */
  predicate KeywordsAllHold(list: Value, messageNorm: string) {
    list.Arr? ==> forall i :: 0 <= i < |list.items| ==> IncludesKeyword(messageNorm, list.items[i])
  }

  /** A non-blank `regex` string must compile and match the message. */
  predicate RegexHolds(regex: Value, message: string, compile: RegexCompiler) {
    regex.Str? && Trim(regex.s) != "" ==>
      match compile(regex.s)
      case None => false
      case Some(test) => test(message)
  }

  /** `matchRule(rule, donation, ctx)` */
  predicate MatchRule(rule: Value, d: Donation, ctx: Context, compile: RegexCompiler)
    // each predicate that is present must hold ...
    ensures MatchRule(rule, d, ctx, compile) ==> IsObject(rule) && Get(rule, "enabled") != Bool(false)
    ensures var w := When(rule);
      MatchRule(rule, d, ctx, compile) ==>
        && (Get(w, "minValue").Num? ==> d.value >= Get(w, "minValue").n)
        && (Get(w, "isNewTop").Bool? ==> ctx.isNewTop == Get(w, "isNewTop").b)
        && (Get(w, "hasUrl").Bool? ==> HasUrl(ctx) == Get(w, "hasUrl").b)
    ensures var w := When(rule);
      MatchRule(rule, d, ctx, compile) ==>
        && KeywordsAnyHold(Get(w, "keywordsAny"), ctx.normalizedMessage)
        && KeywordsAllHold(Get(w, "keywordsAll"), ctx.normalizedMessage)
        && RegexHolds(Get(w, "regex"), d.message, compile)
    // ... and together they suffice
    ensures var w := When(rule);
      (&& IsObject(rule) && Get(rule, "enabled") != Bool(false)
       && (Get(w, "minValue").Num? ==> d.value >= Get(w, "minValue").n)
       && (Get(w, "isNewTop").Bool? ==> ctx.isNewTop == Get(w, "isNewTop").b)
       && (Get(w, "hasUrl").Bool? ==> HasUrl(ctx) == Get(w, "hasUrl").b)
       && KeywordsAnyHold(Get(w, "keywordsAny"), ctx.normalizedMessage)
       && KeywordsAllHold(Get(w, "keywordsAll"), ctx.normalizedMessage)
       && RegexHolds(Get(w, "regex"), d.message, compile))
      ==> MatchRule(rule, d, ctx, compile)
  {
    if !IsObject(rule) then false
    else if Get(rule, "enabled") == Bool(false) then false
    else
      var w := When(rule);
      var minValue := Get(w, "minValue");
      if minValue.Num? && d.value < minValue.n then false
      else if Get(w, "isNewTop") == Bool(true) && !ctx.isNewTop then false
      else if Get(w, "isNewTop") == Bool(false) && ctx.isNewTop then false
      else if Get(w, "hasUrl") == Bool(true) && !HasUrl(ctx) then false
      else if Get(w, "hasUrl") == Bool(false) && HasUrl(ctx) then false
      else if !KeywordsAnyHold(Get(w, "keywordsAny"), ctx.normalizedMessage) then false
      else if !KeywordsAllHold(Get(w, "keywordsAll"), ctx.normalizedMessage) then false
      else RegexHolds(Get(w, "regex"), d.message, compile)
  }

  /** A keyword that normalises to nothing never counts, so `keywordsAll` holding one fails. */
  lemma BlankKeywordFailsAll(rule: Value, d: Donation, ctx: Context, compile: RegexCompiler, i: nat)
    requires Get(When(rule), "keywordsAll").Arr? && i < |Get(When(rule), "keywordsAll").items|
    requires NormalizeText(Get(When(rule), "keywordsAll").items[i]) == ""
    ensures !MatchRule(rule, d, ctx, compile)
  {
    assert !IncludesKeyword(ctx.normalizedMessage, Get(When(rule), "keywordsAll").items[i]);
  }

  /** A pattern that does not compile makes the rule fail instead of throwing. */
  lemma BadRegexNeverMatches(rule: Value, d: Donation, ctx: Context, compile: RegexCompiler)
    requires Get(When(rule), "regex").Str? && Trim(Get(When(rule), "regex").s) != ""
    requires compile(Get(When(rule), "regex").s).None?
    ensures !MatchRule(rule, d, ctx, compile)
  {
  }

  // ----------------------------------------------- channels and music scores

  /** `channelFromType(type)` */
  function ChannelOf(actionType: Value): (c: Channel)
    ensures c == Music <==> StartsWith(ToStrOrEmpty(actionType), "music.")
    ensures c == Minecraft <==>
      !StartsWith(ToStrOrEmpty(actionType), "music.") && StartsWith(ToStrOrEmpty(actionType), "minecraft.")
  {
    var t := ToStrOrEmpty(actionType);
    if StartsWith(t, "music.") then Music
    else if StartsWith(t, "minecraft.") then Minecraft
    else System
  }

  /** `musicKindScore(type)`: play-now beats enqueue beats anything else. */
  function MusicKindScore(actionType: Value): (k: nat)
    ensures k <= 2
    ensures k == 2 <==> actionType == Str("music.playNow")
    ensures k == 1 <==> actionType == Str("music.enqueue")
  {
    if actionType == Str("music.playNow") then 2
    else if actionType == Str("music.enqueue") then 1
    else 0
  }

  // ------------------------------------------------------- collected actions

  /** `typeof r.priority === "number" ? r.priority : 0` */
  function RulePriority(r: Value): real {
    var p := Get(r, "priority");
    if p.Num? then p.n else 0.0
  }

  /** `r.id || "rule"` */
  function RuleId(r: Value): Value {
    Or(Get(r, "id"), Str("rule"))
  }

  /** `Array.isArray(r.actions) ? r.actions : []` */
  function RuleActions(r: Value): seq<Value> {
    var a := Get(r, "actions");
    if a.Arr? then a.items else []
  }

  /** `a && typeof a === "object" && a.type` */
  predicate IsAction(a: Value) {
    Truthy(a) && IsObject(a) && Truthy(Get(a, "type"))
  }

  /** `{...a, _ruleId: r.id || "rule", _rulePriority: prio}` */
  function Stamp(a: Value, r: Value): (s: Value)
    ensures s.Obj?
    ensures Get(s, "_ruleId") == RuleId(r)
    ensures Get(s, "_rulePriority") == Num(RulePriority(r))
    ensures a.Obj? ==> forall k :: k != "_ruleId" && k != "_rulePriority" ==> Get(s, k) == Get(a, k)
  {
    Obj(SetProp(SetProp(Entries(a), "_ruleId", RuleId(r)), "_rulePriority", Num(RulePriority(r))))
  }

  function Stamper(r: Value): Value -> Value {
    a => Stamp(a, r)
  }

  /** The stamped well-formed actions of one rule, in order. */
  function StampAll(actions: seq<Value>, r: Value): seq<Value> {
    FilterMap(actions, IsAction, Stamper(r))
  }

  /** What one rule adds to `matched`: its stamped actions when it matches. */
  function Contribution(d: Donation, ctx: Context, compile: RegexCompiler): Value -> seq<Value> {
    r => if MatchRule(r, d, ctx, compile) then StampAll(RuleActions(r), r) else []
  }

  /** The `matched` list: the stamped actions of every matching rule, in rule order. */
  function Collect(rules: seq<Value>, d: Donation, ctx: Context, compile: RegexCompiler): seq<Value> {
    FlatMap(rules, Contribution(d, ctx, compile))
  }

  /**
   * The collected actions are exactly the stamped well-formed actions of the
   * matching rules.
   */
  lemma CollectMembers(rules: seq<Value>, d: Donation, ctx: Context, compile: RegexCompiler, x: Value)
    ensures x in Collect(rules, d, ctx, compile) <==>
      exists i, j :: 0 <= i < |rules| && MatchRule(rules[i], d, ctx, compile)
        && 0 <= j < |RuleActions(rules[i])| && IsAction(RuleActions(rules[i])[j])
        && x == Stamp(RuleActions(rules[i])[j], rules[i])
  {
    var f := Contribution(d, ctx, compile);
    FlatMapMembers(rules, f, x);
    forall i | 0 <= i < |rules|
      ensures x in f(rules[i]) <==>
        && MatchRule(rules[i], d, ctx, compile)
        && exists j :: 0 <= j < |RuleActions(rules[i])| && IsAction(RuleActions(rules[i])[j])
                       && x == Stamp(RuleActions(rules[i])[j], rules[i])
    {
      FilterMapMembers(RuleActions(rules[i]), IsAction, Stamper(rules[i]), x);
    }
  }

  /** Every collected action is a stamped object with a type, from a rule that matched. */
  lemma CollectedAreStamped(rules: seq<Value>, d: Donation, ctx: Context, compile: RegexCompiler, x: Value)
    requires x in Collect(rules, d, ctx, compile)
    ensures x.Obj? && Truthy(Get(x, "type"))
    ensures exists i ::
      && 0 <= i < |rules| && MatchRule(rules[i], d, ctx, compile)
      && Get(x, "_ruleId") == RuleId(rules[i]) && Get(x, "_rulePriority") == Num(RulePriority(rules[i]))
  {
    CollectMembers(rules, d, ctx, compile, x);
    var i, j :| 0 <= i < |rules| && MatchRule(rules[i], d, ctx, compile)
      && 0 <= j < |RuleActions(rules[i])| && IsAction(RuleActions(rules[i])[j])
      && x == Stamp(RuleActions(rules[i])[j], rules[i]);
    StampedActionHasType(RuleActions(rules[i])[j], rules[i]);
  }

  lemma StampedActionHasType(a: Value, r: Value)
    requires IsAction(a)
    ensures Truthy(Get(Stamp(a, r), "type"))
  {
    assert a.Obj?;
    assert "type" != "_ruleId" && "type" != "_rulePriority";
  }

  // ------------------------------------------------------ keys of the sorts

  /** `x._rulePriority || 0`, as the comparators' subtraction reads it. */
  function Priority(a: Value): real {
    NumberOrZero(Get(a, "_rulePriority"))
  }

  /** The kind score of an action's type. */
  function MusicScore(a: Value): int {
    MusicKindScore(Get(a, "type"))
  }

  /** The channel an action belongs to. */
  function ActionChannel(a: Value): Channel {
    ChannelOf(Get(a, "type"))
  }

  /** A stamped action's priority is its rule's priority. */
  lemma StampedPriority(a: Value, r: Value)
    ensures Priority(Stamp(a, r)) == RulePriority(r)
  {
  }

  // -------------------------------------------------------------- grouping

  /** The resolution of one channel: the best music action, or all others sorted by priority. */
  function Resolve(c: Channel, arr: seq<Value>): seq<Value> {
    if c == Music then (if arr == [] then [] else [arr[BestIndex(arr, MusicScore, Priority)]])
    else SortDesc(arr, Priority)
  }

  /** The resolved actions before the final sort: each channel in order of first appearance. */
  function Grouped(m: seq<Value>): seq<Value> {
    Regroup(m, ClassOrder(m, ActionChannel), ActionChannel, Resolve)
  }

  /** `(rulesConfig || {}).rules` when it is an array, else no rules. */
  function RulesOf(rulesConfig: Value): seq<Value> {
    var r := Get(Or(rulesConfig, Obj([])), "rules");
    if r.Arr? then r.items else []
  }

  /** The collected actions for a donation. */
  function Matched(rulesConfig: Value, d: Donation, ctx: Context, compile: RegexCompiler): seq<Value> {
    Collect(RulesOf(rulesConfig), d, ctx, compile)
  }

  /** The list `decideActions(donation, ctx, rulesConfig)` returns. */
  function Decision(rulesConfig: Value, d: Donation, ctx: Context, compile: RegexCompiler): seq<Value> {
    SortDesc(Grouped(Matched(rulesConfig, d, ctx, compile)), Priority)
  }

  lemma ResolveStaysInChannel(m: seq<Value>, order: seq<Channel>)
    ensures ResolveKeepsClass(m, order, ActionChannel, Resolve)
  {
    forall k | 0 <= k < |order|
      ensures var r := Resolve(order[k], Select(m, ActionChannel, order[k]));
        forall i :: 0 <= i < |r| ==> ActionChannel(r[i]) == order[k]
    {
      var c := order[k];
      var arr := Select(m, ActionChannel, c);
      if c != Music {
        PermutationKeepsClass(SortDesc(arr, Priority), arr, ActionChannel, c);
      }
    }
  }

  /** Sorting the grouped actions leaves each channel holding the resolution of its collected actions. */
  lemma SortedGroupChannel(m: seq<Value>, c: Channel)
    ensures multiset(Select(SortDesc(Grouped(m), Priority), ActionChannel, c))
      == multiset(Resolve(c, Select(m, ActionChannel, c)))
  {
    var g := Grouped(m);
    var order := ClassOrder(m, ActionChannel);
    SelectPermutation(SortDesc(g, Priority), g, ActionChannel, c);
    ResolveStaysInChannel(m, order);
    RegroupClass(m, order, ActionChannel, Resolve, c);
    if c !in order {
      AbsentClassIsEmpty(m, ActionChannel, c);
    }
  }

  /** The channel view of the decision: the resolution of that channel's collected actions. */
  lemma DecisionChannel(rulesConfig: Value, d: Donation, ctx: Context, compile: RegexCompiler, c: Channel)
    ensures multiset(Select(Decision(rulesConfig, d, ctx, compile), ActionChannel, c))
      == multiset(Resolve(c, Select(Matched(rulesConfig, d, ctx, compile), ActionChannel, c)))
  {
    SortedGroupChannel(Matched(rulesConfig, d, ctx, compile), c);
  }

  /**
   * The decision keeps exactly one music action when any matched (none
   * otherwise): the earliest of maximal kind score and then maximal priority.
   */
  lemma DecisionKeepsBestMusic(rulesConfig: Value, d: Donation, ctx: Context, compile: RegexCompiler)
    ensures var music := Select(Matched(rulesConfig, d, ctx, compile), ActionChannel, Music);
      Select(Decision(rulesConfig, d, ctx, compile), ActionChannel, Music)
        == if music == [] then [] else [music[BestIndex(music, MusicScore, Priority)]]
  {
    var music := Select(Matched(rulesConfig, d, ctx, compile), ActionChannel, Music);
    var out := Select(Decision(rulesConfig, d, ctx, compile), ActionChannel, Music);
    DecisionChannel(rulesConfig, d, ctx, compile, Music);
    if music == [] {
      assert |out| == 0;
    } else {
      SingletonMultiset(out, music[BestIndex(music, MusicScore, Priority)]);
    }
  }

  /** Every matched action outside the music channel is kept, and nothing else is added. */
  lemma DecisionKeepsOtherChannels(rulesConfig: Value, d: Donation, ctx: Context, compile: RegexCompiler, c: Channel)
    requires c != Music
    ensures multiset(Select(Decision(rulesConfig, d, ctx, compile), ActionChannel, c))
      == multiset(Select(Matched(rulesConfig, d, ctx, compile), ActionChannel, c))
  {
    DecisionChannel(rulesConfig, d, ctx, compile, c);
  }

  /**
   * The decision is sorted by priority, highest first, and actions of equal
   * priority keep the grouped order: channels by first appearance, collection
   * order inside a channel.
   */
  lemma DecisionOrder(rulesConfig: Value, d: Donation, ctx: Context, compile: RegexCompiler, p: real)
    ensures SortedDesc(Decision(rulesConfig, d, ctx, compile), Priority)
    ensures WithKey(Decision(rulesConfig, d, ctx, compile), Priority, p)
      == WithKey(Grouped(Matched(rulesConfig, d, ctx, compile)), Priority, p)
  {
    SortKeepsTies(Grouped(Matched(rulesConfig, d, ctx, compile)), Priority, p);
  }

  // ----------------------------------------------------------- decideActions

  /** `decideActions(donation, ctx, rulesConfig)` */
  method DecideActions(rulesConfig: Value, d: Donation, ctx: Context, compile: RegexCompiler)
    returns (resolved: seq<Value>)
    ensures resolved == Decision(rulesConfig, d, ctx, compile)
  {
    var matched := CollectMatched(RulesOf(rulesConfig), d, ctx, compile);
    var order, byChannel := GroupBy(matched, ActionChannel);
    resolved := ResolveChannels(matched, order, byChannel);
    resolved := SortDesc(resolved, Priority);
  }

  /** The third loop of `decideActions`: each channel's resolution, in key order. */
  method ResolveChannels(matched: seq<Value>, order: seq<Channel>, byChannel: map<Channel, seq<Value>>)
    returns (resolved: seq<Value>)
    requires forall c :: c in order ==> c in byChannel && byChannel[c] == Select(matched, ActionChannel, c)
    ensures resolved == Regroup(matched, order, ActionChannel, Resolve)
  {
    resolved := [];
    var t := 0;
    while t < |order|
      invariant 0 <= t <= |order|
      invariant resolved == Regroup(matched, order[..t], ActionChannel, Resolve)
    {
      var ch := order[t];
      assert byChannel[ch] == Select(matched, ActionChannel, ch);
      var part := ResolveChannel(ch, byChannel[ch]);
      RegroupPrefix(matched, order, t, ActionChannel, Resolve);
      resolved := resolved + part;
      t := t + 1;
    }
    assert order[..t] == order;
  }

  /** The body of the third loop: the best music action, or the channel's actions sorted by priority. */
  method ResolveChannel(ch: Channel, arr: seq<Value>) returns (part: seq<Value>)
    ensures part == Resolve(ch, arr)
  {
    part := [];
    if ch == Music {
      if |arr| > 0 {
        part := [arr[BestIndex(arr, MusicScore, Priority)]];
      }
    } else {
      part := SortDesc(arr, Priority);
    }
  }

  /** The first loop of `decideActions`: collecting the stamped actions of matching rules. */
  method CollectMatched(rules: seq<Value>, d: Donation, ctx: Context, compile: RegexCompiler)
    returns (matched: seq<Value>)
    ensures matched == Collect(rules, d, ctx, compile)
  {
    matched := [];
    var i := 0;
    while i < |rules|
      invariant 0 <= i <= |rules|
      invariant matched == FlatMap(rules[..i], Contribution(d, ctx, compile))
    {
      var r := rules[i];
      assert rules[..i + 1][..i] == rules[..i];
      if MatchRule(r, d, ctx, compile) {
        var stamped := StampActions(r);
        matched := matched + stamped;
      }
      i := i + 1;
    }
    assert rules[..i] == rules;
  }

  /** The inner loop of the first loop: each action object of a matching rule, stamped. */
  method StampActions(r: Value) returns (stamped: seq<Value>)
    ensures stamped == StampAll(RuleActions(r), r)
  {
    var actions := RuleActions(r);
    stamped := [];
    var j := 0;
    while j < |actions|
      invariant 0 <= j <= |actions|
      invariant stamped == FilterMap(actions[..j], IsAction, Stamper(r))
    {
      var a := actions[j];
      FilterMapPrefix(actions, j, IsAction, Stamper(r));
      if IsAction(a) {
        stamped := stamped + [Stamper(r)(a)];
      }
      j := j + 1;
    }
    assert actions[..j] == actions;
  }
}
