// The LivePix webhook handler of the server (src/index.js, handleLivePixWebhookEvent):
// the stable donation id that makes a re-delivered event a duplicate, and the routing of a
// webhook body to the donation pipeline, to the log, or to the API lookup.

module Webhook {
  import opened Opt
  import opened Js
  import opened Records
  import LivePix
  import Rules
  import State
  import Dispatcher

  // ------------------------------------------------------------------ safe

  /** The characters `[a-z0-9_-]` matches case-insensitively: ASCII letters, digits, `_` and `-`. */
  predicate SafeChar(c: char) {
    ('a' <= c <= 'z') || ('A' <= c <= 'Z') || ('0' <= c <= '9') || c == '_' || c == '-'
  }

  predicate AllSafe(s: string) {
    forall i :: 0 <= i < |s| ==> SafeChar(s[i])
  }

  /** `s` without its leading run of unsafe characters. */
  function SkipUnsafe(s: string): (r: string)
    ensures |r| <= |s|
    ensures r == [] || SafeChar(r[0])
  {
    if s != [] && !SafeChar(s[0]) then SkipUnsafe(s[1..]) else s
  }

  /** `s.replace(/[^a-z0-9_-]+/gi, "_")`: every maximal run of unsafe characters becomes one `_`. */
  function Safe(s: string): string
    decreases |s|
  {
    if s == [] then []
    else if SafeChar(s[0]) then [s[0]] + Safe(s[1..])
    else "_" + Safe(SkipUnsafe(s[1..]))
  }

  /** The result holds safe characters only, is never longer, and is empty exactly for the empty string. */
  lemma {:induction false} SafeIsSafe(s: string)
    ensures AllSafe(Safe(s))
    ensures |Safe(s)| <= |s|
    ensures Safe(s) == [] <==> s == []
    decreases |s|
  {
    if s != [] {
      if SafeChar(s[0]) {
        SafeIsSafe(s[1..]);
      } else {
        SafeIsSafe(SkipUnsafe(s[1..]));
      }
    }
  }

  /** A string of safe characters is left as it is. */
  lemma {:induction false} SafeKeepsSafe(s: string)
    requires AllSafe(s)
    ensures Safe(s) == s
    decreases |s|
  {
    if s != [] {
      assert SafeChar(s[0]);
      SafeKeepsSafe(s[1..]);
    }
  }

  /** Applying `safe` twice changes nothing more. */
  lemma SafeIdempotent(s: string)
    ensures Safe(Safe(s)) == Safe(s)
  {
    SafeIsSafe(s);
    SafeKeepsSafe(Safe(s));
  }

  lemma {:induction false} SkipUnsafeRun(u: string, b: string)
    requires forall i :: 0 <= i < |u| ==> !SafeChar(u[i])
    requires b == [] || SafeChar(b[0])
    ensures SkipUnsafe(u + b) == b
    decreases |u|
  {
    if u != [] {
      assert (u + b)[1..] == u[1..] + b;
      SkipUnsafeRun(u[1..], b);
    } else {
      assert u + b == b;
    }
  }

  /** A whole run of unsafe characters, however long, turns into a single `_`. */
  lemma RunCollapses(u: string, b: string)
    requires u != [] && forall i :: 0 <= i < |u| ==> !SafeChar(u[i])
    requires b == [] || SafeChar(b[0])
    ensures Safe(u + b) == "_" + Safe(b)
  {
    assert (u + b)[0] == u[0];
    assert (u + b)[1..] == u[1..] + b;
    SkipUnsafeRun(u[1..], b);
  }

  /** A safe character is copied, and the rest is rewritten on its own. */
  lemma SafeCharCopied(c: char, b: string)
    requires SafeChar(c)
    ensures Safe([c] + b) == [c] + Safe(b)
  {
    assert ([c] + b)[1..] == b;
  }

  // ------------------------------------------------------------- stable id

  /**
   * `lp_<type>_<id>` when the body names an event, else `lp_<externalId>` when it carries an
   * external id, else none (and the handler draws a fresh id).
   */
  function StableId(ref: Option<LivePix.WebhookRef>, externalId: Option<string>): (r: Option<string>)
    ensures ref.Some? ==> r == Some("lp_" + Safe(ref.value.eventType) + "_" + Safe(ref.value.id))
    ensures ref.None? && externalId.Some? && externalId.value != "" ==> r == Some("lp_" + Safe(externalId.value))
    ensures ref.None? && (externalId.None? || externalId.value == "") ==> r.None?
  {
    if ref.Some? then Some("lp_" + Safe(ref.value.eventType) + "_" + Safe(ref.value.id))
    else if externalId.Some? && externalId.value != "" then Some("lp_" + Safe(externalId.value))
    else None
  }

  lemma AllSafeJoin(a: string, b: string)
    requires AllSafe(a) && AllSafe(b)
    ensures AllSafe(a + b)
  {
    forall k | 0 <= k < |a + b|
      ensures SafeChar((a + b)[k])
    {
      if k >= |a| {
        assert (a + b)[k] == b[k - |a|];
      }
    }
  }

  /** A stable id starts with `lp_` and holds only safe characters. */
  lemma StableIdShape(ref: Option<LivePix.WebhookRef>, externalId: Option<string>)
    requires StableId(ref, externalId).Some?
    ensures var id := StableId(ref, externalId).value;
      |id| > 3 && id[..3] == "lp_" && AllSafe(id)
  {
    var head := "lp_";
    assert AllSafe(head) by {
      assert SafeChar(head[0]) && SafeChar(head[1]) && SafeChar(head[2]);
    }
    if ref.Some? {
      var t, i := Safe(ref.value.eventType), Safe(ref.value.id);
      SafeIsSafe(ref.value.eventType);
      SafeIsSafe(ref.value.id);
      assert AllSafe("_") by {
        assert SafeChar("_"[0]);
      }
      AllSafeJoin(head, t);
      AllSafeJoin(head + t, "_");
      AllSafeJoin(head + t + "_", i);
      assert (head + t + "_" + i)[..3] == head;
    } else {
      var e := Safe(externalId.value);
      SafeIsSafe(externalId.value);
      AllSafeJoin(head, e);
      assert (head + e)[..3] == head;
    }
  }

  /** An event type and id already made of safe characters are kept verbatim in the id. */
  lemma StableIdKeepsSafeRef(ref: LivePix.WebhookRef, externalId: Option<string>)
    requires AllSafe(ref.eventType) && AllSafe(ref.id)
    ensures StableId(Some(ref), externalId) == Some("lp_" + ref.eventType + "_" + ref.id)
  {
    SafeKeepsSafe(ref.eventType);
    SafeKeepsSafe(ref.id);
  }

  /**
   * A re-delivery of an event (a body naming the same event, or carrying the same external id
   * when it names none) gets the same id, whatever else the body says.
   */
  lemma RedeliverySameId(body1: Value, body2: Value)
    requires LivePix.ExtractWebhookRef(body1) == LivePix.ExtractWebhookRef(body2)
    requires LivePix.ExtractWebhookRef(body1).None? ==> LivePix.ExtractExternalId(body1) == LivePix.ExtractExternalId(body2)
    ensures StableId(LivePix.ExtractWebhookRef(body1), LivePix.ExtractExternalId(body1))
         == StableId(LivePix.ExtractWebhookRef(body2), LivePix.ExtractExternalId(body2))
  {
  }

  // ----------------------------------------------------------------- route

  /** What the handler does with a webhook body. */
  datatype Route =
    | Process(donation: Donation)
    /** logged as `LivePix webhook ignored: <reason>` */
    | Ignore(reason: string)
    /** the body names an event but no API credentials are configured */
    | MissingCredentials(ref: LivePix.WebhookRef)
    /** the body names an event to fetch from the LivePix API */
    | ApiLookup(ref: LivePix.WebhookRef)

  /** The donation handed to `processDonation` for an accepted payment. */
  function DonationFrom(p: LivePix.Payment, stableId: Option<string>, freshId: string, now: int): Donation {
    Donation(if stableId.Some? then stableId.value else freshId, now, p.value, p.message, p.sender, p.status)
  }

  /** `body || {}` */
  function BodyOf(body: Value): (b: Value)
    ensures !Nullish(b)
  {
    Or(body, Obj([]))
  }

  /** The branches of the handler once `extractDonation` has judged the body `b`. */
  function Routed(b: Value, extracted: LivePix.Extraction, apiEnabled: bool, now: int, freshId: string): Route {
    match extracted
    case Accepted(p) =>
      Process(DonationFrom(p, StableId(LivePix.ExtractWebhookRef(b), LivePix.ExtractExternalId(b)), freshId, now))
    case Rejected(reason) =>
      var ref := LivePix.ExtractWebhookRef(b);
      if ref.None? then Ignore(if reason != "" then reason else "unrecognized payload")
      else if !apiEnabled then MissingCredentials(ref.value)
      else ApiLookup(ref.value)
  }

  /** The route `handleLivePixWebhookEvent(body)` takes; `freshId` is `newId("don")`, `now` the clock. */
  function RouteOf(body: Value, livepixConfig: Value, apiEnabled: bool, now: int, freshId: string): Route {
    Routed(BodyOf(body), LivePix.DonationOf(BodyOf(body), livepixConfig), apiEnabled, now, freshId)
  }

  /** An accepted payment always reaches the pipeline, with the payment's fields and the clock's time. */
  lemma AcceptedIsProcessed(b: Value, e: LivePix.Extraction, apiEnabled: bool, now: int, freshId: string)
    ensures Routed(b, e, apiEnabled, now, freshId).Process? <==> e.Accepted?
    ensures e.Accepted? ==>
      var d := Routed(b, e, apiEnabled, now, freshId).donation;
      d.at == now && d.value == e.donation.value && d.message == e.donation.message
      && d.sender == e.donation.sender && d.status == e.donation.status
  {
  }

  /** The processed donation's id is the stable one when the body identifies its event, and the fresh one otherwise. */
  lemma ProcessedId(b: Value, e: LivePix.Extraction, apiEnabled: bool, now: int, freshId: string)
    requires e.Accepted?
    ensures var id := Routed(b, e, apiEnabled, now, freshId).donation.id;
      var s := StableId(LivePix.ExtractWebhookRef(b), LivePix.ExtractExternalId(b));
      (s.Some? ==> id == s.value) && (s.None? ==> id == freshId)
  {
  }

  /** A rejected body without an event reference is ignored with the extraction's reason. */
  lemma RejectedWithoutRef(b: Value, e: LivePix.Extraction, apiEnabled: bool, now: int, freshId: string)
    requires e.Rejected? && LivePix.ExtractWebhookRef(b).None?
    ensures Routed(b, e, apiEnabled, now, freshId) ==
      Ignore(if e.reason != "" then e.reason else "unrecognized payload")
  {
  }

  /** A rejected body that names an event needs the API: refused without credentials, looked up with them. */
  lemma RejectedWithRef(b: Value, e: LivePix.Extraction, apiEnabled: bool, now: int, freshId: string)
    requires e.Rejected? && LivePix.ExtractWebhookRef(b).Some?
    ensures Routed(b, e, apiEnabled, now, freshId) ==
      (if apiEnabled then ApiLookup(LivePix.ExtractWebhookRef(b).value)
       else MissingCredentials(LivePix.ExtractWebhookRef(b).value))
  {
  }

  /** `extractDonation` never gives an empty reason, so the fallback text is never used. */
  lemma ReasonNeverEmpty(cfg: Value, status: string, amount: Option<real>, messageRaw: Value, senderRaw: Value)
    ensures LivePix.Decide(cfg, status, amount, messageRaw, senderRaw).Rejected? ==>
      LivePix.Decide(cfg, status, amount, messageRaw, senderRaw).reason != ""
  {
  }

  // --------------------------------------------------------------- handler

  /** What the handler did: the processed donation with its results (`None` for a duplicate), or the route it stopped at. */
  datatype Handled = Processed(donation: Donation, results: Option<seq<Dispatcher.ExecEntry>>) | Stopped(route: Route)

  /** The part of `handleLivePixWebhookEvent(body)` before any donation is processed: extraction, then the branches. */
  method Classify(body: Value, livepixConfig: Value, apiEnabled: bool, now: int, freshId: string) returns (r: Route)
    ensures r == RouteOf(body, livepixConfig, apiEnabled, now, freshId)
  {
    var b := BodyOf(body);
    var extracted := LivePix.ExtractDonation(b, livepixConfig);
    r := Routed(b, extracted, apiEnabled, now, freshId);
  }

  /** What the handler does once it knows the route: only a `Process` route reaches the pipeline. */
  method Deliver(p: Dispatcher.Pipeline, route: Route, rulesConfig: Value, env: Dispatcher.Env)
    returns (h: Handled, ghost calls: seq<Dispatcher.Call>, ghost ctx: Rules.Context,
             ghost actions: seq<Value>, ghost entry: DonationEntry, ghost sent: seq<Dispatcher.Broadcast>)
    requires p.Valid()
    modifies p, p.state, p.cooldowns, p.music
    ensures p.Valid()
    ensures !route.Process? ==>
      && h == Stopped(route)
      && p.state.donations == old(p.state.donations) && p.cooldowns.last == old(p.cooldowns.last)
      && p.state.topDonation == old(p.state.topDonation) && p.state.current == old(p.state.current)
      && p.state.queue == old(p.state.queue) && p.state.lastError == old(p.state.lastError)
      && p.state.donationIds == old(p.state.donationIds) && p.state.lastWebhookAt == old(p.state.lastWebhookAt)
      && p.music.emitted == old(p.music.emitted)
      && p.emitted == old(p.emitted) && p.openedUrls == old(p.openedUrls)
    ensures route.Process? ==>
      && h.Processed? && h.donation == route.donation
      && ctx == Dispatcher.ContextFor(h.donation, rulesConfig, env, old(p.state.topDonation))
      && actions == Rules.Decision(rulesConfig, h.donation, ctx, env.compile)
      && entry == Dispatcher.EntryFor(h.donation, ctx, actions)
      && (h.results.None? <==> old(p.state.Seen(h.donation.id)))
    ensures route.Process? && h.results.None? ==>
      && p.cooldowns.last == old(p.cooldowns.last) && p.state.donations == old(p.state.donations)
      && p.state.topDonation == old(p.state.topDonation)
      && p.state.current == old(p.state.current) && p.state.queue == old(p.state.queue)
      && p.state.donationIds == old(p.state.donationIds) && p.state.lastWebhookAt == old(p.state.lastWebhookAt)
      && p.state.lastError == old(p.state.lastError) && p.music.emitted == old(p.music.emitted)
      && p.emitted == old(p.emitted) && p.openedUrls == old(p.openedUrls)
    ensures route.Process? && h.results.Some? ==>
      && p.state.donations == State.Admit(old(p.state.donations), entry, p.state.maxDonations)
      && p.state.topDonation == State.NextTop(old(p.state.topDonation), entry)
      && |calls| == |actions| && Dispatcher.Recorded(actions, calls, h.results.value)
      && Dispatcher.AsExpected(old(p.cooldowns.last), Dispatcher.SlotsOf(actions, rulesConfig), actions, calls, entry, ctx, env)
      && p.cooldowns.last == Dispatcher.GateAfter(old(p.cooldowns.last), Dispatcher.SlotsOf(actions, rulesConfig), env.now)
      && p.state.lastError == Dispatcher.ErrorAfter(old(p.state.lastError), calls, env)
      && old(p.emitted) + [Dispatcher.DonationNew(entry)] <= sent
      && sent == old(p.emitted) + Dispatcher.Opening(old(p.state.topDonation), entry)
                 + Dispatcher.SoundsOf(old(p.cooldowns.last), Dispatcher.SlotsOf(actions, rulesConfig), actions, |actions|, env.now)
      && p.emitted == sent + [Dispatcher.DonationActions(h.donation.id, env.now, h.results.value)]
      && p.openedUrls == old(p.openedUrls) + Dispatcher.UrlsOf(old(p.cooldowns.last), Dispatcher.SlotsOf(actions, rulesConfig), actions, ctx, |actions|, env.now)
  {
    if route.Process? {
      var results;
      results, calls, ctx, actions, entry, sent := p.ProcessDonation(route.donation, rulesConfig, env);
      h := Processed(route.donation, results);
    } else {
      h := Stopped(route);
      calls, actions, sent := [], [], [];
      ctx :| true;
      entry :| true;
    }
  }

  /**
   * `handleLivePixWebhookEvent(body)` up to the API lookup: an accepted payment goes through
   * `processDonation` under its stable id; anything else leaves the pipeline untouched.
   */
  method HandleLivePixEvent(p: Dispatcher.Pipeline, body: Value, rulesConfig: Value, livepixConfig: Value,
                            apiEnabled: bool, env: Dispatcher.Env, freshId: string)
    returns (h: Handled, ghost route: Route, ghost calls: seq<Dispatcher.Call>, ghost ctx: Rules.Context,
             ghost actions: seq<Value>, ghost entry: DonationEntry, ghost sent: seq<Dispatcher.Broadcast>)
    requires p.Valid()
    modifies p, p.state, p.cooldowns, p.music
    ensures p.Valid()
    ensures route == RouteOf(body, livepixConfig, apiEnabled, env.now, freshId)
    ensures !route.Process? ==>
      && h == Stopped(route)
      && p.state.donations == old(p.state.donations) && p.cooldowns.last == old(p.cooldowns.last)
      && p.state.topDonation == old(p.state.topDonation) && p.state.current == old(p.state.current)
      && p.state.queue == old(p.state.queue) && p.state.lastError == old(p.state.lastError)
      && p.state.donationIds == old(p.state.donationIds) && p.state.lastWebhookAt == old(p.state.lastWebhookAt)
      && p.music.emitted == old(p.music.emitted)
      && p.emitted == old(p.emitted) && p.openedUrls == old(p.openedUrls)
    ensures route.Process? ==>
      && h.Processed? && h.donation == route.donation
      && ctx == Dispatcher.ContextFor(h.donation, rulesConfig, env, old(p.state.topDonation))
      && actions == Rules.Decision(rulesConfig, h.donation, ctx, env.compile)
      && entry == Dispatcher.EntryFor(h.donation, ctx, actions)
      && (h.results.None? <==> old(p.state.Seen(h.donation.id)))
    ensures route.Process? && h.results.None? ==>
      && p.cooldowns.last == old(p.cooldowns.last) && p.state.donations == old(p.state.donations)
      && p.state.topDonation == old(p.state.topDonation)
      && p.state.current == old(p.state.current) && p.state.queue == old(p.state.queue)
      && p.state.donationIds == old(p.state.donationIds) && p.state.lastWebhookAt == old(p.state.lastWebhookAt)
      && p.state.lastError == old(p.state.lastError) && p.music.emitted == old(p.music.emitted)
      && p.emitted == old(p.emitted) && p.openedUrls == old(p.openedUrls)
    ensures route.Process? && h.results.Some? ==>
      && p.state.donations == State.Admit(old(p.state.donations), entry, p.state.maxDonations)
      && p.state.topDonation == State.NextTop(old(p.state.topDonation), entry)
      && |calls| == |actions| && Dispatcher.Recorded(actions, calls, h.results.value)
      && Dispatcher.AsExpected(old(p.cooldowns.last), Dispatcher.SlotsOf(actions, rulesConfig), actions, calls, entry, ctx, env)
      && p.cooldowns.last == Dispatcher.GateAfter(old(p.cooldowns.last), Dispatcher.SlotsOf(actions, rulesConfig), env.now)
      && p.state.lastError == Dispatcher.ErrorAfter(old(p.state.lastError), calls, env)
      && old(p.emitted) + [Dispatcher.DonationNew(entry)] <= sent
      && sent == old(p.emitted) + Dispatcher.Opening(old(p.state.topDonation), entry)
                 + Dispatcher.SoundsOf(old(p.cooldowns.last), Dispatcher.SlotsOf(actions, rulesConfig), actions, |actions|, env.now)
      && p.emitted == sent + [Dispatcher.DonationActions(h.donation.id, env.now, h.results.value)]
      && p.openedUrls == old(p.openedUrls) + Dispatcher.UrlsOf(old(p.cooldowns.last), Dispatcher.SlotsOf(actions, rulesConfig), actions, ctx, |actions|, env.now)
  {
    var r := Classify(body, livepixConfig, apiEnabled, env.now, freshId);
    route := r;
    h, calls, ctx, actions, entry, sent := Deliver(p, r, rulesConfig, env);
  }
}
