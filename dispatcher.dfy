/**
 * The donation pipeline of `src/index.js`: turning an accepted LivePix
 * event into a donation with a stable id, recording it in the application
 * state, and running the decided actions one after the other behind the
 * cooldown gate.
 *
 * The world outside the process is the `Env` value: URL parsing, the
 * regular-expression engine, the Minecraft RCON client, the clock and the
 * ids handed out for tracks and errors. Socket broadcasts and opened URLs
 * are recorded in ghost logs.
 */
module Dispatcher {
  import opened Opt
  import opened Text
  import opened Js
  import opened Records
  import opened Utils
  import opened Rules
  import opened State
  import opened Cooldowns
  import opened LivePix
  import Music

  // -------------------------------------------------------- action results

  /** `{ok: true}`, the cooldown skip, `{ok: false, reason}`, or RCON's `{ok: true, response}`. */
  datatype Outcome = Ran | Skipped | Failed(reason: string) | Answered(response: Value)

  /** A call that returned an outcome, or threw an error with this message. */
  datatype Call = Returned(outcome: Outcome) | Threw(message: string)

  /** `minecraft.send(command)` and `minecraft.sendMulti(command, count, intervalMs)`. */
  type Rcon = Value -> Call
  type RconMulti = (Value, Value, Value) -> Call

  /** Everything the pipeline takes from outside the process. */
  datatype Env = Env(
    parse: UrlParser, compile: RegexCompiler, rcon: Rcon, rconMulti: RconMulti,
    now: int, trackId: nat -> string, errorId: nat -> string)

  /** `{type: action.type, ...res}` for one executed action. */
  datatype ExecEntry = ExecEntry(actionType: Value, outcome: Outcome)

  /** A broadcast: `donation:new`, `donation:top`, `state:update`, `sfx:play` or `donation:actions`. */
  datatype Broadcast =
    | DonationNew(entry: DonationEntry)
    | DonationTop(top: Option<TopDonation>)
    | StateUpdate
    | SfxPlay(src: string, volume: Value)
    | DonationActions(donationId: string, at: int, results: seq<ExecEntry>)

  /** The entry recorded for an action: a thrown error becomes `{ok: false, reason: e.message}`. */
  function EntryOf(action: Value, call: Call): (e: ExecEntry)
    ensures e.actionType == Get(action, "type")
    ensures call.Threw? ==> e.outcome == Failed(call.message)
    ensures call.Returned? ==> e.outcome == call.outcome
  {
    ExecEntry(Get(action, "type"), if call.Returned? then call.outcome else Failed(call.message))
  }

  // --------------------------------------------------------------- cooldowns

  /** `action.cooldownKey || action.type` */
  function CooldownKey(action: Value): Value {
    Or(Get(action, "cooldownKey"), Get(action, "type"))
  }

  /** `typeof action.cooldownMs === "number" ? action.cooldownMs : Number(rules?.cooldowns?.[action.type]) || 0` */
  function CooldownMs(action: Value, rulesConfig: Value): Value {
    var own := Get(action, "cooldownMs");
    if own.Num? then own
    else Num(NumberOrZero(Get(Get(rulesConfig, "cooldowns"), ToStr(Get(action, "type")))))
  }

  /** An action without its own key shares the cooldown of its type. */
  lemma KeyDefaultsToType(action: Value)
    requires !Truthy(Get(action, "cooldownKey"))
    ensures CooldownKey(action) == Get(action, "type")
  {
  }

  /** A numeric `cooldownMs` on the action is the window, whatever the rules say. */
  lemma OwnWindowWins(action: Value, rulesConfig: Value, n: real)
    requires Get(action, "cooldownMs") == Num(n)
    ensures Window(CooldownMs(action, rulesConfig)) == n
  {
  }

  /** Otherwise the rules' window for the type applies, and a missing or non-numeric one is no window. */
  lemma RulesWindowApplies(action: Value, rulesConfig: Value)
    requires !Get(action, "cooldownMs").Num?
    ensures Window(CooldownMs(action, rulesConfig)) == NumberOrZero(Get(Get(rulesConfig, "cooldowns"), ToStr(Get(action, "type"))))
    ensures ToNumber(Get(Get(rulesConfig, "cooldowns"), ToStr(Get(action, "type")))).None? ==>
      Allows(map[], CooldownKey(action), Window(CooldownMs(action, rulesConfig)), 0)
  {
  }

  /** The cooldown an action is checked against: its key and its window. */
  datatype Slot = Slot(key: Value, window: real)

  function SlotOf(action: Value, rulesConfig: Value): Slot {
    Slot(CooldownKey(action), Window(CooldownMs(action, rulesConfig)))
  }

  function SlotsOf(actions: seq<Value>, rulesConfig: Value): (r: seq<Slot>)
    ensures |r| == |actions| && forall i :: 0 <= i < |actions| ==> r[i] == SlotOf(actions[i], rulesConfig)
  {
    seq(|actions|, i requires 0 <= i < |actions| => SlotOf(actions[i], rulesConfig))
  }

  /** Whether the gate lets an action with this slot run at `now`. */
  predicate Admits(last: map<Value, int>, slot: Slot, now: int) {
    Allows(last, slot.key, slot.window, now)
  }

  /** The cooldown map after actions with these slots have been tried in order: each admitted one marks its key. */
  function GateAfter(last: map<Value, int>, slots: seq<Slot>, now: int): map<Value, int>
    decreases |slots|
  {
    if slots == [] then last
    else
      var n := |slots| - 1;
      var m := GateAfter(last, slots[..n], now);
      if Admits(m, slots[n], now) then m[slots[n].key := now] else m
  }

  /** The gate as the `k`-th action finds it. */
  function GateAt(last: map<Value, int>, slots: seq<Slot>, k: nat, now: int): map<Value, int>
    requires k <= |slots|
  {
    GateAfter(last, slots[..k], now)
  }

  /** An action that ran keeps its key marked for the rest of the donation. */
  lemma {:induction false} MarkPersists(last: map<Value, int>, slots: seq<Slot>, now: int, i: nat)
    requires i < |slots| && Admits(GateAt(last, slots, i, now), slots[i], now)
    ensures slots[i].key in GateAfter(last, slots, now)
    ensures GateAfter(last, slots, now)[slots[i].key] == now
    decreases |slots|
  {
    var n := |slots| - 1;
    if i < n {
      assert slots[..n][..i] == slots[..i];
      assert slots[..n][i] == slots[i];
      MarkPersists(last, slots[..n], now, i);
    } else {
      assert slots[..i] == slots[..n];
    }
  }

  /**
   * At one clock reading, a later action under the same key with a positive
   * window is skipped once an earlier one ran. The pipeline reads the clock
   * once per donation, so this holds within a donation of the model.
   */
  lemma SameKeyRunsOnce(last: map<Value, int>, slots: seq<Slot>, now: int, i: nat, j: nat)
    requires i < j < |slots| && slots[i].key == slots[j].key
    requires Admits(GateAt(last, slots, i, now), slots[i], now)
    requires slots[j].window > 0.0
    ensures !Admits(GateAt(last, slots, j, now), slots[j], now)
  {
    var pre := slots[..j];
    assert pre[..i] == slots[..i] && pre[i] == slots[i];
    MarkPersists(last, pre, now, i);
  }

  /** A key no earlier action used is checked against the map as it was before the donation. */
  lemma {:induction false} UntouchedKey(last: map<Value, int>, slots: seq<Slot>, now: int, key: Value)
    requires forall i :: 0 <= i < |slots| ==> slots[i].key != key
    ensures (key in GateAfter(last, slots, now)) == (key in last)
    ensures key in last ==> GateAfter(last, slots, now)[key] == last[key]
    decreases |slots|
  {
    if slots != [] {
      var n := |slots| - 1;
      assert forall i :: 0 <= i < n ==> slots[..n][i] == slots[i];
      UntouchedKey(last, slots[..n], now, key);
    }
  }

  // ---------------------------------------------------------------- dispatch

  /** The track an action would play or queue: only `music.playNow` passes its `vip` flag. */
  function TrackFor(action: Value, entry: DonationEntry, ctx: Context, env: Env, k: nat): Option<Track> {
    var vip := Get(action, "type") == Str("music.playNow") && Truthy(Get(action, "vip"));
    Music.BuildTrack(entry, ctx, vip, env.trackId(k), env.now)
  }

  /** `String(action.src || "").trim()` */
  function SoundSource(action: Value): string {
    Trim(ToStrOrEmpty(Get(action, "src")))
  }

  /** What the type switch of `executeAction` answers for an admitted action (the `k`-th of its donation). */
  function Reply(action: Value, entry: DonationEntry, ctx: Context, env: Env, k: nat): Call {
    var t := Get(action, "type");
    if t == Str("music.playNow") || t == Str("music.enqueue") then
      if TrackFor(action, entry, ctx, env, k).None? then Returned(Failed("track_not_supported")) else Returned(Ran)
    else if t == Str("minecraft.rcon") then env.rcon(Get(action, "command"))
    else if t == Str("minecraft.rconMulti") then env.rconMulti(Get(action, "command"), Get(action, "count"), Get(action, "intervalMs"))
    else if t == Str("system.openUrl") then
      if !HasUrl(ctx) then Returned(Failed("missing_url")) else Returned(Ran)
    else if t == Str("sfx.play") then
      if SoundSource(action) == "" then Returned(Failed("missing_src")) else Returned(Ran)
    else Returned(Failed("unknown_action:" + ToStr(t)))
  }

  /** The six types the switch knows. */
  predicate KnownType(t: Value) {
    t in {Str("music.playNow"), Str("music.enqueue"), Str("minecraft.rcon"), Str("minecraft.rconMulti"), Str("system.openUrl"), Str("sfx.play")}
  }

  /** Every other type, the OBS and outgoing-webhook types included, is answered `unknown_action:<type>`. */
  lemma UnknownTypeRefused(action: Value, entry: DonationEntry, ctx: Context, env: Env, k: nat)
    requires !KnownType(Get(action, "type"))
    ensures Reply(action, entry, ctx, env, k) == Returned(Failed("unknown_action:" + ToStr(Get(action, "type"))))
  {
  }

  /** `obs.*` and `webhook.request` are no case of the switch. */
  lemma ObsAndWebhookAreUnknown(t: string)
    requires StartsWith(t, "obs.") || t == "webhook.request"
    ensures !KnownType(Str(t))
  {
    if StartsWith(t, "obs.") {
      assert t[..4] == "obs.";
      assert t[0] == 'o';
    }
  }

  /** A music action succeeds exactly when the context holds a playable URL. */
  lemma MusicNeedsVideo(action: Value, entry: DonationEntry, ctx: Context, env: Env, k: nat)
    requires Get(action, "type") == Str("music.playNow") || Get(action, "type") == Str("music.enqueue")
    ensures Reply(action, entry, ctx, env, k) == (if HasUrl(ctx) && Music.HasVideo(ctx) then Returned(Ran) else Returned(Failed("track_not_supported")))
  {
  }

  /** Opening a URL needs one in the context; playing a sound needs a non-blank source. */
  lemma OpenAndSoundGuards(action: Value, entry: DonationEntry, ctx: Context, env: Env, k: nat)
    ensures Get(action, "type") == Str("system.openUrl") ==>
      Reply(action, entry, ctx, env, k) == (if HasUrl(ctx) then Returned(Ran) else Returned(Failed("missing_url")))
    ensures Get(action, "type") == Str("sfx.play") ==>
      Reply(action, entry, ctx, env, k) == (if SoundSource(action) != "" then Returned(Ran) else Returned(Failed("missing_src")))
  {
  }

  /** Only the RCON client can throw or answer with a response. */
  lemma OnlyRconThrows(action: Value, entry: DonationEntry, ctx: Context, env: Env, k: nat)
    requires Reply(action, entry, ctx, env, k).Threw? || Reply(action, entry, ctx, env, k) == Returned(Skipped)
      || (Reply(action, entry, ctx, env, k).Returned? && Reply(action, entry, ctx, env, k).outcome.Answered?)
    ensures Get(action, "type") == Str("minecraft.rcon") || Get(action, "type") == Str("minecraft.rconMulti")
  {
  }

  /** What the `k`-th action of a donation gets: the skip, or its reply. */
  function Expected(last: map<Value, int>, slots: seq<Slot>, actions: seq<Value>, k: nat, entry: DonationEntry,
                    ctx: Context, env: Env): Call
    requires |slots| == |actions| && k < |actions|
  {
    if Admits(GateAt(last, slots, k, env.now), slots[k], env.now)
    then Reply(actions[k], entry, ctx, env, k)
    else Returned(Skipped)
  }

  /** Whether the `k`-th action of a donation gets past the gate. */
  predicate AdmittedAt(last: map<Value, int>, slots: seq<Slot>, k: nat, now: int)
    requires k < |slots|
  {
    Admits(GateAt(last, slots, k, now), slots[k], now)
  }

  /** A `sfx.play` action with a non-blank source. */
  predicate PlaysSound(action: Value) {
    Get(action, "type") == Str("sfx.play") && SoundSource(action) != ""
  }

  /** The broadcast an admitted action makes itself: `sfx:play` for a sound with a source, else none. */
  function SoundOf(action: Value): seq<Broadcast> {
    if PlaysSound(action) then [SfxPlay(SoundSource(action), Get(action, "volume"))] else []
  }

  /** The URL an admitted action opens: the context's, for `system.openUrl`, else none. */
  function UrlOf(action: Value, ctx: Context): seq<string> {
    if Get(action, "type") == Str("system.openUrl") && HasUrl(ctx) then [ctx.url.value] else []
  }

  /** What the first `n` actions of a donation broadcast: the sound of each admitted one, in order. */
  function SoundsOf(last: map<Value, int>, slots: seq<Slot>, actions: seq<Value>, n: nat, now: int): seq<Broadcast>
    requires |slots| == |actions| && n <= |actions|
  {
    if n == 0 then []
    else SoundsOf(last, slots, actions, n - 1, now) + (if AdmittedAt(last, slots, n - 1, now) then SoundOf(actions[n - 1]) else [])
  }

  /** What the first `n` actions of a donation open: the URL of each admitted `system.openUrl`, in order. */
  function UrlsOf(last: map<Value, int>, slots: seq<Slot>, actions: seq<Value>, ctx: Context, n: nat, now: int): seq<string>
    requires |slots| == |actions| && n <= |actions|
  {
    if n == 0 then []
    else UrlsOf(last, slots, actions, ctx, n - 1, now) + (if AdmittedAt(last, slots, n - 1, now) then UrlOf(actions[n - 1], ctx) else [])
  }

  /** Every sound broadcast comes from an admitted `sfx.play` action with a source. */
  lemma {:induction false} SoundsAreAdmitted(last: map<Value, int>, slots: seq<Slot>, actions: seq<Value>, n: nat, now: int)
    requires |slots| == |actions| && n <= |actions|
    ensures forall b :: b in SoundsOf(last, slots, actions, n, now) ==>
      exists k :: 0 <= k < n && AdmittedAt(last, slots, k, now) && PlaysSound(actions[k])
        && b == SfxPlay(SoundSource(actions[k]), Get(actions[k], "volume"))
    decreases n
  {
    if n > 0 {
      var k := n - 1;
      SoundsAreAdmitted(last, slots, actions, k, now);
      var prev, step := SoundsOf(last, slots, actions, k, now), if AdmittedAt(last, slots, k, now) then SoundOf(actions[k]) else [];
      assert SoundsOf(last, slots, actions, n, now) == prev + step;
      forall b | b in step
        ensures AdmittedAt(last, slots, k, now) && PlaysSound(actions[k]) && b == SfxPlay(SoundSource(actions[k]), Get(actions[k], "volume"))
      {
      }
    }
  }

  /** Every admitted `sfx.play` action with a source is broadcast. */
  lemma {:induction false} AdmittedSoundsSent(last: map<Value, int>, slots: seq<Slot>, actions: seq<Value>, n: nat, now: int)
    requires |slots| == |actions| && n <= |actions|
    ensures forall k :: (0 <= k < n && AdmittedAt(last, slots, k, now) && PlaysSound(actions[k])) ==>
      SfxPlay(SoundSource(actions[k]), Get(actions[k], "volume")) in SoundsOf(last, slots, actions, n, now)
    decreases n
  {
    if n > 0 {
      var m := n - 1;
      AdmittedSoundsSent(last, slots, actions, m, now);
      var prev, step := SoundsOf(last, slots, actions, m, now), if AdmittedAt(last, slots, m, now) then SoundOf(actions[m]) else [];
      assert SoundsOf(last, slots, actions, n, now) == prev + step;
      forall k | 0 <= k < n && AdmittedAt(last, slots, k, now) && PlaysSound(actions[k])
        ensures SfxPlay(SoundSource(actions[k]), Get(actions[k], "volume")) in prev + step
      {
        if k == m {
          assert step == [SfxPlay(SoundSource(actions[k]), Get(actions[k], "volume"))];
        }
      }
    }
  }

  /** Every URL opened is the context's, by an admitted `system.openUrl`; and every admitted one opens it. */
  lemma {:induction false} UrlsAreAdmittedOpens(last: map<Value, int>, slots: seq<Slot>, actions: seq<Value>, ctx: Context, n: nat, now: int)
    requires |slots| == |actions| && n <= |actions|
    ensures forall u :: u in UrlsOf(last, slots, actions, ctx, n, now) ==>
      && HasUrl(ctx) && u == ctx.url.value
      && exists k :: 0 <= k < n && AdmittedAt(last, slots, k, now) && Get(actions[k], "type") == Str("system.openUrl")
    ensures forall k :: (0 <= k < n && AdmittedAt(last, slots, k, now) && Get(actions[k], "type") == Str("system.openUrl")
        && HasUrl(ctx)) ==> ctx.url.value in UrlsOf(last, slots, actions, ctx, n, now)
    decreases n
  {
    if n > 0 {
      UrlsAreAdmittedOpens(last, slots, actions, ctx, n - 1, now);
    }
  }

  /** The broadcasts of an admitted donation before its actions run: `donation:new`, `donation:top` when it beats the top, `state:update`. */
  function Opening(top: Option<TopDonation>, entry: DonationEntry): seq<Broadcast> {
    [DonationNew(entry)] + (if BeatsTop(top, entry) then [DonationTop(NextTop(top, entry))] else []) + [StateUpdate]
  }

  /** `lastError` after the calls: the last one that threw, if any. */
  function ErrorAfter(err: Option<ErrorRecord>, calls: seq<Call>, env: Env): Option<ErrorRecord>
    decreases |calls|
  {
    if calls == [] then err
    else
      var n := |calls| - 1;
      if calls[n].Threw? then Some(ErrorRecord(env.errorId(n), env.now, calls[n].message))
      else ErrorAfter(err, calls[..n], env)
  }

  /** No throw, no new error; otherwise the error is one of the thrown messages. */
  lemma {:induction false} ErrorAfterThrows(err: Option<ErrorRecord>, calls: seq<Call>, env: Env)
    ensures (forall k :: 0 <= k < |calls| ==> !calls[k].Threw?) ==> ErrorAfter(err, calls, env) == err
    ensures ErrorAfter(err, calls, env) != err ==>
      exists k :: 0 <= k < |calls| && calls[k].Threw? && ErrorAfter(err, calls, env) == Some(ErrorRecord(env.errorId(k), env.now, calls[k].message))
    decreases |calls|
  {
    if calls != [] {
      var n := |calls| - 1;
      ErrorAfterThrows(err, calls[..n], env);
      assert forall k :: 0 <= k < n ==> calls[..n][k] == calls[k];
    }
  }

  // --------------------------------------------------------- processDonation

  /** `parseDonationContext(donation, rules)` with `isNewTop` set against the top before this donation. */
  function ContextFor(d: Donation, rulesConfig: Value, env: Env, top: Option<TopDonation>): Context {
    ParseDonationContext(d, rulesConfig, env.parse).(isNewTop := top.None? || d.value > top.value.value)
  }

  /** `{type, ruleId: a._ruleId, priority: a._rulePriority}` */
  function ActionRefOf(a: Value): ActionRef {
    ActionRef(Get(a, "type"), Get(a, "_ruleId"), Get(a, "_rulePriority"))
  }

  /** `donationEntry`: the donation with its exposed URL and the summary of its actions. */
  function EntryFor(d: Donation, ctx: Context, actions: seq<Value>): (e: DonationEntry)
    ensures e.id == d.id && e.value == d.value && e.url == ctx.url && |e.actions| == |actions|
    ensures forall i :: 0 <= i < |actions| ==> e.actions[i] == ActionRefOf(actions[i])
  {
    DonationEntry(d.id, d.at, d.value, d.sender, d.message, d.status, ctx.url,
      seq(|actions|, i requires 0 <= i < |actions| => ActionRefOf(actions[i])))
  }

  /** The context's `isNewTop` is the judgement `addDonation` makes: strictly above the previous top. */
  lemma NewTopAgrees(d: Donation, rulesConfig: Value, env: Env, top: Option<TopDonation>, actions: seq<Value>)
    ensures ContextFor(d, rulesConfig, env, top).isNewTop == BeatsTop(top, EntryFor(d, ContextFor(d, rulesConfig, env, top), actions))
    ensures top.Some? && d.value == top.value.value ==> !ContextFor(d, rulesConfig, env, top).isNewTop
  {
  }

  /** The context `processDonation` builds against the top donation `top`, the actions decided for it and its list entry. */
  method Prepare(donation: Donation, rulesConfig: Value, env: Env, top: Option<TopDonation>)
    returns (ctx: Context, actions: seq<Value>, entry: DonationEntry)
    ensures ctx == ContextFor(donation, rulesConfig, env, top)
    ensures actions == Decision(rulesConfig, donation, ctx, env.compile)
    ensures entry == EntryFor(donation, ctx, actions)
  {
    ctx := ContextFor(donation, rulesConfig, env, top);
    actions := DecideActions(rulesConfig, donation, ctx, env.compile);
    entry := EntryFor(donation, ctx, actions);
  }

  class Pipeline {
    const state: AppState
    const cooldowns: Gate
    const music: Music.MusicManager
    ghost var emitted: seq<Broadcast>
    /** URLs handed to `openUrl`. */
    ghost var openedUrls: seq<string>

    ghost predicate Valid()
      reads this, state
    {
      music.state == state && state.Valid()
    }

    constructor(state: AppState, cooldowns: Gate, music: Music.MusicManager)
      requires music.state == state && state.Valid()
      ensures Valid()
      ensures this.state == state && this.cooldowns == cooldowns && this.music == music
      ensures emitted == [] && openedUrls == []
    {
      this.state := state;
      this.cooldowns := cooldowns;
      this.music := music;
      emitted := [];
      openedUrls := [];
    }

    /** `executeAction({action, donation, ctx})` for the `k`-th action of a donation: the gate, then the switch. */
    method ExecuteAction(action: Value, entry: DonationEntry, ctx: Context, rulesConfig: Value, env: Env, k: nat)
      returns (call: Call)
      requires Valid()
      modifies this, state, cooldowns, music
      ensures Valid()
      ensures !old(Admits(cooldowns.last, SlotOf(action, rulesConfig), env.now)) ==>
        && call == Returned(Skipped) && cooldowns.last == old(cooldowns.last)
        && state.current == old(state.current) && state.queue == old(state.queue)
        && emitted == old(emitted) && openedUrls == old(openedUrls) && music.emitted == old(music.emitted)
      ensures old(Admits(cooldowns.last, SlotOf(action, rulesConfig), env.now)) ==>
        && call == Reply(action, entry, ctx, env, k)
        && cooldowns.last == old(cooldowns.last)[CooldownKey(action) := env.now]
        && emitted == old(emitted) + SoundOf(action) && openedUrls == old(openedUrls) + UrlOf(action, ctx)
      ensures old(Admits(cooldowns.last, SlotOf(action, rulesConfig), env.now)) ==>
        && ((Get(action, "type") == Str("music.playNow") && TrackFor(action, entry, ctx, env, k).Some?) ==>
              state.current == TrackFor(action, entry, ctx, env, k))
        && ((Get(action, "type") == Str("music.enqueue") && TrackFor(action, entry, ctx, env, k).Some?) ==>
              Music.Pending(state.current, state.queue) == Music.Pending(old(state.current), old(state.queue)) + [TrackFor(action, entry, ctx, env, k).value])
        && ((Get(action, "type") !in {Str("music.playNow"), Str("music.enqueue")} || TrackFor(action, entry, ctx, env, k).None?) ==>
              state.current == old(state.current) && state.queue == old(state.queue) && music.emitted == old(music.emitted))
      ensures old(emitted) <= emitted
      ensures state.donations == old(state.donations) && state.donationIds == old(state.donationIds)
      ensures state.topDonation == old(state.topDonation) && state.lastWebhookAt == old(state.lastWebhookAt)
      ensures state.lastError == old(state.lastError)
    {
      var key := CooldownKey(action);
      var allowed := cooldowns.CanRun(key, CooldownMs(action, rulesConfig), env.now);
      if allowed {
        cooldowns.MarkRan(key, env.now);
        call := Dispatch(action, entry, ctx, env, k);
      } else {
        call := Returned(Skipped);
      }
    }

    /** The type switch of `executeAction`, once the gate has let the action through. */
    method Dispatch(action: Value, entry: DonationEntry, ctx: Context, env: Env, k: nat) returns (call: Call)
      requires Valid()
      modifies this, state, music
      ensures Valid()
      ensures call == Reply(action, entry, ctx, env, k)
      ensures (Get(action, "type") == Str("music.playNow") && TrackFor(action, entry, ctx, env, k).Some?) ==>
        state.current == TrackFor(action, entry, ctx, env, k)
      ensures (Get(action, "type") == Str("music.enqueue") && TrackFor(action, entry, ctx, env, k).Some?) ==>
        Music.Pending(state.current, state.queue) == Music.Pending(old(state.current), old(state.queue)) + [TrackFor(action, entry, ctx, env, k).value]
      ensures (Get(action, "type") !in {Str("music.playNow"), Str("music.enqueue")} || TrackFor(action, entry, ctx, env, k).None?) ==>
        state.current == old(state.current) && state.queue == old(state.queue) && music.emitted == old(music.emitted)
      ensures emitted == old(emitted) + SoundOf(action)
      ensures openedUrls == old(openedUrls) + UrlOf(action, ctx)
      ensures state.donations == old(state.donations) && state.donationIds == old(state.donationIds)
      ensures state.topDonation == old(state.topDonation) && state.lastWebhookAt == old(state.lastWebhookAt)
      ensures state.lastError == old(state.lastError)
    {
      var t := Get(action, "type");
      if t == Str("music.playNow") {
        var track := Music.BuildTrack(entry, ctx, Truthy(Get(action, "vip")), env.trackId(k), env.now);
        if track.None? {
          return Returned(Failed("track_not_supported"));
        }
        music.PlayNow(track);
        return Returned(Ran);
      } else if t == Str("music.enqueue") {
        var track := Music.BuildTrack(entry, ctx, false, env.trackId(k), env.now);
        if track.None? {
          return Returned(Failed("track_not_supported"));
        }
        music.Enqueue(track);
        return Returned(Ran);
      } else if t == Str("minecraft.rcon") {
        return env.rcon(Get(action, "command"));
      } else if t == Str("minecraft.rconMulti") {
        return env.rconMulti(Get(action, "command"), Get(action, "count"), Get(action, "intervalMs"));
      } else if t == Str("system.openUrl") {
        if !HasUrl(ctx) {
          return Returned(Failed("missing_url"));
        }
        openedUrls := openedUrls + [ctx.url.value];
        return Returned(Ran);
      } else if t == Str("sfx.play") {
        var src := Trim(ToStrOrEmpty(Get(action, "src")));
        if src == "" {
          return Returned(Failed("missing_src"));
        }
        emitted := emitted + [SfxPlay(src, Get(action, "volume"))];
        return Returned(Ran);
      }
      return Returned(Failed("unknown_action:" + ToStr(t)));
    }

    /** The `i`-th action of the loop tried against the gate: the gate, the broadcasts and the URLs opened move one step on. */
    method Attempt(actions: seq<Value>, i: nat, entry: DonationEntry, ctx: Context, rulesConfig: Value, env: Env,
                   ghost last0: map<Value, int>, ghost sent0: seq<Broadcast>, ghost opened0: seq<string>)
      returns (call: Call)
      requires Valid() && i < |actions|
      requires cooldowns.last == GateAt(last0, SlotsOf(actions, rulesConfig), i, env.now)
      requires emitted == sent0 + SoundsOf(last0, SlotsOf(actions, rulesConfig), actions, i, env.now)
      requires openedUrls == opened0 + UrlsOf(last0, SlotsOf(actions, rulesConfig), actions, ctx, i, env.now)
      modifies this, state, cooldowns, music
      ensures Valid()
      ensures call == Expected(last0, SlotsOf(actions, rulesConfig), actions, i, entry, ctx, env)
      ensures cooldowns.last == GateAt(last0, SlotsOf(actions, rulesConfig), i + 1, env.now)
      ensures emitted == sent0 + SoundsOf(last0, SlotsOf(actions, rulesConfig), actions, i + 1, env.now)
      ensures openedUrls == opened0 + UrlsOf(last0, SlotsOf(actions, rulesConfig), actions, ctx, i + 1, env.now)
      ensures !AdmittedAt(last0, SlotsOf(actions, rulesConfig), i, env.now) ==>
        state.current == old(state.current) && state.queue == old(state.queue) && music.emitted == old(music.emitted)
      ensures AdmittedAt(last0, SlotsOf(actions, rulesConfig), i, env.now) ==>
        && ((Get(actions[i], "type") == Str("music.playNow") && TrackFor(actions[i], entry, ctx, env, i).Some?) ==>
              state.current == TrackFor(actions[i], entry, ctx, env, i))
        && ((Get(actions[i], "type") == Str("music.enqueue") && TrackFor(actions[i], entry, ctx, env, i).Some?) ==>
              Music.Pending(state.current, state.queue) == Music.Pending(old(state.current), old(state.queue)) + [TrackFor(actions[i], entry, ctx, env, i).value])
        && ((Get(actions[i], "type") !in {Str("music.playNow"), Str("music.enqueue")} || TrackFor(actions[i], entry, ctx, env, i).None?) ==>
              state.current == old(state.current) && state.queue == old(state.queue) && music.emitted == old(music.emitted))
      ensures state.donations == old(state.donations) && state.donationIds == old(state.donationIds)
      ensures state.topDonation == old(state.topDonation) && state.lastWebhookAt == old(state.lastWebhookAt)
      ensures state.lastError == old(state.lastError)
    {
      ghost var slots := SlotsOf(actions, rulesConfig);
      assert slots[i] == SlotOf(actions[i], rulesConfig);
      ghost var admitted := AdmittedAt(last0, slots, i, env.now);
      ghost var sound, url := if admitted then SoundOf(actions[i]) else [], if admitted then UrlOf(actions[i], ctx) else [];
      assert SoundsOf(last0, slots, actions, i + 1, env.now) == SoundsOf(last0, slots, actions, i, env.now) + sound;
      assert UrlsOf(last0, slots, actions, ctx, i + 1, env.now) == UrlsOf(last0, slots, actions, ctx, i, env.now) + url;
      assert admitted == Admits(cooldowns.last, SlotOf(actions[i], rulesConfig), env.now);
      ghost var e0, u0 := emitted, openedUrls;
      call := ExecuteAction(actions[i], entry, ctx, rulesConfig, env, i);
      assert emitted == e0 + sound && openedUrls == u0 + url;
      Regroup(sent0, SoundsOf(last0, slots, actions, i, env.now), sound);
      Regroup(opened0, UrlsOf(last0, slots, actions, ctx, i, env.now), url);
      GateStep(last0, slots, i, env.now);
    }

    /** The body of the loop of `processDonation`: one action, a throw caught and recorded as the last error. */
    method TryAction(actions: seq<Value>, i: nat, entry: DonationEntry, ctx: Context, rulesConfig: Value, env: Env,
                     ghost last0: map<Value, int>, ghost err0: Option<ErrorRecord>, ghost calls: seq<Call>,
                     ghost sent0: seq<Broadcast>, ghost opened0: seq<string>)
      returns (call: Call)
      requires Valid() && i == |calls| < |actions|
      requires AsExpected(last0, SlotsOf(actions, rulesConfig), actions, calls, entry, ctx, env)
      requires cooldowns.last == GateAt(last0, SlotsOf(actions, rulesConfig), i, env.now)
      requires state.lastError == ErrorAfter(err0, calls, env)
      requires emitted == sent0 + SoundsOf(last0, SlotsOf(actions, rulesConfig), actions, i, env.now)
      requires openedUrls == opened0 + UrlsOf(last0, SlotsOf(actions, rulesConfig), actions, ctx, i, env.now)
      modifies this, state, cooldowns, music
      ensures Valid()
      ensures AsExpected(last0, SlotsOf(actions, rulesConfig), actions, calls + [call], entry, ctx, env)
      ensures cooldowns.last == GateAt(last0, SlotsOf(actions, rulesConfig), i + 1, env.now)
      ensures state.lastError == ErrorAfter(err0, calls + [call], env)
      ensures emitted == sent0 + SoundsOf(last0, SlotsOf(actions, rulesConfig), actions, i + 1, env.now)
      ensures openedUrls == opened0 + UrlsOf(last0, SlotsOf(actions, rulesConfig), actions, ctx, i + 1, env.now)
      ensures !AdmittedAt(last0, SlotsOf(actions, rulesConfig), i, env.now) ==>
        state.current == old(state.current) && state.queue == old(state.queue) && music.emitted == old(music.emitted)
      ensures AdmittedAt(last0, SlotsOf(actions, rulesConfig), i, env.now) ==>
        && ((Get(actions[i], "type") == Str("music.playNow") && TrackFor(actions[i], entry, ctx, env, i).Some?) ==>
              state.current == TrackFor(actions[i], entry, ctx, env, i))
        && ((Get(actions[i], "type") == Str("music.enqueue") && TrackFor(actions[i], entry, ctx, env, i).Some?) ==>
              Music.Pending(state.current, state.queue) == Music.Pending(old(state.current), old(state.queue)) + [TrackFor(actions[i], entry, ctx, env, i).value])
        && ((Get(actions[i], "type") !in {Str("music.playNow"), Str("music.enqueue")} || TrackFor(actions[i], entry, ctx, env, i).None?) ==>
              state.current == old(state.current) && state.queue == old(state.queue) && music.emitted == old(music.emitted))
      ensures state.donations == old(state.donations) && state.donationIds == old(state.donationIds)
      ensures state.topDonation == old(state.topDonation) && state.lastWebhookAt == old(state.lastWebhookAt)
    {
      call := Attempt(actions, i, entry, ctx, rulesConfig, env, last0, sent0, opened0);
      if call.Threw? {
        state.RecordError(env.errorId(i), env.now, Str(call.message));
      }
      ErrorStep(err0, calls, call, env);
      AsExpectedStep(last0, SlotsOf(actions, rulesConfig), actions, calls, entry, ctx, env, call);
    }

    /** The `for ... of actions` loop of `processDonation`: in order, a throw recorded and the loop going on. */
    method RunActions(actions: seq<Value>, entry: DonationEntry, ctx: Context, rulesConfig: Value, env: Env)
      returns (results: seq<ExecEntry>, ghost calls: seq<Call>)
      requires Valid()
      modifies this, state, cooldowns, music
      ensures Valid()
      ensures |calls| == |actions| && Recorded(actions, calls, results)
      ensures AsExpected(old(cooldowns.last), SlotsOf(actions, rulesConfig), actions, calls, entry, ctx, env)
      ensures cooldowns.last == GateAfter(old(cooldowns.last), SlotsOf(actions, rulesConfig), env.now)
      ensures state.lastError == ErrorAfter(old(state.lastError), calls, env)
      ensures emitted == old(emitted) + SoundsOf(old(cooldowns.last), SlotsOf(actions, rulesConfig), actions, |actions|, env.now)
      ensures openedUrls == old(openedUrls) + UrlsOf(old(cooldowns.last), SlotsOf(actions, rulesConfig), actions, ctx, |actions|, env.now)
      ensures state.donations == old(state.donations) && state.donationIds == old(state.donationIds)
      ensures state.topDonation == old(state.topDonation) && state.lastWebhookAt == old(state.lastWebhookAt)
    {
      ghost var last0 := cooldowns.last;
      ghost var err0 := state.lastError;
      results, calls := [], [];
      var i := 0;
      while i < |actions|
        invariant 0 <= i <= |actions| && |calls| == i
        invariant Valid()
        invariant Recorded(actions, calls, results)
        invariant AsExpected(last0, SlotsOf(actions, rulesConfig), actions, calls, entry, ctx, env)
        invariant cooldowns.last == GateAt(last0, SlotsOf(actions, rulesConfig), i, env.now)
        invariant state.lastError == ErrorAfter(err0, calls, env)
        invariant emitted == old(emitted) + SoundsOf(last0, SlotsOf(actions, rulesConfig), actions, i, env.now)
        invariant openedUrls == old(openedUrls) + UrlsOf(last0, SlotsOf(actions, rulesConfig), actions, ctx, i, env.now)
        invariant state.donations == old(state.donations) && state.donationIds == old(state.donationIds)
        invariant state.topDonation == old(state.topDonation) && state.lastWebhookAt == old(state.lastWebhookAt)
      {
        var call := TryAction(actions, i, entry, ctx, rulesConfig, env, last0, err0, calls, old(emitted), old(openedUrls));
        RecordedStep(actions, calls, results, call);
        results := results + [EntryOf(actions[i], call)];
        calls := calls + [call];
        i := i + 1;
      }
      assert SlotsOf(actions, rulesConfig)[..i] == SlotsOf(actions, rulesConfig);
    }

    /** The second half of `processDonation`: the action loop, then `donation:actions` with the results. */
    method Report(actions: seq<Value>, entry: DonationEntry, ctx: Context, rulesConfig: Value, env: Env)
      returns (results: seq<ExecEntry>, ghost calls: seq<Call>, ghost sent: seq<Broadcast>)
      requires Valid()
      modifies this, state, cooldowns, music
      ensures Valid()
      ensures |calls| == |actions| && Recorded(actions, calls, results)
      ensures AsExpected(old(cooldowns.last), SlotsOf(actions, rulesConfig), actions, calls, entry, ctx, env)
      ensures cooldowns.last == GateAfter(old(cooldowns.last), SlotsOf(actions, rulesConfig), env.now)
      ensures state.lastError == ErrorAfter(old(state.lastError), calls, env)
      ensures sent == old(emitted) + SoundsOf(old(cooldowns.last), SlotsOf(actions, rulesConfig), actions, |actions|, env.now)
      ensures emitted == sent + [DonationActions(entry.id, env.now, results)]
      ensures openedUrls == old(openedUrls) + UrlsOf(old(cooldowns.last), SlotsOf(actions, rulesConfig), actions, ctx, |actions|, env.now)
      ensures state.donations == old(state.donations) && state.donationIds == old(state.donationIds)
      ensures state.topDonation == old(state.topDonation) && state.lastWebhookAt == old(state.lastWebhookAt)
    {
      results, calls := RunActions(actions, entry, ctx, rulesConfig, env);
      sent := emitted;
      emitted := emitted + [DonationActions(entry.id, env.now, results)];
    }

    /** The first half of `processDonation`: the context, the actions, the state update and the first broadcasts. */
    method Record(donation: Donation, rulesConfig: Value, env: Env)
      returns (ctx: Context, actions: seq<Value>, entry: DonationEntry, duplicate: bool)
      requires Valid()
      modifies this, state
      ensures Valid()
      ensures ctx == ContextFor(donation, rulesConfig, env, old(state.topDonation))
      ensures actions == Decision(rulesConfig, donation, ctx, env.compile)
      ensures entry == EntryFor(donation, ctx, actions)
      ensures duplicate <==> old(state.Seen(donation.id))
      ensures duplicate ==>
        && state.donations == old(state.donations) && state.topDonation == old(state.topDonation)
        && state.donationIds == old(state.donationIds) && state.lastWebhookAt == old(state.lastWebhookAt)
        && emitted == old(emitted)
      ensures !duplicate ==>
        && state.donations == Admit(old(state.donations), entry, state.maxDonations)
        && state.topDonation == NextTop(old(state.topDonation), entry)
        && old(emitted) + [DonationNew(entry)] <= emitted
        && emitted == old(emitted) + Opening(old(state.topDonation), entry)
      ensures state.current == old(state.current) && state.queue == old(state.queue)
      ensures state.lastError == old(state.lastError) && openedUrls == old(openedUrls)
      ensures cooldowns.last == old(cooldowns.last) && music.emitted == old(music.emitted)
    {
      ctx, actions, entry := Prepare(donation, rulesConfig, env, state.topDonation);
      duplicate := Admission(entry, env.now);
    }

    /** `addDonation` on a prepared entry, then the broadcasts of a new donation. */
    method Admission(entry: DonationEntry, now: int) returns (duplicate: bool)
      requires Valid()
      modifies this, state
      ensures Valid()
      ensures duplicate <==> old(state.Seen(entry.id))
      ensures duplicate ==>
        && state.donations == old(state.donations) && state.topDonation == old(state.topDonation)
        && state.donationIds == old(state.donationIds) && state.lastWebhookAt == old(state.lastWebhookAt)
        && emitted == old(emitted)
      ensures !duplicate ==>
        && state.donations == Admit(old(state.donations), entry, state.maxDonations)
        && state.topDonation == NextTop(old(state.topDonation), entry)
        && old(emitted) + [DonationNew(entry)] <= emitted
        && emitted == old(emitted) + Opening(old(state.topDonation), entry)
      ensures state.current == old(state.current) && state.queue == old(state.queue)
      ensures state.lastError == old(state.lastError) && openedUrls == old(openedUrls)
      ensures cooldowns.last == old(cooldowns.last) && music.emitted == old(music.emitted)
    {
      var added := state.AddDonation(entry, now);
      duplicate := added.duplicate == Some(true);
      if !duplicate {
        Announce(entry, old(state.topDonation), added.newTop, added.topDonation);
      }
    }

    /** The broadcasts of a newly recorded donation: `donation:new`, `donation:top` when `addDonation` reports one, `state:update`. */
    method Announce(entry: DonationEntry, ghost top0: Option<TopDonation>, newTop: bool, top: Option<TopDonation>)
      requires Valid()
      requires newTop == BeatsTop(top0, entry) && top == NextTop(top0, entry)
      modifies this
      ensures Valid()
      ensures old(emitted) + [DonationNew(entry)] <= emitted
      ensures emitted == old(emitted) + Opening(top0, entry)
      ensures openedUrls == old(openedUrls)
    {
      var news := if newTop then [DonationTop(top)] else [];
      Extends(emitted + [DonationNew(entry)], emitted + [DonationNew(entry)], news + [StateUpdate]);
      emitted := (emitted + [DonationNew(entry)]) + (news + [StateUpdate]);
    }

    /**
     * `processDonation({donation})`: `None` when the donation is a re-delivery and nothing ran.
     * `sent` is what was broadcast before the final `donation:actions`.
     */
    method ProcessDonation(donation: Donation, rulesConfig: Value, env: Env)
      returns (results: Option<seq<ExecEntry>>, ghost calls: seq<Call>, ghost ctx: Context, ghost actions: seq<Value>,
               ghost entry: DonationEntry, ghost sent: seq<Broadcast>)
      requires Valid()
      modifies this, state, cooldowns, music
      ensures Valid()
      ensures ctx == ContextFor(donation, rulesConfig, env, old(state.topDonation))
      ensures actions == Decision(rulesConfig, donation, ctx, env.compile)
      ensures entry == EntryFor(donation, ctx, actions)
      ensures results.None? <==> old(state.Seen(donation.id))
      ensures results.None? ==>
        && cooldowns.last == old(cooldowns.last) && state.donations == old(state.donations)
        && state.topDonation == old(state.topDonation) && state.current == old(state.current) && state.queue == old(state.queue)
        && state.donationIds == old(state.donationIds) && state.lastWebhookAt == old(state.lastWebhookAt)
        && state.lastError == old(state.lastError) && music.emitted == old(music.emitted)
        && emitted == old(emitted) && openedUrls == old(openedUrls)
      ensures results.Some? ==>
        && state.donations == Admit(old(state.donations), entry, state.maxDonations)
        && state.topDonation == NextTop(old(state.topDonation), entry)
        && |calls| == |actions| && Recorded(actions, calls, results.value)
        && AsExpected(old(cooldowns.last), SlotsOf(actions, rulesConfig), actions, calls, entry, ctx, env)
        && cooldowns.last == GateAfter(old(cooldowns.last), SlotsOf(actions, rulesConfig), env.now)
        && state.lastError == ErrorAfter(old(state.lastError), calls, env)
        && old(emitted) + [DonationNew(entry)] <= sent
        && sent == old(emitted) + Opening(old(state.topDonation), entry)
                   + SoundsOf(old(cooldowns.last), SlotsOf(actions, rulesConfig), actions, |actions|, env.now)
        && emitted == sent + [DonationActions(donation.id, env.now, results.value)]
        && openedUrls == old(openedUrls) + UrlsOf(old(cooldowns.last), SlotsOf(actions, rulesConfig), actions, ctx, |actions|, env.now)
    {
      var c, acts, e, duplicate := Record(donation, rulesConfig, env);
      ctx, actions, entry := c, acts, e;
      if duplicate {
        return None, [], ctx, actions, entry, emitted;
      }
      ghost var mid := emitted;
      var rs;
      rs, calls, sent := Report(acts, e, c, rulesConfig, env);
      results := Some(rs);
      PrefixTrans(old(emitted) + [DonationNew(entry)], mid, sent);
    }
  }

  /** A prefix of `b` is a prefix of anything `b` is extended to. */
  lemma Extends<T>(a: seq<T>, b: seq<T>, t: seq<T>)
    requires a <= b
    ensures a <= b + t
  {
    assert (b + t)[..|b|] == b;
  }

  lemma Regroup<T>(a: seq<T>, b: seq<T>, c: seq<T>)
    ensures (a + b) + c == a + (b + c)
  {
  }

  lemma PrefixTrans<T>(a: seq<T>, b: seq<T>, c: seq<T>)
    requires a <= b && b <= c
    ensures a <= c
  {
    assert c[..|a|] == b[..|a|];
  }

  /** Each result is the entry of its action's call, in order. */
  predicate Recorded(actions: seq<Value>, calls: seq<Call>, results: seq<ExecEntry>) {
    && |calls| <= |actions| && |results| == |calls|
    && forall k :: 0 <= k < |calls| ==> results[k] == EntryOf(actions[k], calls[k])
  }

  /** Each call is what its action was due: the cooldown skip, or its reply. */
  predicate AsExpected(last: map<Value, int>, slots: seq<Slot>, actions: seq<Value>, calls: seq<Call>,
                       entry: DonationEntry, ctx: Context, env: Env)
  {
    && |slots| == |actions| && |calls| <= |actions|
    && forall k :: 0 <= k < |calls| ==> calls[k] == Expected(last, slots, actions, k, entry, ctx, env)
  }

  lemma RecordedStep(actions: seq<Value>, calls: seq<Call>, results: seq<ExecEntry>, call: Call)
    requires Recorded(actions, calls, results) && |calls| < |actions|
    ensures Recorded(actions, calls + [call], results + [EntryOf(actions[|calls|], call)])
  {
  }

  lemma AsExpectedStep(last: map<Value, int>, slots: seq<Slot>, actions: seq<Value>, calls: seq<Call>,
                       entry: DonationEntry, ctx: Context, env: Env, call: Call)
    requires AsExpected(last, slots, actions, calls, entry, ctx, env) && |calls| < |actions|
    requires call == Expected(last, slots, actions, |calls|, entry, ctx, env)
    ensures AsExpected(last, slots, actions, calls + [call], entry, ctx, env)
  {
  }

  /** One step of the gate fold. */
  lemma GateStep(last: map<Value, int>, slots: seq<Slot>, i: nat, now: int)
    requires i < |slots|
    ensures GateAt(last, slots, i + 1, now) ==
      var m := GateAt(last, slots, i, now);
      if Admits(m, slots[i], now) then m[slots[i].key := now] else m
  {
    assert slots[..i + 1][..i] == slots[..i];
  }

  /** One step of the error fold. */
  lemma ErrorStep(err: Option<ErrorRecord>, calls: seq<Call>, call: Call, env: Env)
    ensures ErrorAfter(err, calls + [call], env) ==
      if call.Threw? then Some(ErrorRecord(env.errorId(|calls|), env.now, call.message)) else ErrorAfter(err, calls, env)
  {
    assert (calls + [call])[..|calls|] == calls;
  }
}
