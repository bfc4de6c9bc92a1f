/**
 * The LivePix side of `src/livepix.js`: reading the webhook secret from a
 * request and checking it, and pulling a donation (amount, message, sender,
 * status) and the event reference out of a webhook body by ordered fallback
 * chains over the JSON tree.
 *
 * Express has already lower-cased the header names: `headers` is the object
 * of header values and `query` the parsed query string.
 */
module LivePix {
  import opened Opt
  import opened Text
  import opened Js
  import opened Utils

  // ----------------------------------------------------------- normalizeAmount

  /** The units an amount can be read in; any unit name other than the cents and reais ones means `auto`. */
  datatype Unit = Cents | Reais | Auto

  /** `String(unit || "").toLowerCase()` compared with the unit names. */
  function UnitOf(unit: string): Unit {
    var u := Lower(unit);
    if u == "cents" || u == "centavos" then Cents
    else if u == "reais" || u == "brl" then Reais
    else Auto
  }

  /** The unit names are read case-insensitively. */
  lemma UnitIsCaseInsensitive(unit: string)
    ensures UnitOf(unit) == UnitOf(Lower(unit))
  {
    LowerOfLower(Lower(unit));
  }

  /** The names the amount chain uses mean what they say. */
  lemma UnitNames()
    ensures UnitOf("cents") == Cents && UnitOf("centavos") == Cents
    ensures UnitOf("reais") == Reais && UnitOf("brl") == Reais
    ensures UnitOf("auto") == Auto
  {
    LowerOfLower("cents");
    LowerOfLower("centavos");
    LowerOfLower("reais");
    LowerOfLower("brl");
    LowerOfLower("auto");
  }

  /**
   * `normalizeAmount(value, unit)`: cents divide by 100, reais keep the
   * number, and `auto` divides only whole numbers of at least 100.
   */
  function NormalizeAmount(value: Value, unit: Unit): (r: Option<real>)
    ensures r.None? <==> AsNumber(value).None?
    ensures r.Some? ==> r.value == AsNumber(value).value || r.value * 100.0 == AsNumber(value).value
    ensures unit == Cents && r.Some? ==> r.value * 100.0 == AsNumber(value).value
    ensures unit == Reais ==> r == AsNumber(value)
  {
    match AsNumber(value)
    case None => None
    case Some(n) =>
      match unit
      case Cents => Some(n / 100.0)
      case Reais => Some(n)
      case Auto => if IsIntegral(n) && n >= 100.0 then Some(n / 100.0) else Some(n)
  }

  /** In the `auto` mode a whole number of at least 100 is read as centavos. */
  lemma AutoReadsWholeHundredsAsCents(value: Value)
    requires AsNumber(value).Some? && IsIntegral(AsNumber(value).value) && AsNumber(value).value >= 100.0
    ensures NormalizeAmount(value, Auto) == NormalizeAmount(value, Cents) == Some(AsNumber(value).value / 100.0)
  {
  }

  /** In the `auto` mode anything else (a fraction, or less than 100) is read as reais. */
  lemma AutoReadsTheRestAsReais(value: Value)
    requires AsNumber(value).Some?
    requires !IsIntegral(AsNumber(value).value) || AsNumber(value).value < 100.0
    ensures NormalizeAmount(value, Auto) == NormalizeAmount(value, Reais) == AsNumber(value)
  {
  }

  /** A non-negative amount stays non-negative and never grows, whatever the unit. */
  lemma AmountBounds(value: Value, unit: Unit)
    requires AsNumber(value).Some? && AsNumber(value).value >= 0.0
    ensures NormalizeAmount(value, unit).Some?
    ensures 0.0 <= NormalizeAmount(value, unit).value <= AsNumber(value).value
  {
  }

  // --------------------------------------------------------- readSecretFromReq

  /** The parts of an incoming request the secret check reads. */
  datatype Request = Request(headers: Value, query: Value)

  /** `x-webhook-secret || x-livepix-secret || x-hook-secret` */
  function HeaderSecret(headers: Value): Value {
    Or(Or(Get(headers, "x-webhook-secret"), Get(headers, "x-livepix-secret")), Get(headers, "x-hook-secret"))
  }

  /** An `authorization` header of the form `Bearer <token>`, the scheme matched case-insensitively (section 2.1 of RFC 6750). */
  predicate IsBearer(auth: Value) {
    Truthy(auth) && StartsWith(Lower(ToStr(auth)), "bearer ")
  }

  /** `readSecretFromReq(req)`: a secret header, then a bearer token, then `?token=`, then `?secret=`, else `""`. */
  function ReadSecretFromReq(req: Request): (r: string) {
    var h := HeaderSecret(req.headers);
    var auth := Get(req.headers, "authorization");
    if Truthy(h) then ToStr(h)
    else if IsBearer(auth) then Trim(ToStr(auth)[7..])
    else if Truthy(req.query) && Truthy(Get(req.query, "token")) then ToStr(Get(req.query, "token"))
    else if Truthy(req.query) && Truthy(Get(req.query, "secret")) then ToStr(Get(req.query, "secret"))
    else ""
  }

  /** The three secret headers win over everything else, in their order. */
  lemma SecretHeadersComeFirst(req: Request)
    requires Truthy(HeaderSecret(req.headers))
    ensures Truthy(Get(req.headers, "x-webhook-secret")) ==> ReadSecretFromReq(req) == ToStr(Get(req.headers, "x-webhook-secret"))
    ensures !Truthy(Get(req.headers, "x-webhook-secret")) && Truthy(Get(req.headers, "x-livepix-secret")) ==>
      ReadSecretFromReq(req) == ToStr(Get(req.headers, "x-livepix-secret"))
    ensures !Truthy(Get(req.headers, "x-webhook-secret")) && !Truthy(Get(req.headers, "x-livepix-secret")) ==>
      ReadSecretFromReq(req) == ToStr(Get(req.headers, "x-hook-secret"))
  {
  }

  /** `Bearer <token>`, with the scheme in any letter case, yields the trimmed token when no secret header is set. */
  lemma BearerToken(req: Request, scheme: string, token: string)
    requires !Truthy(HeaderSecret(req.headers))
    requires Lower(scheme) == "bearer "
    requires Get(req.headers, "authorization") == Str(scheme + token)
    ensures ReadSecretFromReq(req) == Trim(token)
  {
    var a := scheme + token;
    assert Lower(a)[..7] == Lower(scheme);
    assert a[7..] == token;
  }

  /** Without headers the query's `token` comes before its `secret`. */
  lemma QueryTokenBeforeSecret(req: Request)
    requires !Truthy(HeaderSecret(req.headers)) && !IsBearer(Get(req.headers, "authorization"))
    requires Truthy(req.query)
    ensures Truthy(Get(req.query, "token")) ==> ReadSecretFromReq(req) == ToStr(Get(req.query, "token"))
    ensures !Truthy(Get(req.query, "token")) && Truthy(Get(req.query, "secret")) ==>
      ReadSecretFromReq(req) == ToStr(Get(req.query, "secret"))
  {
  }

  /** A request that carries none of the accepted forms provides the empty secret. */
  lemma NothingProvided(req: Request)
    requires !Truthy(HeaderSecret(req.headers)) && !IsBearer(Get(req.headers, "authorization"))
    requires !Truthy(req.query) || (!Truthy(Get(req.query, "token")) && !Truthy(Get(req.query, "secret")))
    ensures ReadSecretFromReq(req) == ""
  {
  }

  // ------------------------------------------------------- verifyWebhookSecret

  /** `verifyWebhookSecret(req, webhookSecret)`: strict equality of the provided string with the configured secret. */
  predicate VerifyWebhookSecret(req: Request, webhookSecret: Value) {
    !Truthy(webhookSecret) || Str(ReadSecretFromReq(req)) == webhookSecret
  }

  /** No configured secret lets every request through; a configured one must be matched exactly. */
  lemma VerifyExactly(req: Request, webhookSecret: Value)
    ensures !Truthy(webhookSecret) ==> VerifyWebhookSecret(req, webhookSecret)
    ensures webhookSecret.Str? && webhookSecret.s != "" ==>
      (VerifyWebhookSecret(req, webhookSecret) <==> ReadSecretFromReq(req) == webhookSecret.s)
    ensures Truthy(webhookSecret) && !webhookSecret.Str? ==> !VerifyWebhookSecret(req, webhookSecret)
  {
  }

  /** The secret sent in `x-webhook-secret`, or as a bearer token, passes the check. */
  lemma ProvidedSecretPasses(req: Request, secret: string)
    requires secret != [] && Trim(secret) == secret
    requires Get(req.headers, "x-webhook-secret") == Str(secret)
      || (!Truthy(HeaderSecret(req.headers)) && Get(req.headers, "authorization") == Str("Bearer " + secret))
    ensures VerifyWebhookSecret(req, Str(secret))
  {
    if Get(req.headers, "x-webhook-secret") != Str(secret) {
      BearerToken(req, "Bearer ", secret);
    }
  }

  // ------------------------------------------------- normalizeSender / Message

  /** Trimming is idempotent. */
  lemma TrimTwice(s: string)
    ensures Trim(Trim(s)) == Trim(s)
  {
    TrimOfTrimmed(Trim(s));
  }

  /** Trimming keeps a lower-case string lower-case. */
  lemma TrimKeepsLower(s: string)
    requires IsLower(s)
    ensures IsLower(Trim(s))
  {
    var t := TrimStart(s);
    TrimStartDrops(s);
    var u := TrimEnd(t);
    TrimEndKeeps(t);
  }

  /** The first of `name`, `fullName`, `username` that is defined. */
  function SenderName(v: Value): Value {
    FirstDefinedOf([Get(v, "name"), Get(v, "fullName"), Get(v, "username")])
  }

  /** `normalizeSender(v)`: a trimmed name, `"Anon"` when there is none. */
  function NormalizeSender(v: Value): (r: string)
    ensures r != [] && Trim(r) == r
  {
    TrimOfTrimmed("Anon");
    if !Truthy(v) then "Anon"
    else if v.Str? then
      TrimTwice(v.s);
      if Trim(v.s) != "" then Trim(v.s) else "Anon"
    else if IsObject(v) && SenderName(v).Str? && Trim(SenderName(v).s) != "" then
      TrimTwice(SenderName(v).s);
      Trim(SenderName(v).s)
    else "Anon"
  }

  /** A falsy sender, a blank string and an object without a usable name are all anonymous. */
  lemma AnonymousSenders(v: Value)
    requires !Truthy(v) || (v.Str? && Trim(v.s) == "")
      || (IsObject(v) && !(SenderName(v).Str? && Trim(SenderName(v).s) != ""))
    ensures NormalizeSender(v) == "Anon"
  {
  }

  /** An object sender is named by its first defined `name`/`fullName`/`username`, trimmed. */
  lemma SenderOfObject(props: seq<(string, Value)>)
    requires SenderName(Obj(props)).Str? && Trim(SenderName(Obj(props)).s) != ""
    ensures NormalizeSender(Obj(props)) == Trim(SenderName(Obj(props)).s)
  {
  }

  /** Normalising a normalised sender changes nothing. */
  lemma NormalizeSenderIdempotent(v: Value)
    ensures NormalizeSender(Str(NormalizeSender(v))) == NormalizeSender(v)
  {
  }

  /** `normalizeMessage(v)`: the trimmed text, `""` for null and undefined. */
  function NormalizeMessage(v: Value): (r: string)
    ensures Trim(r) == r
    ensures Nullish(v) ==> r == ""
  {
    if Nullish(v) then ""
    else if v.Str? then TrimTwice(v.s); Trim(v.s)
    else TrimTwice(ToStr(v)); Trim(ToStr(v))
  }

  /** Normalising a normalised message changes nothing. */
  lemma NormalizeMessageIdempotent(v: Value)
    ensures NormalizeMessage(Str(NormalizeMessage(v))) == NormalizeMessage(v)
  {
  }

  // ----------------------------------------------------------- extractDonation

  /** `livepixConfig || {}` */
  function Config(livepixConfig: Value): Value {
    Or(livepixConfig, Obj([]))
  }

  /** `cfg.key ? getByPath(body, cfg.key) : undefined` */
  function Configured(body: Value, cfg: Value, key: string): (r: Value)
    ensures !Truthy(Get(cfg, key)) ==> r == Undefined
  {
    PathValue(body, Get(cfg, key))
  }

  /** `body?.data?.key` */
  function InData(body: Value, key: string): Value {
    Get(Get(body, "data"), key)
  }

  /** `body?.payment?.key` */
  function InPayment(body: Value, key: string): Value {
    Get(Get(body, "payment"), key)
  }

  function StatusRaw(body: Value, cfg: Value): Value {
    FirstDefinedOf([Configured(body, cfg, "statusPath"), Get(body, "status"), Get(body, "event_status"),
                    InData(body, "status"), InPayment(body, "status")])
  }

  /** The status, lower-cased and trimmed; `""` when there is none. */
  function StatusOf(body: Value, cfg: Value): (s: string)
    ensures IsLower(s) && Trim(s) == s
  {
    var lowered := Lower(ToStrOrEmpty(StatusRaw(body, cfg)));
    TrimKeepsLower(lowered);
    TrimTwice(lowered);
    Trim(lowered)
  }

  /** `Array.isArray(cfg.acceptedStatuses) && cfg.acceptedStatuses.length` */
  predicate FiltersStatus(cfg: Value) {
    Get(cfg, "acceptedStatuses").Arr? && |Get(cfg, "acceptedStatuses").items| > 0
  }

  /** A non-empty status missing from a non-empty accepted list turns the webhook away. */
  predicate StatusRejected(cfg: Value, status: string) {
    status != "" && FiltersStatus(cfg) && Str(status) !in Get(cfg, "acceptedStatuses").items
  }

  /** One entry of the amount chain: where the number is read and in which unit. */
  datatype Candidate = Candidate(raw: Value, unit: Unit)

  /** The amount chain, in the order the candidates are tried. */
  function AmountCandidates(body: Value, cfg: Value): seq<Candidate> {
    [ Candidate(Configured(body, cfg, "valuePath"), Auto),
      Candidate(Get(body, "value"), Reais),
      Candidate(Get(body, "valor"), Reais),
      Candidate(InData(body, "value"), Reais),
      Candidate(InPayment(body, "value"), Reais),
      Candidate(Get(body, "amount"), Cents),
      Candidate(InData(body, "amount"), Cents),
      Candidate(InPayment(body, "amount"), Cents) ]
  }

  /** A candidate the loop does not skip: neither undefined, null nor the empty string. */
  predicate Present(v: Value) {
    !v.Undefined? && !v.Null? && v != Str("")
  }

  /** A candidate that yields an amount. */
  predicate Usable(c: Candidate) {
    Present(c.raw) && NormalizeAmount(c.raw, c.unit).Some?
  }

  /** The amount of the first usable candidate. */
  function FirstAmount(cs: seq<Candidate>): Option<real> {
    if cs == [] then None
    else if Usable(cs[0]) then NormalizeAmount(cs[0].raw, cs[0].unit)
    else FirstAmount(cs[1..])
  }

  /** The first usable candidate decides the amount. */
  lemma {:induction false} FirstAmountPicks(cs: seq<Candidate>, i: nat)
    requires i < |cs| && Usable(cs[i])
    requires forall j :: 0 <= j < i ==> !Usable(cs[j])
    ensures FirstAmount(cs) == NormalizeAmount(cs[i].raw, cs[i].unit)
    decreases i
  {
    if i > 0 {
      assert !Usable(cs[0]);
      forall j | 0 <= j < i - 1
        ensures !Usable(cs[1..][j])
      {
        assert cs[1..][j] == cs[j + 1];
      }
      FirstAmountPicks(cs[1..], i - 1);
    }
  }

  /** There is no amount exactly when no candidate is usable. */
  lemma {:induction false} FirstAmountNone(cs: seq<Candidate>)
    ensures FirstAmount(cs).None? <==> forall i :: 0 <= i < |cs| ==> !Usable(cs[i])
    decreases |cs|
  {
    if cs != [] {
      FirstAmountNone(cs[1..]);
      if !Usable(cs[0]) {
        assert forall i :: 1 <= i < |cs| ==> cs[i] == cs[1..][i - 1];
      }
    }
  }

  /** `firstDefined(value_cents, amount_cents, data.value_cents, data.amount_cents)` */
  function CentsRaw(body: Value): Value {
    FirstDefinedOf([Get(body, "value_cents"), Get(body, "amount_cents"),
                    InData(body, "value_cents"), InData(body, "amount_cents")])
  }

  /** The amount: the candidate chain, then the centavos fields. */
  function AmountOf(body: Value, cfg: Value): Option<real> {
    var v := FirstAmount(AmountCandidates(body, cfg));
    if v.Some? then v else NormalizeAmount(CentsRaw(body), Cents)
  }

  function MessageRaw(body: Value, cfg: Value): Value {
    FirstDefinedOf([Configured(body, cfg, "messagePath"), Get(body, "message"), Get(body, "mensagem"),
                    Get(body, "comment"), Get(body, "description"), InData(body, "message"),
                    InData(body, "comment"), InPayment(body, "message")])
  }

  function SenderRaw(body: Value, cfg: Value): Value {
    FirstDefinedOf([Configured(body, cfg, "senderPath"), Get(body, "sender"), Get(body, "from"),
                    Get(body, "name"), Get(body, "tipper"), Get(body, "subscriber"), InData(body, "sender"),
                    InData(body, "from"), InData(body, "tipper"), InData(body, "subscriber"),
                    Get(body, "customer"), Get(body, "payer")])
  }

  /** `{value, message, sender, status}` */
  datatype Payment = Payment(value: real, message: string, sender: string, status: string)

  /** `{ok: true, donation}` or `{ok: false, reason}` */
  datatype Extraction = Accepted(donation: Payment) | Rejected(reason: string)

  /** What `extractDonation` makes of the status, the amount and the raw message and sender it found. */
  function Decide(cfg: Value, status: string, amount: Option<real>, messageRaw: Value, senderRaw: Value): (r: Extraction)
    ensures r.Accepted? ==> Some(r.donation.value) == amount && r.donation.status == status
    ensures r.Accepted? ==> Trim(r.donation.message) == r.donation.message
    ensures r.Accepted? ==> r.donation.sender != [] && Trim(r.donation.sender) == r.donation.sender
  {
    if StatusRejected(cfg, status) then Rejected("Ignored status=" + status)
    else match amount
      case None => Rejected("Missing value")
      case Some(v) => Accepted(Payment(v, NormalizeMessage(messageRaw), NormalizeSender(senderRaw), status))
  }

  /** The result `extractDonation(body, livepixConfig)` returns. */
  function DonationOf(body: Value, livepixConfig: Value): Extraction {
    var cfg := Config(livepixConfig);
    Decide(cfg, StatusOf(body, cfg), AmountOf(body, cfg), MessageRaw(body, cfg), SenderRaw(body, cfg))
  }

  /** The candidate loop of `extractDonation`. */
  method ScanCandidates(cs: seq<Candidate>) returns (value: Option<real>)
    ensures value == FirstAmount(cs)
  {
    var i := 0;
    while i < |cs|
      invariant 0 <= i <= |cs|
      invariant FirstAmount(cs[i..]) == FirstAmount(cs)
    {
      var c := cs[i];
      assert cs[i..][1..] == cs[i + 1..];
      if Present(c.raw) {
        value := NormalizeAmount(c.raw, c.unit);
        if value.Some? {
          return;
        }
      }
      i := i + 1;
    }
    return None;
  }

  /** `extractDonation(body, livepixConfig)` for a body that is not null or undefined. */
  method ExtractDonation(body: Value, livepixConfig: Value) returns (r: Extraction)
    requires !Nullish(body)
    ensures r == DonationOf(body, livepixConfig)
  {
    var cfg := Config(livepixConfig);
    var status := StatusOf(body, cfg);
    assert DonationOf(body, livepixConfig) == Decide(cfg, status, AmountOf(body, cfg), MessageRaw(body, cfg), SenderRaw(body, cfg));
    if StatusRejected(cfg, status) {
      return Rejected("Ignored status=" + status);
    }
    var value := ScanCandidates(AmountCandidates(body, cfg));
    if value.None? {
      value := NormalizeAmount(CentsRaw(body), Cents);
    }
    if value.None? {
      return Rejected("Missing value");
    }
    r := Accepted(Payment(value.value, NormalizeMessage(MessageRaw(body, cfg)), NormalizeSender(SenderRaw(body, cfg)), status));
  }

  /** The status filter: an accepted donation's status is empty, unfiltered or listed; an unlisted one is turned away. */
  lemma DecideStatusGate(cfg: Value, status: string, amount: Option<real>, messageRaw: Value, senderRaw: Value)
    ensures Decide(cfg, status, amount, messageRaw, senderRaw).Accepted? ==>
      var s := Decide(cfg, status, amount, messageRaw, senderRaw).donation.status;
      s == status && (s == "" || !FiltersStatus(cfg) || Str(s) in Get(cfg, "acceptedStatuses").items)
    ensures StatusRejected(cfg, status) ==> Decide(cfg, status, amount, messageRaw, senderRaw) == Rejected("Ignored status=" + status)
  {
  }

  /** `Missing value` exactly when the status passes and there is no amount. */
  lemma DecideMissingValue(cfg: Value, status: string, amount: Option<real>, messageRaw: Value, senderRaw: Value)
    ensures Decide(cfg, status, amount, messageRaw, senderRaw) == Rejected("Missing value") <==>
      !StatusRejected(cfg, status) && amount.None?
  {
    assert ("Ignored status=" + status)[0] != "Missing value"[0];
  }

  /** The status filter of `extractDonation`, on whole webhook bodies. */
  lemma StatusGate(body: Value, livepixConfig: Value)
    ensures DonationOf(body, livepixConfig).Accepted? ==>
      var cfg := Config(livepixConfig);
      var s := DonationOf(body, livepixConfig).donation.status;
      s == StatusOf(body, cfg) && (s == "" || !FiltersStatus(cfg) || Str(s) in Get(cfg, "acceptedStatuses").items)
    ensures StatusRejected(Config(livepixConfig), StatusOf(body, Config(livepixConfig))) ==>
      DonationOf(body, livepixConfig) == Rejected("Ignored status=" + StatusOf(body, Config(livepixConfig)))
  {
    var cfg := Config(livepixConfig);
    DecideStatusGate(cfg, StatusOf(body, cfg), AmountOf(body, cfg), MessageRaw(body, cfg), SenderRaw(body, cfg));
  }

  /** `Missing value` exactly when the status passes and neither the chain nor the centavos fields give an amount. */
  lemma MissingValue(body: Value, livepixConfig: Value)
    ensures DonationOf(body, livepixConfig) == Rejected("Missing value") <==>
      var cfg := Config(livepixConfig);
      && !StatusRejected(cfg, StatusOf(body, cfg))
      && (forall i :: 0 <= i < 8 ==> !Usable(AmountCandidates(body, cfg)[i]))
      && NormalizeAmount(CentsRaw(body), Cents).None?
  {
    var cfg := Config(livepixConfig);
    FirstAmountNone(AmountCandidates(body, cfg));
    DecideMissingValue(cfg, StatusOf(body, cfg), AmountOf(body, cfg), MessageRaw(body, cfg), SenderRaw(body, cfg));
  }

  /** The first usable candidate of the chain gives the amount of an accepted donation. */
  lemma ChainOrder(body: Value, livepixConfig: Value, i: nat)
    requires i < 8
    requires !StatusRejected(Config(livepixConfig), StatusOf(body, Config(livepixConfig)))
    requires Usable(AmountCandidates(body, Config(livepixConfig))[i])
    requires forall j :: 0 <= j < i ==> !Usable(AmountCandidates(body, Config(livepixConfig))[j])
    ensures DonationOf(body, livepixConfig).Accepted?
    ensures Some(DonationOf(body, livepixConfig).donation.value) ==
      NormalizeAmount(AmountCandidates(body, Config(livepixConfig))[i].raw, AmountCandidates(body, Config(livepixConfig))[i].unit)
  {
    var cfg := Config(livepixConfig);
    var cs := AmountCandidates(body, cfg);
    FirstAmountPicks(cs, i);
    assert DonationOf(body, livepixConfig)
      == Decide(cfg, StatusOf(body, cfg), AmountOf(body, cfg), MessageRaw(body, cfg), SenderRaw(body, cfg));
  }

  /** Without a configured value path, a numeric top-level `value` is the amount, in reais. */
  lemma ValueFieldInReais(body: Value, cfg: Value, n: real)
    requires !Truthy(Get(cfg, "valuePath"))
    requires Get(body, "value") == Num(n)
    ensures AmountOf(body, cfg) == Some(n)
  {
    var cs := AmountCandidates(body, cfg);
    var first, second := Candidate(Configured(body, cfg, "valuePath"), Auto), Candidate(Num(n), Reais);
    assert cs == [first, second] + cs[2..];
    SecondCandidatePicks(first, second, cs[2..]);
  }

  /** When the first candidate is absent and the second is usable, the second decides. */
  lemma SecondCandidatePicks(a: Candidate, b: Candidate, rest: seq<Candidate>)
    requires !Present(a.raw) && Usable(b)
    ensures FirstAmount([a, b] + rest) == NormalizeAmount(b.raw, b.unit)
  {
    assert ([a, b] + rest)[1..] == [b] + rest;
  }

  /** An accepted donation has a trimmed message, a non-empty trimmed sender and a lower-case trimmed status. */
  lemma AcceptedFields(body: Value, livepixConfig: Value)
    requires DonationOf(body, livepixConfig).Accepted?
    ensures var p := DonationOf(body, livepixConfig).donation;
      && Trim(p.message) == p.message
      && p.sender != [] && Trim(p.sender) == p.sender
      && IsLower(p.status) && Trim(p.status) == p.status
      && Some(p.value) == AmountOf(body, Config(livepixConfig))
  {
  }

  // -------------------------------------------------------- extractWebhookRef

  /** `{type, id}` of a webhook that names an event to fetch. */
  datatype WebhookRef = WebhookRef(eventType: string, id: string)

  function TypeRaw(body: Value): Value {
    FirstDefinedOf([Get(body, "type"), Get(body, "event"), Get(body, "kind"), InData(body, "type"), InData(body, "event")])
  }

  function RefIdRaw(body: Value): Value {
    FirstDefinedOf([Get(body, "messageId"), Get(body, "subscriptionId"), Get(body, "id"),
                    InData(body, "messageId"), InData(body, "subscriptionId"), InData(body, "id")])
  }

  /** The type guessed from the id fields when none is given. */
  function InferredType(body: Value): (r: string)
    ensures Trim(r) == r
  {
    TrimOfTrimmed("message");
    TrimOfTrimmed("subscription");
    if Truthy(Get(body, "messageId")) || Truthy(InData(body, "messageId")) then "message"
    else if Truthy(Get(body, "subscriptionId")) || Truthy(InData(body, "subscriptionId")) then "subscription"
    else ""
  }

  /** The reference made of the type text, the inferred type and the id text: both must be non-blank. */
  function RefOf(typeText: string, inferred: string, idText: string): (r: Option<WebhookRef>)
    requires Trim(inferred) == inferred
    ensures r.Some? ==> r.value.eventType != "" && Trim(r.value.eventType) == r.value.eventType
    ensures r.Some? ==> r.value.id != "" && Trim(r.value.id) == r.value.id
  {
    var given := Trim(Lower(typeText));
    var t := if given != "" then given else inferred;
    var id := Trim(idText);
    TrimTwice(Lower(typeText));
    TrimTwice(idText);
    if t == "" || id == "" then None else Some(WebhookRef(t, id))
  }

  /** `extractWebhookRef(body)`: the lower-cased type (or the inferred one) and the id, both non-blank. */
  function ExtractWebhookRef(body: Value): Option<WebhookRef> {
    RefOf(ToStrOrEmpty(TypeRaw(body)), InferredType(body), ToStrOrEmpty(RefIdRaw(body)))
  }

  /** No type field at all. */
  predicate NoTypeGiven(body: Value) {
    && Nullish(Get(body, "type")) && Nullish(Get(body, "event")) && Nullish(Get(body, "kind"))
    && Nullish(InData(body, "type")) && Nullish(InData(body, "event"))
  }

  lemma NoTypeRaw(body: Value)
    requires NoTypeGiven(body)
    ensures TypeRaw(body) == Undefined
  {
    FirstDefinedNone([Get(body, "type"), Get(body, "event"), Get(body, "kind"), InData(body, "type"), InData(body, "event")]);
  }

  /** Without a type the inferred one is used, and the id is trimmed. */
  lemma RefOfInferred(inferred: string, id: string)
    requires Trim(inferred) == inferred != "" && Trim(id) != ""
    ensures RefOf("", inferred, id) == Some(WebhookRef(inferred, Trim(id)))
  {
  }

  /** Without any type field, a `messageId` makes a `message` event. */
  lemma InferredMessage(body: Value, m: string)
    requires NoTypeGiven(body)
    requires Get(body, "messageId") == Str(m) && Trim(m) != ""
    ensures ExtractWebhookRef(body) == Some(WebhookRef("message", Trim(m)))
  {
    NoTypeRaw(body);
    FirstDefinedIsFirst([Get(body, "messageId"), Get(body, "subscriptionId"), Get(body, "id"),
                         InData(body, "messageId"), InData(body, "subscriptionId"), InData(body, "id")], 0);
    assert InferredType(body) == "message";
    RefOfInferred("message", m);
  }

  lemma SubscriptionIdRaw(body: Value, s: string)
    requires Nullish(Get(body, "messageId")) && Nullish(InData(body, "messageId"))
    requires Get(body, "subscriptionId") == Str(s) && s != ""
    ensures RefIdRaw(body) == Str(s) && InferredType(body) == "subscription"
  {
    FirstDefinedIsFirst([Get(body, "messageId"), Get(body, "subscriptionId"), Get(body, "id"),
                         InData(body, "messageId"), InData(body, "subscriptionId"), InData(body, "id")], 1);
  }

  /** Without any type field or message id, a `subscriptionId` makes a `subscription` event. */
  lemma InferredSubscription(body: Value, s: string)
    requires NoTypeGiven(body)
    requires Nullish(Get(body, "messageId")) && Nullish(InData(body, "messageId"))
    requires Get(body, "subscriptionId") == Str(s) && Trim(s) != ""
    ensures ExtractWebhookRef(body) == Some(WebhookRef("subscription", Trim(s)))
  {
    NoTypeRaw(body);
    SubscriptionIdRaw(body, s);
    RefOfInferred("subscription", s);
  }

  /** A given type is lower-cased and trimmed and wins over the inference. */
  lemma GivenType(body: Value, t: string)
    requires Get(body, "type") == Str(t) && Trim(Lower(t)) != ""
    ensures ExtractWebhookRef(body).Some? ==> ExtractWebhookRef(body).value.eventType == Trim(Lower(t))
  {
  }

  /** A body without any id field names no event. */
  lemma NoIdNoRef(body: Value)
    requires Nullish(Get(body, "messageId")) && Nullish(Get(body, "subscriptionId")) && Nullish(Get(body, "id"))
    requires Nullish(InData(body, "messageId")) && Nullish(InData(body, "subscriptionId")) && Nullish(InData(body, "id"))
    ensures ExtractWebhookRef(body) == None
  {
    FirstDefinedNone([Get(body, "messageId"), Get(body, "subscriptionId"), Get(body, "id"),
                      InData(body, "messageId"), InData(body, "subscriptionId"), InData(body, "id")]);
    assert ToStrOrEmpty(RefIdRaw(body)) == "";
    NoIdText(ToStrOrEmpty(TypeRaw(body)), InferredType(body));
  }

  /** An empty id text never names an event. */
  lemma NoIdText(typeText: string, inferred: string)
    requires Trim(inferred) == inferred
    ensures RefOf(typeText, inferred, "") == None
  {
    assert Trim("") == "";
  }

  // -------------------------------------------------------- extractExternalId

  function ExternalIdRaw(body: Value): Value {
    FirstDefinedOf([Get(body, "messageId"), Get(body, "subscriptionId"), Get(body, "pixId"), Get(body, "reference"),
                    Get(body, "id"), InData(body, "messageId"), InData(body, "subscriptionId"),
                    InData(body, "pixId"), InData(body, "reference"), InData(body, "id")])
  }

  /** The trimmed raw id, if it is not blank. */
  function ExternalIdOf(raw: Value): (r: Option<string>)
    ensures r.Some? ==> r.value != "" && Trim(r.value) == r.value
    ensures r.None? <==> Trim(ToStrOrEmpty(raw)) == ""
  {
    TrimTwice(ToStr(raw));
    if !Truthy(raw) then None
    else
      var id := Trim(ToStr(raw));
      if id != "" then Some(id) else None
  }

  /** `extractExternalId(body)`: the trimmed first defined id, if it is not blank. */
  function ExtractExternalId(body: Value): Option<string> {
    ExternalIdOf(ExternalIdRaw(body))
  }

  /** A non-blank `messageId` is both the external id and the id of the event reference. */
  lemma MessageIdIdentifies(body: Value, m: string)
    requires Get(body, "messageId") == Str(m) && Trim(m) != ""
    ensures ExtractExternalId(body) == Some(Trim(m))
    ensures ExtractWebhookRef(body).Some? && ExtractWebhookRef(body).value.id == Trim(m)
  {
    FirstDefinedIsFirst([Get(body, "messageId"), Get(body, "subscriptionId"), Get(body, "pixId"), Get(body, "reference"),
                         Get(body, "id"), InData(body, "messageId"), InData(body, "subscriptionId"),
                         InData(body, "pixId"), InData(body, "reference"), InData(body, "id")], 0);
    FirstDefinedIsFirst([Get(body, "messageId"), Get(body, "subscriptionId"), Get(body, "id"),
                         InData(body, "messageId"), InData(body, "subscriptionId"), InData(body, "id")], 0);
    assert InferredType(body) == "message";
  }
}
