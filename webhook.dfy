/**
 * The `/webhook/ninja` handler: secret check, contact extraction and validation,
 * the "not configured" reply, and construction of the provider URLs.
 * The provider calls themselves are not modelled; their outcomes are inputs of `Respond`.
 */
module Webhook {
  import opened Wrappers
  import opened Strings
  import opened Phone
  import opened Fields

  /** The process configuration: `WEBHOOK_SECRET`, `WASCALE_BASE`,
      `WASCALE_SEND_ENDPOINT` and `WASCALE_TOKEN`, each "" when unset
      (except the base URL, whose default is applied before it gets here). */
  datatype Config = Config(webhookSecret: string, base: string, sendEndpoint: string, token: string)

  /** The contact echoed back to the caller. */
  datatype Contact = Contact(name: string, phone: string, last6: string)

  /** How the handler proceeds once it has validated the request. */
  datatype Decision =
    | Unauthorized
    | BadRequest(name: string, phoneRaw: string)
    | Degraded(contact: Contact)
    | ProceedToSend(contact: Contact, sendUrl: string, to: string, firstName: string, documentUrl: string)

  const NameLabel := "Primeiro nome"
  const NameKey := "firstname"
  const PhoneLabel := "Telefone"
  const PhoneKey := "phone"
  const DocumentPath := "/api/enviar-documento/"

  /** The request may pass: no secret is configured, or the `x-webhook-secret` header
      (absent reads as "") equals it exactly. */
  predicate Authorized(webhookSecret: string, header: Option<string>) {
    webhookSecret == "" || header.GetOr("") == webhookSecret
  }

  /** Text-message endpoint: base URL, send path, "/", token. */
  function SendUrl(cfg: Config): (url: string)
    ensures cfg.base <= url
    ensures |url| == |cfg.base| + |cfg.sendEndpoint| + 1 + |cfg.token|
    ensures url[|cfg.base|..|cfg.base| + |cfg.sendEndpoint|] == cfg.sendEndpoint
    ensures url[|url| - |cfg.token| - 1..] == "/" + cfg.token
  {
    cfg.base + cfg.sendEndpoint + "/" + cfg.token
  }

  /** Document endpoint: base URL, the fixed document path, token. */
  function DocumentUrl(cfg: Config): (url: string)
    ensures cfg.base <= url
    ensures |url| == |cfg.base| + |DocumentPath| + |cfg.token|
    ensures url[|cfg.base|..|cfg.base| + |DocumentPath|] == DocumentPath
    ensures url[|url| - |cfg.token|..] == cfg.token
  {
    cfg.base + DocumentPath + cfg.token
  }

  /** The first name used in the greeting: the name up to its first space. */
  function FirstName(name: string): (first: string)
    ensures first <= name && ' ' !in first
    ensures |first| < |name| ==> name[|first|] == ' '
  {
    FirstPieceSpec(name, ' ');
    FirstPiece(name, ' ')
  }

  /** What every contact the handler accepts satisfies. */
  predicate ValidContact(c: Contact) {
    && c.name != ""
    && Trim(c.name) == c.name
    && IsE164BR(c.phone)
    && c.last6 == Last6(c.phone)
  }

  /** The checks that follow extraction: trimmed name and normalised phone, then the
      provider configuration. */
  function Admit(cfg: Config, nameRaw: string, phoneRaw: string): Decision {
    var name := Trim(nameRaw);
    var phone := ToE164BR(phoneRaw);
    if name == "" || phone == "" then BadRequest(name, phoneRaw)
    else
      var contact := Contact(name, phone, Last6(phone));
      if cfg.sendEndpoint == "" || cfg.token == "" then Degraded(contact)
      else ProceedToSend(contact, SendUrl(cfg), Digits(phone), FirstName(name), DocumentUrl(cfg))
  }

  /** The validation half of the handler, in the order it runs its early exits. */
  function Decide(cfg: Config, header: Option<string>, formData: Option<seq<Field>>): Decision {
    if !Authorized(cfg.webhookSecret, header) then Unauthorized
    else Admit(cfg, Pick(formData, NameLabel, NameKey), Pick(formData, PhoneLabel, PhoneKey))
  }

  /** The handler's steps, run one after another with early returns. */
  method HandleWebhook(cfg: Config, header: Option<string>, formData: Option<seq<Field>>)
    returns (d: Decision)
    ensures d == Decide(cfg, header, formData)
  {
    var incomingSecret := header.GetOr("");
    if cfg.webhookSecret != "" && incomingSecret != cfg.webhookSecret {
      return Unauthorized;
    }
    var nameRaw := PickFieldValue(formData, NameLabel, NameKey);
    var phoneRaw := PickFieldValue(formData, PhoneLabel, PhoneKey);
    assert Decide(cfg, header, formData) == Admit(cfg, nameRaw, phoneRaw);
    var name := Trim(nameRaw);
    var phone := ToE164BR(phoneRaw);
    if name == "" || phone == "" {
      return BadRequest(name, phoneRaw);
    }
    var last6 := Last6(phone);
    if cfg.sendEndpoint == "" || cfg.token == "" {
      return Degraded(Contact(name, phone, last6));
    }
    var url := SendUrl(cfg);
    d := ProceedToSend(Contact(name, phone, last6), url, Digits(phone), FirstName(name), DocumentUrl(cfg));
  }

  /** A wrong secret is refused before anything is read from the form. */
  lemma UnauthorizedFirst(cfg: Config, header: Option<string>, formData: Option<seq<Field>>)
    ensures Decide(cfg, header, formData) == Unauthorized
        <==> cfg.webhookSecret != "" && header.GetOr("") != cfg.webhookSecret
  {
  }

  /** An authorised request goes on with the values picked for the name and the phone. */
  lemma AuthorizedAdmits(cfg: Config, header: Option<string>, formData: Option<seq<Field>>)
    requires Authorized(cfg.webhookSecret, header)
    ensures Decide(cfg, header, formData)
         == Admit(cfg, Pick(formData, NameLabel, NameKey), Pick(formData, PhoneLabel, PhoneKey))
  {
  }

  /** An empty trimmed name or an unusable phone is refused with the trimmed name and the raw
      phone value, and only then. */
  lemma BadRequestWhenInvalid(cfg: Config, nameRaw: string, phoneRaw: string)
    ensures Admit(cfg, nameRaw, phoneRaw).BadRequest? <==> (Trim(nameRaw) == "" || ToE164BR(phoneRaw) == "")
    ensures Admit(cfg, nameRaw, phoneRaw).BadRequest? ==> Admit(cfg, nameRaw, phoneRaw) == BadRequest(Trim(nameRaw), phoneRaw)
  {
  }

  /** The contact the handler accepts is the trimmed name, the normalised phone and that
      phone's last six digits, and it is valid: a non-empty trimmed name, a "+55" number of
      digits, and the number's tail. */
  lemma AcceptedContactValid(cfg: Config, nameRaw: string, phoneRaw: string)
    requires Trim(nameRaw) != "" && ToE164BR(phoneRaw) != ""
    ensures Admit(cfg, nameRaw, phoneRaw).Degraded? || Admit(cfg, nameRaw, phoneRaw).ProceedToSend?
    ensures Admit(cfg, nameRaw, phoneRaw).contact
         == Contact(Trim(nameRaw), ToE164BR(phoneRaw), Last6(ToE164BR(phoneRaw)))
    ensures ValidContact(Admit(cfg, nameRaw, phoneRaw).contact)
  {
    TrimIdempotent(nameRaw);
  }

  /** The degraded reply is given exactly when the contact is valid but the send endpoint or
      the token is missing. */
  lemma DegradedWhenUnconfigured(cfg: Config, nameRaw: string, phoneRaw: string)
    ensures Admit(cfg, nameRaw, phoneRaw).Degraded?
        <==> && Trim(nameRaw) != ""
             && ToE164BR(phoneRaw) != ""
             && (cfg.sendEndpoint == "" || cfg.token == "")
  {
  }

  /** A valid contact with a configured provider reaches the sends (and, with
      `BadRequestWhenInvalid` and `DegradedWhenUnconfigured`, nothing else does); the message
      then goes to the number's digits and greets the contact by first name. */
  lemma ProceedAfterAllChecks(cfg: Config, nameRaw: string, phoneRaw: string)
    requires Trim(nameRaw) != "" && ToE164BR(phoneRaw) != ""
    requires cfg.sendEndpoint != "" && cfg.token != ""
    ensures Admit(cfg, nameRaw, phoneRaw).ProceedToSend?
    ensures var d := Admit(cfg, nameRaw, phoneRaw);
      && d.sendUrl == cfg.base + cfg.sendEndpoint + "/" + cfg.token
      && d.documentUrl == cfg.base + DocumentPath + cfg.token
      && "55" <= d.to && d.to == d.contact.phone[1..]
      && d.firstName != "" && d.firstName <= d.contact.name && ' ' !in d.firstName
    ensures var d, digits := Admit(cfg, nameRaw, phoneRaw), Digits(phoneRaw);
      && d.to == (if "55" <= digits then digits else "55" + digits)
      && d.firstName == FirstName(Trim(nameRaw))
  {
    var name, phone := Trim(nameRaw), ToE164BR(phoneRaw);
    assert Admit(cfg, nameRaw, phoneRaw)
        == ProceedToSend(Contact(name, phone, Last6(phone)), SendUrl(cfg), Digits(phone), FirstName(name), DocumentUrl(cfg));
    E164Digits(phone);
    TrimEnds(nameRaw);
    FirstPieceSpec(name, ' ');
    ToE164BRDigits(phoneRaw);
  }

  /** Outcome of one provider call: the response body, or the diagnostic of a failure. */
  datatype SendResult = Delivered(data: string) | Failed(details: string)

  /** The reply the caller receives. */
  datatype Reply =
    | Unauthorized401
    | MissingNamePhone400(name: string, phoneRaw: string)
    | NotConfigured200(contact: Contact)
    | Sent200(contact: Contact, providerData: string)
    | ProviderError500(details: string)

  function Status(r: Reply): int {
    match r
    case Unauthorized401 => 401
    case MissingNamePhone400(_, _) => 400
    case NotConfigured200(_) => 200
    case Sent200(_, _) => 200
    case ProviderError500(_) => 500
  }

  /** The reply to a decision, given what the text send and the document send returned. The
      document is sent only after the text send succeeded; a failure of either ends in 500. */
  function Respond(d: Decision, textSend: SendResult, documentSend: SendResult): (r: Reply)
    ensures Status(r) == 500 <==> d.ProceedToSend? && (textSend.Failed? || documentSend.Failed?)
    ensures Status(r) == 401 <==> d.Unauthorized?
    ensures Status(r) == 400 <==> d.BadRequest?
    ensures d.BadRequest? ==> r == MissingNamePhone400(d.name, d.phoneRaw)
    ensures d.Degraded? ==> r == NotConfigured200(d.contact)
    ensures d.ProceedToSend? && textSend.Delivered? && documentSend.Failed?
        ==> r == ProviderError500(documentSend.details)
  {
    match d
    case Unauthorized => Unauthorized401
    case BadRequest(name, phoneRaw) => MissingNamePhone400(name, phoneRaw)
    case Degraded(c) => NotConfigured200(c)
    case ProceedToSend(c, _, _, _, _) =>
      if textSend.Failed? then ProviderError500(textSend.details)
      else if documentSend.Failed? then ProviderError500(documentSend.details)
      else Sent200(c, textSend.data)
  }

  /** Before the sends, the provider is never consulted: the reply does not depend on it. */
  lemma NoSendBeforeChecks(d: Decision, t1: SendResult, d1: SendResult, t2: SendResult, d2: SendResult)
    requires !d.ProceedToSend?
    ensures Respond(d, t1, d1) == Respond(d, t2, d2)
    ensures Status(Respond(d, t1, d1)) != 500
  {
  }

  /** A failed text send ends the request with its diagnostic; the document send never runs. */
  lemma TextFailureStops(d: Decision, textSend: SendResult, d1: SendResult, d2: SendResult)
    requires d.ProceedToSend? && textSend.Failed?
    ensures Respond(d, textSend, d1) == Respond(d, textSend, d2) == ProviderError500(textSend.details)
  {
  }

  /** A successful reply reports the text send's response body and the accepted contact. */
  lemma SentReportsText(d: Decision, textSend: SendResult, documentSend: SendResult)
    requires Status(Respond(d, textSend, documentSend)) == 200 && d.ProceedToSend?
    ensures Respond(d, textSend, documentSend) == Sent200(d.contact, textSend.data)
  {
  }
}
