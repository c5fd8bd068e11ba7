# ninjaforms-to-wascale, modelled in Dafny

The service receives Ninja Forms submissions on `POST /webhook/ninja`. It checks a shared
secret and picks the contact's first name and telephone out of the submitted fields. It then
normalises the telephone to a Brazilian E.164 number (`+55…`) and, when the WaScale provider
is configured, sends a WhatsApp greeting and a contact card to that number.

This project models the decision-making core of that service:

- `Phone` — the digit filter `digits`, the normaliser `toE164BR`, and the last six digits
  echoed back in the contact.
- `Fields` — `pickFieldValue`. It is written as a loop method (`PickFieldValue`) proved
  against a first-match specification function (`Pick`, via `FirstMatch`).
- `Webhook` — the handler's early exits, in the order they run:
  - 401 for a wrong secret;
  - 400 for a missing name or an unusable phone;
  - a 200 warning when the provider is not configured;
  - otherwise the send, with its URLs, target digits and the first name used in the
    greeting.

  `Decide` is the specification. `HandleWebhook` is the step-by-step method proved equal to
  it. `Respond` maps a decision and the outcomes of the two provider calls to the reply.
- `Strings` — ASCII stand-ins for the JavaScript built-ins the handler relies on
  (`toLowerCase`, `includes`, `trim`, `split(" ")[0]`), each with its defining properties.
- `WebhookExamples` — one concrete submission followed end to end.

One behaviour of `toE164BR` is worth knowing. It treats any digit string that starts with
`55` as already carrying the country code. So a local number with area code 55 (Rio Grande
do Sul), typed as `(55) 9xxxx-xxxx`, becomes `+55` followed by its own digits, with no
country code added. `Phone.AreaCode55ReadAsCountryCode` states this. The same rule puts no minimum length on
such digit strings: `55` alone becomes `+55`, passes the 400 check, and is echoed with the
tail `55` (`Phone.CountryCodeAloneAccepted`). The model keeps the source's behaviour in both
cases.

## Model

| member | source | states |
|---|---|---|
| Phone.Digits | src/server.js:16 | the result contains only the characters `0`-`9` and is no longer than the input |
| Phone.DigitsCount | src/server.js:16 | every decimal digit occurs in the result exactly as often as in the input, and nothing else occurs (the filter drops exactly the non-digits) |
| Phone.DigitsConcat | src/server.js:16 | filtering distributes over concatenation |
| Phone.DigitsFixedPoint | src/server.js:16 | the filter leaves a string unchanged if and only if it is all digits |
| Phone.DigitsIdempotent | src/server.js:16 | filtering twice is filtering once |
| Phone.ToE164BR | src/server.js:18-24 | the result is empty or `+55` followed by digits, and a non-empty result ends with all digits of the input |
| Phone.ToE164BRAccepts | src/server.js:18-24 | a number is produced if and only if the digits start with `55` or there are at least ten of them |
| Phone.WithCountryCode | src/server.js:21 | digits starting with `55` get only a `+` |
| Phone.AddsCountryCode | src/server.js:22 | ten or more digits not starting with `55` get `+55` in front |
| Phone.RejectsShort | src/server.js:20-23 | fewer than ten digits not starting with `55` give the empty string |
| Phone.E164Digits | src/server.js:81 | the digits of a normalised number are the number without its `+` |
| Phone.ToE164BRDigits | src/server.js:18-24 | the digits of the result are the input's digits, with `55` prepended exactly when they did not start with it |
| Phone.ToE164BRIdempotent | src/server.js:18-24 | normalising a normalised number (or the empty string) changes nothing |
| Phone.DigitsOfMasked | src/server.js:16 | the digits of a masked telephone `(AA) HHHHH-TTTT` are area, head and tail run together |
| Phone.MaskedLocalNumber | src/server.js:18-24 | a masked local number with a two-digit area code other than 55 becomes `+55` followed by all its digits |
| Phone.AreaCode55ReadAsCountryCode | src/server.js:21 | a masked number with area code 55 is read as already international: no second `55` is added |
| Phone.CountryCodeAloneAccepted | src/server.js:20-21 | the bare digits `55` are accepted as `+55`, and their echoed tail is `55` |
| Phone.Last6 | src/server.js:81 | the result is the last min(6, n) of the n digits of the phone |
| Phone.Last6OfAccepted | src/server.js:70-81 | for an accepted phone, the echoed tail has 2 to 6 digits, ends the number, and equals the last six digits of the raw input when it had at least six |
| Strings.Lower | src/server.js:28-34 | `toLowerCase`: each ASCII capital replaced by its small letter, everything else kept; its properties are in `Strings.LowerProperties` |
| Strings.LowerProperties | src/server.js:28-34 | lower-casing keeps the length, leaves no capital letter and is idempotent |
| Strings.LowerPrefix | src/server.js:33 | lower-casing preserves prefixes |
| Strings.LowerAvoids | src/server.js:33 | a letter absent from a string in both cases is absent from its lower-cased form |
| Strings.Contains | src/server.js:36-37 | `includes`: the wanted text is a prefix of the string or of one of its suffixes; characterised by `Strings.ContainsIff` |
| Strings.ContainsIff | src/server.js:36-37 | `includes` holds if and only if the wanted text occurs at some position |
| Strings.MissingCharNotContained | src/server.js:36-37 | text containing a character the string lacks is not included in it |
| Strings.Trim | src/server.js:69 | `trim`: leading white space dropped, then trailing white space; characterised by `Strings.TrimInfix` and `Strings.TrimEnds` |
| Strings.TrimStartSpec | src/server.js:69 | dropping leading white space leaves a suffix, drops only white space, and stops at a non-space |
| Strings.TrimEndSpec | src/server.js:69 | dropping trailing white space leaves a prefix, drops only white space, and stops at a non-space |
| Strings.TrimInfix | src/server.js:69 | the trimmed string is a contiguous piece of the input with only white space cut on either side |
| Strings.TrimEnds | src/server.js:69 | a trimmed string is empty or starts and ends with a non-space |
| Strings.TrimKeeps | src/server.js:69 | a string without white space at its ends is its own trim |
| Strings.TrimIdempotent | src/server.js:69 | trimming twice is trimming once |
| Strings.TrimEmptyIff | src/server.js:69-72 | the trimmed name is empty if and only if the raw name is all white space |
| Strings.FirstPiece | src/server.js:95 | `split(sep)[0]`: the characters before the first separator, or the whole string; characterised by `Strings.FirstPieceSpec` |
| Strings.FirstPieceSpec | src/server.js:95 | the first piece of a split is a prefix free of the separator, followed by the separator or the end |
| Strings.FirstPieceAt | src/server.js:95 | when the first separator is at position k, the first piece is the first k characters |
| Fields.ValueOf | src/server.js:36-37 | `item?.value ?? ""`: the entry's value, or the empty string when it has none |
| Fields.Matches | src/server.js:33-37 | the entry's lower-cased label contains the wanted label, or the wanted key is non-empty and the entry's lower-cased key contains it |
| Fields.FirstMatch | src/server.js:31-38 | returns the index of the first field whose lower-cased label contains the wanted label, or whose key contains a non-empty wanted key; none before it matches, and none at all when it returns nothing |
| Fields.Pick | src/server.js:26-40 | `pickFieldValue`: the value of the first entry matching the lower-cased wanted label and key, or the empty string when no entry matches or there is no form data; characterised by `Fields.PickFirstMatching`, `Fields.PickNothingMatching` and `Fields.PickComesFromMatch` |
| Fields.PickFirstMatching | src/server.js:31-37 | the value returned is that of the first matching field (a missing value reads as empty) |
| Fields.PickNothingMatching | src/server.js:27-39 | with no matching field, or no form data at all, the result is the empty string |
| Fields.PickComesFromMatch | src/server.js:31-39 | a non-empty result is the value of a field that matches |
| Fields.FirstMatchIgnoresKeys | src/server.js:37 | with an empty wanted key, only labels decide the match |
| Fields.PickIgnoresKeys | src/server.js:26-37 | with the default empty key, fields that agree on labels and values give the same result, whatever their keys |
| Fields.PickFieldValue | src/server.js:26-40 | the loop returns exactly the first-match value `Pick` specifies |
| Webhook.Authorized | src/server.js:57-58 | the request passes when no secret is configured or the `x-webhook-secret` header (absent reads as empty) equals it |
| Webhook.SendUrl | src/server.js:91 | the send URL is the base, then the send endpoint, then `/` and the token |
| Webhook.DocumentUrl | src/server.js:133 | the document URL is the base, then `/api/enviar-documento/`, then the token: it starts with the base, has that path right after it, ends with the token, and has the length of the three together |
| Webhook.FirstName | src/server.js:95 | the greeting's first name is a prefix of the name without a space, followed in the name by a space unless it is the whole name |
| Webhook.Admit | src/server.js:69-91 | after extraction: 400 with the trimmed name and raw phone when either is unusable, else the "not configured" reply when endpoint or token is missing, else the send, whose contact is the trimmed name, the normalised phone and its last six digits, whose target is that phone's digits and whose greeting uses the name's first word; characterised by `Webhook.BadRequestWhenInvalid`, `Webhook.DegradedWhenUnconfigured`, `Webhook.AcceptedContactValid` and `Webhook.ProceedAfterAllChecks` |
| Webhook.Decide | src/server.js:57-91 | the handler's decision: 401 unless authorised, else `Admit` on the values picked for the name and the phone; characterised by `Webhook.UnauthorizedFirst` and `Webhook.AuthorizedAdmits` |
| Webhook.HandleWebhook | src/server.js:57-95 | the step-by-step handler reaches exactly the decision `Decide` specifies |
| Webhook.UnauthorizedFirst | src/server.js:57-60 | a request is refused with 401 if and only if a secret is configured and the header (absent reads as empty) differs from it |
| Webhook.AuthorizedAdmits | src/server.js:64-65 | an authorised request goes on with the values picked for `Primeiro nome`/`firstname` and `Telefone`/`phone` |
| Webhook.BadRequestWhenInvalid | src/server.js:69-79 | the 400 reply happens if and only if the trimmed name or the normalised phone is empty, and carries the trimmed name and the raw phone |
| Webhook.AcceptedContactValid | src/server.js:69-88 | a non-empty trimmed name and an accepted phone always pass the 400 check; the contact is then exactly the trimmed name, the normalised phone and that phone's last six digits, and so has a non-empty trimmed name and a `+55` digit number |
| Webhook.DegradedWhenUnconfigured | src/server.js:83-89 | the "not configured" 200 reply happens if and only if the contact is valid and the send endpoint or the token is missing |
| Webhook.ProceedAfterAllChecks | src/server.js:83-133 | a valid contact with endpoint and token configured always reaches the send; it goes to the raw phone's digits, with `55` put in front when they did not start with it (that is, the normalised number without `+`), uses the send and document URLs, and greets with the first word of the trimmed name, a non-empty, space-free prefix of it |
| Webhook.Respond | src/server.js:57-168 | the reply is 500 exactly when the send was reached and the text send or the document send failed, 401 exactly for an unauthorised request, and 400 exactly for a missing name or phone; the 400 reply echoes the trimmed name and the raw phone, the "not configured" 200 reply echoes the contact, and a failed document send after a delivered text reports the document send's own diagnostic |
| Webhook.NoSendBeforeChecks | src/server.js:57-89 | replies before the send step do not depend on the provider and are never 500 |
| Webhook.TextFailureStops | src/server.js:113-168 | a failed text send ends in 500 with its diagnostic, whatever the document send would have done |
| Webhook.SentReportsText | src/server.js:155-160 | a successful send reports the accepted contact and the text send's response body |
| WebhookExamples.NameFieldMatches | src/server.js:36 | the label "Primeiro nome completo" matches the wanted name label |
| WebhookExamples.PhoneFieldMatches | src/server.js:36 | the label "Telefone Celular" matches the wanted phone label |
| WebhookExamples.NameFieldIsNotPhone | src/server.js:36-37 | the name field matches neither the phone label nor the phone key |
| WebhookExamples.PhoneFieldIsNotName | src/server.js:36-37 | the phone field matches neither the name label nor the name key |
| WebhookExamples.PicksSampleName | src/server.js:64 | the sample form yields the name "Maria Silva" |
| WebhookExamples.PicksSamplePhone | src/server.js:65 | the sample form yields the masked telephone `(11) 91234-5678` |
| WebhookExamples.NormalisesSamplePhone | src/server.js:18-24 | `(11) 91234-5678` normalises to `+5511912345678` |
| WebhookExamples.SamplePhoneTail | src/server.js:81 | that number's digits are `5511912345678` and its last six are `345678` |
| WebhookExamples.SampleNameTrimmed | src/server.js:69 | "Maria Silva" is its own trim |
| WebhookExamples.SampleFirstName | src/server.js:95 | the greeting uses "Maria" |
| WebhookExamples.SampleUnconfigured | src/server.js:83-89 | with no provider configured, the sample form gets the warning reply with contact ("Maria Silva", `+5511912345678`, `345678`) |
| WebhookExamples.SampleConfigured | src/server.js:91-133 | with the provider configured, the sample form is sent to `5511912345678` greeting "Maria", with the document URL `base/api/enviar-documento/token` |
| WebhookExamples.SampleMissingName | src/server.js:72-79 | a form with only a telephone gets the 400 reply with an empty name and the raw telephone |
| WebhookExamples.SampleWrongSecret | src/server.js:57-60 | a wrong or absent header is refused when a secret is configured |

## Left out

- The HTTP server is not modelled: Express set-up, the JSON body limit, `/health` and `listen`.
- The provider calls are not modelled. Each call's outcome (its response body, or the
  diagnostic of a failure) is an input of `Respond`. Timeouts, the two-second pause between
  the sends, and the HTTP status of the provider's reply are not modelled.
- The greeting text and the vCard with its base64 encoding are not modelled. Only the first
  name interpolated into the greeting, the target digits and the two URLs are.
- Logging is not modelled.
- Reading the environment is not modelled. `Config` carries the four settings, and the
  default base URL is applied before a `Config` is built.
- The in-memory de-duplication is commented out in the source, so it is not modelled.
- Strings.Lower: lower-cases only ASCII `A`-`Z`. JavaScript's `toLowerCase` also folds
  non-ASCII letters (for example `Ç` to `ç`).
- Strings.Trim: strips only space, tab, line feed, carriage return, vertical tab and form
  feed. JavaScript's `trim` also strips other Unicode white space (for example no-break
  space and byte-order mark).
- Fields.Pick: field labels, keys and values are strings (a value may be absent).
  JavaScript's coercion of other JSON types with `String(...)`, and falsy non-string
  values, are not modelled.
- Fields.Pick: the submitted fields are a sequence in the order `Object.keys` enumerates
  them. A form whose keys are integer-like would enumerate in numeric order; the model
  assumes that order is the one given.
- Webhook.Respond: the catch-all 500 reply also catches exceptions raised before the sends.
  One example is `String(...)` at lines 16, 33, 34 or 69 failing on a label, key or value
  that is an object whose `toString` and `valueOf` cannot be called (`{"toString": 0}`).
  The model covers only failures of the two provider calls, so the "never 500" of
  `Webhook.NoSendBeforeChecks` holds for the model only.
- Phone.ToE164BR: like the source, it does not enforce E.164's 15-digit maximum.
