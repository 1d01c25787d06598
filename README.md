# A verified model of the kanban back office

This project models, in Dafny, the decision rules of a back office. The
back office manages users, service tariffs, PIX payments and a kanban board
fed from Slack. Five parts of it are modelled:

- **Document and input validators.** Brazilian CPF and CNPJ check digits,
  PIX keys, transaction ids, seller ids, UF codes and postal codes
  (`Documents`, on top of the JavaScript primitives in `JsText`). Also the
  role-dependent rules of the user creation form and the CPF availability
  check (`UserCreation`), and the kanban input schemas (`KanbanSchemas`).
- **The payment step-up ceremony.** The modal's step machine, with its
  monotone furthest step, its inactivity countdown and its step token
  (`AuthFlow`, `PaymentModal`, `PixPayment`). Also the server actions behind
  it: the password step (`PasswordCheck`) and the OTP step with its replay
  markers and two-phase TOTP enrolment, over a versioned user table (`Otp`,
  `Users`, `SecurityResults`).
- **The API token and session gateway.** `<id>.<secret>` tokens, their
  expiry and bearer headers, and JWT renewal 300 seconds before `exp`
  (`ApiAuth`). Then the API middleware and the token exchange route
  (`Gateway`), the request proxy with its rate-limit tiers (`Proxy`), the
  session callbacks and role guards (`Session`), and token management
  (`Tokens`).
- **Tariff bookkeeping.** Tariff validity intervals, overlap detection and
  closing the tariffs that overlap a new one at the end of the previous UTC
  day (`TariffStore`), and the service catalogue (`ServiceStore`). The
  screens around them: the bulk percentage adjustment in integer cents
  (`BulkAdjust`), the service modal's editable tariff rows (`ServiceModal`,
  `TariffStatus`), the services table (`ServicesTable`) and the two creation
  forms (`TariffCreateForm`, `ServiceCreateForm`). Finally pt-BR amount
  parsing (`PtBrNumber`) and the averbation calculator (`AverbRanges`,
  `Averbation`).
- **The kanban board and its Slack intake.** Fractional card positions,
  column moves (no skipped columns, backward moves restricted, WIP limits),
  the single "next" card per board and the default board layout
  (`Kanban`). The Slack side: the pending-approval map with its 24-hour
  expiry (`PendingApprovals`), the channel allow-lists (`SlackChannels`),
  the card shape filter and the creation of approved cards
  (`CardGenerator`), and the Block Kit messages (`MessageBlocks`).

Database tables are in-memory sequences and maps, money is integer cents,
instants are integers, and card positions are `real`. The following become
parameters of the operations that use them: the current time, the ids the
database would assign, and the answers of cryptographic and remote
services. The JavaScript behaviour the code relies on is written out: the
prefix reading of `parseInt`, `%` truncating toward zero, `Number(null) ===
0`, NaN comparisons and `Math.round` rounding halves up. Operations that
update state in the source are methods of classes (`Kanban.KanbanStore`,
`TariffStore.TariffTable`, `PendingApprovals.PendingStore`,
`AuthFlow.Flow`, the form drafts). Each such method is proved against a specification function,
and the properties are lemmas about those functions.

## Model

| member | source | states |
|---|---|---|
| Documents.DigitAt | lib/validators.ts:12-15 | `parseInt` of one character (undefined past the end) is a number exactly when it is an ASCII digit, and then it is 0..9 |
| Documents.WeightedSumDefined | lib/validators.ts:12-38 | a weighted sum is a number (not NaN) exactly when every character it reads is a digit |
| Documents.WeightedSumPrefix | lib/validators.ts:12-38 | a weighted sum depends only on the characters it reads |
| Documents.CpfCheck | lib/validators.ts:13-19 | the CPF check digit `(sum*10) % 11`, with JavaScript's truncating `%` and with 10 (and the unreachable 11) read as 0, is a digit 0..9 for every non-negative sum; a negative sum would give 0 down to -10 |
| Documents.ValidateCpf | lib/validators.ts:8-21 | the two summation loops, with NaN propagated, return exactly IsValidCpf: not one repeated digit, and digits 10 and 11 equal to the mod-11 checks over the first 9 (weights 10..2) and first 10 (weights 11..2) |
| Documents.CpfValidShape | lib/validators.ts:8-21 | an accepted CPF starts with eleven digits and is not one repeated digit |
| Documents.CpfCheckDigitsDetermined | lib/validators.ts:10-20 | two accepted CPFs with the same nine leading digits have the same two check digits |
| Documents.CpfRejectsRepeatedDigit | lib/validators.ts:9 | a string of one repeated digit is refused |
| Documents.CpfAcceptsExample | lib/validators.ts:8-21 | the well-formed CPF 529.982.247-25 is accepted |
| Documents.CnpjCheck | lib/validators.ts:32-40 | with JavaScript's truncating `%`, every negative sum gives check digit 0; for a non-negative sum the digit is 0 exactly when `sum % 11 < 2`; always 0..9 |
| Documents.ValidateCnpj | lib/validators.ts:23-42 | the two loops as written (weights starting at size-7, decremented past zero, the reset to 9 only after the loop, the clamped `substring`) return exactly IsValidCnpj |
| Documents.CnpjValidShape | lib/validators.ts:23-42 | a CNPJ accepted as written is made of digits only |
| Documents.CnpjRejectsStandardExample | lib/validators.ts:29-33 | 11.222.333/0001-81, valid under the registry's 5,4,3,2,9..2 weights, is refused as written: round one sums to 6 and demands 5 where the number carries 8 |
| Documents.CnpjAcceptsNegativeSumExample | lib/validators.ts:37-41 | 49.711.623/6244-90 is accepted as written because round two sums to -3, whose truncated remainder gives check digit 0 |
| Documents.RegistryWeightsAreStandard | lib/validators.ts:29-31 | with the reset to 9 inside the loop, the two rounds weigh 5,4,3,2,9..2 and 6,5,4,3,2,9..2 |
| Documents.CnpjRegistryAcceptsStandardExample | lib/validators.ts:23-42 | under the registry's weights 11.222.333/0001-81 is accepted (sums 102 and 120, check digits 8 and 1), where the as-written check refuses it |
| Documents.CpfOrCnpjDispatch | lib/validators.ts:1-6 | after stripping non-digits, 11 digits are decided by the CPF check, 14 by the CNPJ check, and any other length is refused |
| Documents.NormalizeDocument | lib/validators.ts:72-77 | the digits-only text exactly when the input is a valid CPF or CNPJ, otherwise null; a result has 11 or 14 digits |
| Documents.NormalizeDocumentIdempotent | lib/validators.ts:72-77 | normalizing a normalized document gives it back |
| Documents.IsValidPixKey | lib/validators.ts:44-55 | an 11-digit key is decided by the CPF check and a 14-digit key by the CNPJ check alone; any other key is valid exactly when it is an e-mail, a `+55` phone once white space is dropped, or a UUID |
| Documents.EmailLikeIntro | lib/validators.ts:48 | every `local@host.tld` with local and host characters from the allowed sets and a top-level label of two or more letters matches the e-mail pattern |
| Documents.IsValidSellerId | lib/validators.ts:79-84 | a 10-character id is valid exactly when it is a nanoid, a 25-character id exactly when it is a cuid (`c` and 24 lower-case letters or digits), any other length never |
| Documents.IsValidUf | lib/validators.ts:86-116 | valid exactly when the upper-cased text is one of the 27 federative-unit codes, so always two characters |
| Documents.UfExamples | lib/validators.ts:116 | "sp" and "Rj" are accepted whatever their case; "XX" is not |
| Documents.IsValidCep | lib/validators.ts:118-121 | valid exactly when the text holds eight digits once non-digits are dropped |
| Documents.IsValidStateOrRegion | lib/validators.ts:123-126 | a value two UTF-16 code units long must be a UF code; any other value is accepted by its length in code units alone, 3 to 50 |
| Documents.AstralPairIsRegion | lib/validators.ts:123-126 | two characters outside the Basic Multilingual Plane have a length of four and pass as a region name, without the UF check |
| Documents.IsValidPostalCode | lib/validators.ts:128-132 | eight digits is always valid whatever else the value holds; otherwise valid exactly when 4 to 20 UTF-16 code units long |
| Documents.TxidShape | lib/validators.ts:57-58 | a valid txid stays valid cut to any length from 26 or extended by letters and digits up to 35; any other character anywhere makes it invalid |
| Documents.FutureDateWindow | lib/validators.ts:60-70 | an unparseable date never passes; today's local midnight and the instant maxDays days later pass (for maxDays from 0), the millisecond before today and after the window do not; a wider window keeps every date that passed |
| JsText.DigitsOnly | lib/validators.ts:2 | `replace(/[^\d]/g, '')` leaves only digits, one code unit each, never lengthens, and leaves an all-digit text unchanged |
| JsText.JsLength | app/settings/tokens/actions.ts:11 | `.length` counts UTF-16 code units: between one and two per character, exactly one per character inside the Basic Multilingual Plane and two outside it, and zero only for the empty text |
| JsText.AstralPairIsFourUnits | app/settings/tokens/actions.ts:11 | two characters outside the Basic Multilingual Plane have a `.length` of 4 |
| JsText.BlankIffAllSpaces | app/settings/users/security/actions/userAuth.ts:35 | `!value.trim()` holds exactly when every character is ECMAScript white space (the empty text included) |
| JsText.JoinSplit | app/settings/users/security/components/usePixPayment.ts:66 | joining the pieces of `split(sep)` with `sep` gives the text back |
| JsText.SplitJoinSingle | lib/apiAuth.ts:26 | splitting a join of separator-free pieces gives exactly those pieces back |
| JsText.ParseIntDigits | lib/apiAuth.ts:28 | `parseInt` reads a non-empty all-digit text as its decimal value, leading zeros included |
| JsText.ParseIntNatToString | app/settings/tokens/actions.ts:17 | `parseInt` reads back the decimal rendering of every natural number |
| JsText.JsRem | lib/validators.ts:32-40 | JavaScript's `%` by a positive divisor: Euclidean for a non-negative dividend, non-positive for a negative one, and strictly inside (-b, b) |
| JsText.JsRound | app/settings/tariffs/service/manager/components/bulkAdjustment/tariffUtils.ts:54 | `Math.round` lands within half a unit of its argument, halves going up |
| PtBrNumber.Normalized | app/settings/tariffs/service-tariff/create/page/Form.tsx:104 | dropping every '.' and turning the first ',' into '.' leaves a text without either character as it was |
| PtBrNumber.ParseFloat | app/settings/tariffs/service-tariff/create/page/Form.tsx:104 | `parseFloat` on a sign-free text is NaN exactly when it starts neither with a digit nor with '.' and a digit; any number read is non-negative |
| PtBrNumber.ParseFloatWithCents | app/settings/tariffs/service-tariff/create/page/Form.tsx:104 | `parseFloat` of digits, '.', digits is the whole part plus the decimals as a fraction |
| PtBrNumber.NormalizedPrice | app/settings/tariffs/service-tariff/create/page/Form.tsx:45-104 | a grouped integer part `[0-9]{1,3}(\.[0-9]{3})*` followed by `,cents` normalizes to its digits, '.', the cents |
| PtBrNumber.PriceReadsAsCents | app/settings/tariffs/service-tariff/create/page/Form.tsx:45-104 | every text the price pattern admits is read by the normalize-then-`parseFloat` step as exactly its digits divided by 100 |
| UserCreation.ParseFormRole | app/settings/users/create/validationSchema.ts:6-25 | the role enum admits exactly "ADMIN" and "USER", each read as its own role and never as API |
| UserCreation.FormRoleRejectsApi | app/settings/users/create/validationSchema.ts:6 | the API role's name is refused by the schema |
| UserCreation.CpfIssues | app/settings/users/create/validationSchema.ts:33-57 | for ADMIN and USER exactly one CPF issue or none: "required" for a missing or empty value, else "11 digits" when it is not eleven digits, else "invalid" when the check digits fail; API gets none |
| UserCreation.PasswordIssues | app/settings/users/create/validationSchema.ts:58-101 | ADMIN: a missing password is the one issue; otherwise the composition issue appears exactly when the pattern fails on the first line and the length issue exactly when shorter than 24 UTF-16 code units, independently. Other roles: one issue exactly when a non-empty password is given. No issue at all exactly when the password rule is met |
| UserCreation.Transform | app/settings/users/create/validationSchema.ts:103-116 | name, e-mail, role and status pass through; the CPF is kept (missing as '') for ADMIN and USER and cleared for API; the password is kept only for ADMIN |
| UserCreation.AcceptedFormIsWellFormed | app/settings/users/create/validationSchema.ts:32-116 | a form without issues gives values with a valid eleven-digit CPF, an ADMIN password of 24 or more characters with an upper-case letter, a digit and a special character, and an empty USER password |
| UserCreation.SanitizePassword | app/settings/users/security/sanitizePassword.ts:3-10 | only an ADMIN with a non-empty password keeps it; everyone else gets undefined; '' is never returned |
| UserCreation.SanitizePasswordIdempotent | app/settings/users/security/sanitizePassword.ts:3-10 | sanitizing twice is sanitizing once |
| UserCreation.FormOffersRoleSchemaRejects | app/settings/users/create/CreateUserForm.tsx:71-75 | the role selector offers API, which the schema's role enum refuses |
| UserCreation.FormFields | app/settings/users/create/CreateUserForm.tsx:53-104 | ADMIN sees name, e-mail, password, role, status, CPF; USER the same without password; API only the four base fields |
| UserCreation.FormFieldsMatchSchema | app/settings/users/create/CreateUserForm.tsx:87-102 | the form shows a password field exactly for ADMIN, and hides the CPF only where the schema demands none |
| UserCreation.CpfTaken | app/settings/users/availability/actions.ts:24-30 | a CPF is taken exactly when some row holds it, other than the excluded user when a non-zero id is given |
| UserCreation.CheckTaxpayerIdAvailability | app/settings/users/availability/actions.ts:11-34 | a non-ADMIN session throws; a text that does not normalize to a valid eleven-digit CPF is unavailable with the "11 digits" message; a missing role or API is available without a lookup; otherwise unavailable "in use" exactly when taken |
| UserCreation.AvailabilityRefusesCnpj | app/settings/users/availability/actions.ts:17-22 | a valid CNPJ normalizes, yet is reported unavailable with the CPF-length message |
| Common.Reverse | app/settings/users/security/components/usePixPayment.ts:66 | element i of the reversal is element n-1-i of the input, with the same length |
| Common.ReverseReverse | app/settings/users/security/components/usePixPayment.ts:66 | reversing twice gives the original sequence back |
| Common.InsertOn | app/settings/tariffs/service-tariff/actions/tariff-actions.ts:175 | inserting keeps the elements (as a multiset) and, for a total preorder, keeps a sorted list sorted |
| Common.SortOn | app/settings/tariffs/service-tariff/actions/tariff-actions.ts:175 | the result is a permutation of the input and, for a total preorder, sorted by the key |
| Common.SortOnMembers | app/settings/tariffs/service-tariff/actions/tariff-actions.ts:175 | sorting keeps exactly the same elements |
| Users.ParseRole | lib/auth.ts:99-100 | a claim is a recognised role exactly when it is one of the three enum values, and the role read back renders as that claim |
| Users.ParseRoleName | lib/auth.ts:99-100 | every role's own enum value is recognised as that role |
| Users.FetchHistoryById | app/settings/users/security/actions/userAuth.ts:4-28 | a falsy id or a failing query gives null; otherwise a row of the table with that id and status ACTIVE, and null only when the table has no such row |
| Users.LatestActiveByEmail | lib/auth.ts:30-34 | the ACTIVE row of that e-mail with the highest version; none exactly when the e-mail has no ACTIVE row |
| Users.ValidateRequired | app/settings/users/security/actions/userAuth.ts:33-38 | null exactly when every value is present and not blank once trimmed; otherwise the message `<key> é obrigatório` of the first failing entry in entry order |
| Users.ValidateRequiredPair | app/settings/users/security/actions/userAuth.ts:33-38 | with two entries, the first key is reported when its value is missing, else the second key when its value is, else nothing |
| Users.ValidateRequiredRejectsWhitespace | app/settings/users/security/actions/userAuth.ts:35 | a value made only of whitespace, of any kind JavaScript's trim removes, counts as missing |
| Users.AdminHasActiveAdminRow | app/settings/users/security/actions/userAuth.ts:30-31 | no history is never an admin; a history fetched as admin comes from a non-zero id, a successful query and an ACTIVE ADMIN row with that id |
| Session.RequireSession | lib/requireSession.ts:5-18 | returns the session user exactly when there is an e-mail, a role, and either an empty list of allowed roles or a role in it; a missing e-mail or role throws 401 and a role outside a non-empty list throws 403 |
| Session.RequireSessionEmptyListAdmitsAnyRole | lib/requireSession.ts:5-17 | with the default empty list every signed-in user with a role is returned |
| Session.SignIn | lib/auth.ts:23-97 | sign-in is allowed exactly when there is an e-mail and some ACTIVE history row carries it |
| Session.JwtToken.constructor | lib/auth.ts:27 | the token starts with the claims it was given |
| Session.JwtToken.ApplyJwtCallback | lib/auth.ts:27-41 | an API-role token, or a call without a signing-in user, leaves the claims unchanged; otherwise id, name and role come from the latest ACTIVE row of that e-mail (absent when there is none) and the e-mail from the user |
| Session.SessionFromToken | lib/auth.ts:42-52 | id and name come from the token and the e-mail from the session; the role is set exactly when the claim is one of the enum values, and then it is that claim |
| Session.SignedInSessionCarriesRowRole | lib/auth.ts:27-52 | a user signed in through an ACTIVE history row gets that row's role in the session |
| Session.Authorized | lib/auth.ts:65-87 | no session is refused; `/settings` without ADMIN redirects to `/dashboard/unauthorized`; `/posting` without ADMIN and an allow-listed e-mail redirects to `/unauthorized`; the path is allowed exactly when those conditions that apply hold |
| Session.SettingsIsNotPosting | lib/auth.ts:68-75 | no path starts with both `/settings` and `/posting`, so at most one of the two gates applies |
| PasswordCheck.ValidatePassword | app/settings/users/security/actions/password.ts:14-43 | throws exactly when the ADMIN session guard throws; missing e-mail or id, or an e-mail off the allow-list, gives "Não autorizado"; a blank password gives the required-field message; success exactly for an ADMIN row whose stored hash matches and a step token of purpose `otp` that mints: such a row yields success with that token, and success implies all the checks passed; when minting the token throws after a matching compare, the reply is "Internal server error"; with the session checks passed, a missing ADMIN row or a failing history query gives "Você não pode realizar essa ação"; a refusal carries no token |
| PasswordCheck.MissingHashLooksLikeWrongPassword | app/settings/users/security/actions/password.ts:34-37 | a row without a stored hash and a wrong password both give the same "Senha inválida" |
| PasswordCheck.CompareFailureIsInternalError | app/settings/users/security/actions/password.ts:36-42 | a comparison that throws gives "Internal server error" |
| KanbanSchemas.CreateCardHoursAreWhole | app/dashboard/kanban/validators/index.ts:4-11 | an accepted card estimate is a whole number of hours from 1 to 24 |
| KanbanSchemas.CreateCardHoursExactly | app/dashboard/kanban/validators/index.ts:4-11 | with the text fields filled, every whole estimate from 1 to 24 is accepted, no other whole one is, and no fractional one ever is |
| KanbanSchemas.MoveCardAcceptsAnyPosition | app/dashboard/kanban/validators/index.ts:13-17 | with both ids non-empty, any target position is accepted, negative and fractional ones included |
| KanbanSchemas.TeamSizeExactly | app/dashboard/kanban/validators/index.ts:29-32 | a team size is accepted exactly when it is a whole number from 1 to 20 |
| KanbanSchemas.FeatureDescriptionBounds | app/dashboard/kanban/validators/index.ts:24-27 | with a board id, a feature description is accepted exactly when 10 to 2000 UTF-16 code units long; in characters, fewer than 5 or more than 2000 is always refused, and 5 to 1000 characters outside the Basic Multilingual Plane are accepted, more than 1000 refused |
| ApiAuth.ParseToken | lib/apiAuth.ts:25-31 | null unless the text splits on '.' into exactly two parts whose first part `parseInt` reads; a parsed token is `head.secret` with no '.' in either part and the id read from the head |
| ApiAuth.ParseFormattedToken | lib/apiAuth.ts:25-31 | the text `<id>.<secret>` for any natural id and any secret without a '.' parses back to exactly that id and secret |
| ApiAuth.ParseTokenNeedsOneDot | lib/apiAuth.ts:26-27 | a text with no '.', or with two or more, never parses |
| ApiAuth.FindActiveToken | lib/apiAuth.ts:33-38 | a row with that id that is active; none exactly when no active row has that id |
| ApiAuth.VerifyApiToken | lib/apiAuth.ts:40-63 | an identity exactly when the token parses, an active row has its id, that row has not expired (an expiry equal to now counts as expired, none never expires) and the secret matches the stored hash; the `lastUsedAt` update is scheduled exactly then, for that row |
| ApiAuth.ApiJwtClaims | lib/apiAuth.ts:65-77 | the minted claims carry the token's id and name, e-mail `api-<id>@system` and role API |
| ApiAuth.ApiEmailInjective | lib/apiAuth.ts:70 | two tokens with different ids never get the same e-mail |
| ApiAuth.ShouldRenewJwt | lib/apiAuth.ts:79-92 | a decode failure or a missing (or zero) `exp` renews; otherwise renewal exactly when `exp` minus the current whole seconds is below 300 |
| ApiAuth.MintedJwtRenewalWindow | lib/apiAuth.ts:7-92 | a JWT minted with a 1800 s lifetime is kept until its last 300 seconds and renewed from then on |
| ApiAuth.ExtractBearerToken | lib/apiAuth.ts:103-105 | an exact `Bearer ` prefix is removed; any other header is taken whole |
| ApiAuth.ExtractBearerOfBearer | lib/apiAuth.ts:103-105 | `Bearer <token>` gives back exactly the token |
| ApiAuth.ValidateApiToken | lib/apiAuth.ts:94-101 | an absent or empty header gives null with nothing scheduled; an identity comes only from a present header and touches that row |
| ApiAuth.HeaderFormsVerifySameToken | lib/apiAuth.ts:94-105 | `Bearer <token>` and a bare token header are verified as the same token |
| ApiAuth.ExpiryIsPermanent | lib/apiAuth.ts:40-43 | a token with no expiry is never expired; one with an expiry is valid until the millisecond before it and expired from that instant on, at every later instant too |
| Gateway.WebhookRouteIsApiRoute | lib/middleware/apiTokenMiddleware.ts:9-16 | every path under `/api/webhooks` is an API route (it starts with `/api/` and not with `/api/auth`) |
| Gateway.SafeCompare | lib/middleware/apiTokenMiddleware.ts:18-21 | true exactly when the two texts are equal (a length mismatch is false) |
| Gateway.WebhookMiddleware | lib/middleware/apiTokenMiddleware.ts:23-29 | the request passes exactly when the configured secret is set and not empty and the header equals it; every other case is 401 |
| Gateway.SessionCookie | lib/middleware/apiTokenMiddleware.ts:6-52 | the cookie is `authjs.session-token` holding the JWT, httpOnly, secure only in production, SameSite lax, max age 1800 and path `/` |
| Gateway.ApiTokenMiddleware | lib/middleware/apiTokenMiddleware.ts:54-66 | 401 exactly when the header's token does not validate; otherwise the request passes, with a cookie for a freshly minted JWT exactly when there is no JWT or the one present needs renewal |
| Gateway.GetClientIp | app/api/auth/token/route.ts:48-54 | the first comma field of x-forwarded-for when it is not empty, else x-real-ip when present and not empty, else `unknown`; never empty |
| Gateway.ClientIpIsFirstHop | app/api/auth/token/route.ts:48-54 | a chain `client,proxy…` is attributed to the client |
| Gateway.TokenRoute | app/api/auth/token/route.ts:10-46 | a limiter refusal is 429 before the body is read; malformed JSON is 400 "Body JSON inválido", a JSON `null` body 500, a non-string token 400, a failed verification 401, a throwing limiter 500; 200 exactly when the token verifies, with `renewed` true and a cookie set exactly when a renewal is needed |
| Gateway.RouteAndMiddlewareAgreeOnRenewal | app/api/auth/token/route.ts:28-33 | for a verified token, the route and the middleware fed the same token as `Bearer` both accept and mint a cookie in exactly the same cases |
| Gateway.RouteClassification | lib/middleware/apiTokenMiddleware.ts:9-16 | `/api/auth/token`, and any path merely starting with `/api/auth` such as `/api/authors`, is outside the API middleware; `/api/tokens` and webhook paths are inside it; `/api` and page paths are not |
| Gateway.NeedsJwtRenewal | lib/middleware/apiTokenMiddleware.ts:37-40 | no cookie or an empty one needs a new JWT, as does one that does not decode or has no `exp`; otherwise a new one exactly when fewer than 300 seconds remain |
| Proxy.GetRoutePrefix | proxy.ts:82-91 | webhook exactly for a webhook, upload exactly for a non-webhook upload, external-api exactly for the remaining external API routes, private for everything else |
| Proxy.LimiterMatchesPrefix | proxy.ts:56-110 | the limiter built for a request (250, 200, 100 or 120 per 60 s window) always matches the tier its key names |
| Proxy.WebhookTierWins | proxy.ts:21-103 | a webhook path, even under `/file/upload`, is an external API route and is limited as a webhook at 250 |
| Proxy.RateLimitMiddleware | proxy.ts:49-80 | a static or dynamic black-list hit gives 403 without blocking; otherwise there is no response exactly when within the limit; the address is blocked exactly when a non-listed client exceeds the limit, and then the answer is 429 |
| Proxy.Route | proxy.ts:19-47 | the response is the rate limiter's exactly when it gives one; past it, webhooks go only to the secret check, other API routes to the token middleware, and every other path to session auth |
| Proxy.GetRateLimit | proxy.ts:56-110 | the limit is the one of the tier the request's key names, between 100 and 250 requests per window |
| Tokens.ValidateTokenName | app/settings/tokens/actions.ts:8-14 | accepted exactly when the value is a string that is not blank and at most 25 UTF-16 code units long once trimmed, and then the trimmed name; a non-string or blank name gives "Nome é obrigatório", a longer one the length message |
| Tokens.ValidateTokenId | app/settings/tokens/actions.ts:16-20 | accepted exactly when `parseInt` reads a number, which is then the id; NaN gives "ID do token inválido" |
| Tokens.FindToken | app/settings/tokens/actions.ts:22-26 | the position of a row with that id, active or not; none only when no row has it |
| Tokens.Toggled | app/settings/tokens/actions.ts:59-62 | every row with that id has `active` flipped, every other row is kept, the length is kept |
| Tokens.ToggledTwice | app/settings/tokens/actions.ts:55-64 | toggling a token twice restores the table |
| Tokens.TokenTable.constructor | app/settings/tokens/actions.ts:33 | the table starts empty with ids handed out from 1 |
| Tokens.TokenTable.CreateApiToken | app/settings/tokens/actions.ts:28-38 | a failed authentication or an invalid name changes nothing and throws its message; otherwise one active row that never expires is appended storing only the hash, and the returned `<id>.<secret>` parses back to that row's id and the secret |
| Tokens.TokenTable.ToggleApiToken | app/settings/tokens/actions.ts:55-64 | succeeds exactly when authenticated, the id parses and a row has it, and then flips that row's `active`; a NaN id or a missing row throws and changes nothing |
| Tokens.StatusColorMatchesText | app/settings/tokens/components/tokensManager.tsx:34-44 | destructive goes with "Inativo" exactly when `active` is explicitly false, secondary with "Expirado" exactly when not inactive and strictly past the expiry, default with "Ativo" otherwise (a null `active` counts as active); outline is never used |
| Tokens.StatusAndVerificationDisagreeAtExpiry | app/settings/tokens/components/tokensManager.tsx:36-42 | at the exact instant of expiry the list shows "Ativo" while verification (lib/apiAuth.ts:42) already counts the token as expired |
| Tokens.StatusColor | app/settings/tokens/components/tokensManager.tsx:34-38 | never the outline variant; destructive exactly when the text is "Inativo", secondary exactly when it is "Expirado" |
| Tokens.StatusText | app/settings/tokens/components/tokensManager.tsx:40-44 | one of the three texts; "Inativo" exactly when `active` is explicitly false; "Expirado" exactly when otherwise verification had already refused the token a millisecond earlier; never "Expirado" without an expiry |
| Otp.TotpAcceptsPreviousStep | app/settings/users/security/actions/otp.ts:51-58 | with `window: 1`, a code generated at any instant is still accepted 30 seconds later |
| Otp.OtpKeyInjective | app/settings/users/security/actions/otp.ts:47 | `used_otp:${id}:${otp}` keys of different users or different colon-free codes never collide |
| Otp.UsedOtpStore.constructor | app/settings/users/security/actions/otp.ts:13 | Redis starts with no replay markers |
| Otp.UsedOtpStore.SetEx | app/settings/users/security/actions/otp.ts:60 | `setex` sets one key to expire `ttl` seconds from now and leaves every other key alone |
| Otp.UsedOtpStore.Expire | app/settings/users/security/actions/otp.ts:48-60 | dropping expired markers changes no answer `get` gives at that instant |
| Otp.ReplayState | app/settings/users/security/actions/otp.ts:47-64 | no verdict when the lookup throws or there is no caller; otherwise "used" exactly when the caller's marker for that code is present and live |
| Otp.OtpReply | app/settings/users/security/actions/otp.ts:19-66 | no caller gives "not authorized", a bad step token its own message; success exactly when every guard passes, the marker is not live, TOTP verifies, the marker write does not throw and the `pix-key` token mints, and then the reply carries that token; a live marker gives "already used"; a verified code whose marker write or mint throws gives "Internal server error"; a refusal carries no token |
| Otp.DecideOtp | app/settings/users/security/actions/otp.ts:41-65 | the reply of OtpReply, and whether the marker is written: exactly when the code verified and the write does not throw; a success always writes, a refusal with a working write and mint never does |
| Otp.ValidateOtp | app/settings/users/security/actions/otp.ts:19-66 | the reply is OtpReply on the replay state before the call; the caller's marker is written for one hour exactly when the code verified and `setex` did not throw, and Redis is otherwise unchanged; so a success always leaves the marker, a refusal before the write or with a failing write leaves Redis as it was, and a refusal because minting threw leaves the marker written |
| Otp.ReplayIsRefused | app/settings/users/security/actions/otp.ts:47-60 | after a success, the same user's same code within the hour is refused, and with a valid step token the refusal is "already used" |
| Otp.MintFailureSpendsCode | app/settings/users/security/actions/otp.ts:47-64 | a verified code whose `pix-key` token fails to mint is refused with "Internal server error", its marker is live for the rest of the hour, and a retry of the same code within it is refused as already used |
| Otp.GetOtpStatus | app/settings/users/security/actions/otp.ts:68-81 | enabled exactly when a caller is known, the history row is found and its OTP flag is on; every failure reads as disabled |
| Otp.EnabledStatusHasSecret | app/settings/users/security/actions/otp.ts:68-152 | while every row with OTP on holds a secret, a reported enabled status has a secret to verify against |
| Otp.GenerateOtpQrCode | app/settings/users/security/actions/otp.ts:83-119 | refused without a caller, without a row, for a non-admin or once OTP is on; otherwise succeeds exactly when the QR code renders and, for a fresh secret, the generator gave one and the user-history write does not throw; a throwing render or write answers 'Internal server error' and writes nothing; a stored secret is shown again with nothing written; a fresh secret is stored with OTP kept off and only that row changes; the enabled-has-secret invariant is kept |
| Otp.EnableOtp | app/settings/users/security/actions/otp.ts:121-157 | a badly formatted code is refused; success exactly when the caller is an admin with a secret, TOTP verifies at the current second and the user-history write does not throw, and then only that row changes, to enabled with the verification time; a throwing write answers 'Internal server error' and changes nothing; the enabled-has-secret invariant is kept |
| Otp.TotpVerify | app/settings/users/security/actions/otp.ts:51-58 | the code of the current 30-second step, of the instant 30 seconds earlier and of the instant 30 seconds later are accepted, and an accepted code is the code of a step at most one away from the current one |
| AuthFlow.StepIndex | app/settings/users/security/components/useAuthFlow.ts:22-54 | `stepOrder.indexOf` finds every step, at its one position in the order |
| AuthFlow.HigherStep | app/settings/users/security/components/useAuthFlow.ts:53-56 | the furthest step after a move is the later of the old furthest step and the new one |
| AuthFlow.BoostedTime | app/settings/users/security/components/useAuthFlow.ts:58 | `Math.min(prev + 60, 300)`: never above 300, and it adds the minute or stops at 300 |
| AuthFlow.BoostAtMostOnce | app/settings/users/security/components/useAuthFlow.ts:55-58 | whatever run of steps is taken, the extra minute is added at most once |
| AuthFlow.NoBoostPastProcessing | app/settings/users/security/components/useAuthFlow.ts:55-58 | once PROCESSING has been reached, no later move adds time |
| AuthFlow.HigherStepNeverDecreases | app/settings/users/security/components/useAuthFlow.ts:51-63 | the furthest step reached after any run of moves is at or past the start and every step taken |
| AuthFlow.Flow.constructor | app/settings/users/security/components/useAuthFlow.ts:38-47 | the flow starts at the PIX key step with empty inputs, no QR code, no token and a 180-second window |
| AuthFlow.Flow.SafeSetStep | app/settings/users/security/components/useAuthFlow.ts:51-63 | always moves to the step asked for, raises only the furthest step, and adds the minute exactly when PROCESSING is first reached; the shown step never passes the furthest one |
| AuthFlow.Flow.OnOpen | app/settings/users/security/components/useAuthFlow.ts:65-81 | on open, an e-mail outside the allow-list closes the modal and changes nothing; an allowed one resets the whole ceremony |
| AuthFlow.Flow.Tick | app/settings/users/security/components/useAuthFlow.ts:88-103 | the countdown runs only while open past the PIX key; at its last second it closes the modal and starts over at 180, and it always stays within 1..300 |
| AuthFlow.Flow.HandlePassword | app/settings/users/security/components/useAuthFlow.ts:124-147 | a refused or failed password check changes nothing; a success keeps a non-empty token, then moves to OTP when enabled, or to REGISTER_OTP with the fetched QR code when not; a failed status call keeps the token without moving |
| AuthFlow.Flow.HandleOtpValidation | app/settings/users/security/components/useAuthFlow.ts:149-167 | succeeds exactly when the server does; then it keeps the returned token, remembers OTP as the previous step and moves to PROCESSING; a failure changes no step or token |
| AuthFlow.Flow.HandleEnableOtp | app/settings/users/security/components/useAuthFlow.ts:169-192 | succeeds exactly when the server does; then it moves to PROCESSING, clears the QR code and hands on the token it already held; a failure changes nothing |
| PaymentModal.OpenModal | app/settings/users/security/components/modalPaymentForm.tsx:46-50 | the flow is created for the session's e-mail or '' and the open effect runs (also app/settings/users/security/components/useAuthFlow.ts, lines 65-81): it closes exactly when open with an unlisted e-mail, so with an allow-list of non-empty addresses it opens exactly for a session whose e-mail is listed, and a session without one closes it |
| PaymentModal.ContinueFromPixKey | app/settings/users/security/components/modalPaymentForm.tsx:77-87 | a blank PIX key is refused first, then an empty date, each with its message and no move; otherwise the flow moves to the confirmation |
| PaymentModal.ConfirmPixKey | app/settings/users/security/components/modalPaymentForm.tsx:89-91 | the flow moves to the password step |
| PaymentModal.EditPixKey | app/settings/users/security/components/modalPaymentForm.tsx:93-95 | the flow returns to the PIX key and keeps the furthest step reached |
| PaymentModal.OtpSubmit | app/settings/users/security/components/modalPaymentForm.tsx:97-108 | a payment is sent only after a successful OTP reply carrying a token, with that token and the entered e-mail, password and code; it is sent whenever the PIX input is also valid; a failed reply leaves the payment result alone |
| PaymentModal.EnableOtpSubmit | app/settings/users/security/components/modalPaymentForm.tsx:110-121 | a payment is sent only after a successful enrolment while a token is held, with the token minted at the password step; it is sent whenever the PIX input is also valid |
| PaymentModal.PasswordButtonAdmitsBlank | app/settings/users/security/components/modalPaymentForm.tsx:233 | once loading ends the password button refuses only passwords the server's required check refuses too, and lets through a password of spaces, which the server refuses as missing |
| PaymentModal.OtpButtonMatchesServerShape | app/settings/users/security/components/modalPaymentForm.tsx:270-313 | every six-digit code can be submitted once loading ends, and a submitted code is always six code units long |
| PaymentModal.CountdownReadsBack | app/settings/users/security/components/modalPaymentForm.tsx:251-252 | the `m:ss` text splits into minutes and two-digit seconds that read back as the time left |
| PixPayment.PixKeyTypeNumber | app/settings/users/security/components/usePixPayment.ts:13-64 | `Number(pixKeyType)` maps each offered value to its position 1..5, and its decimal rendering is the value again |
| PixPayment.ValidatePixInput | app/settings/users/security/components/usePixPayment.ts:37-47 | input may be sent exactly when the key is not blank and the debt is known; a blank key is reported first, then a missing debt |
| PixPayment.ReformatDate | app/settings/users/security/components/usePixPayment.ts:66 | the pieces of the result, split on '-', are the date's pieces in reverse order |
| PixPayment.ReformatDateSwapsYearAndDay | app/settings/users/security/components/usePixPayment.ts:66 | `YYYY-MM-DD` is sent as `DD-MM-YYYY` |
| PixPayment.ReformatDateInvolution | app/settings/users/security/components/usePixPayment.ts:66 | reformatting twice gives back the date as entered |
| PixPayment.CreatePaymentData | app/settings/users/security/components/usePixPayment.ts:49-73 | scheduled exactly when the local calendar day of the entered date, read as UTC midnight, is after the local day of now, and only then with the date as entered; the sent date reformats back to the entered one; every other field is copied from the debt, the key and the caller |
| PixPayment.TomorrowNotScheduledWestOfUtc | app/settings/users/security/components/usePixPayment.ts:55-59 | with a local offset west of UTC (less than a day), the UTC midnight of tomorrow falls on today's local day, so a payment entered for tomorrow is not scheduled (as written) |
| PixPayment.ScheduledAsIntended | app/settings/users/security/components/usePixPayment.ts:55-59 | the intended test: scheduled exactly when the entered calendar day is after today's local day |
| PixPayment.IntendedScheduling | app/settings/users/security/components/usePixPayment.ts:55-59 | by the intended test tomorrow is scheduled and today is not, for every offset; at or east of UTC (less than a day) the code as written gives the same answer for every entered day |
| PixPayment.ProofFor | app/settings/users/security/components/usePixPayment.ts:145-170 | the scheduled proof exactly when the processor reports a schedule with a date, otherwise the immediate proof, both for the debt and the batch id |
| PixPayment.PixForm.constructor | app/settings/users/security/components/usePixPayment.ts:26-35 | no key, the CPF key type, today's date, no payment result |
| PixPayment.PixForm.SetPixKeyType | app/settings/users/security/components/usePixPayment.ts:13-27 | the key type is only ever one of the five offered values |
| PixPayment.PixForm.Settle | app/settings/users/security/components/usePixPayment.ts:145-184 | a proof is asked for exactly when the processor accepted with a batch id; the flow reaches DONE with the result recorded exactly when the proof writer answered too; otherwise nothing moves |
| PixPayment.PixForm.HandlePixKeySubmit | app/settings/users/security/components/usePixPayment.ts:122-192 | invalid input sends nothing and changes nothing; valid input sends the request built by CreatePaymentData with the step token, moves to PROCESSING, and reaches DONE only on an accepted payment with an answered proof; loading ends in every case |
| PixPayment.PixForm.Submit | app/settings/users/security/components/usePixPayment.ts:131-191 | the valid path: the request, PROCESSING, then the answers as in Settle |
| Catalog.FindCurrentTariff | app/settings/tariffs/service/manager/components/bulkAdjustment/tariffUtils.ts:7-18 | the position of the first tariff started by `now` and not ended before it (an end equal to `now` still counts); none exactly when no tariff is in force |
| Catalog.FindLatestTariff | app/settings/tariffs/service/manager/components/bulkAdjustment/tariffUtils.ts:20-27 | none exactly on an empty list; otherwise a tariff whose start is the greatest, with every earlier tariff starting strictly before it (the earlier element wins a tie) |
| Catalog.GetCurrentTariff | app/settings/tariffs/service/manager/components/bulkAdjustment/tariffUtils.ts:29-33 | some tariff exactly when the list is non-empty: the first one in force when there is one, otherwise one with the latest start |
| TariffStatus.StatusLabel | app/settings/tariffs/service/manager/components/modal/tariffTable.tsx:91-103 | "Atual" exactly when current, "Futura" exactly when future and not current, "Expirada" exactly when expired and neither of those; a row with a start is never "Inativa" |
| TariffStatus.StatusVariant | app/settings/tariffs/service/manager/components/modal/tariffTable.tsx:104-108 | default exactly when current, outline exactly when future, secondary otherwise |
| TariffStatus.VariantMatchesLabel | app/settings/tariffs/service/manager/components/modal/tariffTable.tsx:91-108 | badge and label always agree: default with "Atual", outline with "Futura", secondary with "Expirada" or "Inativa" |
| TariffStatus.StartedRowNotCurrentIsExpired | app/settings/tariffs/service/manager/components/modal/tariffTable.tsx:91-103 | a row with a start that is neither current nor future has an end before `now` and is labelled "Expirada" |
| TariffStore.PreviousDayEnd | app/settings/tariffs/utils/validators.ts:99-112 | the last millisecond of the UTC day before the given instant's day: earlier than it, at most a day earlier, and one millisecond before a UTC midnight |
| TariffStore.ClosingSameDayInvertsInterval | app/settings/tariffs/utils/validators.ts:99-112 | closing a tariff that began earlier the same UTC day as the new one gives it an end before its start |
| TariffStore.ClosedOverlaps | app/settings/tariffs/utils/tariff-helpers.ts:9-41 | every overlapping tariff of the service ends at the previous day's end, every other row is unchanged, and afterwards none overlaps the new start |
| TariffStore.FirstOverlap | app/settings/tariffs/utils/tariff-helpers.ts:15-40 | the first overlapping row in query order, or none exactly when no row overlaps |
| TariffStore.ParseServiceTariffForm | app/settings/tariffs/utils/validators.ts:23-75 | any missing field gives the "required fields" error; success exactly when the service id reads as a positive integer, the price as a non-negative amount and the start as a date; the end is absent exactly when not given, and otherwise not checked |
| TariffStore.ParseUpdateTariffForm | app/settings/tariffs/service-tariff/actions/tariff-actions.ts:79-99 | "Required fields missing" for an absent price or start, "Invalid field values" when either does not parse; success otherwise, with no sign check on the price |
| TariffStore.UpdateAcceptsNegativePrice | app/settings/tariffs/service-tariff/actions/tariff-actions.ts:96 | a negative price passes the update parser but is refused by the create parser (also app/settings/tariffs/utils/validators.ts, line 58) |
| TariffStore.FindTariff | app/settings/tariffs/service-tariff/actions/tariff-actions.ts:101-105 | the row with that id, or none exactly when no row has it |
| TariffStore.AvailableServices | app/settings/tariffs/service-tariff/actions/tariff-actions.ts:22-44 | throws the session status for anyone but an ADMIN; otherwise exactly the active services that no tariff covers during the requested span (an open end reaching 2099-12-31), never more than are stored, sorted by name whenever the collation is a total preorder |
| TariffStore.Offered | app/settings/tariffs/service-tariff/actions/tariff-actions.ts:27-43 | the active services of the list that no tariff covers, as a subsequence of the list (its order kept), never more than it holds; a list sorted by name stays sorted |
| TariffStore.OfferedCount | app/settings/tariffs/service-tariff/actions/tariff-actions.ts:27-43 | each active, uncovered service appears as many times as the list holds it, every other service not at all |
| TariffStore.BulkItemError | app/settings/tariffs/utils/validators.ts:77-92 | an entry passes exactly when its service id is positive, its price a non-negative number, its start a date, and a given end a date strictly after the start |
| TariffStore.FirstBulkError | app/settings/tariffs/utils/validators.ts:96 | the error of the first failing entry in list order, or none exactly when every entry passes |
| TariffStore.ValidateBulkUpdates | app/settings/tariffs/utils/validators.ts:94-97 | an empty list is refused; otherwise passes exactly when every entry does |
| TariffStore.ParseBulkDates | app/settings/tariffs/utils/validators.ts:114-125 | the first entry's start and end serve the whole batch, and the close instant is the end of the day before that start |
| TariffStore.ServiceIds | app/settings/tariffs/utils/tariff-helpers.ts:77 | exactly the service ids the entries name |
| TariffStore.CloseForBatch | app/settings/tariffs/utils/tariff-helpers.ts:43-55 | each row of a listed service overlapping the batch start ends at the close instant; every other row is unchanged |
| TariffStore.BatchRows | app/settings/tariffs/utils/tariff-helpers.ts:57-82 | one new row per entry, in order, with consecutive fresh ids, the entry's service, price, adjustment and predecessor, and the batch's dates |
| TariffStore.BatchLeavesNoOverlap | app/settings/tariffs/utils/tariff-helpers.ts:43-55 | after the batch closes rows, no row of a listed service overlaps the batch start |
| TariffStore.ValidateBulkTariffInput | app/settings/tariffs/service-tariff/actions/tariff-actions.ts:157-165 | an empty list is refused; otherwise passes exactly when every entry has a non-zero service, a non-negative price and a start |
| TariffStore.ExistingTariffs | app/settings/tariffs/service-tariff/actions/tariff-actions.ts:167-178 | exactly the tariffs of a listed service with no end or an end at or after now, latest start first |
| TariffStore.InForceFrom | app/settings/tariffs/service-tariff/actions/tariff-actions.ts:169-173 | exactly the tariffs of a listed service with no end or an end at or after now |
| TariffStore.LaterOrSameIsPreorder | app/settings/tariffs/service-tariff/actions/tariff-actions.ts:175 | the `validFrom: desc` order is total and transitive, so sorting by it yields a list ordered by it |
| TariffStore.TariffTable.constructor | app/settings/tariffs/service-tariff/actions/tariff-actions.ts:55 | an empty table whose first id is 1 |
| TariffStore.CloseEachOverlap | app/settings/tariffs/utils/tariff-helpers.ts:34-39 | updating the overlapping rows one by one leaves exactly ClosedOverlaps: those rows end the day before the new start, the others are untouched |
| TariffStore.TariffTable.CloseOverlappingTariffs | app/settings/tariffs/utils/tariff-helpers.ts:26-41 | the table becomes ClosedOverlaps of itself; the predecessor is the first overlapping row's id (none for id 0), present exactly when some row overlaps |
| TariffStore.TariffTable.CreateServiceTariff | app/settings/tariffs/service-tariff/actions/tariff-actions.ts:46-77 | a refused session or a bad form changes nothing and returns its message; otherwise overlaps are closed first and stay closed; the insert succeeds exactly when the end is a date, the start is not taken for the service and the service is stored, appending the new row with a fresh id; a taken start gives the duplicate-start message, the other two the generic one |
| TariffStore.TariffTable.UpdateServiceTariff | app/settings/tariffs/service-tariff/actions/tariff-actions.ts:131-141 | every refusal changes nothing; success exactly when the session, the form and the id are good, no other tariff of the service conflicts and none with another id already starts at the new start (the unique key refuses that); then only that row's price, start and end change |
| TariffStore.TariffTable.DeleteServiceTariff | app/settings/tariffs/service-tariff/actions/tariff-actions.ts:143-147 | success exactly when the session is good and the id exists; then exactly the rows with another id remain |
| TariffStore.TariffTable.BulkUpdateServiceTariffs | app/settings/tariffs/service-tariff/actions/tariff-actions.ts:149-155 | success exactly when the session is good, every entry passes, every entry names a stored service and no insert breaks the unique key; then the table is the batch-closed table followed by the batch's new rows; any refusal, including a store error, changes nothing |
| TariffStore.BatchKeysUniqueIff | app/settings/tariffs/utils/tariff-helpers.ts:57-84 | on a table whose key (service, start) is unique, adding the batch's rows keeps it unique exactly when no entry's service already has a row at the batch start and no two entries name the same service |
| TariffStore.ClosingKeepsClash | app/settings/tariffs/utils/tariff-helpers.ts:43-55 | closing rows keeps their service and start, so a batch clashes with the closed table exactly when it clashes with the original |
| TariffStore.CreateEachAppends | app/settings/tariffs/service-tariff/actions/tariff-actions.ts:201-212 | the creates only append rows, with consecutive fresh ids, keeping ids distinct and the key unique, and a failure once recorded stays recorded |
| TariffStore.CreateEachFails | app/settings/tariffs/service-tariff/actions/tariff-actions.ts:201-212 | an entry that fails against the starting table (a start or given end that is not a date, an unknown service, a taken start), or two entries with the same service and start, make the batch report a failure |
| TariffStore.CreateEachStoresAll | app/settings/tariffs/service-tariff/actions/tariff-actions.ts:201-212 | with no failing entry and no two sharing a service and start, every entry is stored in order under consecutive ids with its own dates, and no failure is reported |
| TariffStore.BadEndFailsBatch | app/settings/tariffs/service-tariff/actions/tariff-actions.ts:208 | an entry whose end is given but is not a date stores nothing and the batch reports a failure |
| TariffStore.TakenStaysTaken | app/settings/tariffs/service-tariff/actions/tariff-actions.ts:201-212 | appending rows never frees a service's start |
| TariffStore.AppendUntaken | app/settings/tariffs/service-tariff/actions/tariff-actions.ts:55-57 | a row whose service and start are not taken can be appended without breaking the unique key |
| TariffStore.SameKeysStayUnique | app/settings/tariffs/utils/tariff-helpers.ts:26-41 | rows that keep their service and start position by position keep the key unique |
| TariffStore.RestartKeepsKeysUnique | app/settings/tariffs/service-tariff/actions/tariff-actions.ts:136-139 | moving one row to a start no other row of its service holds keeps the key unique |
| TariffStore.RemovingKeepsKeys | app/settings/tariffs/service-tariff/actions/tariff-actions.ts:145 | deleting a row keeps the key unique |
| TariffStore.CreateEachTariff | app/settings/tariffs/service-tariff/actions/tariff-actions.ts:201-212 | the creates, entry by entry, store and number exactly the rows CreateEach stores and report a failure exactly when CreateEach does |
| TariffStore.TariffConflictReport | app/settings/tariffs/service-tariff/actions/tariff-actions.ts:187-199 | one conflict per tariff in force, in the order found, carrying its service id, that service's code, its price and its dates, and the message `Tarifas já existem para:` followed by the codes joined with ", " |
| TariffStore.TariffTable.BulkCreateServiceTariffs | app/settings/tariffs/service-tariff/actions/tariff-actions.ts:180-215 | a refused session or a bad entry changes nothing; a tariff of a listed service still in force stops the whole batch and is reported with its service code and the joined message, changing nothing; otherwise the table is what the creates one by one leave (CreateEach), only ever appended to, and the action throws a store error exactly when one of them failed |
| BulkAdjust.ParsePercentage | app/settings/tariffs/service/manager/components/bulkAdjustment/tariffUtils.ts:45-47 | the first ',' is read as '.', and a text that is not a number reads as 0 |
| BulkAdjust.FormatPercentageInput | app/settings/tariffs/service/manager/components/bulkAdjustment/tariffUtils.ts:49-51 | only digits, ',' and '.' remain, in order, and a text made only of those is unchanged |
| BulkAdjust.FormatPercentageIdempotent | app/settings/tariffs/service/manager/components/bulkAdjustment/tariffUtils.ts:49-51 | formatting formatted input changes nothing |
| BulkAdjust.ApplyPercentage | app/settings/tariffs/service/manager/components/bulkAdjustment/tariffUtils.ts:53-57 | the new price in cents lies within half a cent of price·(100+p)/100 |
| BulkAdjust.ApplyZeroPercentage | app/settings/tariffs/service/manager/components/bulkAdjustment/tariffUtils.ts:53-57 | a zero adjustment keeps the price |
| BulkAdjust.RaiseNeverLowers | app/settings/tariffs/service/manager/components/bulkAdjustment/tariffUtils.ts:53-57 | a non-negative adjustment never lowers a non-negative price |
| BulkAdjust.ItemFor | app/settings/tariffs/service/manager/components/bulkAdjustment/tariffUtils.ts:59-77 | the row names the service, the current tariff getCurrentTariff picks with its price and id, the adjusted price, and is not being edited |
| BulkAdjust.EligibleFrom | app/settings/tariffs/service/manager/components/bulkAdjustment/tariffUtils.ts:73-80 | the positions of exactly the active services that have a tariff, in increasing order |
| BulkAdjust.BuildBulkItems | app/settings/tariffs/service/manager/components/bulkAdjustment/tariffUtils.ts:82-88 | one row per active service with a tariff, in the services' order, none being edited |
| BulkAdjust.TransformItemsToUpdates | app/settings/tariffs/service/manager/components/bulkAdjustment/tariffUtils.ts:99-119 | one update per row, in order, with the row's service and new price, the shared dates, the percentage as a fraction and the replaced tariff as predecessor |
| BulkAdjust.UpdatesPassServerValidation | app/settings/tariffs/service/manager/components/bulkAdjustment/tariffUtils.ts:113-119 | rows with positive service ids and non-negative prices, sent with a start and a later end that read as dates, pass the server's bulk validation (also app/settings/tariffs/utils/validators.ts, lines 77-97) |
| BulkAdjust.DefaultRangeIsNextYear | app/settings/tariffs/service/manager/components/bulkAdjustment/tariffUtils.ts:35-43 | the default range runs from the first to the last millisecond of next year, 365 or 366 days long by the Gregorian leap rule |
| BulkAdjust.PricedAt | app/settings/tariffs/service/manager/components/bulkAdjustment/useBulkAdjustment.tsx:38-43 | only the row at that index gets the new price; an index outside the list changes nothing |
| BulkAdjust.ToggledAt | app/settings/tariffs/service/manager/components/bulkAdjustment/useBulkAdjustment.tsx:44-50 | only the row at that index flips its editing flag |
| BulkAdjust.ToggledTwice | app/settings/tariffs/service/manager/components/bulkAdjustment/useBulkAdjustment.tsx:44-50 | toggling the same row twice restores the rows |
| BulkAdjust.Adjustment.constructor | app/settings/tariffs/service/manager/components/bulkAdjustment/useBulkAdjustment.tsx:20-25 | no percentage, no rows, no preview, the range set to next year |
| BulkAdjust.Adjustment.Calculate | app/settings/tariffs/service/manager/components/bulkAdjustment/useBulkAdjustment.tsx:26-34 | accepted exactly when the percentage reads as positive; then the rows are rebuilt and the preview shown; otherwise nothing changes |
| BulkAdjust.Adjustment.Recalculate | app/settings/tariffs/service/manager/components/bulkAdjustment/useBulkAdjustment.tsx:35-37 | the rows are rebuilt with whatever the percentage reads as |
| BulkAdjust.Adjustment.UpdateItemPrice | app/settings/tariffs/service/manager/components/bulkAdjustment/useBulkAdjustment.tsx:38-43 | the typed price, NaN read as 0, goes to that row only |
| BulkAdjust.Adjustment.ToggleEditing | app/settings/tariffs/service/manager/components/bulkAdjustment/useBulkAdjustment.tsx:44-50 | that row's editing flag flips |
| BulkAdjust.Adjustment.Apply | app/settings/tariffs/service/manager/components/bulkAdjustment/useBulkAdjustment.tsx:51-72 | without rows nothing is sent; otherwise the updates for the current rows, dates and percentage are sent and loading ends |
| BulkAdjust.Adjustment.ResetState | app/settings/tariffs/service/manager/components/bulkAdjustment/useBulkAdjustment.tsx:73-79 | back to the initial state for the current year |
| ServiceStore.ValidateServiceForm | app/settings/tariffs/service/actions/service-actions.ts:11-17 | accepted exactly when both name and code are non-empty text, passing them through unchanged; otherwise the "code and name required" error |
| ServiceStore.ParseUpdateServiceForm | app/settings/tariffs/service/actions/service-actions.ts:140-154 | accepted exactly when name and code are non-empty text; the description is kept only when non-empty, and the service is active exactly when the field is the text `true` |
| ServiceStore.FindCode | app/settings/tariffs/service/actions/service-actions.ts:19-22 | a position whose service has that code, or none exactly when no stored service has it |
| ServiceStore.FindService | app/settings/tariffs/service/actions/service-actions.ts:167-177 | a position whose service has that id, or none exactly when no stored service has it |
| ServiceStore.FirstBlankItem | app/settings/tariffs/service/actions/service-actions.ts:183-186 | the first entry lacking a trimmed code or name, all earlier ones filled, or none exactly when every entry is filled |
| ServiceStore.ValidateBulkServiceInput | app/settings/tariffs/service/actions/service-actions.ts:181-187 | an empty batch gives the "empty list" error; otherwise no error exactly when every entry is filled, and the error names the first blank entry counted from one |
| ServiceStore.TrimmedCodes | app/settings/tariffs/service/actions/service-actions.ts:202 | one trimmed code per entry, in entry order |
| ServiceStore.ExistingCodes | app/settings/tariffs/service/actions/service-actions.ts:189-195 | exactly the stored services whose code is one of the batch's codes |
| ServiceStore.Codes | app/settings/tariffs/service/actions/service-actions.ts:208 | the services' codes, one per service, in order |
| ServiceStore.ConflictReport | app/settings/tariffs/service/actions/service-actions.ts:204-210 | a refusal listing each conflicting service's code and name in order, with a message joining their codes |
| ServiceStore.BatchDuplicatesPassChecks | app/settings/tariffs/service/actions/service-actions.ts:181-203 | a batch repeating one code passes both validation and the existing-code check: nothing compares the entries with each other |
| ServiceStore.TrimmedNames | app/settings/tariffs/service/actions/service-actions.ts:214 | one trimmed name per entry, in entry order |
| ServiceStore.NewServices | app/settings/tariffs/service/actions/service-actions.ts:211-217 | one new active service per entry, without description, under consecutive fresh ids |
| ServiceStore.AppendBatchKeepsValid | app/settings/tariffs/service/actions/service-actions.ts:211-217 | adding a batch of distinct codes none of which is stored keeps ids fresh and distinct and codes unique |
| ServiceStore.NoneExisting | app/settings/tariffs/service/actions/service-actions.ts:203-204 | an empty conflict answer means no stored service has any of the batch's codes |
| ServiceStore.ServiceTable.constructor | app/settings/tariffs/service/actions/service-actions.ts:20 | an empty catalogue whose codes are trivially unique |
| ServiceStore.ServiceTable.CreateService | app/settings/tariffs/service/actions/service-actions.ts:40-49 | refused without an admin session, for a missing field or a taken code, leaving the table alone; otherwise appends an active service under a fresh id, keeping codes unique |
| ServiceStore.ServiceTable.UpdateService | app/settings/tariffs/service/actions/service-actions.ts:156-170 | refused without an admin session, for missing fields, for a code another service uses, or an unknown id, which fails in the store and changes nothing; otherwise replaces that row's name, code, description and active flag only, keeping codes unique |
| ServiceStore.ServiceTable.DeleteService | app/settings/tariffs/service/actions/service-actions.ts:172-179 | a soft delete: the row stays with active cleared, nothing else changes; an unknown id fails |
| ServiceStore.ServiceTable.BulkCreateServices | app/settings/tariffs/service/actions/service-actions.ts:197-220 | a refused session or an invalid batch changes nothing; codes already stored are reported and nothing is added; otherwise the table is what the creates one by one leave, only ever appended to, and all entries are added trimmed and active exactly when the batch's codes are distinct, a repeated code making the action throw after the first entry with it is stored |
| ServiceStore.ServiceTable.CreateEntries | app/settings/tariffs/service/actions/service-actions.ts:211-217 | the table becomes exactly what CreateEachService leaves, and the result is its failure flag; the earlier rows stay in place |
| ServiceStore.CreateEachServiceAppends | app/settings/tariffs/service/actions/service-actions.ts:211-217 | the creates only append, with consecutive fresh ids, keeping ids distinct and codes unique |
| ServiceStore.CreateEachServiceFails | app/settings/tariffs/service/actions/service-actions.ts:211-217 | a batch repeating one of its codes, or naming a stored code, reports a failure |
| ServiceStore.CreateEachServiceStoresAll | app/settings/tariffs/service/actions/service-actions.ts:211-217 | distinct codes none of which is stored are all added, in order, as NewServices under consecutive ids, with no failure |
| ServiceStore.ServiceFailureStays | app/settings/tariffs/service/actions/service-actions.ts:211-217 | once one create has failed, the batch reports a failure whatever follows |
| ServiceStore.AppendOneKeepsValid | app/settings/tariffs/service/actions/service-actions.ts:213-215 | adding one active service with a fresh id and an unused code keeps ids fresh and codes unique |
| ServiceStore.CodeStaysFound | app/settings/tariffs/service/actions/service-actions.ts:211-217 | a stored code stays stored when a service is appended |
| ServiceStore.NewServicesCons | app/settings/tariffs/service/actions/service-actions.ts:211-217 | the new services of a batch are its first entry's followed by the rest's, one id later |
| ServiceModal.RowOf | app/settings/tariffs/service/manager/components/modal/serviceState.tsx:21-26 | a stored tariff shown as a saved, not-editing row with the same id, dates and rendered price |
| ServiceModal.InitialRows | app/settings/tariffs/service/manager/components/modal/serviceState.tsx:20-27 | the modal opens with one row per stored tariff, in the same order |
| ServiceModal.FindOriginal | app/settings/tariffs/service/manager/components/modal/serviceState.tsx:141-143 | a stored tariff carrying the row's id, or none exactly when the row has no id or no stored tariff has it |
| ServiceModal.AddNoticeAsWritten | app/settings/tariffs/service/manager/components/modal/serviceState.tsx:71-79 | the add handler as written announces success for every answer of the create action |
| ServiceModal.RefusedTariffAnnouncedAsAdded | app/settings/tariffs/service/manager/components/modal/serviceState.tsx:71-83 | a start date already taken is refused by the server yet announced as added; the corrected reading announces a failure |
| ServiceModal.AddNotice | app/settings/tariffs/service/manager/components/modal/serviceState.tsx:79-84 | success is announced exactly when the tariff was created, otherwise the "check the period" failure |
| ServiceModal.ServiceModalState.constructor | app/settings/tariffs/service/manager/components/modal/serviceState.tsx:16-34 | the modal starts from the service's fields and tariffs, not loading, with a blank hidden new-tariff form |
| ServiceModal.ServiceModalState.HandleServiceUpdate | app/settings/tariffs/service/manager/components/modal/serviceState.tsx:35-56 | an empty name or code sends nothing; otherwise name, code and the active flag as text are sent, with no description, and loading ends cleared |
| ServiceModal.ServiceModalState.HandleAddTariff | app/settings/tariffs/service/manager/components/modal/serviceState.tsx:57-88 | a missing price or start sends nothing; otherwise the service id, price and ISO dates are sent, and, whatever the answer, the form is reset and hidden and success is announced |
| ServiceModal.ServiceModalState.HandleUpdateTariff | app/settings/tariffs/service/manager/components/modal/serviceState.tsx:89-116 | an index with no row throws a TypeError and changes nothing; otherwise sends exactly when the row has a price, a start and a non-zero id, and only a successful update takes that row out of editing |
| ServiceModal.ServiceModalState.HandleDeleteTariff | app/settings/tariffs/service/manager/components/modal/serviceState.tsx:118-130 | after a successful delete the list is `WithoutId` of the old list: exactly the rows without that id remain, in their order; a failure keeps the list |
| ServiceModal.ServiceModalState.StartEditingTariff | app/settings/tariffs/service/manager/components/modal/serviceState.tsx:132-136 | an index with no row throws a TypeError and changes nothing; otherwise only that row enters editing |
| ServiceModal.ServiceModalState.CancelEditingTariff | app/settings/tariffs/service/manager/components/modal/serviceState.tsx:138-155 | an index with no row throws a TypeError and changes nothing; otherwise the row is rebuilt from its stored tariff, or, with none, keeps its edits and leaves editing; other rows are untouched |
| ServiceModal.ServiceModalState.UpdateTariffField | app/settings/tariffs/service/manager/components/modal/serviceState.tsx:157-165 | exactly one field of that row takes the new value |
| ServiceModal.WithoutId | app/settings/tariffs/service/manager/components/modal/serviceState.tsx:122 | exactly the rows whose id differs, as a subsequence of the list (their order kept), never more rows than before |
| ServiceModal.WithoutIdCount | app/settings/tariffs/service/manager/components/modal/serviceState.tsx:122 | a row whose id differs stays as many times as it was listed; a row with that id is gone |
| ServiceModal.CancelRestoresOpenedRow | app/settings/tariffs/service/manager/components/modal/serviceState.tsx:20-155 | with distinct tariff ids, each opened row finds its own stored tariff again, so cancelling restores it |
| ServiceModal.FirstWithId | app/settings/tariffs/service/manager/components/modal/serviceState.tsx:141-143 | with distinct ids, looking up a stored tariff's id finds that tariff |
| ServiceModal.ModalUpdateClearsDescription | app/settings/tariffs/service/manager/components/modal/serviceState.tsx:42-46 | saving from the modal is accepted by the server and stores no description, with the active flag read back unchanged |
| ServicesTable.FutureTariff | app/settings/tariffs/service/manager/components/servicesTable.tsx:26-29 | the first tariff in list order that starts after now, or none exactly when every tariff has already started |
| ServicesTable.Kept | app/settings/tariffs/service/manager/components/servicesTable.tsx:37-42 | exactly the services whose lowercased name or code contains the lowercased search, never more than given |
| ServicesTable.Insert | app/settings/tariffs/service/manager/components/servicesTable.tsx:43 | the list with one more element, which ends up first or behind the old head |
| ServicesTable.InsertSorted | app/settings/tariffs/service/manager/components/servicesTable.tsx:43 | under a total ordering, inserting into a list sorted by code keeps it sorted |
| ServicesTable.SortByCode | app/settings/tariffs/service/manager/components/servicesTable.tsx:43 | a permutation of the list, sorted by code whenever the comparison is total |
| ServicesTable.FilteredServices | app/settings/tariffs/service/manager/components/servicesTable.tsx:37-43 | exactly the matching services, each as often as kept, sorted by code under a total comparison |
| ServicesTable.EmptySearchKeepsAll | app/settings/tariffs/service/manager/components/servicesTable.tsx:32-43 | with the initial empty search every service is listed |
| ServicesTable.KeptAllWhenEmpty | app/settings/tariffs/service/manager/components/servicesTable.tsx:37-42 | the empty search text is contained in every name, so the filter keeps the list unchanged |
| TariffCreateForm.FindByCode | app/settings/tariffs/service-tariff/create/page/Form.tsx:109-120 | an offered service with the chosen code, or none exactly when no offered service has it |
| TariffCreateForm.GetService | app/settings/tariffs/service-tariff/create/page/TariffBulkList.tsx:16-17 | the first offered service with that id, or none exactly when no service has it |
| TariffCreateForm.InListAfterAppend | app/settings/tariffs/service-tariff/create/page/TariffBulkList.tsx:103-104 | no service is in the empty list, and a service is in the list once one of its tariffs was appended |
| TariffCreateForm.BuildTariffInput | app/settings/tariffs/service-tariff/create/page/Form.tsx:106-117 | nothing exactly when no offered service has the chosen code; otherwise that service's id, the price read as cents, the start rendered and an end that reads as none when it renders empty |
| TariffCreateForm.BuiltPriceIsParsedPrice | app/settings/tariffs/service-tariff/create/page/Form.tsx:43-113 | for a price the schema accepts, the cents in the built tariff are exactly what the price parser reads from the text |
| TariffCreateForm.DefaultRangeIsCurrentYear | app/settings/tariffs/service-tariff/create/page/Form.tsx:62-72 | the default range runs from the first instant of 1 January to the start of 31 December of the current local year, leap or not (DaysInYear - 1 days later) |
| TariffCreateForm.TariffDraft.constructor | app/settings/tariffs/service-tariff/create/page/Form.tsx:59-61 | the page starts with the services it was given and an empty list |
| TariffCreateForm.TariffDraft.ShowServices | app/settings/tariffs/service-tariff/create/page/Form.tsx:75-101 | the offered services become those the date range makes available |
| TariffCreateForm.TariffDraft.AddToList | app/settings/tariffs/service-tariff/create/page/Form.tsx:119-134 | a form the schema refuses, an unknown code or an already listed service leaves the list alone; otherwise the built tariff is appended, so each service is listed at most once |
| TariffCreateForm.TariffDraft.RemoveFromBulkList | app/settings/tariffs/service-tariff/create/page/Form.tsx:136-138 | exactly the entry at that position leaves, the others keep their order; another index keeps the list |
| TariffCreateForm.TariffDraft.SaveBulk | app/settings/tariffs/service-tariff/create/page/TariffBulkSection.tsx:40-57 | an empty list sends nothing; otherwise the whole list is sent, and it empties only when every tariff was created (also app/settings/tariffs/service-tariff/create/page/Form.tsx, lines 169-172) |
| TariffCreateForm.DraftPassesServerCheck | app/settings/tariffs/service-tariff/actions/tariff-actions.ts:157-170 | a non-empty list of non-negative prices for non-zero service ids with a start passes the server's per-entry checks |
| TariffCreateForm.ListHeader | app/settings/tariffs/service-tariff/create/page/TariffBulkList.tsx:63-80 | nothing for an empty list; otherwise exactly `<n> tarifa`, with `s` added when the count is not one |
| ServiceCreateForm.InListIgnoresOrder | app/settings/tariffs/service/create/page/BulkList.tsx:85-86 | no code is in the empty list, and whether a code is listed, case ignored, does not depend on the order of the list |
| ServiceCreateForm.AsInput | app/settings/tariffs/service/create/page/Form.tsx:76 | one entry per listed service, with its code and name, in list order |
| ServiceCreateForm.ServiceDraft.constructor | app/settings/tariffs/service/create/page/Form.tsx:36 | the page starts with an empty list |
| ServiceCreateForm.ServiceDraft.AddToList | app/settings/tariffs/service/create/page/Form.tsx:27-53 | a code or name shorter than three UTF-16 code units, or a code already listed case ignored, leaves the list alone; otherwise the service is appended, so no code repeats case ignored |
| ServiceCreateForm.ServiceDraft.RemoveFromBulkList | app/settings/tariffs/service/create/page/Form.tsx:42-44 | exactly the entry at that position leaves, the others keep their order; another index keeps the list |
| ServiceCreateForm.ServiceDraft.SaveBulk | app/settings/tariffs/service/create/page/Form.tsx:72-95 | an empty list sends nothing; otherwise the whole list is sent, and it is cleared only when the services were created, kept on a conflict or an error |
| ServiceCreateForm.DistinctIgnoringCaseIsDistinct | app/settings/tariffs/service/create/page/BulkList.tsx:85-86 | a list without a code repeated case ignored has no code repeated exactly |
| ServiceCreateForm.SpacesPassPageNotServer | app/settings/tariffs/service/create/page/Form.tsx:27-30 | a code of three spaces passes the page's schema while the server refuses the entry as blank |
| ServiceCreateForm.ListHeader | app/settings/tariffs/service/create/page/BulkList.tsx:51-63 | nothing for an empty list; otherwise exactly `<n> serviço`, with `s` added when the count is not one |
| AverbRanges.FirstLetterCode | app/settings/tariffs/service/manager/averb/utils/valueRanges.ts:6 | the leftmost position from which the letter-code pattern matches, case ignored, or none exactly when it matches nowhere |
| AverbRanges.ExtractLetter | app/settings/tariffs/service/manager/averb/utils/valueRanges.ts:4-8 | none exactly when the trimmed code holds no `IV.1.<letter>.E`; otherwise the single letter of the leftmost occurrence, in the case it was written |
| AverbRanges.SpaceRun | app/settings/tariffs/service/manager/averb/utils/valueRanges.ts:12-14 | the whole run of white space starting there: every character in it is a space and the next one is not |
| AverbRanges.NumberRun | app/settings/tariffs/service/manager/averb/utils/valueRanges.ts:12-14 | the whole run of digits, dots and commas starting there: every character in it qualifies and the next one does not |
| AverbRanges.Tail | app/settings/tariffs/service/manager/averb/utils/valueRanges.ts:12-14 | a capture after white space, `R$` and white space is non-empty and made only of digits, dots and commas, and ends the text when the pattern is anchored |
| AverbRanges.Search | app/settings/tariffs/service/manager/averb/utils/valueRanges.ts:16-18 | the leftmost position where the pattern matches, or none exactly when it matches nowhere |
| AverbRanges.Capture | app/settings/tariffs/service/manager/averb/utils/valueRanges.ts:16-19 | a capture exactly when the pattern matches somewhere, and then the group of the leftmost match |
| AverbRanges.ParseValueFromName | app/settings/tariffs/service/manager/averb/utils/valueRanges.ts:10-21 | the lower bound comes from the "até/de" pattern; the upper bound from the anchored "a/até" pattern, falling back to "acima de"; no match gives none, and a match is read as a pt-BR number |
| AverbRanges.BuildRange | app/settings/tariffs/service/manager/averb/utils/valueRanges.ts:23-39 | nothing exactly when the code has no letter or the name no lower bound; otherwise the code's letter, a lower bound of 0 for an "até" name without " a ", and no upper bound for an "acima de" name. The field-by-field part only builds the record; RangesOf, FetchValueRanges and FindRange carry the properties built on it |
| AverbRanges.Present | app/settings/tariffs/service/manager/averb/utils/valueRanges.ts:57 | exactly the values that are present |
| AverbRanges.PresentKeepsOrder | app/settings/tariffs/service/manager/averb/utils/valueRanges.ts:57 | the present values keep their order: wrapped back, they are the entries with the absent ones dropped |
| AverbRanges.PresentCount | app/settings/tariffs/service/manager/averb/utils/valueRanges.ts:57 | each value is kept as many times as it is present |
| AverbRanges.RangesOf | app/settings/tariffs/service/manager/averb/utils/valueRanges.ts:54-57 | exactly the ranges built from rows whose code ends in `.E` |
| AverbRanges.QueryRangeRows | app/settings/tariffs/service/manager/averb/utils/valueRanges.ts:44-53 | exactly the stored rows whose code contains `IV.1.` and whose name contains "Registro de contrato, título ou documento com conteúdo econômico", both case-sensitive, as a subsequence of the stored rows (storage order kept) |
| AverbRanges.QueryRangeRowsCount | app/settings/tariffs/service/manager/averb/utils/valueRanges.ts:44-53 | each admitted row comes back as many times as it is stored, every other row not at all |
| AverbRanges.QueriedRange | app/settings/tariffs/service/manager/averb/utils/valueRanges.ts:44-57 | a range comes out of the queried rows exactly when some stored row the `where` admits builds it |
| AverbRanges.LowerCaseCodeNotQueried | app/settings/tariffs/service/manager/averb/utils/valueRanges.ts:44-46 | `iv.1.a.E` matches the case-insensitive letter pattern, but the case-sensitive `contains` of the query drops it |
| AverbRanges.InsertByMin | app/settings/tariffs/service/manager/averb/utils/valueRanges.ts:58 | the list with one more range, kept in order of lower bound when it was in order |
| AverbRanges.SortByMin | app/settings/tariffs/service/manager/averb/utils/valueRanges.ts:58 | a permutation of the ranges in order of lower bound, a NaN bound comparing as equal |
| AverbRanges.FetchValueRanges | app/settings/tariffs/service/manager/averb/utils/valueRanges.ts:43-60 | over the stored services: exactly the ranges built by emoluments rows that pass the query's `where`, each as often as built, in order of lower bound |
| AverbRanges.SortedPairwise | app/settings/tariffs/service/manager/averb/utils/valueRanges.ts:58 | with numeric bounds, neighbours in order means every earlier range has a lower bound no greater than every later one |
| AverbRanges.FindRange | app/settings/tariffs/service/manager/averb/utils/valueRangeResolver.ts:3-10 | the first band holding the value, bounds included, or none exactly when no band holds it |
| AverbRanges.FindLetterByValue | app/settings/tariffs/service/manager/averb/utils/valueRangeResolver.ts:6-12 | none exactly when no band holds the value; otherwise the letter of a band that holds it |
| AverbRanges.ChosenRangeHasSmallestMin | app/settings/tariffs/service/manager/averb/utils/valueRanges.ts:58 | with numeric bounds, the chosen band has the smallest lower bound among the bands holding the value (also app/settings/tariffs/service/manager/averb/utils/valueRangeResolver.ts, line 10) |
| Averbation.PercentageOf | app/settings/tariffs/service/manager/averb/calculation/calculatePercentage.ts:8-12 | the percentage of a price in cents, rounded to the nearest cent: within half a cent of the exact share |
| Averbation.FifthWithinPrice | app/settings/tariffs/service/manager/averb/calculation/calculatePercentage.ts:6-12 | twenty percent of a non-negative price lies between nothing and the price |
| Averbation.CalculateAverbTariffs | app/settings/tariffs/service/manager/averb/calculation/calculatePercentage.ts:14-36 | each part is twenty percent of its price, the total is their sum, and letter and value pass through; for non-negative prices no part exceeds its price |
| Averbation.BuildServiceCodes | app/settings/tariffs/service/manager/averb/utils/serviceFetcher.ts:4-7 | three codes `IV.1.<letter>.` followed by E, C and I, in that order |
| Averbation.TrimmedCodes | app/settings/tariffs/service/manager/averb/utils/serviceFetcher.ts:38-40 | each returned service's code, trimmed, in order |
| Averbation.FindBySuffix | app/settings/tariffs/service/manager/averb/utils/serviceFetcher.ts:38-40 | the first service whose trimmed code ends with the suffix, or none exactly when no code does |
| Averbation.PartPrice | app/settings/tariffs/service/manager/averb/utils/serviceFetcher.ts:9-46 | a price exactly when a service with the suffix exists and its tariffs hold one in force now, and then that tariff's price |
| Averbation.FetchServiceTariffs | app/settings/tariffs/service/manager/averb/utils/serviceFetcher.ts:18-51 | the three prices exactly when each of emoluments, CCRCPN and ISS has a service with a tariff in force; nothing otherwise |
| Averbation.InForceTariffs | app/settings/tariffs/service/manager/averb/utils/serviceFetcher.ts:28-31 | exactly the stored tariffs in force now: started at or before now, with no end or an end at or after now |
| Averbation.NewerOrSameIsPreorder | app/settings/tariffs/service/manager/averb/utils/serviceFetcher.ts:32 | ordering by start and then update time, newest first, is total and transitive |
| Averbation.NewestInForce | app/settings/tariffs/service/manager/averb/utils/serviceFetcher.ts:26-34 | at most one tariff; none exactly when no tariff is in force; otherwise a tariff in force with no tariff in force newer by start and then update time |
| Averbation.QueryServices | app/settings/tariffs/service/manager/averb/utils/serviceFetcher.ts:20-36 | every stored service whose code contains one of the codes, with its newest tariff in force, and nothing else, never more than are stored |
| Averbation.PartPriceIsNewestInForce | app/settings/tariffs/service/manager/averb/utils/serviceFetcher.ts:18-46 | a part's price is that of the newest tariff in force of a stored service matching the codes whose trimmed code ends with the part's suffix |
| Averbation.CalculateAverbation | app/settings/tariffs/service/manager/averb/calculation/calculateAverbation.ts:6-14 | nothing when no band holds the value, or when the services query for the band's letter lacks a part or a price in force; otherwise the twenty-percent parts of those prices for the letter of a band that holds the value. Both queries read the same stored services, and the letter comes from a stored service that passes the ranges query's `where` and builds a band holding the value |
| Averbation.LetterFromStored | app/settings/tariffs/service/manager/averb/utils/valueRanges.ts:43-60 | the letter chosen for a value is that of a band built by a stored service the ranges query admits |
| PendingApprovals.MergeLaws | app/api/slack/lib/pending-store.ts:14-19 | `{ ...approval, ...updates }` with no fields is the approval itself, merging the same update twice equals merging it once, and a status-only update changes the status and nothing else |
| PendingApprovals.Without | app/api/slack/lib/pending-store.ts:21-23 | the iteration order after a delete holds exactly the other ids and stays free of repeats |
| PendingApprovals.PendingStore.constructor | app/api/slack/lib/pending-store.ts:3 | the process starts with an empty Map and no timers |
| PendingApprovals.PendingStore.Store | app/api/slack/lib/pending-store.ts:5-8 | the id maps to the new approval (a re-store overwrites), an id already present keeps its place in iteration order while a new one is appended, a deletion is scheduled 24 hours after `now`, and a get of that id returns the approval |
| PendingApprovals.PendingStore.Get | app/api/slack/lib/pending-store.ts:10-12 | some approval exactly when the id is stored, and then the stored one |
| PendingApprovals.PendingStore.Update | app/api/slack/lib/pending-store.ts:14-19 | a stored id gets the merge of its approval with the update; an unknown id leaves the Map unchanged |
| PendingApprovals.PendingStore.Delete | app/api/slack/lib/pending-store.ts:21-23 | only that id leaves the Map and the iteration order; every other entry and its place stay |
| PendingApprovals.PendingStore.FireTimer | app/api/slack/lib/pending-store.ts:7 | a due timer deletes its id (even one stored again since) and is itself removed from the pending timers |
| PendingApprovals.PendingStore.FindByThread | app/api/slack/lib/pending-store.ts:25-32 | the first approval in Map insertion order with both that channel and that thread; none exactly when no entry matches both |
| SlackChannels.FindMapping | app/api/slack/config/channel-mapping.ts:54 | the index of the first mapping with that channel id; none exactly when no mapping has it |
| SlackChannels.SaleOriginIn | app/api/slack/config/channel-mapping.ts:53-56 | the unit of the first mapping for the channel; null exactly when the channel is unknown |
| SlackChannels.UserAllowedIn | app/api/slack/config/channel-mapping.ts:58-63 | false for an unknown channel, true when the first mapping has no list or an empty one, otherwise membership of the user in that list |
| SlackChannels.SharedChannelIsInternationalLaw | app/api/slack/config/channel-mapping.ts:4-63 | with all five mappings on C09AQQJE8BD, that channel resolves to international law and admits exactly that mapping's three users, so another unit's user is refused |
| SlackChannels.OtherChannelsUnknown | app/api/slack/config/channel-mapping.ts:53-63 | any other channel has no unit and admits no user |
| SlackChannels.OnlyInternationalLawReachable | app/api/slack/config/channel-mapping.ts:4-56 | no channel ever resolves to a unit other than international law |
| SlackChannels.SaleOriginFromChannel | app/api/slack/config/channel-mapping.ts:53-56 | a unit exactly for the shared channel, and then always international law |
| SlackChannels.IsUserAllowedInChannel | app/api/slack/config/channel-mapping.ts:58-63 | admitted exactly when the channel is the shared one and the user is one of the three of its first mapping |
| Kanban.CardIndex | app/dashboard/kanban/actions/card-actions.ts:39-113 | the first card with that id, or none exactly when no card has it |
| Kanban.ColumnOf | app/dashboard/kanban/actions/card-actions.ts:21-48 | a column with that id, or none exactly when no column has it |
| Kanban.BoardIndex | app/dashboard/kanban/actions/board-actions.ts:55-58 | a board with that id, or none exactly when no board has it |
| Kanban.BoardFor | app/dashboard/kanban/actions/board-actions.ts:8-18 | a board of that sale origin, or none exactly when no board has it |
| Kanban.InColumn | app/dashboard/kanban/actions/card-actions.ts:60-68 | exactly the cards of that column other than the excluded one, never more than stored |
| Kanban.Positions | app/dashboard/kanban/actions/card-actions.ts:65-70 | the cards' positions, one per card, in order |
| Kanban.MaxOf | app/dashboard/kanban/actions/card-actions.ts:23-26 | the largest of the numbers, none exactly for an empty list |
| Kanban.InsertReal | app/dashboard/kanban/actions/card-actions.ts:67 | an ascending list with one more number, still ascending |
| Kanban.SortReals | app/dashboard/kanban/actions/card-actions.ts:67 | a permutation of the positions in ascending order |
| Kanban.CalculateNewPosition | app/dashboard/kanban/actions/card-actions.ts:5-10 | 1000 with no neighbours; above a lone card before; between 0 and a positive card after; strictly between two different neighbours |
| Kanban.Neighbour | app/dashboard/kanban/actions/card-actions.ts:69-70 | a position exactly when the index is a whole number inside the list, and then the card at that index |
| Kanban.DropPastLastHalvesLast | app/dashboard/kanban/actions/card-actions.ts:69-71 | as written, a drop after the last card of a column lands at half the last position, and into an empty column at 0 |
| Kanban.DropAfterLastLandsBelowIt | app/dashboard/kanban/actions/card-actions.ts:69-71 | as written, cards at 1000 and 2000 with a drop after the second give 1000, so the column is no longer strictly ascending |
| Kanban.MovePosition | app/dashboard/kanban/actions/card-actions.ts:69-71 | with a missing neighbour kept missing, a column of positive positions yields a positive position |
| Kanban.DropLandsAtIndex | app/dashboard/kanban/actions/card-actions.ts:65-71 | with missing neighbours kept missing, the new position sits exactly at the drop index: the column stays strictly ascending with the card inserted there |
| Kanban.LastPosition | app/dashboard/kanban/actions/card-actions.ts:21-26 | the highest position in the column, or none when the column is empty or its top card sits at 0 |
| Kanban.DefaultColumns | app/dashboard/kanban/actions/board-actions.ts:25-41 | five columns Backlog, Specify, Implement, Validate and Deploy ordered 0 to 4, Backlog unlimited and the others limited to 2 |
| Kanban.ResetWip | app/dashboard/kanban/actions/board-actions.ts:59-62 | a limited column of that board goes back to a limit of 2; an unlimited one stays unlimited and other boards' columns are untouched |
| Kanban.MoveRefusal | app/dashboard/kanban/actions/card-actions.ts:38-64 | no refusal exactly when the schema, card, target column, same board, adjacent order, allowed backward move and WIP limit checks all pass, checked in that order |
| Kanban.MoveWipRefusal | app/dashboard/kanban/actions/card-actions.ts:59-64 | a move into a full limited column is refused with the limit in the message; an unlimited column never refuses for that |
| Kanban.KanbanStore.constructor | app/dashboard/kanban/actions/board-actions.ts:6-23 | an empty store, which trivially keeps the board, column and card invariants |
| Kanban.KanbanStore.CreateCard | app/dashboard/kanban/actions/card-actions.ts:12-35 | refused exactly for the schema or a missing column, with the cards unchanged; otherwise an unmarked card is appended above every card of its column |
| Kanban.KanbanStore.MoveCard | app/dashboard/kanban/actions/card-actions.ts:37-81 | refused exactly as MoveRefusal says, cards unchanged; otherwise only that card changes column and takes the position moveCard computes as written (a missing neighbour read as 0), keeping its data, and loses its mark when it leaves an order-0 column |
| Kanban.KanbanStore.ToggleIsNext | app/dashboard/kanban/actions/card-actions.ts:83-110 | refused for the schema, an unknown card, another board or a column other than the backlog; otherwise exactly this card of the board is marked and other boards are untouched |
| Kanban.KanbanStore.DeleteCard | app/dashboard/kanban/actions/card-actions.ts:112-114 | an unknown id fails with the cards unchanged; otherwise that card alone goes, the others keep their order |
| Kanban.KanbanStore.CreateBoardWithColumns | app/dashboard/kanban/actions/board-actions.ts:25-49 | a new board of team size 3 with the five default columns, keeping one board per sale origin |
| Kanban.KanbanStore.GetOrCreateBoard | app/dashboard/kanban/actions/board-actions.ts:6-23 | the existing board of the origin with nothing changed, or a newly created one; asking afterwards finds that board |
| Kanban.KanbanStore.UpdateBoardTeamSize | app/dashboard/kanban/actions/board-actions.ts:51-65 | refused exactly for the schema or an unknown board, with nothing changed; otherwise that board's team size is set and every limited column of the board goes back to 2 |
| Kanban.MovePreservesCards | app/dashboard/kanban/actions/card-actions.ts:49-79 | a move on the same board to an existing column at any position, keeping a mark only in the backlog, keeps the card invariant |
| Kanban.MarkNext | app/dashboard/kanban/actions/card-actions.ts:96-108 | every card of the board is unmarked and then the chosen one marked, so it is the board's only marked card and the invariant holds |
| Kanban.RemovePreservesCards | app/dashboard/kanban/actions/card-actions.ts:112-114 | dropping one card keeps the card invariant and exactly the cards with other ids |
| Kanban.AddPreservesCards | app/dashboard/kanban/actions/card-actions.ts:28-34 | a new unmarked card with a fresh id in an existing column keeps the card invariant |
| Kanban.NewColumnsKeepCards | app/dashboard/kanban/actions/board-actions.ts:28-41 | columns with fresh ids appended after the others keep every card in its column, board and order |
| Kanban.ResetLimits | app/dashboard/kanban/actions/board-actions.ts:59-62 | every column after the reset, one per column, in order |
| Kanban.ResetKeepsCards | app/dashboard/kanban/actions/board-actions.ts:59-62 | resetting limits moves no column and no card, so the invariants still hold |
| CardGenerator.AsCard | app/api/slack/lib/card-generator.ts:52-103 | a card exactly when the value is an object with four text fields and a numeric estimate, carrying those fields |
| CardGenerator.FilterCards | app/api/slack/lib/card-generator.ts:52-59 | exactly the well-shaped entries, never more than given |
| CardGenerator.MembersStep | app/api/slack/lib/card-generator.ts:52-59 | an entry of a non-empty answer list is its head or an entry of its tail |
| CardGenerator.FilterCardsAppend | app/api/slack/lib/card-generator.ts:52-59 | the filter keeps entry order: filtering a concatenation is concatenating the filtered parts |
| CardGenerator.AllShapedKept | app/api/slack/lib/card-generator.ts:52-59 | a list made only of well-shaped cards passes the filter whole, entry by entry |
| CardGenerator.CardList | app/api/slack/lib/card-generator.ts:51-95 | the `cards` array when the answer holds one, the answer itself when it is an array, and nothing the filter could run on otherwise |
| CardGenerator.GeneratedCards | app/api/slack/lib/card-generator.ts:50-103 | nothing exactly when the answer is no list or holds a null entry; otherwise exactly its well-shaped entries |
| CardGenerator.WrappedCardsKept | app/api/slack/lib/card-generator.ts:38-59 | an answer wrapping well-shaped cards under `cards`, as the prompt asks, gives back those cards in order |
| CardGenerator.StartPosition | app/api/slack/lib/card-generator.ts:134-138 | above every card already in the column, and at least 1000 when positions are positive |
| CardGenerator.NewCards | app/api/slack/lib/card-generator.ts:139-153 | one unmarked card per generated card, in order, the k-th at 1000·k above the start |
| CardGenerator.NewPositionsClimb | app/api/slack/lib/card-generator.ts:138-153 | the new positions strictly ascend and all lie above every card the column held |
| CardGenerator.CreateCardsInColumn | app/api/slack/lib/card-generator.ts:133-155 | appends exactly the new cards in order after the stored ones, keeps the card invariant, and answers their number |
| CardGenerator.NewCardFits | app/api/slack/lib/card-generator.ts:139-152 | appending the next new card after those already written keeps the card invariant |
| CardGenerator.BacklogOf | app/api/slack/lib/card-generator.ts:109-126 | the board's first order-0 column, or none exactly when the board has none |
| CardGenerator.BacklogFor | app/api/slack/lib/card-generator.ts:106-130 | the unit's board, created with the default columns when missing, and its order-0 column; the new board's is its Backlog |
| CardGenerator.CreateCardsInKanban | app/api/slack/lib/card-generator.ts:106-131 | the cards go to the order-0 column of the unit's board, created when missing; a board without that column throws and no card is written |
| CardGenerator.NewBacklogFound | app/api/slack/lib/card-generator.ts:112-128 | a fresh board's order-0 column is its new Backlog |
| CardGenerator.SkipForeignColumns | app/api/slack/lib/card-generator.ts:109 | columns of other boards never answer the order-0 lookup |
| CardGenerator.FreshAfterPrefix | app/api/slack/lib/card-generator.ts:140-151 | the next new id is neither stored nor among the ids already written |
| MessageBlocks.SaleOriginLabel | app/api/slack/lib/message-blocks.ts:3-20 | each unit's enum name shows as its Portuguese label; any other text is shown as it is |
| MessageBlocks.Truncate | app/api/slack/lib/message-blocks.ts:131-134 | a text that fits is kept; a longer one becomes a prefix of it followed by "...", exactly the limit long, or just "..." for a limit under 3 |
| MessageBlocks.TruncateIdempotent | app/api/slack/lib/message-blocks.ts:131-134 | truncating again to the same limit of at least 3 changes nothing |
| MessageBlocks.Days | app/api/slack/lib/message-blocks.ts:32 | the hours rounded up to whole eight-hour days: the least whole number of days covering them |
| MessageBlocks.CardBlocksShape | app/api/slack/lib/message-blocks.ts:27-57 | each card gives four sections and a divider: its title, then specification, objective and criteria cut to 500, 300 and 400 characters under their headings |
| MessageBlocks.CardNumberReadable | app/api/slack/lib/message-blocks.ts:32 | the number at the start of a card's title reads back as its index plus one |
| MessageBlocks.ApprovalActions | app/api/slack/lib/message-blocks.ts:67-86 | an actions block `approval_<id>` with the approve then the reject button, both carrying the approval id |
| MessageBlocks.FlattenFives | app/api/slack/lib/message-blocks.ts:26-58 | five-block groups pushed one after another place group k at 5k |
| MessageBlocks.FlattenSnoc | app/api/slack/lib/message-blocks.ts:26-58 | pushing one more group appends its blocks at the end |
| MessageBlocks.ConcatLayout | app/api/slack/lib/message-blocks.ts:12-87 | a three-block head, n five-block groups and a tail, concatenated, land at 0, 3 + 5k and the end |
| MessageBlocks.PreviewLayout | app/api/slack/lib/message-blocks.ts:12-88 | head first, group k at 3 + 5k, tail last |
| MessageBlocks.CardGroups | app/api/slack/lib/message-blocks.ts:26-58 | one group per card, group k being card k's blocks numbered k, five blocks each |
| MessageBlocks.CardsBody | app/api/slack/lib/message-blocks.ts:26-58 | the pushes of the loop leave exactly the card groups concatenated in card order |
| MessageBlocks.BuildCardsPreviewBlocks | app/api/slack/lib/message-blocks.ts:11-89 | the header, the unit and the count and a divider, then each card's five blocks in order at 3 + 5k, then the prompt and the buttons: 5 blocks per card plus 5 |
| MessageBlocks.ReplyBlocks | app/api/slack/lib/message-blocks.ts:91-129 | each reply is one section; the success reply's count reads back, so different counts differ; the error reply ends with its message and differs from every other reply |
| MessageBlocks.SuccessBlocks | app/api/slack/lib/message-blocks.ts:91-99 | one section whose number, read after the check mark, is the count of cards created |
| MessageBlocks.RejectedBlocks | app/api/slack/lib/message-blocks.ts:101-109 | one section opening with the cross mark |
| MessageBlocks.RevisionBlocks | app/api/slack/lib/message-blocks.ts:111-119 | one section opening with the memo mark |
| MessageBlocks.ErrorBlocks | app/api/slack/lib/message-blocks.ts:121-129 | one section opening with the warning sign and ending with the message |

## Left out

- Rendering: JSX, toasts, dialogs, focus handling and every purely presentational component carry no rule of their own and are not modelled.
- Prisma, Redis and the module-level client singletons are replaced by in-memory sequences and maps. Row ids are strings or numbers chosen by the caller, and a fresh id is a parameter required to differ from every stored id.
- Queries are read in storage order: a `findMany` without `orderBy` is taken to return rows in insertion order. An `orderBy` is modelled by sorting on its keys with Common.SortOn, a stable insertion sort, so rows with equal keys keep their storage order; the order a database gives such rows is not claimed. Names sort by an abstract collation `nameLe`, assumed to be a total preorder for the order to be claimed.
- The Prisma schema is not part of this model: `SaleOrigin` is its five enum values, and a user row carries only the columns the modelled code reads.
- Cryptography and library calls are oracles passed as parameters: bcrypt hash and compare, speakeasy TOTP generation and verification, QR rendering (which answers None where `qrcode.toDataURL` throws), the otpauth URL builder, the next-auth JWT encoder and decoder, `crypto.randomBytes` and Slack request signing.
- app/settings/users/security/actions/whitelist.ts, lib/highSecurityAuthenticator.ts, lib/stepTokens.ts, the blacklist and the Upstash sliding-window limiter are not part of this model; their verdicts are parameters.
- Network calls: the OpenAI requests of generateCardsFromSlackMessage and refineCardsFromFeedback are not modelled, only the parsed answer they return. The PIX processor, the proof writers, Google OAuth and the Slack routes are left out the same way.
- Otp.TotpVerify: the window of adjacent time steps is written out, but the HMAC code generator of section 4 of RFC 6238 is the parameter `code`, so no property of the codes themselves is claimed.
- Timers, debouncing and concurrency are out: `setInterval` and `setTimeout` become explicit steps (`AuthFlow.Flow.Tick`, `PendingApprovals.PendingStore.FireTimer`). `Promise.all` runs its creations one after another in list order, the fire-and-forget `after()` update of `lastUsedAt` is an immediate write, and React stale closures and re-render order are not represented.
- React state aliasing: serviceState.tsx copies the tariff array and then assigns fields of its shared element objects; the model replaces the element with an updated copy, so the aliasing of the old and new arrays is not captured.
- ServiceModal.ServiceModalState.UpdateTariffField: requires an index inside the list. The source does not throw on another index: past the end it writes a new element and leaves holes before it, and a negative index becomes a property that is no element. Sequences cannot hold holes. Every call site passes the index of a shown row.
- Handlers that only reload data or show a message around a modelled action (handleSaveSingle, the page reloads after a success, `handleViewReceipt`'s `window.open`) are not modelled.
- Floating point: money is integer cents, so `Math.round(price * 100)` is the price itself. The averbation calculator works in cents: the source rounds each 20% part to the cent (Math.round on cents, then divides by 100), and its total adds those already-rounded parts without rounding again, which the model takes as an exact sum of cents. `toFixed`, `toISOString` and `new Date(string)` parsing are parameters or left out, and how a JS number prints in a template is the `numberText`/`priceText` parameter.
- PtBrNumber.ParseFloat: reads only texts that start with neither white space nor a sign, which are the only ones the price pattern lets through.
- AverbRanges.MinLe: a NaN bound counts as equal to every bound, which is one reading of a comparator returning NaN; engines are free to order such ranges differently.
- ServicesTable.FilteredServices: `localeCompare` is an abstract ordering `le` on codes, and the sort is a stable insertion sort; the order the engine gives among codes that compare equal is not claimed beyond that.
- Gateway.SafeCompare: covers ASCII strings only; for other text, `timingSafeEqual` over UTF-8 bytes can throw when two strings of equal length differ in byte length, which the model does not capture.
- Case folding is ASCII only: `toLowerCase` and `toUpperCase` change only the letters A-Z and a-z.
- MessageBlocks.Truncate: counts characters as Unicode scalar values, where JavaScript counts UTF-16 code units; the two differ only for characters outside the Basic Multilingual Plane. A cut in code units can split a surrogate pair, and no Dafny string holds half a pair. The other length bounds count UTF-16 code units through JsText.JsLength.
- MessageBlocks: a block keeps its type and text; the fixed `plain_text`/`mrkdwn` wrappers and `emoji: true` flags are not represented.
- MessageBlocks.SaleOriginLabel: a text naming a property of `Object.prototype` (such as "constructor") would find that property in the label record; the model returns such texts unchanged.
- PendingApprovals.ApprovalUpdate: a field of `Partial<PendingApproval>` set explicitly to `undefined` overwrites the field in the source; the model has only given and absent fields.
- Kanban.KanbanStore.GetOrCreateBoard: returns the board row; the columns and cards that `include` loads are read from the store's own tables.
- General regular-expression engines and zod internals are not modelled; each pattern the code uses is written out as a matcher, and zod type checks are taken as given.
- Documents.IsValidFutureDateWithinDays: the parsed date and today's local midnight are parameters, and a day is always 86400000 ms, so a `setDate` across a daylight-saving change is not modelled.
- TariffStore.TariffTable.BulkCreateServiceTariffs and ServiceStore.ServiceTable.BulkCreateServices: the concurrent creates are taken in list order, so when two entries share a key the first one is stored and the second fails; the database may serve them in another order. A failed insert is taken to use up no id, although an autoincrement sequence can skip one.
- TariffStore.TariffTable: the foreign key from a tariff to its service is the parameter `services`, the set of stored service ids; the service table itself is modelled separately in ServiceStore.
- PixPayment.CreatePaymentData: the local time zone is one fixed offset `offsetMs`, with no daylight-saving changes, and the entered `YYYY-MM-DD` text is given as the day number `enteredDay` it names.
- Thin ORM wrappers (users/create/actions.ts, versionChecker.ts, bulk activation and deactivation, FormServer.tsx) are not modelled.

## Findings

| source | as written | input that shows it | evidently intended | confidence | as-written member | corrected member |
|---|---|---|---|---|---|---|
| app/settings/tariffs/service/manager/components/modal/serviceState.tsx:71-83 | handleAddTariff awaits createServiceTariff and announces "Tarifa adicionada com sucesso!" whatever the reply, but that action reports a refused tariff as a `{ success: false }` reply instead of throwing | a new tariff whose start date is already taken by another tariff of the service: the action answers with the duplicate-start refusal and the modal still says the tariff was added | announce success only when the reply is a created tariff, and show the refusal otherwise | high, not executed | ServiceModal.AddNoticeAsWritten, ServiceModal.RefusedTariffAnnouncedAsAdded | ServiceModal.AddNotice |
| app/dashboard/kanban/actions/card-actions.ts:69-71 | moveCard computes `Number(cardsInTarget[i]?.position ?? null)`, so a missing neighbour becomes position 0 instead of `null` | a column with cards at 1000 and 2000, and a card dropped at index 2 (after the last one): the "after" neighbour becomes 0 and the card lands at 1000, level with the first card instead of after the second | keep a missing neighbour missing, so a drop past the end lands above the last card and the column stays in ascending order | high, not executed | Kanban.MovePositionAsWritten, Kanban.DropPastLastHalvesLast, Kanban.DropAfterLastLandsBelowIt | Kanban.MovePosition, Kanban.DropLandsAtIndex |
| app/settings/users/security/components/usePixPayment.ts:55-59 | createPaymentData reads the entered `YYYY-MM-DD` with `new Date`, which takes it as UTC midnight, and then keeps that instant's local day with `setHours(0, 0, 0, 0)` | in a time zone west of UTC such as UTC-3, a payment entered for tomorrow: its UTC midnight is 21:00 today local time, so `isScheduled` is false and the payment goes out at once | compare the entered calendar day with today's local day, so a later date is always scheduled | medium, not executed | PixPayment.CreatePaymentData, PixPayment.TomorrowNotScheduledWestOfUtc | PixPayment.ScheduledAsIntended, PixPayment.IntendedScheduling |
| lib/validators.ts:29-31 | validateCnpj starts the weight `pos` at size - 7 and resets it to 9 only after the loop, so the weights run 5,4,3,2,1,0,-1,... instead of restarting at 9 | 11.222.333/0001-81, valid under the registry's weights: round one sums to 6 and demands check digit 5 where the number carries 8, so it is refused | reset `pos` to 9 inside the loop as soon as it falls below 2, which gives the registry's 5,4,3,2,9..2 and 6,5,4,3,2,9..2; the PIX-key and document checks keep the as-written rule, because that is what the validators decide | high, not executed | Documents.ValidateCnpj, Documents.CnpjRejectsStandardExample | Documents.RegistryWeightsAreStandard, Documents.CnpjRegistryAcceptsStandardExample |
