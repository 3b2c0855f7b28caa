# Referidos Verisure, modelled in Dafny

A model of the core of *referidos-verisure*, a referral site. Visitors and
signed-in referrers register people they refer. Administrators list those
referrals, change their status and export them as CSV. The model covers:

- the referral creation route, `POST /api/referrals/create`;
- the two admin routes, the list and the status update;
- the helpers and handlers of the admin page;
- the registration form of the referrer portal;
- the campaign-tracking helpers shared by the landing page and the portal;
- the sign-in callback and the admin login and password-reset pages.

The model states what each of these does and proves properties of it in
Dafny.

## Modules

- `Wrappers`: the `Option` type.
- `JsText`: the JavaScript string built-ins the code relies on, written out.
  - `trim`, with the full ECMAScript white-space set;
  - `toLowerCase` and `toUpperCase`, on ASCII letters;
  - `replaceAll`, `includes`, `replace(/\D/g, "")`, `slice`, `padStart`, `split` and `join`;
  - `String(n)` for naturals.
- `JsValue`: JSON values as the routes read them, and the coercions `String(v ?? "")` and `String(v || "")`.
- `JsErrors`: a thrown value, and `e instanceof Error ? e.message : fallback`.
- `ReferralInput`: the route's normalisers and validators.
  - `normalizeEmail`, `isEmail` (its regular expression written as predicates on the local part and the domain), `normalizePhone` and `isPeMobile9`;
  - `normalizeDni`, `isPeDni8` and `cleanTrack`.
- `HtmlEscape`: `escapeHtml`, its per-character form and an entity decoder used as its inverse.
- `ReferralsDb`: the `referrals` row and the table.
  - The table is a class holding a `seq<Referral>`, with the insert, the claim update and the status update.
- `CreateRoute`: the creation route.
  - The field checks, referrer resolution, the five-minute cooldown, the duplicate checks and the insert.
  - The unique-violation classifier, the two mails, and the claim branch.
  - Written as specification functions (`Handle`, `Register`, `HandleClaim`) and as methods on the table (`Post`, `PostRegister`, `PostClaim`) proved equal to them.
- `CreateRouteProps`: properties of the creation route.
  - The gate order and the cooldown.
  - The duplicate checks, with the invariant that no two rows share a phone or a non-null e-mail, and that ids stay distinct.
  - The claim count, and escaping in the mails.
- `AdminAuth`: the bearer-token and admin-role gate shared by both admin routes.
- `AdminList`: the list route, as a function of the table.
  - The clamps on limit and offset, the status and search filters, and the newest-first order.
  - The page range and the filtered total.
  - Both routes select only eight columns: id, creation time, status, referrer e-mail, referrer user id, referred name, referred e-mail and referred phone. The model projects each row to those columns with `Selected`.
- `AdminUpdateStatus`: the status route, as a specification function and a method on the table.
- `Fnv`: `fnv1a32`, a loop over the characters of a string in `bv32`.
- `RowCode`: `uuidToCode15`.
- `AdminFormat`: `formatYesNo` and `prettyNameFallback`.
- `Csv`: `csvEscape` and `buildCsv` (the loop and the document it builds), and a reader of the writer's output: quoted fields with doubled quotes, records separated by LF.
  - The reader is the writer's partner: a built document reads back as its records.
- `AdminPage`: the admin page's paging, request parameters and access probe.
  - The `AdminView` class holds the page's state fields and its handlers:
    - `CheckAccess`, `FetchRows`, `GoPrev` and `GoNext`;
    - the optimistic `UpdateStatus`, with `rows`, `total`, `page`, `error`, `access` and `token` as fields;
    - `Export`, the chunked export loop.
- `TrackingStore`: `saveTrackingFromUrl` and `getTrackingPayload`.
  - `app/page.tsx:58-126` and `app/referidos/app/page.tsx:206-269` hold identical copies of these two functions, and this one module models both.
  - The storage slot is a class.
- `PortalRegister`: the portal's `isEmail`, `normalizeEmail`, `normalizePhone` and `validateRegisterFields`.
  - It also covers the body `submitRegister` sends and its token gate.
- `AuthCallback`: the `CallbackClient` component (not mounted by any page of the application): `safeNext` and the redirect chain of `run`, with `encodeURIComponent` over UTF-8.
- `AdminLogin`: the login page, with a `mode` field, `onSubmit` and the mount probe.
- `ResetPassword`: the reset-password page, with its three ordered gates.

## Boundaries

The database, the identity provider, the mail service, the clock and the
browser are parameters:
- the table is a `seq<Referral>`;
- `getUser` is a function from token to user;
- each query failure is a set member or a boolean;
- the insert error is a value;
- the creation time of a new row is `now`;
- each mail send is a boolean;
- browser storage is a class field;
- the locale date format is a function `int -> string`.

Rows the list route returns carry no `referrer_profile`. In the CSV the
referrer's name therefore falls back on the e-mail with
`prettyNameFallback(null, email)`, and "¿Tiene Verisure?" is always the
dash. The list route does not select `camp`, `landing_path` or `notes`, so
the "Campaña", "Landing" and "Notas" columns of every exported line are
empty (`AdminPage.ExportedColumnsBlank`).

`AdminPage.AdminView.Export` takes the chunk size as a parameter. As
written, the page uses `ExportChunk` (500). The corrected size is `MaxLimit`
(100), the size the route serves, for which
`AdminPage.ExportCorrectedIsComplete` shows that the export holds the whole
listing.

## Model

| member | source | states |
|---|---|---|
| JsText.Trim | app/api/referrals/create/route.ts:8 | `String.prototype.trim`: the result has no white space at either end, is no longer than the input, and is empty exactly when the input is all white space |
| JsText.TrimSplit | app/api/referrals/create/route.ts:8 | the input is the trimmed text with blank runs in front and behind |
| JsText.TrimIdempotent | app/api/referrals/create/route.ts:8 | trimming twice is trimming once |
| JsText.Lower | app/api/referrals/create/route.ts:8 | `toLowerCase` on ASCII letters: same length, character by character |
| JsText.LowerIdempotent | app/api/referrals/create/route.ts:8 | lower-casing twice is lower-casing once |
| JsText.LowerAppend | app/api/referrals/create/route.ts:8 | lower-casing distributes over concatenation |
| JsText.ReplaceAll | app/api/referrals/create/route.ts:407-415 | replacing every `c`: with no `c` in the replacement none is left, and a text without `c` is unchanged |
| JsText.ReplaceAllAppend | app/api/referrals/create/route.ts:407-415 | replace-all distributes over concatenation |
| JsText.ReplaceAllKeeps | app/api/referrals/create/route.ts:407-415 | a character other than `c` and absent from the replacement is in the output exactly when it is in the input |
| JsText.Digits | app/api/referrals/create/route.ts:24 | `replace(/\D/g, "")`: only digits remain, never more than the input |
| JsText.DigitsAppend | app/api/referrals/create/route.ts:24 | digit filtering distributes over concatenation |
| JsText.DigitsOfChar | app/api/referrals/create/route.ts:24 | one character: a digit is kept and anything else is dropped; with `DigitsAppend` this fixes the result on every string |
| JsText.DigitsMembers | app/api/referrals/create/route.ts:24 | a character is among the kept ones exactly when it is a digit of the input |
| JsText.DigitsOfDigits | app/api/referrals/create/route.ts:24 | a text of digits is kept as it is |
| JsText.DigitsOfTrim | app/api/referrals/create/route.ts:24 | trimming first changes no digit |
| JsText.Take | app/api/referrals/create/route.ts:24 | `slice(0, n)`: the first `min(n, length)` characters |
| JsText.Dec | app/admin/page.tsx:112 | `String(n)` for a natural number: digits whose decimal value is `n`, with no leading zero |
| JsText.DecLength | app/admin/page.tsx:112 | the decimal text has at most `k` digits exactly when `n < 10^k` |
| JsText.PadStart | app/admin/page.tsx:112 | `padStart(width, c)`: the fill comes in front, up to `width` |
| JsText.IndexOf | app/admin/page.tsx:79 | the first position of the delimiter, or the length |
| JsText.Split | app/admin/page.tsx:79 | `split` gives at least one part, and no part holds the separator; with `JoinSplit` this pins the cut |
| JsText.JoinSplit | app/admin/page.tsx:79 | joining the parts of `split` with the delimiter gives the text back |
| JsText.ContainsWitness | app/api/referrals/create/route.ts:16 | `includes` has a witness position |
| JsValue.Field | app/api/referrals/create/route.ts:49 | a member missing from the JSON body reads as `undefined` |
| JsValue.IntString | app/admin/page.tsx:112 | `String(n)`: a leading minus sign exactly for a negative number, then digits with no leading zero whose decimal value is the magnitude |
| JsValue.StringOrEmpty | app/api/referrals/create/route.ts:8 | `String(v ?? "")` for strings, `undefined` and `null` |
| JsValue.StringOrEmptyIfFalsy | app/api/admin/referrals/update-status/route.ts:34 | a possibly falsy value as text: a string stays, a falsy value gives "" |
| ReferralInput.NormalizeEmail | app/api/referrals/create/route.ts:7-10 | `null` exactly for a blank input; otherwise the trimmed, lower-cased, non-empty text |
| ReferralInput.NormalizeEmailIdempotent | app/api/referrals/create/route.ts:7-10 | normalising a normalised address changes nothing |
| ReferralInput.IsEmailRejects | app/api/referrals/create/route.ts:14-16 | the empty text, a text over 254 characters and a text containing ".." are rejected |
| ReferralInput.EmailSingleAt | app/api/referrals/create/route.ts:19 | an accepted address has exactly one '@' |
| ReferralInput.EmailAccepted | app/api/referrals/create/route.ts:12-20 | a plain address `ana.lopez@example.com` is accepted |
| ReferralInput.PatternOfParts | app/api/referrals/create/route.ts:19 | a valid local part, '@' and a valid domain match the pattern |
| ReferralInput.DomainOfParts | app/api/referrals/create/route.ts:19 | dotted labels, '.' and a top-level part of two or more letters form a domain |
| ReferralInput.ShortTopLevelRejected | app/api/referrals/create/route.ts:19 | a one-letter top-level domain is rejected |
| ReferralInput.DoubleDotRejected | app/api/referrals/create/route.ts:16 | a double dot in the local part is rejected |
| ReferralInput.NormalizePhone | app/api/referrals/create/route.ts:22-25 | at most nine characters, all digits |
| ReferralInput.NormalizePhoneIdempotent | app/api/referrals/create/route.ts:22-25 | normalising a normalised phone changes nothing |
| ReferralInput.IsPeMobile9Iff | app/api/referrals/create/route.ts:27-29 | a phone is a valid mobile exactly when its normal form has nine digits, that is, when the input has at least nine digits |
| ReferralInput.NormalizeDni | app/api/referrals/create/route.ts:31-34 | at most eight characters, all digits |
| ReferralInput.NormalizeDniIdempotent | app/api/referrals/create/route.ts:31-34 | normalising a normalised DNI changes nothing |
| ReferralInput.IsPeDni8Iff | app/api/referrals/create/route.ts:36-38 | a DNI is valid exactly when the input has at least eight digits |
| ReferralInput.CleanTrack | app/api/referrals/create/route.ts:40-45 | `null` exactly for a non-string or blank value; otherwise the first min(`max`, length) characters of the trimmed text, the whole of it when it fits |
| HtmlEscape.EscapeHtmlIsEach | app/api/referrals/create/route.ts:407-415 | the five chained replacements equal escaping each character on its own |
| HtmlEscape.EscapeHtmlSafe | app/api/referrals/create/route.ts:407-415 | the output contains no `<`, `>`, `"` or `'` |
| HtmlEscape.PlainTextUnchanged | app/api/referrals/create/route.ts:407-415 | text with none of the five special characters is unchanged |
| HtmlEscape.EscapeHtmlAppend | app/api/referrals/create/route.ts:407-415 | escaping distributes over concatenation |
| HtmlEscape.EscapeHtmlRoundTrip | app/api/referrals/create/route.ts:407-415 | decoding the five entities recovers the original text |
| ReferralsDb.CountClaimable | app/api/referrals/create/route.ts:94-95 | the number of claimable rows is at most the number of rows |
| ReferralsDb.ClaimRowsEffect | app/api/referrals/create/route.ts:79-85 | the claim sets `referrer_user_id` on exactly the rows with no user id whose `referrer_email` is the user's, and leaves every other column alone |
| ReferralsDb.ClaimCountIsChanged | app/api/referrals/create/route.ts:94-95 | the count the route reports is the number of rows the claim changed |
| ReferralsDb.ClaimLeavesNothing | app/api/referrals/create/route.ts:79-85 | after a claim, no row is claimable for that e-mail |
| ReferralsDb.ClaimIdempotent | app/api/referrals/create/route.ts:79-85 | claiming twice is claiming once |
| ReferralsDb.SetStatusEffect | app/api/admin/referrals/update-status/route.ts:40-45 | the update sets the status of the rows with the id and leaves the other rows as they were |
| ReferralsDb.SetStatusIdempotent | app/api/admin/referrals/update-status/route.ts:40-45 | setting the same status twice is setting it once |
| ReferralsDb.ReferralTable.Append | app/api/referrals/create/route.ts:236-257 | the insert appends the row to the table |
| ReferralsDb.ReferralTable.Claim | app/api/referrals/create/route.ts:79-95 | the table becomes the claimed rows, and the method returns the number of claimable rows |
| ReferralsDb.ReferralTable.SetStatus | app/api/admin/referrals/update-status/route.ts:40-45 | the table becomes the rows with the status set |
| CreateRoute.PhoneNorm | app/api/referrals/create/route.ts:117 | the normalised phone: at most nine digits |
| CreateRoute.TrackingOf | app/api/referrals/create/route.ts:119-128 | each tracking column is absent or non-empty within its length limit (80, 120, 200, 300) |
| CreateRoute.FieldGate | app/api/referrals/create/route.ts:130-145 | no error exactly when the name and the phone are non-empty strings, the phone has nine digits, `consent` is `true`, and any referred e-mail given is valid; every error is a 400 |
| CreateRoute.ResolveReferrer | app/api/referrals/create/route.ts:147-170 | no referrer exactly when there is no session user with an id and no valid referrer e-mail; a session user is the referrer with the session's e-mail, otherwise the normalised, valid e-mail is |
| CreateRoute.DuplicateGate | app/api/referrals/create/route.ts:200-234 | passes exactly when neither check fails and neither the e-mail (if given) nor the phone is already in the table; a failure is a 409 or a 500 |
| CreateRoute.ClassifyInsertError | app/api/referrals/create/route.ts:259-296 | a unique violation (code 23505, or "duplicate key" in the message) is a 409 naming the phone first, then the e-mail, then the referral; any other error is a 400 |
| CreateRoute.NamesPhoneIff | app/api/referrals/create/route.ts:275-278 | the three phone tests reduce to the first, which the other two contain |
| CreateRoute.FormOf | app/api/referrals/create/route.ts:116-117 | the stored e-mail and phone are the normalised ones, and the name is trimmed |
| CreateRoute.NewRow | app/api/referrals/create/route.ts:236-257 | the inserted row has status "registered", consent, no notes, the referrer, the assigned id and time, and the normalised contact |
| CreateRoute.MailsFor | app/api/referrals/create/route.ts:314-399 | one mail to the referred person when there is an e-mail, one internal mail when a destination is configured |
| CreateRoute.Post | app/api/referrals/create/route.ts:47-405 | the route, step by step on the table, gives the response, the table and the mails that `Handle` specifies |
| CreateRoute.ReferrerStep | app/api/referrals/create/route.ts:147-170 | the referrer steps compute `ResolveReferrer` |
| CreateRoute.PostRegister | app/api/referrals/create/route.ts:172-312 | the cooldown, duplicate and insert steps give what `Register` specifies |
| CreateRoute.SendMails | app/api/referrals/create/route.ts:314-399 | the mails sent and the two flags in the response |
| CreateRoute.PostClaim | app/api/referrals/create/route.ts:53-96 | the claim steps give what `HandleClaim` specifies |
| CreateRouteProps.ConsentRequired | app/api/referrals/create/route.ts:143-145 | with every other field valid, a missing consent is refused with its message and nothing changes |
| CreateRouteProps.NameFirst | app/api/referrals/create/route.ts:130-132 | a missing name is refused first |
| CreateRouteProps.ReferredEmailOptional | app/api/referrals/create/route.ts:133-136 | a blank referred e-mail is never the reason for a refusal |
| CreateRouteProps.AnonymousNeedsReferrerEmail | app/api/referrals/create/route.ts:159-170 | without a session, the request is refused for the referrer e-mail exactly when that e-mail is missing or invalid |
| CreateRouteProps.RegisterNeverBadReferrer | app/api/referrals/create/route.ts:172-312 | no step after the referrer is resolved reports a bad referrer e-mail |
| CreateRouteProps.RejectedTokenIsNoToken | app/api/referrals/create/route.ts:147-157 | a token the identity provider rejects is treated as no token at all |
| CreateRouteProps.SameGate | app/api/referrals/create/route.ts:130-145 | the field checks ignore the access token |
| CreateRouteProps.SameReferrer | app/api/referrals/create/route.ts:159-170 | without a session, the referrer ignores the access token |
| CreateRouteProps.SameRegistration | app/api/referrals/create/route.ts:116-128 | the stored form ignores the access token |
| CreateRouteProps.CooldownBlocks | app/api/referrals/create/route.ts:172-198 | a recent row by the same referrer gives a 429 |
| CreateRouteProps.EmailDuplicateFirst | app/api/referrals/create/route.ts:208-234 | when both the e-mail and the phone are taken, the e-mail is reported |
| CreateRouteProps.RegistrationStages | app/api/referrals/create/route.ts:98-312 | a registration goes through the field checks, then the referrer, then `Register` |
| CreateRouteProps.RegisterShape | app/api/referrals/create/route.ts:172-312 | a failure changes nothing and sends nothing; a creation passed every check and appends one row and its mails |
| CreateRouteProps.ClaimShape | app/api/referrals/create/route.ts:53-96 | a claim never creates or sends; on success it is the claim of the session user's e-mail, with its count |
| CreateRouteProps.NewRowWellFormed | app/api/referrals/create/route.ts:116-257 | a row that passed the checks has a valid nine-digit phone, a valid e-mail when it has one, a trimmed name, and a referrer with a user id or a valid e-mail |
| CreateRouteProps.HandleEffect | app/api/referrals/create/route.ts:47-405 | on every path, a failure leaves the table as it was, a creation appends exactly one well-formed row, and a claim rewrites the table as a claim |
| CreateRouteProps.CreatedRow | app/api/referrals/create/route.ts:222-312 | a created row's phone was not in the table, nor its e-mail, and `emailSent` reports the referred mail |
| CreateRouteProps.EmailSentNeedsAddress | app/api/referrals/create/route.ts:344-358 | `emailSent` needs a referred e-mail |
| CreateRouteProps.BlankNameStoredEmpty | app/api/referrals/create/route.ts:130-132 | a name of white space passes the check and is stored as "" |
| CreateRouteProps.CooldownAfterRegister | app/api/referrals/create/route.ts:172-198 | the same referrer within five minutes of a creation gets a 429 |
| CreateRouteProps.DuplicateAfterRegister | app/api/referrals/create/route.ts:200-234 | registering the same phone again is refused with a 409 or a 429 |
| CreateRouteProps.TakenPhoneRefused | app/api/referrals/create/route.ts:222-234 | a phone already in the table is refused |
| CreateRouteProps.HandleKeepsUniqueContacts | app/api/referrals/create/route.ts:200-257 | when every check runs, no two rows ever share a phone or a non-null e-mail |
| CreateRouteProps.RefusedKeepsRows | app/api/referrals/create/route.ts:98-312 | a registration that does not create leaves the table alone |
| CreateRouteProps.AppendKeepsUniqueContacts | app/api/referrals/create/route.ts:222-257 | appending a row with new contacts keeps them unique |
| CreateRouteProps.ClaimKeepsUniqueContacts | app/api/referrals/create/route.ts:79-85 | the claim changes no contact |
| CreateRouteProps.HandleKeepsIdsDistinct | app/api/referrals/create/route.ts:236-257 | with a fresh id from the database, ids stay distinct |
| CreateRouteProps.ClaimKeepsIdsDistinct | app/api/referrals/create/route.ts:79-85 | the claim changes no id |
| CreateRouteProps.ClaimReportsChanges | app/api/referrals/create/route.ts:79-96 | the count reported is the number of rows changed, and repeating the claim reports 0 |
| CreateRouteProps.EscapeAllSafe | app/api/referrals/create/route.ts:407-415 | escaping each value yields no markup characters |
| CreateRouteProps.MailsAreEscaped | app/api/referrals/create/route.ts:344-399 | every value interpolated into the mail HTML is free of markup characters |
| AdminAuth.BearerToken | app/api/admin/referrals/list/route.ts:12-13 | a non-empty token is exactly what follows "Bearer " |
| AdminAuth.AdminGate | app/api/admin/referrals/list/route.ts:12-35 | admitted exactly with a non-empty token of a known user whose profile role is "admin"; every refusal is 401, 403 or 500 |
| AdminAuth.GateOrder | app/api/admin/referrals/list/route.ts:15-35 | no token or an unknown user is 401, a profile error is 500, and a missing profile or another role is 403 |
| AdminAuth.GateDependsOnTokenOnly | app/api/admin/referrals/list/route.ts:12-13 | two headers with the same token get the same answer |
| AdminAuth.BearerTokenOfHeader | app/api/admin/referrals/list/route.ts:12-13 | the token of "Bearer t" is t |
| AdminList.ClampLimit | app/api/admin/referrals/list/route.ts:9 | the limit is between 1 and 100, 50 by default, and a value in range is kept |
| AdminList.ClampOffset | app/api/admin/referrals/list/route.ts:10 | a non-negative offset is kept, and anything else is 0 |
| AdminList.Filter | app/api/admin/referrals/list/route.ts:45-52 | a row is kept exactly when it has the status (if given) and contains the search, ignoring case, in one of the four searched columns (if given) |
| AdminList.Insert | app/api/admin/referrals/list/route.ts:43 | inserting keeps the rows newest first and adds exactly the new row |
| AdminList.SortNewestFirst | app/api/admin/referrals/list/route.ts:43 | newest first and a permutation of the input |
| AdminList.Range | app/api/admin/referrals/list/route.ts:54 | `range(offset, offset + limit - 1)`: the slice from the offset, at most `limit` rows, empty past the end |
| AdminList.Columns | app/api/admin/referrals/list/route.ts:37-42 | each row as selected |
| AdminList.FilterColumns | app/api/admin/referrals/list/route.ts:37-52 | selecting columns and filtering commute |
| AdminList.InColumns | app/api/admin/referrals/list/route.ts:37-42 | a selected row comes from a table row and carries no notes or tracking |
| AdminList.List | app/api/admin/referrals/list/route.ts:7-63 | the gate's refusal is returned as is; a query error is a 500; on success the total counts the filtered rows and the page is within the limit |
| AdminList.PageRowsKept | app/api/admin/referrals/list/route.ts:37-54 | every row on the page passes the filters and is a table row with only the selected columns |
| AdminList.PageIsSlice | app/api/admin/referrals/list/route.ts:37-60 | the page is the slice of the newest-first listing at the clamped offset and limit |
| AdminList.RangeKeepsOrder | app/api/admin/referrals/list/route.ts:54 | a slice of a newest-first listing is newest first |
| AdminList.TotalIgnoresPaging | app/api/admin/referrals/list/route.ts:37-42 | the total does not depend on the limit or the offset |
| AdminList.PagesConcatenate | app/api/admin/referrals/list/route.ts:54 | consecutive pages of size `n` concatenate to the listing's prefix |
| AdminList.NoFilterKeepsAll | app/api/admin/referrals/list/route.ts:45-52 | without a status or a search every row is kept |
| AdminList.UnderscoreIsWildcard | app/api/admin/referrals/list/route.ts:47-51 | as written: the search "a_c" matches "abc", which does not contain it |
| AdminList.StarIsWildcard | app/api/admin/referrals/list/route.ts:47-51 | as written: PostgREST reads `*` as `%`, so the search "a*c" matches "abbc", which does not contain it |
| AdminList.SearchAgrees | app/api/admin/referrals/list/route.ts:47-51 | for a search without `_`, `*` or `\`, the ILIKE pattern matches exactly the columns that contain the search, ignoring case |
| AdminList.QueryAgrees | app/api/admin/referrals/list/route.ts:47-51 | for such a search, the route's `or` filter and `MatchesQuery` agree |
| AdminUpdateStatus.FindRow | app/api/admin/referrals/update-status/route.ts:40-45 | the row with the id, exactly when one exists |
| AdminUpdateStatus.Patch | app/api/admin/referrals/update-status/route.ts:6-53 | the route, step by step on the table, gives what `UpdateStatus` specifies |
| AdminUpdateStatus.GateFirst | app/api/admin/referrals/update-status/route.ts:8-31 | a refused caller gets the gate's answer whatever the body, and nothing changes |
| AdminUpdateStatus.EmptyIdRefused | app/api/admin/referrals/update-status/route.ts:34-37 | a blank id is a 400 with its message |
| AdminUpdateStatus.BadStatusRefused | app/api/admin/referrals/update-status/route.ts:4 | a status outside the four is a 400 |
| AdminUpdateStatus.UpdateEffect | app/api/admin/referrals/update-status/route.ts:33-49 | the table changes only on success, and then only by setting the requested id's status to the requested status; the returned row carries that id and status |
| AdminUpdateStatus.UpdateSucceeds | app/api/admin/referrals/update-status/route.ts:37-49 | an admitted request with an id, an allowed status and an existing row is answered with the updated row exactly when the database reports no error, and otherwise with the 500 |
| AdminUpdateStatus.MissingRowFails | app/api/admin/referrals/update-status/route.ts:40-47 | an id no row carries is a 500, as `.single()` finds nothing, and nothing changes |
| AdminUpdateStatus.UpdateIdempotent | app/api/admin/referrals/update-status/route.ts:40-45 | the same update twice is the update once |
| AdminUpdateStatus.OnlyThatRow | app/api/admin/referrals/update-status/route.ts:40-45 | every row with another id is unchanged |
| Fnv.Fnv1a32 | app/admin/page.tsx:92-100 | the loop computes the FNV-1a hash, a fold of xor and multiplication modulo 2^32 |
| Fnv.HashAppend | app/admin/page.tsx:92-100 | hashing a concatenation continues from the hash of the first part |
| Fnv.HashOfA | app/admin/page.tsx:92-100 | FNV-1a of "a" is 0xe40c292c |
| Fnv.HashOfFoobar | app/admin/page.tsx:92-100 | FNV-1a of "foobar" is 0xbf9cf968 |
| RowCode.CombineRange | app/admin/page.tsx:110-111 | `h1 * 1e6 + h2 % 1e6` stays below 2^53, and has 16 digits exactly when h1 has ten |
| RowCode.CombineSplits | app/admin/page.tsx:110-111 | the code splits back into h1 and the low six digits of h2 |
| RowCode.Code15Shape | app/admin/page.tsx:102-113 | a blank id gives 15 zeros; otherwise the digits of the combined hashes, 15 long, or 16 when the first hash has ten digits |
| RowCode.CodeSplits | app/admin/page.tsx:102-113 | the code's value splits into the two hashes |
| RowCode.CodeOfTrimmed | app/admin/page.tsx:103 | the code ignores white space around the id |
| AdminFormat.FormatYesNo | app/admin/page.tsx:67-70 | a dash exactly for a missing value, "Sí" exactly for `true`, "No" exactly for `false` |
| AdminFormat.CollapseShape | app/admin/page.tsx:83-84 | the output's shape: a class character in it is a space, two never stand side by side, and every other character came from the input |
| AdminFormat.CollapseIsScan | app/admin/page.tsx:83-84 | the collapse equals the character-by-character reading of the regular expression: the first character of each maximal run becomes one space, the rest of the run is dropped, and every other character is kept in place |
| AdminFormat.CollapseKeepsText | app/admin/page.tsx:83-84 | removing class characters and spaces, the output and the input are equal: the other characters are kept, in order |
| AdminFormat.CleanShape | app/admin/page.tsx:83-84 | the cleaned local part is trimmed, has single spaces and only characters of the input other than separators |
| AdminFormat.CapitalizeWordsPointwise | app/admin/page.tsx:86-89 | the first letter of each word is upper-cased and nothing else changes |
| AdminFormat.CapitalizeWordsCase | app/admin/page.tsx:86-89 | capitalising changes no letter but its case |
| AdminFormat.CapitalizeKeepsSpacing | app/admin/page.tsx:86-89 | capitalising keeps single spacing |
| AdminFormat.PrettyNameCases | app/admin/page.tsx:72-90 | never empty; a full name is used trimmed; no name and no e-mail is a dash |
| AdminFormat.PrettyNameFromEmail | app/admin/page.tsx:76-90 | without a name, the result is the e-mail or a capitalised, cleaned form of its local part without '@' or separators |
| Csv.CsvEscape | app/admin/page.tsx:131-135 | a field is wrapped in double quotes |
| Csv.RowFields | app/admin/page.tsx:157-170 | twelve fields per row |
| Csv.Records | app/admin/page.tsx:137-177 | the header then one record per row |
| Csv.BuildCsv | app/admin/page.tsx:137-177 | the loop builds the BOM and the lines joined by newlines |
| Csv.RecordsWidth | app/admin/page.tsx:138-170 | every record has the header's twelve fields |
| Csv.ParseRecords | app/admin/page.tsx:137-177 | a reader of the writer's output, quoted fields with doubled quotes and records separated by LF, used as partner to the writer |
| Csv.RecordsRoundTrip | app/admin/page.tsx:131-177 | reading the joined lines gives the records back |
| Csv.ExportReadsBack | app/admin/page.tsx:137-177 | the document starts with the BOM, and reads back as the header plus one record per row |
| Csv.DocumentBody | app/admin/page.tsx:176 | the document is the BOM followed by the lines joined by newlines |
| AdminPage.TotalPages | app/admin/page.tsx:209 | at least one page, and the pages cover the total with no empty last page |
| AdminPage.PrevPage | app/admin/page.tsx:703 | one page back, never below 0 |
| AdminPage.NextPage | app/admin/page.tsx:710 | one page forward, never past the last page |
| AdminPage.ButtonsStayInRange | app/admin/page.tsx:703-710 | the buttons keep the page in range |
| AdminPage.PagesShowAll | app/admin/page.tsx:206-209 | paging through all pages shows the whole listing |
| AdminPage.NoEmptyPage | app/admin/page.tsx:206-209 | every page of a non-empty listing has a row |
| AdminPage.AuthHeader | app/admin/page.tsx:229 | a header exactly for a non-empty token, carrying that token |
| AdminPage.ParamsFilters | app/admin/page.tsx:219-223 | the parameters reach the route as the search, status and offset the page has |
| AdminPage.AccessMatchesGate | app/admin/page.tsx:256-311 | the access probe admits exactly the sessions the list route's gate admits, and reports no session exactly for an unknown token |
| AdminPage.Chunks | app/admin/page.tsx:381-399 | the rows the export loop collects |
| AdminPage.Requests | app/admin/page.tsx:381 | the number of chunk requests covers the total |
| AdminPage.ChunksOfServedSize | app/admin/page.tsx:381-399 | when each request is served in full, the chunks are the consecutive pages |
| AdminPage.ExportLosesRows | app/admin/page.tsx:378 | as written: with more than 100 rows a 500-row chunk is cut to 100 by the route, so the export misses rows |
| AdminPage.ExportCorrectedIsComplete | app/admin/page.tsx:378 | with a chunk of 100 the export holds the whole listing |
| AdminPage.ListingSize | app/api/admin/referrals/list/route.ts:37-60 | the listing has as many rows as the filter keeps |
| AdminPage.ExportedColumnsBlank | app/admin/page.tsx:157-170 | every exported row has empty "Campaña", "Landing" and "Notas" fields, as the list route does not select them |
| AdminPage.AdminView.CheckAccess | app/admin/page.tsx:256-311 | access and token after the probe, and nothing else changes |
| AdminPage.AdminView.FetchRows | app/admin/page.tsx:211-254 | rows and total from the route's page, or an error with no rows |
| AdminPage.AdminView.GoPrev | app/admin/page.tsx:703 | the previous page |
| AdminPage.AdminView.GoNext | app/admin/page.tsx:710 | the next page within range |
| AdminPage.AdminView.UpdateStatus | app/admin/page.tsx:325-352 | the table changes as the route specifies; the list shows the new status on success, and the old rows and an error on failure |
| AdminPage.AdminView.Export | app/admin/page.tsx:354-415 | a document only for an admitted token, and it is the CSV of the chunks of the listing; otherwise an error, and with a token a missing document means the gate refused or a request failed |
| AdminPage.ExportCsv | app/admin/page.tsx:361-401 | the first request, the chunk loop and `buildCsv`, with no state; no document only when the gate refused or one of the requests failed |
| AdminPage.FetchChunks | app/admin/page.tsx:381-399 | the collected rows are the chunks of the listing, or a request failed |
| AdminPage.FirstGivesTotal | app/admin/page.tsx:365-377 | the first request's total is the listing's size |
| AdminPage.ChunkIsRange | app/admin/page.tsx:382-398 | each chunk request returns the listing's slice at its offset |
| AdminPage.ListFailCause | app/admin/page.tsx:393-396 | a failed request means the gate refused or the query failed |
| AdminPage.FetchedPage | app/admin/page.tsx:211-254 | the fetched page is the listing's slice at the page offset |
| TrackingStore.HasAnyIff | app/page.tsx:74-82 | a visit is tracked exactly when one of the six parameters is in the query with a non-empty value |
| TrackingStore.TrackingPayload | app/page.tsx:91-126 | the current path and referrer, and the stored first landing path and referrer when storage holds an entry |
| TrackingStore.PayloadPrecedence | app/page.tsx:113-119 | each campaign value comes from the URL when present, even empty, otherwise from storage, otherwise `null` |
| TrackingStore.FirstTouchKept | app/page.tsx:58-126 | later untracked visits keep the first visit's entry, and their payload carries its values |
| TrackingStore.EmptyParamMasksStored | app/page.tsx:113-119 | an empty parameter does not save but hides the stored value |
| TrackingStore.PayloadBody | app/referidos/app/page.tsx:326-333 | the payload members in the request body |
| TrackingStore.TrackingStorage.SaveFromUrl | app/page.tsx:58-89 | storage is written only for a tracked visit, and a failing `setItem` is ignored |
| PortalRegister.NormalizeEmailText | app/referidos/app/page.tsx:197-199 | trimmed, lower-cased, empty exactly for blank input |
| PortalRegister.NormalizeEmailTextIdempotent | app/referidos/app/page.tsx:197-199 | normalising twice is normalising once |
| PortalRegister.ClientIsEmailIsServer | app/referidos/app/page.tsx:186-195 | the portal's e-mail check accepts exactly the addresses the route accepts after normalisation |
| PortalRegister.ServerKeepsClientEmail | app/referidos/app/page.tsx:197-199 | the route's normalisation keeps the portal's normalised address |
| PortalRegister.SomeEmailAsWrittenSafe | app/referidos/app/page.tsx:281-283 | when every row has an e-mail, the duplicate test is the null-safe one |
| PortalRegister.SomeEmailAsWrittenThrows | app/referidos/app/page.tsx:281-283 | as written: a row without an e-mail makes the duplicate test throw unless an earlier row matches |
| PortalRegister.RowWithoutEmailThrows | app/referidos/app/page.tsx:281-283 | one row without an e-mail is enough to throw |
| PortalRegister.ValidateRegisterFields | app/referidos/app/page.tsx:271-301 | the errors are those of `RegisterErrors`, and the form is accepted exactly when there are none |
| PortalRegister.RegisterErrorsNone | app/referidos/app/page.tsx:271-301 | no error exactly for a non-blank name, a valid unregistered e-mail, a phone with nine digits not registered, and consent |
| PortalRegister.SubmitBody | app/referidos/app/page.tsx:326-333 | the request body carries the trimmed name, normalised e-mail and phone, the consent and the token |
| PortalRegister.AcceptedFormPassesServer | app/referidos/app/page.tsx:271-333 | a form the portal accepts passes the route's field checks |
| PortalRegister.Submit | app/referidos/app/page.tsx:303-353 | a request is sent exactly for an accepted form with a token; a missing token is its own message; success needs an ok reply; a failed reply has a message |
| PortalRegister.SubmittedTracking | app/referidos/app/page.tsx:326-333 | the route reads the tracking it is sent, cleaned to its limits |
| PortalRegister.PayloadMemberKept | app/referidos/app/page.tsx:326-333 | every tracking member reaches the request body unchanged |
| AuthCallback.EncodeComponent | app/auth/callback/CallbackClient.tsx:58-62 | `encodeURIComponent`: only unreserved characters and '%' remain, and text needing no escape is unchanged |
| AuthCallback.SafeNextAsWritten | app/auth/callback/CallbackClient.tsx:12-14 | as written: any `next` beginning with '/' is taken, otherwise the portal |
| AuthCallback.SafeNextOpenRedirect | app/auth/callback/CallbackClient.tsx:12-14 | as written: `//evil.example` passes and leaves the site |
| AuthCallback.SafeNext | app/auth/callback/CallbackClient.tsx:12-14 | a path that stays on the site is taken, anything else is the portal |
| AuthCallback.SafeNextAgrees | app/auth/callback/CallbackClient.tsx:12-14 | both agree on every destination that stays on the site |
| AuthCallback.LoginError | app/auth/callback/CallbackClient.tsx:58-62 | every error goes to the login page |
| AuthCallback.Run | app/auth/callback/CallbackClient.tsx:19-62 | the destination is `next` or the login page |
| AuthCallback.CodeDecides | app/auth/callback/CallbackClient.tsx:19-30 | with a code, only the exchange decides |
| AuthCallback.NoCodeOrder | app/auth/callback/CallbackClient.tsx:34-58 | without a code, the URL session is tried, then an existing session, then `missing_code` |
| AuthCallback.CallbackStaysOnSite | app/auth/callback/CallbackClient.tsx:12-62 | with the checked `next` the page never leaves the site |
| AuthCallback.CallbackOpenRedirect | app/auth/callback/CallbackClient.tsx:12-30 | as written: wherever `CallbackClient` is mounted, `next=//evil.example` after a successful code exchange ends on another site |
| AdminLogin.NormalizedEmail | app/admin/login/page.tsx:45-46 | empty exactly for a blank address |
| AdminLogin.BlankEmailStops | app/admin/login/page.tsx:45-48 | a blank address is stopped before any call |
| AdminLogin.ForgotNeedsNoPassword | app/admin/login/page.tsx:50-59 | forgot mode sends one reset request to the reset page and, on success, returns to login mode |
| AdminLogin.LoginNeedsPassword | app/admin/login/page.tsx:62 | an empty password is stopped before signing in |
| AdminLogin.SignInOnlyWhenComplete | app/admin/login/page.tsx:62-71 | a sign-in needs login mode, an address and a password, and the page navigates only after one succeeded |
| AdminLogin.LoadingCleared | app/admin/login/page.tsx:72-76 | `loading` is false after every submit that got past the address check |
| AdminLogin.MountAgreesWithAdminPage | app/admin/login/page.tsx:14-39 | the login page forwards exactly the sessions the admin page admits |
| AdminLogin.LoginPage.Mount | app/admin/login/page.tsx:14-39 | the mount effect navigates only when the probe admits the session |
| AdminLogin.LoginPage.Submit | app/admin/login/page.tsx:41-77 | the submit handler, step by step, gives `AfterSubmit` |
| AdminLogin.LoginPage.ShowForgot | app/admin/login/page.tsx:116-117 | forgot mode, error cleared |
| AdminLogin.LoginPage.ShowLogin | app/admin/login/page.tsx:140-141 | login mode, error cleared |
| ResetPassword.GateError | app/admin/reset-password/page.tsx:40-42 | no gate fails exactly with a session, at least eight characters and a matching confirmation |
| ResetPassword.GateOrder | app/admin/reset-password/page.tsx:37-42 | no session is reported first, then a short password, then a mismatch, and nothing is called |
| ResetPassword.UpdateOnlyPastGates | app/admin/reset-password/page.tsx:44-57 | the password is changed exactly when every gate passes, and `loading` is cleared |
| ResetPassword.SignOutBeforeRedirect | app/admin/reset-password/page.tsx:49-55 | success signs out before the scheduled move to the login page; failure does neither |
| ResetPassword.ResetPage.Mount | app/admin/reset-password/page.tsx:21-33 | the mount effect records whether a session exists |
| ResetPassword.ResetPage.Submit | app/admin/reset-password/page.tsx:35-59 | the submit handler, step by step, gives `AfterSubmit` |

## Left out

- Network, I/O and the clock. Every backend answer, `Date.now()`, `fetch`, `localStorage`, `window.location` and `document.referrer` is a parameter, and page navigation is a recorded field.
- The Supabase and Resend clients. The database is an in-memory table; row-level security and the PKCE/OTP mechanics are not modelled.
- Concurrency: the two duplicate queries, run with `Promise.all`, are made sequential (the e-mail check first), and a race between the duplicate check and the insert goes only through the insert-error classifier.
- The `try`/`catch` that turns an unexpected exception into a 500 "Error inesperado." is modelled only where an error is expected: a body that is not JSON, and the callback's thrown values.
- Number parsing of `limit` and `offset` (`Number("x")` is NaN): the parameters are `Option<int>`.
- `AdminList.List`: the search is the intended containment (`Filter`, `MatchesQuery`). The search as written is `MatchesQueryAsWritten`, equal to it by `QueryAgrees` for searches without `_`, `*` or `\`; `Listing`, `FetchedPage` and `Export` inherit the intended search.
- `AdminList.List`: PostgREST's parsing of the `or` filter is not modelled. A search containing `,`, `(` or `)` can break the filter text; the model treats the search as text.
- `AdminList.List`: the 416 the database returns for an offset past the end is modelled as an empty page.
- `AdminList.SortNewestFirst`: rows with the same `created_at` may come back in any order; the model fixes one order.
- `AdminUpdateStatus.UpdateStatus`: the row the route returns holds every column, where the route selects eight; the page ignores that row.
- `AdminList.Selected` keeps the `consent` column, which the route does not select; nothing reads it from the list.
- Locale date formatting (`formatDate`, `formatDateTimeForCsv`, the file-name stamp) is the parameter `fmt`.
- Characters outside the Basic Multilingual Plane: a Dafny `char` is a Unicode scalar value, while JavaScript counts UTF-16 code units. The model counts and cuts by scalar values, so it is exact only on text inside the Basic Multilingual Plane. Outside it, `Fnv.Hash` folds one value where `charCodeAt` gives two surrogates, `ResetPassword.GateError` counts "😀😀😀😀" as 4 characters where the page counts 8, and `Take` and `PadStart` cut and pad by scalar values. `encodeURIComponent`'s `URIError` on a lone surrogate cannot arise, as a `char` is never one.
- `toLowerCase` and `toUpperCase` are modelled on ASCII letters only; other letters keep their case.
- `JSON.parse` of stored tracking that throws is the same as an empty slot (`None`).
- In the portal, loading the referrer's own rows and the claim call are not modelled: the rows are a parameter. The reload after a successful submit, the show-password toggles, `alert` and the `setTimeout` delays are UI.
- The HTML mail templates are text; the model keeps the subject, the recipients and the escaped values.
- `components/AccessByEmailModal.tsx` and `app/admin/forgot-password/page.tsx` are not part of this model: each wraps one library call.
- `app/auth/callback/page.tsx` is not part of this model. It is the page served at `/auth/callback`, the target of the sign-in link (`components/AccessByEmailModal.tsx:61`). It does not render `CallbackClient` and never reads `next`: it exchanges the code, if there is one, and always replaces the location with `/referidos/app` (lines 11-22). The `AuthCallback` module models `CallbackClient`, which no file of the application mounts.
- `ResetPassword.ResetPage.Submit`: a failing `signOut` is not modelled; the sign-out is recorded as a call.
- `pushDataLayer` (Google Tag Manager events) and `downloadTextFile` are not modelled; `Export` returns the document instead of downloading it.

## Findings

| source | as written | input that shows it | evidently intended | confidence | as-written member | corrected member |
|---|---|---|---|---|---|---|
| app/api/admin/referrals/list/route.ts:47-51 | only `%` is escaped before the search goes into `ilike`, so `_` stays a one-character wildcard | the search "a_c" lists a row whose referred name is "abc" | the search matches rows that contain the text, ignoring case | not executed | AdminList.UnderscoreIsWildcard | AdminList.Filter |
| app/api/admin/referrals/list/route.ts:47-51 | `*` is not escaped either, and PostgREST reads it in an `ilike` value as `%` | the search "a*c" lists a row whose referred name is "abbc" | the search matches rows that contain the text, ignoring case | not executed | AdminList.StarIsWildcard | AdminList.Filter |
| app/admin/page.tsx:378 | the export asks for 500 rows per request while the list route serves at most 100 (list/route.ts:9) | 150 matching rows: one request at offset 0 returns 100 rows and the loop stops, so 50 rows are missing | the export holds every matching row | not executed | AdminPage.ExportLosesRows | AdminPage.ExportCorrectedIsComplete |
| app/auth/callback/CallbackClient.tsx:12-14 | any `next` starting with '/' is accepted | wherever `CallbackClient` is mounted, `next=//evil.example` after a successful code exchange sends the browser to evil.example; no file of the application renders the component, and the page served at `/auth/callback` ignores `next` | only same-site paths are followed | not executed | AuthCallback.CallbackOpenRedirect | AuthCallback.CallbackStaysOnSite |
| app/referidos/app/page.tsx:281-283 | the duplicate-e-mail test calls `normalizeEmail(r.referred_email)`, which throws on `null` | a loaded row with no referred e-mail (the route allows it) and a new e-mail that matches no earlier row: `validateRegisterFields` throws and the form is never sent | rows without an e-mail are not duplicates | not executed | PortalRegister.SomeEmailAsWrittenThrows | PortalRegister.ValidateRegisterFields |
