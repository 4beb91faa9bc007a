# TiMint core in Dafny

TiMint is a web application that registers teenage founders' startups. A
founder registers with a guardian's details. The guardian approves the
account by e-mail. The founder uploads a selfie and an identity document, and
an administrator approves or rejects them. Approval pins a record to IPFS and
mints a `TMIT-` ownership token. A verified startup can then issue
domain-locked badge tokens for embedding on its own site.

This project models the server core of that flow:

- the token helpers (`TMIT-` tokens, `TMT-` ids, the HMAC registration
  signature, the guardian token);
- the badge JWT helpers;
- the form rules;
- eight API routes: register, send-parent-email, upload-documents,
  admin/approve-kyc, admin/kyc-review, blockchain/register,
  badge/generate-token and badge/verify.

The hosted database, auth service and storage bucket form one immutable
`Store` value (`store.dfy`). Each route is a pure function from a store and
the answers of its collaborators to an `Outcome`, which holds three things:

- the new store;
- the HTTP reply (success body, or status and error message);
- the calls the route made, in order.

Hashing, HMAC, the JWT library, the URL parser, the e-mail syntax check and
link signing are function-valued parameters. Clock readings and random bytes
are parameters, and so is each collaborator's success or failure.

Where the documented behaviour and the code differ, the model follows the
code:

- approval does not check that the account is under review;
- the upload route does not check the guardian's approval;
- the guardian token is created by the mail route, which registration
  requests, not by registration itself;
- a token minted from an IPFS CID usually fails `isValidTokenFormat`
  (`Token.CidTokenRejected`).

Tables are sequences of rows, so `.single()` can be modelled exactly: it
yields a row only when exactly one row matches. With two document rows for
one account, the approve and reject actions delete nothing. Two uploads
before a decision produce those two rows (`ApproveRoute.DuplicateDocumentsSurvive`,
`UploadRoute.SecondUploadAddsRow`).

## Model

| member | source | states |
|---|---|---|
| Common.OrElse | src/app/api/badge/generate-token/route.ts:50 | JavaScript's `or` on a setting: the value when set and non-empty, the fallback otherwise, and never empty when the fallback is not |
| Token.GenerateTMITToken | src/lib/blockchain/token.ts:19-38 | the token starts `TMIT-<timestamp>-` (the clock replaces a zero timestamp) and has at most 8 more characters; without a transaction hash it has exactly 8 upper-case hex characters |
| Token.ValidTokenFormatOf | src/lib/blockchain/token.ts:51-54 | a token-shaped string passes the format check exactly when the timestamp part is 13 digits and the suffix is 8 characters of `[A-F0-9]` |
| Token.TxHashTokenValidity | src/lib/blockchain/token.ts:19-25 | with a transaction hash, the token is well-formed exactly when the timestamp has 13 digits and the hash has 8 hex digits at positions 2..10 |
| Token.FallbackTokenValid | src/lib/blockchain/token.ts:26-37 | on the hash fallback, any 13-digit timestamp gives a well-formed token |
| Token.FallbackSuffix | src/lib/blockchain/token.ts:28-36 | the fallback suffix is the upper-cased first 8 hex digits of SHA-256 of `company:user:timestamp`, with the timestamp the token shows |
| Token.TokenTimestampReadable | src/lib/blockchain/token.ts:20-36 | the digits after `TMIT-` read back as the timestamp used |
| Token.CidTokenRejected | src/lib/blockchain/token.ts:22-25 | a token made from a base58 CID with a non-hex letter at positions 2..10 fails the format check |
| Token.GenerateVerificationId | src/lib/blockchain/token.ts:44-46 | the id is `TMT-` followed by the upper-cased first (up to) 8 characters of the startup id |
| Token.VerificationIdOfUuid | src/lib/blockchain/token.ts:44-46 | for a UUID the id is 12 characters ending in 8 upper-case hex digits |
| Token.SigningKey | src/lib/blockchain/token.ts:65 | the key is the environment's when set and non-empty, and the default key when unset or empty; never empty |
| Token.PayloadRoundTrip | src/lib/blockchain/token.ts:67-72 | the signed JSON payload parses back to the registration data it was made from, so different data never share a payload |
| Token.PayloadInjective | src/lib/blockchain/token.ts:67-72 | two registrations with the same payload are equal |
| Token.VerifyRegistrationSignature | src/lib/blockchain/token.ts:83-97 | the check throws exactly when the signature is not 64 UTF-8 bytes, and answers true exactly for the signature the same data and key produce |
| Token.SignatureRoundTrip | src/lib/blockchain/token.ts:59-97 | a freshly created signature verifies |
| Token.GenerateVerificationToken | src/lib/blockchain/token.ts:102-104 | the guardian token is 64 lower-case hex digits that decode back to the 32 random bytes |
| Hex.HexRoundTrip | src/lib/blockchain/token.ts:103 | hex decoding inverts hex encoding |
| Hex.Utf8MatchesAsciiOnlyItself | src/lib/blockchain/token.ts:93-96 | a string whose UTF-8 bytes equal those of an ASCII string is that string |
| Text.ParseIntDecimal | src/app/api/register/route.ts:37 | `parseInt` of a decimal numeral followed by a non-digit reads the number |
| Text.Extension | src/app/api/upload-documents/route.ts:30 | the extension is a dot-free suffix of the file name, preceded by a dot unless it is the whole name |
| Validations.ParseRender | src/lib/validations.ts:16-17 | every well-formed phone number (optional `+`, optional brackets, 3, 3 and 4-6 digits, optional `-`, `.` or white-space separators) is accepted and parsed into its parts |
| Validations.RenderParse | src/lib/validations.ts:16-17 | every accepted phone number is the rendering of the well-formed parts it parsed into |
| Validations.PhoneLanguage | src/lib/validations.ts:16-17 | a phone number is accepted exactly when some well-formed parts render to it |
| Validations.PhoneDigitCount | src/lib/validations.ts:16-17 | an accepted phone number has 10 to 12 digits |
| Validations.FieldIssues | src/lib/validations.ts:3-42 | a field's issues are all about that field, and there are none exactly when the field satisfies its rule |
| Validations.RegistrationIssues | src/lib/validations.ts:3-42 | a field is named in the issues exactly when it breaks its rule, and there are no issues exactly when the whole form is accepted |
| Validations.LoginIssues | src/lib/validations.ts:46-49 | the login form is accepted exactly when the e-mail is valid and the password non-empty; an empty password is reported as "Password required" |
| Domain.DomainPattern | src/app/api/badge/generate-token/route.ts:14-15 | the domain check accepts exactly an alphanumeric name with single `-`/`.` separators, then a dot, then at least two letters to the end |
| Domain.LowerKeepsVerdict | src/app/api/badge/generate-token/route.ts:43-47 | the check is case-insensitive: lower-casing a domain does not change its verdict |
| BadgeJwt.Secret | src/lib/badge/jwt.ts:4 | the secret is the environment's when set and non-empty, else the default |
| BadgeJwt.VerifyBadgeToken | src/lib/badge/jwt.ts:30-38 | the claims are returned exactly when the token opens with the secret and is not past its expiry |
| BadgeJwt.BadgeRoundTrip | src/lib/badge/jwt.ts:18-38 | a fresh badge token opens to its three ids for exactly 365 days, in whole seconds of the issuing clock |
| BadgeJwt.BadgeExpires | src/lib/badge/jwt.ts:18-24 | once 365 days of milliseconds have passed the token is refused |
| BadgeJwt.HostMatchesSuffix | src/lib/badge/jwt.ts:59-61 | a host ending in the domain matches exactly when nothing or a dot precedes the domain |
| BadgeJwt.HostMatchesOnlySuffix | src/lib/badge/jwt.ts:59-61 | only hosts ending in the domain match |
| BadgeJwt.IsTokenValidForDomain | src/lib/badge/jwt.ts:43-74 | an invalid token is refused; an absent or empty referer is accepted; otherwise the verdict is valid exactly when the referer parses and its host matches the token's domain; an unparseable referer is refused with the invalid-referer message, and a host mismatch with the message naming the domain and the host; a refusal always carries a message |
| BadgeJwt.DomainLock | src/lib/badge/jwt.ts:43-74 | a live token on host `prefix + domain` is accepted exactly when the prefix is empty or ends in a dot, and is otherwise refused naming both domains |
| BadgeJwt.ExampleHosts | src/lib/badge/jwt.ts:59-61 | `shop.example.com` matches `example.com`; `notexample.com` does not |
| Store.Single | src/app/api/admin/approve-kyc/route.ts:22-26 | `.single()` yields a row exactly when one row matches, and then it is that row |
| Store.DeleteAppended | src/app/api/register/route.ts:88-92 | deleting exactly the rows just appended restores the table |
| RegisterRoute.Register | src/app/api/register/route.ts:20-114 | the missing-field gate changes nothing and calls nothing; success exactly when all fields are present, the account is created and both inserts succeed; success adds exactly the account, the user row and the startup row; a failure after account creation removes the account; the guardian mail is requested exactly on success |
| RegisterRoute.RegisterFailureLeavesNoTrace | src/app/api/register/route.ts:69-97 | on a consistent store, any failed registration leaves the store exactly as it was |
| RegisterRoute.RegisterSuccessRows | src/app/api/register/route.ts:56-114 | registration keeps every row linked to an account, and success leaves exactly one user row and one startup row for the new account |
| RegisterRoute.RegisterStoresAnyAge | src/app/api/register/route.ts:56-67 | any decimal age, in range or not, is accepted and stored as the number `parseInt` reads |
| ParentEmailRoute.VerificationUrl | src/app/api/send-parent-email/route.ts:64 | the link starts with the site (or the local default) and ends with `/verify-parent/<token>` |
| ParentEmailRoute.SendParentEmail | src/app/api/send-parent-email/route.ts:12-98 | without an API key nothing happens; a missing user is a 404 with no call; a missing startup is a 404 with no change or call; a failed insert is a 500 after the one insert call, with the store unchanged; once the insert succeeds the token row is stored and exactly the insert and the mail to the guardian are made, and a send error is a 500 with its detail and the row kept; success exactly when the user and startup exist and the insert and send succeed, replying with the guardian address; the store gains at most the one token row; mail goes only to the guardian with the token link; a send failure is reported with its detail |
| ParentEmailRoute.MailedTokenIsStored | src/app/api/send-parent-email/route.ts:44-85 | every mailed link ends in the token, and that token was stored for the same account, before the mail, expiring 24 hours after creation |
| ParentEmailRoute.RegisterThenMail | src/app/api/register/route.ts:99-105 | right after a successful registration, the mail route finds the account and startup and mails the guardian address given at registration |
| UploadRoute.Validate | src/app/api/upload-documents/route.ts:11-25 | a request passes exactly when the user id and both files are present, both are JPEG or PNG, and both are at most 5 MiB; otherwise it is a 400 |
| UploadRoute.UploadDocuments | src/app/api/upload-documents/route.ts:11-88 | a failed check changes nothing; a failed selfie upload, document upload or row insert is a 500 with its own message; any failure leaves the store as it was (compensating removals included); success exactly when both uploads go to free paths and the insert succeeds, and then adds both files and one row and puts the account under review, with no guardian check |
| UploadRoute.UploadPathsDistinct | src/app/api/upload-documents/route.ts:29-47 | the selfie and document paths of one request never coincide |
| UploadRoute.SizeLimitInclusive | src/app/api/upload-documents/route.ts:22-25 | exactly 5 MiB is accepted, one byte more is refused |
| UploadRoute.UploadKeepsDocumentsStored | src/app/api/upload-documents/route.ts:29-88 | every document row names files present in the bucket, before and after the route |
| UploadRoute.SecondUploadAddsRow | src/app/api/upload-documents/route.ts:63-70 | a successful upload adds one document row for the account, however many it already had |
| ApproveRoute.Purge | src/app/api/admin/approve-kyc/route.ts:22-39 | with exactly one document row, its two files and the account's rows are deleted and nothing else; otherwise nothing changes |
| ApproveRoute.PurgeIdempotent | src/app/api/admin/approve-kyc/route.ts:74-92 | deleting the documents twice deletes nothing more |
| ApproveRoute.DuplicateDocumentsSurvive | src/app/api/admin/approve-kyc/route.ts:22-45 | with two or more document rows, a rejection deletes no row or file yet marks the account rejected |
| ApproveRoute.ApproveKyc | src/app/api/admin/approve-kyc/route.ts:14-169 | a missing field or unknown action is a 400 with no change; a missing user or startup on approval is a 404 before any deletion; success exactly on a rejection or an approval with user, startup and pin, whatever the prior status; an approval whose pin fails is a 500 with the pin's message, leaving the documents deleted and the status and startup untouched; approval marks the account verified and its startups verified with the CID and the token minted from it |
| ApproveRoute.ApproveDeletesBeforePin | src/app/api/admin/approve-kyc/route.ts:73-103 | on approval the files and the row are deleted before the pin call |
| ApproveRoute.ApprovedTokenFromCid | src/app/api/admin/approve-kyc/route.ts:107-113 | the approval token is `TMIT-<clock>-` followed by CID characters 2..10, upper-cased |
| ChainRegisterRoute.ChainRegister | src/app/api/blockchain/register/route.ts:10-84 | missing fields are a 400, an unknown user a 404, an account not fully verified a 403, all with no change or call; a failed update is a 500 with the store unchanged; success exactly when the update succeeds, with or without a CID; only startup rows of that account and company name change; the signature handed to `pinToIPFS` covers the company, user, guardian and timestamp |
| ChainRegisterRoute.PinnedSignatureVerifies | src/app/api/blockchain/register/route.ts:31-58 | the signature handed to `pinToIPFS` for a verified account verifies against the registration data signed for the request |
| ChainRegisterRoute.TokenAndSignatureAgree | src/app/api/blockchain/register/route.ts:31-46 | the minted token's digits read back as the timestamp in the signed data; a 13-digit clock gives a well-formed token |
| ChainRegisterRoute.UnknownCompanyStillSucceeds | src/app/api/blockchain/register/route.ts:65-84 | a company name the account does not have changes no row and still succeeds |
| KycReviewRoute.SortNewestFirst | src/app/api/admin/kyc-review/route.ts:18 | the result is ordered by creation time, newest first, and is a permutation of its input |
| KycReviewRoute.KycReview | src/app/api/admin/kyc-review/route.ts:9-52 | nothing is written; a query error is a 500; otherwise the listed accounts are exactly those under review with guardian approval, newest first, each with its startups, its document rows, and links to the first row's files (none when it has no row) |
| BadgeGenerateRoute.GenerateToken | src/app/api/badge/generate-token/route.ts:9-59 | nothing is written; a missing domain and a malformed domain are 400s, no session is a 401, and no single verified startup is a 404; success exactly for a non-empty, well-formed domain, a signed-in user and exactly one verified startup; the token signs the lower-cased domain; the embed code links to the badge page with the token |
| BadgeGenerateRoute.IssuedDomainValid | src/app/api/badge/generate-token/route.ts:13-47 | the lower-cased domain inside an issued token itself passes the domain check |
| BadgeVerifyRoute.VerifyBadge | src/app/api/badge/verify/route.ts:9-59 | nothing is written; a missing token is a 400; a failed domain check is a 403 with its message; a failed second token check is a 403; a token whose startup is missing or no longer verified is a 404; success exactly when both token checks pass and the startup is the one row with its id and verified, replying with the token's ids and domain and the company name |
| BadgeVerifyRoute.SecondCheckRedundant | src/app/api/badge/verify/route.ts:30-37 | if the clock has not moved to a later second, the second token check never causes the refusal |
| BadgeVerifyRoute.LiveTokenConfirmed | src/app/api/badge/verify/route.ts:17-59 | a live token shown on its domain or a subdomain, for a still-verified startup, is confirmed with its ids and domain |
| BadgeVerifyRoute.IssuedBadgeConfirmed | src/app/api/badge/generate-token/route.ts:43-59 | a badge from the generate route, shown within the year on a page of its domain, is confirmed by the verify route |

## Left out

- Network, database and mail I/O: each collaborator's answer is a parameter. Logging is dropped.
- Each route's outer `catch`, apart from the pin failure in approval, which does reach the reply. The modelled operations have no other throwing step.
- Collaborator calls whose error the route ignores are modelled as succeeding. These are the storage removals, row deletes, status updates, the auth-account delete, and the approval e-mail.
- The request that registration sends to the mail route is recorded as a call. Its effect is the mail route, composed in `ParentEmailRoute.RegisterThenMail`.
- The approval e-mail is addressed to `user.email`. The `users` table has no such column, so the call is recorded with no recipient.
- The e-mail templates, the HTML of e-mails, and the JSON pinned to IPFS. The `PinToIpfs` call records the `signature` argument handed to `pinToIPFS`. The pinned JSON leaves that signature out: it holds only the name, company, timestamp, registration date and registry.
- Text.ParseIntDecimal: reads the numeral as an unbounded integer, while JavaScript's `parseInt` returns a double and loses precision above 2^53.
- Non-string JSON values in request bodies, for example a numeric `age`. Fields are strings or missing.
- `setHours(getHours() + 24)` is modelled as adding 24 hours of milliseconds. Daylight-saving shifts are left out.
- Row defaults and ids generated by the database (ids, `created_at`) are parameters.
- The guardian approval route (`verify-parent`) and the certificate route are not part of this model. Neither is the client-side `validateStep`.
- `getFromIPFS`, `generateIPFSUrl` and `isPinataConfigured` are not used by the modelled routes.
- The SHA-256, HMAC and JWT algorithms are parameters with the laws the code relies on. The laws are 64 lower-case hex digits per digest, and that a signed token is non-empty and opens to its claims.
- The URL parser's `hostname` is a parameter. The e-mail syntax check and `createSignedUrl` are parameters too.
- `Text.Lower` and `Text.Upper` cover ASCII letters only, and `Text.Slice` counts characters, where JavaScript's `slice` counts UTF-16 code units. The domains that pass the badge check are ASCII, so the badge routes are unaffected.
- Token.GenerateVerificationId: does not model JavaScript's full Unicode `toUpperCase` (`'ß'` becomes `"SS"`, changing the length) or UTF-16 slicing. The id matches the source for ASCII startup ids, which covers the database's UUIDs.
- Token.GenerateTMITToken: the same gap for the transaction-hash slice. The token matches the source for ASCII hashes, which covers hex hashes and base58 CIDs.
- Every database call is made against one unrestricted `Store`. The source uses the service-role client in register and admin/approve-kyc. The other six routes use the cookie-bound client, which runs under the database's row-level security policies. Those policies are not part of this model.
- ParentEmailRoute.RegisterThenMail: holds only under that single-store view. Registration calls the mail route with a server-side `fetch` that carries no session cookie, so whether the mail route's reads succeed then depends on the row-level security policies.
- `KycReviewRoute.SortNewestFirst` keeps table order among rows created at the same time. The service does not promise any particular order for such ties.
