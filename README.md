# Badminton booking system: a verified model of its decision logic

The system is a web application for booking badminton courts with Indonesian venues. It is built on Next.js and Supabase, and takes payments through Xendit. Around the bookings it offers:

- match rooms, where players take court slots and review each other afterwards;
- communities, with chat, direct messages, reactions and "play together" sessions;
- coaches, a small shop with a newsletter, moderation reports and an admin area;
- partner onboarding for venues;
- two password-reset flows.

The repository also ships three maintenance scripts:

- `fix_cursor.py` and `fix_cursor_v2.py` rewrite an SVG cursor;
- `scripts/fix-lucide-imports.js` rewrites icon imports.

This project models the decision logic of all of these as Dafny functions, methods and classes, and proves what each promises.

## How the model is built

- **One module per source file.** For example, `PaymentsService` models `src/lib/payments/service.ts`. Five helper modules are shared:
  - `Wrappers` (Option and Result);
  - `Strings` (the JavaScript string operations used: trim, case mapping, `includes`, `indexOf`, `split`, `replace`, `<`);
  - `JsValues` (untyped JavaScript values and numbers);
  - `Arith`;
  - `Http`.

  `Utf8` and `Base64` model the byte encodings behind `Buffer`.
- **Tables and services become values.**
  - A Supabase table is a `map` or `seq`.
  - A query becomes an input: the row it returns, or the error it reports.
  - A write becomes either part of the result or an assignment to a class field.
  - The Xendit API, Resend e-mails, the rate limiter and the clock are inputs in the same way.
- **Each source file keeps its own form.**
  - Code that updates state in place becomes a `class` whose methods have `modifies` clauses. This covers React component state, the token, report and shop tables, the webhook log, and the scripts' file systems.
  - Loops become `while` loops with invariants: the Xendit retry loop, slot generation, the overlap check, reaction grouping and the import rewriter.
  - Guard chains and mappings become functions.
- **Numbers and text.**
  - A JavaScript number is a real, or NaN, or an infinity.
  - Times are integers: milliseconds since the epoch, or hours and minutes.
  - Dates are `YYYY-MM-DD` strings and are compared the way JavaScript compares strings.

## Model

| member | source | states |
|---|---|---|
| FixCursor.ReplaceAllAbsent | fix_cursor.py:8 | `str.replace` leaves a line without the pattern unchanged |
| FixCursor.ReplaceAllRemoves | fix_cursor.py:8 | after replacing `width="100%"` by a replacement that cannot recreate it, no occurrence of the pattern is left anywhere in the line |
| FixCursor.ReplaceAllInserts | fix_cursor.py:8 | when the line held the pattern, the result contains the replacement |
| FixCursor.Size32Safe | fix_cursor.py:8 | the 32px size string cannot recreate `width="100%"`, so the removal lemma applies to it |
| FixCursor.FixHeaderEffect | fix_cursor.py:7-8 | a header with the token ends with no token and the pixel size present; a header without it is untouched |
| FixCursor.FixHeaderIdempotent | fix_cursor.py:7-8 | fixing the header twice is the same as fixing it once |
| FixCursor.RewriteShape | fix_cursor.py:10-12 | the output is `lines[0:2] + lines[11:]` with line 1 fixed: n - 9 lines for n >= 11 and 2 below, line 0 kept, output line i is input line i + 9 for i >= 2 |
| FixCursor.Rewrite | fix_cursor.py:10-12 | n - 9 lines for n >= 11 and 2 below; line 0 is kept and output line k is input line k + 9 for k >= 2 |
| FixCursor.RewriteIgnoresStrippedLines | fix_cursor.py:10-12 | two inputs that differ only in lines 2..10 give the same output |
| FixCursor.RewriteTwice | fix_cursor.py:7-12 | the rewrite is not idempotent: a second run keeps the header but drops input lines 11..19 as well |
| FixCursor.ScriptEffectSpec | fix_cursor.py:2-15 | the run succeeds iff the file exists, has two lines and can be written; a failure leaves the file system unchanged; a success rewrites only the cursor file |
| FixCursor.ScriptEffect | fix_cursor.py:2-15 | a failed run leaves the file system as it was; no run adds or removes a file |
| FixCursor.RunScript | fix_cursor.py:2-15 | the imperative script (lines into an array, line 1 fixed in place, slice, overwrite) has exactly the result and file system of `ScriptEffect` |
| FixCursorV2.Size48Safe | fix_cursor_v2.py:11 | the 48px size string cannot recreate `width="100%"` |
| FixCursorV2.SourceIsNotTarget | fix_cursor_v2.py:3-4 | the file read and the file written are different paths |
| FixCursorV2.DeletionIsBestEffort | fix_cursor_v2.py:17-24 | the outcome and the target's new content do not depend on whether `os.remove` succeeds; on success the target holds the rewritten source |
| FixCursorV2.ScriptEffectSpec | fix_cursor_v2.py:6-24 | failures (missing source, fewer than two lines, unwritable target) change nothing; a success changes only the target and, if the delete succeeds, removes the source |
| FixCursorV2.ScriptEffect | fix_cursor_v2.py:6-24 | a failed run leaves the file system as it was; the only file a run can add is the target, and a success leaves the target present |
| FixCursorV2.RunScript | fix_cursor_v2.py:6-24 | the imperative script has exactly the result and file system of `ScriptEffect` |
| FixCursor.FileSystem.constructor | fix_cursor.py:2-15 | the given files |
| FixLucideImports.ToKebabCase | scripts/fix-lucide-imports.js:13-18 | the kebab name has no capital letter (both regular-expression passes, then lower case) |
| FixLucideImports.Pass1 | scripts/fix-lucide-imports.js:15 | `/([a-z0-9])([A-Z])/g` replaced by `$1-$2`: the text keeps its length or grows, by at most one dash per character |
| FixLucideImports.Pass2 | scripts/fix-lucide-imports.js:16 | `/([A-Z])([A-Z][a-z])/g` replaced by `$1-$2`: the text keeps its length or grows, by at most one dash per character |
| FixLucideImports.ScansKeepOut | scripts/fix-lucide-imports.js:15-16 | the two `replace` passes add only dashes: a character other than `-` that the name lacks stays absent |
| FixLucideImports.KebabOnlyAddsDashes | scripts/fix-lucide-imports.js:13-18 | taking every `-` out of the kebab name gives the lower-cased name with its own dashes taken out |
| FixLucideImports.KebabKeepsOut | scripts/fix-lucide-imports.js:13-18 | a non-letter, non-dash character absent from the name is absent from its kebab form |
| FixLucideImports.Pass1Words | scripts/fix-lucide-imports.js:15 | on capitalised words (`ArrowRight`) the first pass puts a `-` between each two |
| FixLucideImports.Pass2Words | scripts/fix-lucide-imports.js:16 | the second pass leaves dash-separated capitalised words alone |
| FixLucideImports.KebabOfWords | scripts/fix-lucide-imports.js:13-18 | the kebab name of capitalised words (`ArrowRight`, `Loader2`) is the lower-cased words joined with `-` |
| FixLucideImports.KebabOfAcronym | scripts/fix-lucide-imports.js:16-17 | a capital before a capitalised word (the `X` of `XCircle`) is split off by the second pass: `x-circle` |
| FixLucideImports.ParseIcons | scripts/fix-lucide-imports.js:36-47 | one icon per trimmed non-empty comma piece, in order, each parsed by the `as` split |
| FixLucideImports.Pieces | scripts/fix-lucide-imports.js:37-39 | the kept pieces are non-empty, start and end with a non-space, and are no more than the parts |
| FixLucideImports.FirstAsSep | scripts/fix-lucide-imports.js:42 | the leftmost match of `/\s+as\s+/` from a position: a real separator, with none starting earlier |
| FixLucideImports.ParseIcon | scripts/fix-lucide-imports.js:42-46 | the name and the alias come out trimmed, and there is an alias iff the piece holds a `\s+as\s+` separator |
| FixLucideImports.ParseIconPlain | scripts/fix-lucide-imports.js:42-46 | a name without white space parses as itself with no alias |
| FixLucideImports.ParseIconAlias | scripts/fix-lucide-imports.js:42-46 | `X as Y` (no white space in X or Y) parses into name X and alias Y |
| FixLucideImports.ParseIconsOfNames | scripts/fix-lucide-imports.js:36-47 | a comma-joined list of plain names parses into exactly those icons, in order |
| FixLucideImports.ParsedIconsClean | scripts/fix-lucide-imports.js:36-47 | every parsed icon has a non-empty name, and neither name nor alias holds a `,` |
| FixLucideImports.ImportName | scripts/fix-lucide-imports.js:52 | `X as Y` when the alias is present and non-empty, else the name |
| FixLucideImports.ImportNameReparses | scripts/fix-lucide-imports.js:42-52 | the name written into an import parses back to the same icon (round trip) |
| FixLucideImports.DirectImport | scripts/fix-lucide-imports.js:50-53 | the line starts `import { <name> } from ` and ends with the icons path, the kebab name and a quote |
| FixLucideImports.DirectImportOneLine | scripts/fix-lucide-imports.js:53 | a direct import is one line when the names hold no line break |
| FixLucideImports.OneImportPerIcon | scripts/fix-lucide-imports.js:50-54 | splitting the joined direct imports on line breaks gives exactly one import per icon, in order |
| FixLucideImports.GroupAfterClean | scripts/fix-lucide-imports.js:25 | the icon list captured by `([^}]+)` holds no `}` |
| FixLucideImports.ImportAt | scripts/fix-lucide-imports.js:25 | a match at a position starts with `import`, ends with the quoted `lucide-react`, fits in the text and has a non-empty group |
| FixLucideImports.FirstImport | scripts/fix-lucide-imports.js:25-31 | `exec` from `lastIndex` returns a real match lying at or after `lastIndex` |
| FixLucideImports.FirstImportLeftmost | scripts/fix-lucide-imports.js:31 | no match starts between `lastIndex` and the one `exec` returns; none at all when it returns none |
| FixLucideImports.MatchesStep | scripts/fix-lucide-imports.js:31 | the matches found are the one `exec` returns, then those found from its end |
| FixLucideImports.MatchesAreImports | scripts/fix-lucide-imports.js:25-31 | every found match is a match of the pattern at its start |
| FixLucideImports.MatchesInOrder | scripts/fix-lucide-imports.js:31 | found matches lie after `lastIndex`, within the text, each ending before the next begins |
| FixLucideImports.NoMatchBetween | scripts/fix-lucide-imports.js:31 | a position that no found match starts at or spans starts no match: the loop misses none |
| FixLucideImports.Plan | scripts/fix-lucide-imports.js:56-59 | one replacement per match, in order |
| FixLucideImports.PlanAt | scripts/fix-lucide-imports.js:32-59 | the k-th replacement replaces the text of the k-th match by the direct imports of its icons |
| FixLucideImports.PlanEntriesAreBarrelImports | scripts/fix-lucide-imports.js:32-59 | every replaced text opens with `import` and closes with the quoted `lucide-react` |
| FixLucideImports.NoBarrelNoMatch | scripts/fix-lucide-imports.js:25-31 | without the module name in the text the loop finds no match |
| FixLucideImports.NoBarrelUntouched | scripts/fix-lucide-imports.js:21-75 | a file that never names `lucide-react` is left exactly as it is |
| FixLucideImports.Rewrite | scripts/fix-lucide-imports.js:25-65 | a text in which the `exec` loop finds no barrel import comes back unchanged |
| FixLucideImports.PlanAppend | scripts/fix-lucide-imports.js:56-59 | one more match appends its replacement at the end |
| FixLucideImports.ApplyAllStep | scripts/fix-lucide-imports.js:63-65 | one more replacement is one more `replace` on the text so far |
| FixLucideImports.Project.ProcessFile | scripts/fix-lucide-imports.js:21-75 | returns true iff the rewritten text differs from the file's text; the file is written back only then, and no other file changes |
| FixLucideImports.CollectReplacements | scripts/fix-lucide-imports.js:25-60 | the `exec` loop returns exactly the plan of all leftmost, non-overlapping matches from index 0 |
| FixLucideImports.CollectStep | scripts/fix-lucide-imports.js:31-59 | one turn of the loop keeps the matches found and the plan in step |
| FixLucideImports.FoundStep | scripts/fix-lucide-imports.js:31 | the match `exec` returns is the next of the matches still to find |
| FixLucideImports.ApplyReplacements | scripts/fix-lucide-imports.js:62-65 | the replacement loop returns the text after each `replace` in turn |
| FixLucideImports.Files | scripts/fix-lucide-imports.js:78-96 | every path pushed is below the directory, reached through no skipped directory, and names a `.ts`/`.tsx` file |
| FixLucideImports.EntryFiles | scripts/fix-lucide-imports.js:81-93 | every path one entry contributes is such a listed path |
| FixLucideImports.FindFiles | scripts/fix-lucide-imports.js:78-96 | the recursive walk returns the paths already in `fileList` followed by those the listing yields, in order |
| FixLucideImports.EntryFilesInFiles | scripts/fix-lucide-imports.js:81-93 | whatever one entry contributes is in the result for the whole listing |
| FixLucideImports.FilesComplete | scripts/fix-lucide-imports.js:78-96 | every `.ts`/`.tsx` file reached through no skipped directory is listed |
| FixLucideImports.Project.constructor | scripts/fix-lucide-imports.js:21-75 | the given source files |
| PaymentsService.StrOrNull | src/lib/payments/service.ts:72-76 | a value only when the input is a string that is not blank; then the trimmed, non-empty text |
| PaymentsService.StrOrNullIdempotent | src/lib/payments/service.ts:72-76 | what `str` returns is returned unchanged by `str` |
| PaymentsService.NumOrNull | src/lib/payments/service.ts:78-83 | a value iff the input is a finite number, and then that number |
| PaymentsService.GetRecord | src/lib/payments/service.ts:85-88 | a result only for a plain object, and then the object itself |
| PaymentsService.ParseAction | src/lib/payments/service.ts:110-121 | a kept action comes from an object and has a non-empty value and type; every object with a non-empty value is kept |
| PaymentsService.ParseActionList | src/lib/payments/service.ts:110-122 | no more actions than items; each has a value and a type and comes from some item |
| PaymentsService.ParseActions | src/lib/payments/service.ts:110-112 | anything but an array gives no action; an array gives its normalised items |
| PaymentsService.ParseActionListAppend | src/lib/payments/service.ts:110-122 | normalisation keeps order: it distributes over concatenation |
| PaymentsService.ParseActionDefaults | src/lib/payments/service.ts:113-120 | an object with a non-empty value becomes one action, with type UNKNOWN when it has none |
| PaymentsService.FindKind | src/lib/payments/service.ts:124-127 | the index of the first action of a type, or none when no action has it |
| PaymentsService.GetRedirectUrl | src/lib/payments/service.ts:124-127 | a URL iff the first redirect action exists and has a non-empty value; the URL is never empty |
| PaymentsService.RedirectOfParsed | src/lib/payments/service.ts:110-127 | on normalised actions there is a redirect URL iff some action is a redirect |
| PaymentsService.BuildReferenceId | src/lib/payments/service.ts:129 | the order id behind the `booking_` prefix |
| PaymentsService.ParsePrefixed | src/lib/payments/service.ts:131-136 | a prefixed reference gives everything after the prefix |
| PaymentsService.ReferenceRoundTrip | src/lib/payments/service.ts:129-136 | parsing a built reference gives back the order id; building from a parsed prefixed reference gives it back; an unprefixed reference is returned unchanged |
| PaymentsService.StatusMapping | src/lib/payments/service.ts:138-158 | after upper-casing: SUCCEEDED, COMPLETED, PAID and SETTLED give PAID; FAILED, CANCELLED and CANCELED give FAILED; EXPIRED gives EXPIRED; anything else gives PENDING_USER_ACTION; letter case never matters |
| PaymentsService.CreatePaymentRequestForOrder | src/lib/payments/service.ts:177-293 | the provider is called iff the lookup succeeded and there is no open payment to reuse; the payment is written iff the provider answered; the booking is written iff the payment write succeeded; the call succeeds iff it reused an open payment or every step succeeded |
| PaymentsService.CreateReusesOpenPayment | src/lib/payments/service.ts:199-213 | an open payment (request id and a non-terminal status) is returned as stored, with no provider call and no write (also line 69) |
| PaymentsService.CreateRequestsNewPayment | src/lib/payments/service.ts:215-293 | otherwise a request for `booking_<orderId>` with the caller's amount is made; the payment row, the booking's payment state and the result carry the mapped status, and the booking's payment URL is the redirect action's value |
| PaymentsService.PayloadDefaults | src/lib/payments/service.ts:215-232 | the caller's channel properties and metadata override the defaults key by key; the return URL and `order_id` default to this order; an empty channel code falls back to the environment, then QRIS (also lines 162-175) |
| PaymentsService.ApplyPaymentStateTransition | src/lib/payments/service.ts:331-459 | no booking: nothing happens; the payment is written iff there is a request id; the booking gets the payment state and the mapped booking status; a confirmation is sent iff a paid booking was not yet confirmed, a cancellation iff a failed or expired one was not yet cancelled, never both; partner sync only with a confirmation of a booking with a venue |
| PaymentsService.TransitionReplayIsSilent | src/lib/payments/service.ts:379-400 | replaying a transition on the booking it updated sends no further notification (also lines 412, 445) |
| PaymentsService.PendingLeavesStatus | src/lib/payments/service.ts:331-459 | a pending transition leaves the booking status as it was and sends nothing |
| PaymentsService.EnvelopeOf | src/lib/payments/service.ts:535-546 | the body is always an object: a payload that is not one reads as `{}` |
| PaymentsService.ProviderStatusOf | src/lib/payments/service.ts:548-554 | the provider status is never empty: the first status found, else REQUIRES_ACTION |
| PaymentsService.WebhookIdOf | src/lib/payments/service.ts:559-565 | a header id wins; without one, `body.id` |
| PaymentsService.NormalizeWebhookEvent | src/lib/payments/service.ts:534-588 | the internal status is the mapping of the provider status, which is never empty; the dedupe key is built from the event's ids; a header webhook id is used when present |
| PaymentsService.MapXenditStatusToInternal | src/lib/payments/service.ts:138-158 | after upper-casing: PAID iff SUCCEEDED, COMPLETED, PAID or SETTLED; FAILED iff FAILED, CANCELLED or CANCELED; EXPIRED iff EXPIRED; anything else is PENDING_USER_ACTION |
| PaymentsService.HandleXenditWebhook | src/lib/payments/service.ts:640-681 | a failed insert of the event is an error that stores nothing and moves no order; an order moves iff the event is processed; the event reported is the normalised payload; a stored event adds its dedupe key |
| PaymentsService.DedupeKeyPrecedence | src/lib/payments/service.ts:574 | the key is never empty: the provider event id, else the webhook id, else `<request id, reference or unknown>:<status>` |
| PaymentsService.HandleEvent | src/lib/payments/service.ts:590-680 | a transition happens iff the event was processed; a new event's key is stored, nothing is stored otherwise; the outcome carries the event |
| PaymentsService.WebhookReplayIsDuplicate | src/lib/payments/service.ts:643-651 | delivering the same event again after it was stored is a duplicate, triggers no transition and stores nothing (also lines 608-610) |
| PaymentsService.WebhookTransition | src/lib/payments/service.ts:615-680 | an event whose order cannot be resolved is ignored; a processed one moves the resolved, non-empty order to the event's mapped status; a `booking_<id>` reference resolves to `<id>` |
| Base64.CharSextet | src/lib/xendit/xendit-client.ts:47 | reading a base64 character gives the value that prints as it |
| Base64.SextetRoundTrip | src/lib/xendit/xendit-client.ts:47 | every 6-bit value prints as an alphabet character that reads back as the value |
| Base64.Encode | src/lib/xendit/xendit-client.ts:47 | four characters per started group of three bytes, each of the alphabet or `=` |
| Base64.GroupRoundTrip | src/lib/xendit/xendit-client.ts:47 | one encoded group of three bytes decodes to those bytes |
| Base64.DecodeEncodeOne | src/lib/xendit/xendit-client.ts:47 | a final single byte (`xx==`) decodes back |
| Base64.DecodeEncodeTwo | src/lib/xendit/xendit-client.ts:47 | a final pair of bytes (`xxx=`) decodes back |
| Base64.DecodeEncode | src/lib/xendit/xendit-client.ts:47 | decoding inverts encoding for every byte sequence |
| Base64.EncodeText | src/lib/xendit/xendit-client.ts:47 | `Buffer.from(text).toString('base64')` decodes back to the UTF-8 bytes of the text |
| Utf8.EncodeChar | src/lib/xendit/xendit-client.ts:47 | one to four bytes per character, one byte (its code) exactly for ASCII |
| Utf8.Encode | src/lib/xendit/xendit-client.ts:47 | between one and four bytes per character |
| Utf8.EncodeAscii | src/lib/xendit/xendit-client.ts:47 | an ASCII text encodes to its own codes, one byte each |
| Utf8.EncodeAppend | src/lib/xendit/xendit-client.ts:47 | encoding distributes over concatenation |
| XenditClient.BasicAuthHeader | src/lib/xendit/xendit-client.ts:46-49 | `Basic ` followed by base64 text that decodes to the UTF-8 secret key and a colon |
| XenditClient.RequestHeaders | src/lib/xendit/xendit-client.ts:72-78 | an `Authorization` header, the Basic header unless the caller overrides it; `api-version` present iff configured or given by the caller |
| XenditClient.Retry | src/lib/xendit/xendit-client.ts:65-114 | the result is that of the last attempt made; all earlier attempts failed; a failure is returned only after attempt `maxRetries + 1` |
| XenditClient.Delays | src/lib/xendit/xendit-client.ts:96-112 | the k-th retry waits 250·k ms |
| XenditClient.RequestOutcomeSpec | src/lib/xendit/xendit-client.ts:51-115 | no attempt without a secret key; otherwise at most `maxRetries + 1` attempts, the result being the first OK response's JSON, else an error after exactly `maxRetries + 1` attempts |
| XenditClient.ClientErrorIsRetried | src/lib/xendit/xendit-client.ts:81-113 | a 4xx response is retried too: its thrown error is caught by the same `catch` and retried while attempts remain |
| XenditClient.RequestXendit | src/lib/xendit/xendit-client.ts:58-115 | the `while (true)` loop returns exactly `RequestOutcome` and sleeps 250·k ms before each retry k |
| XenditClient.CreatePaymentRequest | src/lib/xendit/xendit-client.ts:117-127 | `POST /v3/payment_requests` with at most three attempts |
| XenditClient.GetPaymentRequest | src/lib/xendit/xendit-client.ts:129-138 | `GET /v3/payment_requests/<id>` with at most two attempts |
| WebhookRoute.GetClientIp | src/app/api/webhooks/xendit/route.ts:7-14 | never empty; without a forwarded header, `x-real-ip` or `unknown`; with one, its trimmed first hop or `unknown` |
| WebhookRoute.ClientIpAgreesUnlessBlankHop | src/app/api/webhooks/xendit/route.ts:7-14 | the route's IP agrees with the shared client-IP helper except when the first forwarded hop is blank |
| WebhookRoute.BlankHopIsUnknown | src/app/api/webhooks/xendit/route.ts:9-10 | a blank first hop gives `unknown` even when `x-real-ip` is set |
| WebhookRoute.GetCallbackToken | src/app/api/webhooks/xendit/route.ts:16-17 | header lookup ignores case, so the token is the `x-callback-token` header |
| WebhookRoute.GetWebhookToken | src/app/api/webhooks/xendit/route.ts:19 | `XENDIT_WEBHOOK_TOKEN` when set and non-empty, else `XENDIT_CALLBACK_TOKEN` |
| WebhookRoute.TrimAll | src/app/api/webhooks/xendit/route.ts:23 | one trimmed entry per part, in order |
| WebhookRoute.NonEmpty | src/app/api/webhooks/xendit/route.ts:24 | exactly the non-empty entries, no more than there were |
| WebhookRoute.GetIpAllowList | src/app/api/webhooks/xendit/route.ts:20-24 | exactly the non-empty trimmed comma-separated entries; none holds a comma or outer white space |
| WebhookRoute.TrimmedEntriesClean | src/app/api/webhooks/xendit/route.ts:22-23 | trimmed parts of a comma split hold no comma and no outer white space |
| WebhookRoute.EmptyAllowList | src/app/api/webhooks/xendit/route.ts:20-24 | an unset or blank allow list has no entries, so every address is let through (also line 82) |
| WebhookRoute.FirstFailingGuard | src/app/api/webhooks/xendit/route.ts:45-111 | a refusal has a status between 400 and 500, logged with the same code and no payload |
| WebhookRoute.HandledReply | src/app/api/webhooks/xendit/route.ts:113-163 | reply and log row share a code and carry the payload; 200 iff the handler returned; duplicate, ignored and processed are logged as such; a thrown error is logged as failed with 500 |
| WebhookRoute.PostOutcome | src/app/api/webhooks/xendit/route.ts:42-164 | reply and log row share a code; the handler runs iff every guard passes, on the parsed payload; the rate limiter is asked iff rate limiting is on and the content type and token configuration pass, with the key `xendit-webhook:<ip>` |
| WebhookRoute.GuardOrder | src/app/api/webhooks/xendit/route.ts:45-111 | the first failing guard alone decides: 415, then 500, then 429, then 403, then 401, then 400; only past all of them does the handler run, and then the reply is 200 iff it returned |
| WebhookRoute.TokenMustMatch | src/app/api/webhooks/xendit/route.ts:56-65 | the handler runs only for a request whose callback token equals the configured, non-empty token (also lines 91-100) |
| WebhookRoute.DuplicateIsLogged | src/app/api/webhooks/xendit/route.ts:115-122 | a duplicate delivery is logged as `duplicate` with its payload and answered 200 |
| WebhookRoute.StoredKeyIsDuplicate | src/app/api/webhooks/xendit/route.ts:113-122 | the service reports a delivery whose dedupe key is stored as a duplicate, stores nothing and triggers no transition |
| WebhookRoute.WebhookLog.constructor | src/app/api/webhooks/xendit/route.ts:26-40 | an empty log |
| WebhookRoute.WebhookLog.AppendWebhookLog | src/app/api/webhooks/xendit/route.ts:26-40 | exactly one row is appended |
| WebhookRoute.WebhookLog.LogHandled | src/app/api/webhooks/xendit/route.ts:113-163 | the reply and the one appended row are those `HandledReply` gives |
| WebhookRoute.WebhookLog.Post | src/app/api/webhooks/xendit/route.ts:42-164 | exactly one log row is appended on every path, and the reply, the handler's result and the row are those of `PostOutcome` |
| InitiateRoute.NormalizeChannelCode | src/app/api/payments/initiate/route.ts:9 | a non-string gives `''`; a string gives its trimmed form with no lower-case letter, empty iff the string is blank |
| InitiateRoute.NormalizeChannelCodeIdempotent | src/app/api/payments/initiate/route.ts:9 | normalising twice is normalising once, and the input's case does not matter |
| InitiateRoute.MaxBytes | src/app/api/payments/initiate/route.ts:10 | `Number` of the variable when set, else 16384 |
| InitiateRoute.AmountOf | src/app/api/payments/initiate/route.ts:72 | the body's amount when it is a positive finite number, else `Number(total_price)` |
| InitiateRoute.UpperOrUndefined | src/app/api/payments/initiate/route.ts:77-78 | present iff the body gives a string, and then trimmed and upper-cased |
| InitiateRoute.ChannelPropertiesOf | src/app/api/payments/initiate/route.ts:79-82 | an object's own fields; nothing for a non-object |
| InitiateRoute.ServiceInput | src/app/api/payments/initiate/route.ts:85-96 | the trimmed order id, the checked amount, the normalised channel code and `initiated_by` set to the user |
| InitiateRoute.Post | src/app/api/payments/initiate/route.ts:12-109 | 401 without a user; 503 when the feature variable is `false` |
| InitiateRoute.Charge | src/app/api/payments/initiate/route.ts:72-108 | a success means the amount was positive and finite and the service accepted that input |
| InitiateRoute.GuardOrder | src/app/api/payments/initiate/route.ts:19-75 | the first failing check decides: the rejected body's own answer, missing `orderId`, missing `channelCode`, a failed booking lookup (500 `Failed to fetch booking: <message>`), no booking (404), another user's booking (403); success needs the owner |
| InitiateRoute.AmountFallback | src/app/api/payments/initiate/route.ts:68-96 | a success charges the owner's order a positive finite amount, the body's when positive, else the booking total, and the service accepted it |
| InitiateRoute.CountryAndCurrency | src/app/api/payments/initiate/route.ts:77-92 | country and currency reach the service trimmed and upper-cased when given as strings, else unset; the description names venue and court with `Venue` and `Court` as defaults |
| Bookings.Blocking | src/lib/api/bookings.ts:248-254 | exactly the rows with that court, date and start time whose status is pending or confirmed |
| Bookings.CheckAvailability | src/lib/api/bookings.ts:245-262 | free iff the query succeeds and no pending or confirmed booking has that court, date and start time; a query error gives false |
| Bookings.CreateBooking | src/lib/api/bookings.ts:98-169 | `Not authenticated` without a user; an inserted booking is pending and costs `price_per_hour * durationHours` |
| Bookings.CreateBookingChecks | src/lib/api/bookings.ts:98-169 | inserted iff signed in, both availability checks pass, the court is found and the insert succeeds; the row carries the user and the requested court, date, times and notes; a second check that fails gives the "just taken" error |
| Bookings.SlotCannotBeBookedTwice | src/lib/api/bookings.ts:245-261 | once a booking is stored, any later request for the same court, date and start time is refused at the first check (also lines 110-118) |
| Bookings.CancelBooking | src/lib/api/bookings.ts:199-240 | `Not authenticated` without a user, `Booking not found` without a booking; a cancellation is of the requested id |
| Bookings.CancelRule | src/lib/api/bookings.ts:199-240 | cancelled iff signed in, the booking exists, the caller owns it or is an admin, an owner is at least two hours before the start, and the update succeeds |
| Bookings.AdminIgnoresTwoHourRule | src/lib/api/bookings.ts:217-237 | an admin cancelling someone else's booking succeeds however close the start is |
| Bookings.SlotLabel | src/lib/api/bookings.ts:297 | the label ends in `:00` and is five characters for a two-digit hour |
| Bookings.SlotsFrom | src/lib/api/bookings.ts:296-305 | max(0, close - hour) slots |
| Bookings.SlotsFromAt | src/lib/api/bookings.ts:296-305 | slot k is the one for hour `hour + k`, available iff no booking starts at its label |
| Bookings.GetAvailableSlots | src/lib/api/bookings.ts:267-307 | returns exactly `AvailableSlots` of the two query results |
| Bookings.HourlySlots | src/lib/api/bookings.ts:292-305 | the `for` loop pushes exactly the slots of `SlotsFrom(open, close)` |
| Bookings.SlotGrid | src/lib/api/bookings.ts:287-305 | one slot per hour open <= h < close in ascending order, labelled `HH:00` reading back as h, available iff no pending or confirmed booking starts exactly at that label; no slots without operational hours |
| Bookings.SlotLabelReadsBack | src/lib/api/bookings.ts:293-297 | the digits of a slot's label read back as its hour |
| Bookings.StoredHourParses | src/lib/api/bookings.ts:293-294 | a time `HH:...` is read as hour HH |
| ExternalBookingsRoute.TemplateText | src/app/api/external/v1/bookings/route.ts:69 | a string is interpolated as itself, `undefined` as the word `undefined` |
| ExternalBookingsRoute.Post | src/app/api/external/v1/bookings/route.ts:5-98 | an invalid key is 401; a created booking always has every required field; the row inserted is `Payload` |
| ExternalBookingsRoute.UnauthorizedFirst | src/app/api/external/v1/bookings/route.ts:6-8 | with an invalid key the body and the insert make no difference |
| ExternalBookingsRoute.RequiredFieldsChecked | src/app/api/external/v1/bookings/route.ts:12-16 | a body missing any truthy required field is a 400, duration 0 included |
| ExternalBookingsRoute.PayloadShape | src/app/api/external/v1/bookings/route.ts:55-82 | a created booking is pending, with `External Booking: <name> (<phone>)` as notes (`undefined` for a missing phone), the first user row's id iff there is one, and the given start time |
| ExternalBookingsRoute.Payload | src/app/api/external/v1/bookings/route.ts:55-70 | the court, date, start time and duration of the body; total price equal to the price; status pending; the end time from `EndTime`; a user id iff the user lookup found a row |
| ExternalBookingsRoute.EndTime | src/app/api/external/v1/bookings/route.ts:25-27 | always ends in `:00`; a start time without a colon gives the minutes `undefined` |
| ExternalBookingsRoute.ClockText | src/app/api/external/v1/bookings/route.ts:27 | `${hours}:${minutes}:00` with the minutes padded: ends in `:00`, and in `:undefined:00` for undefined minutes |
| ExternalBookingsRoute.ClockTail | src/app/api/external/v1/bookings/route.ts:27 | the padded minutes and `:00` close the clock text |
| ExternalBookingsRoute.EndTimeOfParts | src/app/api/external/v1/bookings/route.ts:25-27 | with a colon, the end time is built from the two numbers read from the parts |
| ExternalBookingsRoute.EndTimeOfHours | src/app/api/external/v1/bookings/route.ts:25-27 | without a colon, the end time is built from the hours and the text `undefined` |
| ExternalBookingsRoute.ClockOfPadded | src/app/api/external/v1/bookings/route.ts:27 | the clock text is the hours, a colon, the padded minutes and `:00` |
| ExternalBookingsRoute.EndTimeWithoutColon | src/app/api/external/v1/bookings/route.ts:25-27 | a start time `H` with no colon and a whole duration d ends at `pad2(H + d):undefined:00`, so `8` lasting one hour ends at `09:undefined:00` |
| ExternalBookingsRoute.HoursOnly | src/app/api/external/v1/bookings/route.ts:25 | the rendering of a whole hour holds no colon, so `split(':')` gives it alone |
| ExternalBookingsRoute.PaddedEndHours | src/app/api/external/v1/bookings/route.ts:26-27 | a whole start hour plus a whole duration, rendered and padded, is their two-digit sum |
| ExternalBookingsRoute.EndTimeNoWrap | src/app/api/external/v1/bookings/route.ts:25-27 | a start `HH:MM` and a whole duration end at `pad2(HH + duration):MM:00`, with no wrap at 24 |
| ExternalBookingsRoute.LateBookingEndsAfterMidnight | src/app/api/external/v1/bookings/route.ts:25-27 | 23:00 lasting two hours ends at `25:00:00` |
| CoachActions.Existing | src/lib/coaches/actions.ts:204-209 | exactly the table's rows for that coach and date whose status is not cancelled (membership; the order is stated by `CoachActions.ExistingAppend`) |
| CoachActions.ExistingAppend | src/lib/coaches/actions.ts:204-209 | the filter distributes over concatenation and keeps a one-row list iff its row passes: the kept rows are in input order, each as often as it occurs |
| CoachActions.FirstConflict | src/lib/coaches/actions.ts:217-232 | the earliest existing booking the requested times overlap; none iff no existing booking overlaps |
| CoachActions.CheckCoachAvailability | src/lib/coaches/actions.ts:195-235 | the `for` loop returns exactly `ExpectedAvailability`: the query error, the first conflict's message, or free |
| CoachActions.AvailabilitySpec | src/lib/coaches/actions.ts:195-235 | a query error means not available; otherwise available iff no non-cancelled booking of that coach and day overlaps; a refusal always carries a non-empty reason |
| CoachActions.OverlapMeansIntersect | src/lib/coaches/actions.ts:222-226 | for non-empty intervals the three clauses say exactly `start < existingEnd` and `existingStart < end` (string order) |
| CoachActions.BackToBackNoConflict | src/lib/coaches/actions.ts:222-226 | a session starting as another ends, or ending as another starts, is no conflict |
| CoachActions.IgnoredRowsDoNotConflict | src/lib/coaches/actions.ts:207-209 | a cancelled booking, or one of another coach or day, never changes the answer |
| CoachActions.FirstConflictReported | src/lib/coaches/actions.ts:217-231 | of two overlapping bookings the one earlier in the table is reported |
| CoachActions.StringOr | src/lib/coaches/actions.ts:288-309 | `v`, or else `fallback`, on an optional text, where the empty text is falsy |
| CoachActions.CreateCoachBooking | src/lib/coaches/actions.ts:242-322 | refuses in order: not signed in, unknown coach, coach inactive or not taking bookings, conflict (with its reason); inserts iff every check passes and the insert succeeds, with the user, `total_price = price_per_hour * durationHours`, status pending, notes only when non-empty, `private` and 1 attendee by default |
| CoachActions.CancelCoachBooking | src/lib/coaches/actions.ts:359-411 | `Unauthorized` without a user, `Booking not found` without a booking |
| CoachActions.CancelRule | src/lib/coaches/actions.ts:382-401 | cancelled iff the owner cancels a pending booking and the update succeeds; the update records status cancelled, the time, the reason (an empty one as null) and the cancelling user |
| CoachActions.StatusUpdateData | src/lib/coaches/actions.ts:461-465 | the update holds the status, plus the payment stamp exactly when the status is `confirmed` |
| CoachActions.UpdateCoachBookingStatus | src/lib/coaches/actions.ts:416-480 | `Unauthorized` without a user, `Booking not found` without the booking; allowed iff the user is an admin or the booking's coach, and then the update is `StatusUpdateData` |
| DateUtils.GetVenueCurrentTime | src/lib/date-utils.ts:7-15 | the zone's clock when the zone is valid, otherwise Asia/Jakarta's |
| DateUtils.ValidateBookingTime | src/lib/date-utils.ts:37-77 | invalid with the system error when no clock can be had; valid only when the venue's date can be formatted and the booking date is not before it |
| DateUtils.PastDateInvalid | src/lib/date-utils.ts:47-52 | a booking date before the venue's today (string order) is refused with the past-date message, whatever the time |
| DateUtils.FutureDateValid | src/lib/date-utils.ts:55-68 | a booking date after the venue's today is valid whatever the start time |
| DateUtils.TodayTimeRule | src/lib/date-utils.ts:55-65 | on today's date a start `HH:MM` is refused iff it is earlier than the current hour and minute; the current minute itself is accepted |
| DateUtils.SameDayRule | src/lib/date-utils.ts:55-66 | on the venue's today the answer depends on the start time alone |
| DateUtils.StartPartsOf | src/lib/date-utils.ts:56 | `split(':').map(Number)` reads the hour and minute of an `HH:MM[:...]` start back |
| DateUtils.InvalidZoneFallsBack | src/lib/date-utils.ts:7-15 | an invalid zone is judged on Asia/Jakarta's clock; with no clock at all the answer is "not valid" (also lines 70-76) |
| MatchRoomStatus.ParseAll | src/lib/match-rooms/status.ts:18-22 | one `parseInt` per part |
| MatchRoomStatus.RoomEnd | src/lib/match-rooms/status.ts:13-28 | an invalid match date gives an invalid end; without an end time the end is the match date itself |
| MatchRoomStatus.EndTimeWithoutSeconds | src/lib/match-rooms/status.ts:17-25 | an `HH:MM` end lands on that minute of the match day, the seconds being 0 |
| MatchRoomStatus.EndOfTwoParts | src/lib/match-rooms/status.ts:17-25 | an end time `a:b` lands at the numbers `a` and `b` parse to, at second 0 |
| MatchRoomStatus.EndAtClock | src/lib/match-rooms/status.ts:19-24 | the end is the match day's start plus the parsed hour, minute and second |
| MatchRoomStatus.EndClockOfParts | src/lib/match-rooms/status.ts:18 | two parts read as their numbers, with the seconds defaulting to `'0'` |
| MatchRoomStatus.CompletedIds | src/lib/match-rooms/status.ts:37-64 | exactly the ids of the OPEN or PLAYING rows (in the given ids and community, when set) whose end is at or before now (membership; the order is stated by `MatchRoomStatus.CompletedIdsAppend`) |
| MatchRoomStatus.CompletedIdsAppend | src/lib/match-rooms/status.ts:37-64 | the filter distributes over concatenation and keeps a one-row list iff its row passes: the kept rows are in input order, each as often as it occurs |
| MatchRoomStatus.MarkCompleted | src/lib/match-rooms/status.ts:70-73 | the rows with a listed id become COMPLETED with the stamp; every other row is unchanged |
| MatchRoomStatus.UpdateCompletedMatchRooms | src/lib/match-rooms/status.ts:50-55 | a failed fetch reports nothing and changes nothing |
| MatchRoomStatus.CompletionSpec | src/lib/match-rooms/status.ts:30-81 | the reported ids are exactly the ended candidates, or none when the update fails; a row changes iff its id is reported, and it becomes COMPLETED; an update is issued iff the fetch succeeds and some room ended |
| MatchRoomStatus.EndingNowCompletes | src/lib/match-rooms/status.ts:63 | a room ending exactly now is completed |
| Matchmaking.TeamSide | src/lib/api/matchmaking.ts:64 | side A iff the slot starts with `A`, otherwise B (also line 132) |
| Matchmaking.CourtSlotSides | src/lib/api/matchmaking.ts:10 | A_FRONT and A_BACK are on side A, B_FRONT and B_BACK on side B (also line 64) |
| Matchmaking.LevelIndex | src/lib/api/matchmaking.ts:122-124 | `indexOf`: the level's position in BEGINNER, INTERMEDIATE, ADVANCED, PRO, and -1 iff it is not listed |
| Matchmaking.SkillCheck | src/lib/api/matchmaking.ts:118-129 | a refusal always names the room's required level |
| Matchmaking.SkillRule | src/lib/api/matchmaking.ts:118-129 | refused iff the upper-cased profile level ranks below the requirement; an unlisted profile level fails every listed requirement; an unlisted requirement passes everyone; no or empty profile level skips the level test |
| Matchmaking.SkillCaseInsensitive | src/lib/api/matchmaking.ts:123 | the profile level's case does not matter |
| Matchmaking.WithoutRoom | src/lib/api/matchmaking.ts:78 | `delete().eq('id', id)`: exactly the rows with another id remain |
| Matchmaking.RollbackRestores | src/lib/api/matchmaking.ts:76-80 | deleting a freshly inserted room by its new id gives back the table as it was |
| Matchmaking.MatchStore.constructor | src/lib/api/matchmaking.ts:42-67 | the given rooms and participants |
| Matchmaking.MatchStore.CreateMatchRoom | src/lib/api/matchmaking.ts:34-89 | `Unauthorized` or a failed room insert change nothing; a failed host insert deletes the new room again; success iff both inserts succeed, and then the OPEN room and its host, APPROVED on the side of the chosen slot, are added |
| Matchmaking.NewRoom | src/lib/api/matchmaking.ts:44-57 | the host's room, OPEN, with the requested level and format |
| Matchmaking.JoinMatchRoom | src/lib/api/matchmaking.ts:94-158 | `Unauthorized` without a user; `Room not found` without the room |
| Matchmaking.JoinRule | src/lib/api/matchmaking.ts:98-152 | a join succeeds iff the user is signed in, the room exists, the skill check passes and the insert succeeds; the participant is APPROVED on its slot's side; a unique violation reads `Slot already taken`; a low skill names the requirement |
| Matchmaking.OpenRooms | src/lib/api/matchmaking.ts:200 | exactly the rows with status OPEN |
| Matchmaking.GetMatchRooms | src/lib/api/matchmaking.ts:188-210 | a failed select gives the empty list; every listed room is OPEN |
| Matchmaking.ListedRoomsNotEnded | src/lib/api/matchmaking.ts:192-200 | when the completion update goes through, no listed room has already ended |
| CourtSelector.SeatAt | src/components/matchmaking/VisualCourtSelector.tsx:83 | a participant on that slot; none iff no participant holds it (also line 117) |
| CourtSelector.SeatOf | src/components/matchmaking/VisualCourtSelector.tsx:87 | a participant with that user id; none iff there is none |
| CourtSelector.LeaveOwnUnreachable | src/components/matchmaking/VisualCourtSelector.tsx:83-95 | a taken slot, the player's own included, is ignored, so the branch that leaves one's own slot never runs |
| CourtSelector.RenderSlot | src/components/matchmaking/VisualCourtSelector.tsx:116-145 | empty iff nobody holds the slot; marked as the viewer's iff its holder is the signed-in user |
| CourtSelector.RenderedSlots | src/components/matchmaking/VisualCourtSelector.tsx:240-264 | both back slots are always drawn; the front slots are drawn iff the format is not SINGLE |
| CourtSelector.SlotSelector.constructor | src/components/matchmaking/VisualCourtSelector.tsx:34-35 | the initial participants, not loading, no calls or alerts |
| CourtSelector.SlotSelector.HandleSlotClick | src/components/matchmaking/VisualCourtSelector.tsx:75-114 | no user: a login alert only; loading or a taken slot: nothing happens; a seated player moves by leave-then-join, and when the leave throws the join is skipped and the error is swallowed; anyone else joins, and a join answered with an error is alerted with its message; loading is cleared again; the participant list is untouched |
| CourtSelector.SlotSelector.OnParticipantsChanged | src/components/matchmaking/VisualCourtSelector.tsx:51-66 | the fetched rows replace the list when there are any; nothing else changes |
| CourtSelector.FreeSlotOutcome | src/components/matchmaking/VisualCourtSelector.tsx:86-104 | on a free slot, a click moves iff the user is already seated and joins iff not |
| MatchSection.ReviewPanel.constructor | src/components/MatchSection.tsx:15-24 | the selected room; no drafts, statuses, reviewed users or submissions |
| MatchSection.ReviewPanel.AddDefaultDrafts | src/components/MatchSection.tsx:114-125 | every participant without a draft gets rating 5 and an empty comment; existing drafts stay; nothing else changes |
| MatchSection.ReviewPanel.HandleReviewFieldChange | src/components/MatchSection.tsx:155-163 | only that user's draft changes: the named field takes the value (`Number` of it for the rating), the other field is kept (5 and empty without a draft) |
| MatchSection.ReviewPanel.HandleSubmitReview | src/components/MatchSection.tsx:165-199 | without a selected room nothing happens; otherwise the draft (or the default) is submitted once; an error marks the review failed, success marks it done and adds the user to the reviewed set; the drafts are untouched |
| MatchSection.FilteredRooms | src/components/MatchSection.tsx:202-207 | exactly the rooms whose lower-cased title or court name contains the lower-cased query and, when a city is chosen, whose city is that city (membership; the order is stated by `MatchSection.FilteredRoomsAppend`) |
| MatchSection.FilteredRoomsAppend | src/components/MatchSection.tsx:202-207 | the filter distributes over concatenation and keeps a one-row list iff its row passes: the kept rows are in input order, each as often as it occurs |
| MatchSection.EmptyFiltersKeepAll | src/components/MatchSection.tsx:202-207 | an empty search and no city keep every room, in order |
| MatchSection.SearchIgnoresQueryCase | src/components/MatchSection.tsx:203-204 | the search ignores the query's case |
| MatchSection.Cities | src/components/MatchSection.tsx:210 | each room's city (`Jakarta` without one) appears, once each, and nothing else |
| MatchSection.ReviewTargets | src/components/MatchSection.tsx:214 | exactly the participants other than the viewer |
| MatchSection.AnonymousReviewsEveryone | src/components/MatchSection.tsx:214 | without a signed-in viewer every participant is a target, in order |
| PlayerReviews.CreatePlayerReview | src/lib/api/player-reviews.ts:13-19 | signed out: "Unauthorized" |
| PlayerReviews.ReviewRule | src/lib/api/player-reviews.ts:13-45 | a review is stored iff the caller is signed in, reviews someone else, gives a finite rating within [1, 5] and the insert succeeds; a self-review and a bad rating each get their own error; the stored row names the caller as reviewer, and an empty comment becomes null |
| PlayerReviews.FractionalRatingAccepted | src/lib/api/player-reviews.ts:25 | 3.5, 1 and 5 are accepted; NaN, infinity, 0.5 and 5.5 are not |
| PlayerReviews.RevieweesOf | src/lib/api/player-reviews.ts:55-66 | exactly the reviewees of the reviewer's rows in the room, no more ids than rows |
| PlayerReviews.GetMyRoomReviews | src/lib/api/player-reviews.ts:47-67 | signed out: "Unauthorized" and no ids; a failed query: "Gagal memuat review" and no ids; otherwise exactly the people the caller reviewed in the room |
| PlayerReviews.StoredReviewListed | src/lib/api/player-reviews.ts:55-66 | a review just stored is listed among the caller's reviewees of that room (also lines 29-37) |
| PlayTogetherRoute.UuidIgnoresCase | src/app/api/play-together/route.ts:33-35 | the UUID test does not depend on letter case |
| PlayTogetherRoute.UuidExample | src/app/api/play-together/route.ts:33-35 | a hyphenated UUID with mixed case passes; the same digits without hyphens do not |
| PlayTogetherRoute.TimeShapeOnly | src/app/api/play-together/route.ts:43-45 | the time test checks only the shape: `99:99` and `23:59:59` pass, `9:00`, `09:00:0` and `09-00` do not |
| PlayTogetherRoute.DateShapeFirst | src/app/api/play-together/route.ts:37-41 | a date without the `dddd-dd-dd` shape is refused before `Date` is consulted; with the shape, the `Date` check on `<value>T00:00:00Z` alone decides |
| PlayTogetherRoute.NormalizeUpper | src/app/api/play-together/route.ts:47-49 | a falsy value gives the empty text; a string gives its trimmed, upper-cased text |
| PlayTogetherRoute.NormalizeUpperIdempotent | src/app/api/play-together/route.ts:47-49 | normalising a string never throws, and normalising again changes nothing |
| PlayTogetherRoute.ToNumberOrNull | src/app/api/play-together/route.ts:51-58 | a number is kept as it is; a string gives a number iff it is not blank and parses to a finite number; anything else gives null |
| PlayTogetherRoute.Validate | src/app/api/play-together/route.ts:75-78 | every refusal is a failure response; the communityId guard runs first (stated by `IdentityGuards`) |
| PlayTogetherRoute.ValidateTitle | src/app/api/play-together/route.ts:80-83 | every refusal is a failure response (stated in full by `TitleGuards`) |
| PlayTogetherRoute.ValidateSchedule | src/app/api/play-together/route.ts:85-100 | every refusal is a failure response (stated in full by `ScheduleGuards`) |
| PlayTogetherRoute.ValidateChoices | src/app/api/play-together/route.ts:107-125 | a refusal is a 400, or a 500 for a value that cannot be trimmed; accepted mode, game format, level and gender are each in their allowed set |
| PlayTogetherRoute.ValidateOptions | src/app/api/play-together/route.ts:102-130 | a refusal is a 400 or a 500; when accepted, the participant count is positive and finite and the price is not negative |
| PlayTogetherRoute.Args | src/app/api/play-together/route.ts:132-152 | the procedure gets the checked community, title, venue, count, price and normalised choices |
| PlayTogetherRoute.SingletonArrayCount | src/app/api/play-together/route.ts:102-105 | a `maxParticipants` of `[n]` with n positive passes the count check and reaches the procedure as n |
| PlayTogetherRoute.EmptyArrayCountRefused | src/app/api/play-together/route.ts:102-105 | a `maxParticipants` of `[]` reads as 0 and is refused with 400 |
| PlayTogetherRoute.AcceptedValuesAllowed | src/app/api/play-together/route.ts:107-125 | every accepted activity carries allowed mode, game format, level and gender (also lines 28-31) |
| PlayTogetherRoute.IdentityGuards | src/app/api/play-together/route.ts:75-78 | a communityId that is missing or not a UUID once trimmed is refused with 400; a good one goes on, trimmed, to the title check; nothing is accepted without one |
| PlayTogetherRoute.TitleGuards | src/app/api/play-together/route.ts:80-83 | a missing or blank title is refused with 400; otherwise the schedule checks decide, with the title trimmed |
| PlayTogetherRoute.ScheduleGuards | src/app/api/play-together/route.ts:85-100 | matchDate, startTime, endTime and venueName are checked in that order, each refusal with its own message; the venue name goes on trimmed |
| PlayTogetherRoute.RpcErrorStatus | src/app/api/play-together/route.ts:154-162 | 400, 403 or 409, and 409 whenever the lower-cased message mentions a conflict |
| PlayTogetherRoute.Post | src/app/api/play-together/route.ts:60-73 | no user: 401 "Not authenticated"; a body that is not JSON: 400 "Invalid JSON body" |
| PlayTogetherRoute.RpcErrorMapping | src/app/api/play-together/route.ts:154-163 | a procedure error reaches the caller as 409 when it mentions a conflict in any case, 403 when it says "not allowed" and not "conflict", 400 otherwise; an empty message becomes "Failed to create activity" with 400 |
| PlayTogetherRoute.ChoiceDefaults | src/app/api/play-together/route.ts:107-122 | with no mode, level or gender given, the defaults CASUAL, ALL and ANY are used |
| PlayTogetherRoute.ArgDefaults | src/app/api/play-together/route.ts:135-151 | price 0, host counted, public, no coaching, no approval step, and null description, address and city when the body gives none |
| PlayTogetherRoute.LevelPrecedence | src/app/api/play-together/route.ts:117 | `levelRequirement` wins over `skillPreference` when both are given |
| CreateMatchPage.ModeConfigOf | src/app/matches/create/page-client.tsx:32-56 | the Sparring header iff the upper-cased mode is SPARRING, the Turnamen header iff RANKED, the Main Bareng header otherwise |
| CreateMatchPage.ModeIgnoresCase | src/app/matches/create/page-client.tsx:33 | the header does not depend on the mode's case |
| CreateMatchPage.ModeExamples | src/app/matches/create/page-client.tsx:32-56 | `sparring` gives Sparring, `Ranked` gives Turnamen, `CASUAL` and the empty mode give Main Bareng |
| CreateMatchPage.FormatLabel | src/app/matches/create/page-client.tsx:115-137 | `1 vs 1` iff SINGLE, `2 vs 2` iff DOUBLE, `Campuran` iff MIXED |
| CreateMatchPage.Incremented | src/app/matches/create/page-client.tsx:58 | one more, capped at 16; a count in [2, 16] stays there |
| CreateMatchPage.Decremented | src/app/matches/create/page-client.tsx:59 | one fewer, floored at 2; a count in [2, 16] stays there |
| CreateMatchPage.CountStaysInRange | src/app/matches/create/page-client.tsx:58-59 | from any count in [2, 16], every sequence of taps keeps it in [2, 16] (also line 24) |
| CreateMatchPage.UndoIncrement | src/app/matches/create/page-client.tsx:58-59 | below the cap, a plus and then a minus give the count back |
| CreateMatchPage.FeeOf | src/app/matches/create/page-client.tsx:325 | `Number` of the value, or else of 0: empty text is 0, any other text is read as `Number` reads it |
| CreateMatchPage.CreateMatchForm.constructor | src/app/matches/create/page-client.tsx:24-30 | 4 participants, fee 0, DOUBLE, skill ALL; the count is in range |
| CreateMatchPage.CreateMatchForm.IncrementParticipants | src/app/matches/create/page-client.tsx:58 | the count becomes `Incremented` and stays in range; the other fields are unchanged (also line 264) |
| CreateMatchPage.CreateMatchForm.DecrementParticipants | src/app/matches/create/page-client.tsx:59 | the count becomes `Decremented` and stays in range; the other fields are unchanged (also line 256) |
| CreateMatchPage.CreateMatchForm.SetFee | src/app/matches/create/page-client.tsx:325 | the fee becomes `FeeOf(value)`; the other fields are unchanged |
| CreateMatchPage.CreateMatchForm.SetMatchFormat | src/app/matches/create/page-client.tsx:115-129 | the format becomes the chosen one and the card shows its label; the other fields are unchanged |
| CreateMatchPage.CreateMatchForm.SetSkillPreference | src/app/matches/create/page-client.tsx:297 | only the skill preference changes |
| Notifications.OrElse | src/lib/notifications/service.ts:72-73 | `s`, or else `fallback`: a non-empty text is kept, otherwise the fallback |
| Notifications.Slice5 | src/lib/notifications/service.ts:41 | the first five characters, a prefix of the text |
| Notifications.FormatScheduleLabel | src/lib/notifications/service.ts:38-42 | none iff no date; the label starts with the date; the date alone without a time; at most six characters more with one |
| Notifications.ScheduleOfStoredTime | src/lib/notifications/service.ts:41 | a stored time `HH:MM:SS` shows as the date, a space and `HH:MM` |
| Notifications.BuildBookingNotificationMessage | src/lib/notifications/service.ts:71-100 | the title by event: Dikonfirmasi, Dibatalkan, and Pengingat Pembayaran for the reminder and by default |
| Notifications.HeadNamesCourtAndVenue | src/lib/notifications/service.ts:81-96 | the start of every message names the court and the venue |
| Notifications.ClauseNamesSchedule | src/lib/notifications/service.ts:81-96 | the schedule clause names the schedule |
| Notifications.MessageNamesBooking | src/lib/notifications/service.ts:71-100 | every message names the court (`lapangan pilihanmu` by default) and the venue (`venue pilihanmu` by default), and the schedule when there is one |
| Notifications.ScheduleClauseOnlyDifference | src/lib/notifications/service.ts:80-97 | the message without a date is the same text with the schedule clause left out |
| Notifications.CreateNotification | src/lib/notifications/service.ts:102-128 | a failed insert reports its error and leaves the table; otherwise exactly one row is appended with the given fields and `{}` as default metadata |
| Notifications.Keys | src/lib/notifications/service.ts:55-61 | the (user, type, booking) keys present in the table |
| Notifications.BookingMetadata | src/lib/notifications/service.ts:154-160 | always `booking_id` and `notification_source: booking_event`; date, court and venue are present iff given |
| Notifications.CreateBookingEventNotification | src/lib/notifications/service.ts:130-163 | skipped, changing nothing, when a notification for the same user, type and booking exists; otherwise one row with the built title, message and metadata, or the insert's error |
| Notifications.EventNotifiedOnce | src/lib/notifications/service.ts:137-146 | after a successful notification the same event again is skipped and changes nothing |
| Notifications.FailedQueryInserts | src/lib/notifications/service.ts:63-66 | a failed existence query lets a duplicate through |
| Notifications.OtherEventsDoNotBlock | src/lib/notifications/service.ts:58-60 | notifications of another type never cause a skip |
| AuthActions.Or | src/lib/auth/actions.ts:107-108 | JavaScript `a`, or else `b`, on an optional text: `a` when present and non-empty, else `b` |
| AuthActions.GetCurrentUser | src/lib/auth/actions.ts:86-115 | none iff there is no session; id and e-mail from the auth user; the name is the profile's, else the metadata's, else `User`, never empty; the role is the profile's when non-empty, else `customer` |
| AuthActions.AdminNeedsProfileRole | src/lib/auth/actions.ts:157-160 | `isAdmin` holds iff there is a session and the profile row's role is `admin`; the default role never makes an admin |
| AuthActions.Hex | src/lib/auth/actions.ts:200 | `toString('hex')` gives two characters per byte |
| AuthActions.HexIsLower | src/lib/auth/actions.ts:200 | hex text is already lower case, so the `toLowerCase` changes nothing |
| AuthActions.HexCharAt | src/lib/auth/actions.ts:200 | every hex character is `0-9` or `a-f` |
| AuthActions.HexAppend | src/lib/auth/actions.ts:200 | hex of a concatenation is the concatenation of the hex |
| AuthActions.HexPairInjective | src/lib/auth/actions.ts:200 | two bytes printing as the same two digits are equal |
| AuthActions.HexPrefix | src/lib/auth/actions.ts:200-207 | the hex of a buffer starts with the hex of a signature iff the buffer starts with the signature bytes |
| AuthActions.SignatureTexts | src/lib/auth/actions.ts:192-197 | the magic-byte strings are the hex of the JPEG, PNG, GIF, RIFF and WEBP signatures |
| AuthActions.Header | src/lib/auth/actions.ts:200 | the first 12 bytes (all of a shorter buffer) |
| AuthActions.HeaderHex | src/lib/auth/actions.ts:200 | two hex characters per header byte |
| AuthActions.HeaderPrefix | src/lib/auth/actions.ts:200-207 | a signature of at most 12 bytes matches the header's hex iff the buffer starts with it |
| AuthActions.SignatureByPrefix | src/lib/auth/actions.ts:199-216 | for `jpg`, `png` and `gif` the signature test is a byte-prefix test; a normalised type other than the four is refused |
| AuthActions.JpegByPrefix | src/lib/auth/actions.ts:205 | a JPEG claim passes iff the buffer starts with `ff d8 ff` |
| AuthActions.PngByPrefix | src/lib/auth/actions.ts:206 | a PNG claim passes iff the buffer starts with `89 50 4e 47` |
| AuthActions.GifByPrefix | src/lib/auth/actions.ts:207 | a GIF claim passes iff the buffer starts with `47 49 46 38` |
| AuthActions.WebpHeaderAccepted | src/lib/auth/actions.ts:208-213 | a RIFF header with WEBP at bytes 8-11 passes as `image/webp` |
| AuthActions.WebpTypeNormalized | src/lib/auth/actions.ts:203 | `image/webp` normalises to `webp` |
| AuthActions.ValidateFileSignature | src/lib/auth/actions.ts:199-216 | a buffer passes only when the claimed type normalises to jpg, png, gif or webp |
| AuthActions.OnlyHeaderRead | src/lib/auth/actions.ts:200 | bytes after the 12th never change the verdict |
| AuthActions.FileExtension | src/lib/auth/actions.ts:228 | the text after the last dot, lower-cased: it holds no dot |
| AuthActions.FileError | src/lib/auth/actions.ts:222-243 | the first failing check in order (file present, allowed extension, at most 2 MiB, `image/` type) gives its message; none iff all pass |
| AuthActions.RemainingSeconds | src/lib/auth/actions.ts:268 | `Math.ceil((60000 - diff) / 1000)`: at least 1, at most 60 for a non-negative difference |
| AuthActions.RateLimitError | src/lib/auth/actions.ts:260-271 | a refusal iff there is a parseable `updated_at` less than a minute before now |
| AuthActions.DimensionError | src/lib/auth/actions.ts:287-293 | passes iff both dimensions are positive and at most 4096 |
| AuthActions.UploadError | src/lib/auth/actions.ts:222-299 | the guards in the source's order: file checks, then session, then rate limit, signature, dimensions and conversion; none iff every guard passes |
| AuthActions.FilesToRemove | src/lib/auth/actions.ts:324-326 | exactly the folder's files other than the new one, as `<user>/<name>` |
| AuthActions.NewFileKept | src/lib/auth/actions.ts:324-332 | the new avatar is never among the removed files |
| AuthActions.AvatarStore.UploadAvatar | src/lib/auth/actions.ts:218-356 | a failed guard or upload changes nothing; otherwise the new file is stored, every other file of the folder removed, and the profile's avatar URL set unless the update fails |
| AuthActions.RateLimitWindow | src/lib/auth/actions.ts:260-271 | an update a minute ago or more never blocks; a wait reported for a past update lies in 1..60 seconds |
| AuthActions.AvatarStore.constructor | src/lib/auth/actions.ts:218-356 | the given stored objects and avatar URLs |
| PasswordResetActions.NatToStringLength | src/lib/auth/password-reset-actions.ts:10 | a number between `10^k` and `10^(k+1)` prints as `k + 1` digits |
| PasswordResetActions.Power10 | src/lib/auth/password-reset-actions.ts:10 | powers of ten are positive |
| PasswordResetActions.GenerateOtp | src/lib/auth/password-reset-actions.ts:9-11 | for a random value in [0, 1): six decimal digits, worth between 100000 and 999999 |
| PasswordResetActions.SendPasswordResetCode | src/lib/auth/password-reset-actions.ts:16-89 | unknown email: the generic success and no change; a request within 60 s of the latest token: the wait in whole seconds rounded up, no change; otherwise the email's tokens are replaced by one new code expiring in ten minutes, that code is e-mailed, and an insert or mail error is reported |
| PasswordResetActions.VerifyPasswordResetCode | src/lib/auth/password-reset-actions.ts:94-122 | not exactly one token for the lower-cased email and code: invalid; an expired one: deleted by id and reported expired; else verified with its user id; nothing else changes |
| PasswordResetActions.UpdatePasswordWithOtp | src/lib/auth/password-reset-actions.ts:127-163 | a code that does not verify fails without a password change; an unknown code answers `Kode verifikasi tidak valid` and keeps the token table; an expired code answers `Kode verifikasi sudah kadaluarsa` and its row is deleted by id; a password under 8 UTF-16 code units fails and keeps the tokens; otherwise the password change is issued, and only when it succeeds are the email's tokens deleted |
| PasswordResetActions.FreshCodeAccepted | src/lib/auth/password-reset-actions.ts:109-121 | a code just issued is the only match for its email and verifies from its creation up to and including its expiry (also lines 53-54) |
| PasswordResetActions.OldCodeRevoked | src/lib/auth/password-reset-actions.ts:56-70 | once a new code is issued, an older code of the same email matches no row |
| PasswordTokens.WithoutEmail | src/lib/auth/password-reset-actions.ts:56-60 | delete by email: exactly the other emails' rows; keeps one token per email (also lines 156-160) |
| PasswordTokens.WithoutId | src/lib/auth/password-reset-actions.ts:113-116 | delete by id: exactly the rows with other ids; keeps one token per email |
| PasswordTokens.WithoutToken | src/lib/auth/forgot-password-actions.ts:126-129 | delete by token: exactly the rows with other tokens; keeps one token per email |
| PasswordTokens.ReplaceKeepsOnePerEmail | src/lib/auth/password-reset-actions.ts:56-70 | deleting an email's rows and inserting one leaves one row per email, and that row is the email's only one |
| PasswordTokens.MatchingCode | src/lib/auth/password-reset-actions.ts:98-103 | exactly the rows of that email with that code |
| PasswordTokens.NoRowNoMatch | src/lib/auth/password-reset-actions.ts:98-107 | an email without rows matches no code |
| PasswordTokens.MatchingCodeAtMostOne | src/lib/auth/password-reset-actions.ts:98-103 | with one row per email at most one row matches, so the single-row query never sees two |
| PasswordTokens.MatchingToken | src/lib/auth/forgot-password-actions.ts:73-78 | exactly the rows carrying that token |
| PasswordTokens.LatestCreatedAt | src/lib/auth/password-reset-actions.ts:32-38 | none iff the email has no rows; otherwise the largest creation time among its rows |
| PasswordTokens.ResetStore.constructor | src/lib/auth/password-reset-actions.ts:32-38 | the given table, no password change, no e-mail sent |
| ForgotPasswordActions.RequestPasswordReset | src/lib/auth/forgot-password-actions.ts:11-65 | an unknown email answers the generic success and changes nothing; otherwise the email's old tokens are deleted, then a token (the hex of the random bytes) expiring one hour later is stored and mailed; a failed insert or mailer is the generic failure |
| ForgotPasswordActions.RequestLeavesOneToken | src/lib/auth/forgot-password-actions.ts:34-48 | after a request the table still holds at most one token per email, and the email's one token is the new link's |
| ForgotPasswordActions.VerifyResetToken | src/lib/auth/forgot-password-actions.ts:70-99 | valid iff exactly one row carries the token and `now` is not past its expiry, and then it names that row's email and user; otherwise `Invalid reset token` or `Reset token has expired` |
| ForgotPasswordActions.ExpiryBoundary | src/lib/auth/forgot-password-actions.ts:85 | a link works at its expiry instant and not one millisecond later |
| ForgotPasswordActions.ResetPassword | src/lib/auth/forgot-password-actions.ts:104-138 | without a valid verification nothing changes and the verification's error is returned; otherwise the password update is made for the token's user, and only when it succeeds is the token deleted |
| ForgotPasswordActions.LinkUsedOnce | src/lib/auth/forgot-password-actions.ts:125-129 | after a successful reset the same token never verifies again |
| ResetPasswordPage.GetPasswordStrength | src/app/reset-password/page.tsx:132-137 | none iff the password is empty; Too Short below 8 UTF-16 code units, Good from 8 to 11, Strong from 12 |
| ResetPasswordPage.StrengthMonotone | src/app/reset-password/page.tsx:132-137 | a password with more UTF-16 code units never rates lower |
| ResetPasswordPage.ResetPasswordPageState.constructor | src/app/reset-password/page.tsx:13-23 | verifying, no valid token, empty email, error and fields, not loading, nothing called; the token is the `token` parameter |
| ResetPasswordPage.ResetPasswordPageState.VerifyOnMount | src/app/reset-password/page.tsx:25-46 | without a token: "No reset token provided" and no verification; with one, it is verified once, and the page accepts it iff the answer is valid with an email, else shows the answer's error or "Invalid token"; verifying stops either way |
| ResetPasswordPage.ResetPasswordPageState.SetPasswords | src/app/reset-password/page.tsx:20-21 | only the two password fields change |
| ResetPasswordPage.ResetPasswordPageState.HandleSubmit | src/app/reset-password/page.tsx:48-81 | a short password is refused first, then a mismatch, each with its toast and no call; without a token nothing happens; otherwise `resetPassword` is called once with the token and the password and the answer's toast is shown; loading is off afterwards |
| ResetPasswordPage.SubmitReachesResetOnlyWhenEnabled | src/app/reset-password/page.tsx:51-59 | when not loading, the button is enabled exactly for the passwords the submit handler lets through, and those rate Good or Strong (also line 224) |
| ResetPasswordPage.FourAstralCharactersAreLongEnough | src/app/reset-password/page.tsx:132-137 | four characters outside the Basic Multilingual Plane are eight UTF-16 code units: the password rates Good and the button is enabled |
| AbuseProtection.ParseForwardedIp | src/lib/security/abuse-protection.ts:20-24 | nothing for a missing or empty header; a result is non-empty, trimmed and holds no comma |
| AbuseProtection.ForwardedIpIsFirstHop | src/lib/security/abuse-protection.ts:20-24 | `a, rest` yields `a` trimmed, or nothing when `a` is blank, whatever the later hops are |
| AbuseProtection.RetryAfterSeconds | src/lib/security/abuse-protection.ts:26-30 | present iff the reset is given, non-zero and in the future; then it is the least whole number of seconds covering the wait |
| AbuseProtection.NormalizeEmail | src/lib/security/abuse-protection.ts:32-34 | the result is no longer, has no surrounding blanks and no capital letters |
| AbuseProtection.NormalizeEmailIdempotent | src/lib/security/abuse-protection.ts:32-34 | normalising twice is normalising once |
| AbuseProtection.NormalizeEmailIgnoresCase | src/lib/security/abuse-protection.ts:32-34 | addresses differing only in case or surrounding spaces normalise alike |
| AbuseProtection.ClientIp | src/lib/security/abuse-protection.ts:36-52 | never empty: the first forwarded hop if any, else a present `x-real-ip`, else `unknown` |
| AbuseProtection.BlankHopFallsBack | src/lib/security/abuse-protection.ts:40-50 | a blank first forwarded hop falls through to `x-real-ip`, then `unknown` |
| AbuseProtection.CheckRateLimit | src/lib/security/abuse-protection.ts:54-68 | denied iff limiting is on and the limiter refused; a denial carries the retry seconds of the limiter's reset |
| AbuseProtection.SubmissionRateLimit | src/lib/security/abuse-protection.ts:70-132 | with limiting off everything is allowed and no key is used; otherwise the keys are `<prefix>:<ip>` and `<prefix>:<normalised email>`, allowed iff both pass, the network message wins over the e-mail message |
| AbuseProtection.PartnerSubmissionRateLimit | src/lib/security/abuse-protection.ts:70-100 | two `partner:` keys; a block only when limiting is on |
| AbuseProtection.CoachSubmissionRateLimit | src/lib/security/abuse-protection.ts:102-132 | two `coach:` keys; a block only when limiting is on |
| AbuseProtection.SubmissionKeyIgnoresEmailCase | src/lib/security/abuse-protection.ts:76-80 | the submission decision and keys are the same for an address in any case (also lines 108-112) |
| AbuseProtection.DebugActionCooldown | src/lib/security/abuse-protection.ts:134-151 | one key `debug:<action>:<ip>`; blocked iff limiting is on and that key is refused, with the cooldown message |
| AbuseProtection.ShouldLogInvalidWebhookAttempt | src/lib/security/abuse-protection.ts:153-160 | always true with limiting off; otherwise exactly the limiter's verdict on `invalid:<status>:<ip>` |
| Http.HeaderGet | src/lib/security/abuse-protection.ts:40-41 | `headers.get(name)`: found iff the lower-cased name is a key, with that key's value |
| Http.HeaderGetIgnoresCase | src/lib/security/abuse-protection.ts:40-41 | the answer does not depend on how the name is cased |
| Http.OrElse | src/lib/security/abuse-protection.ts:41-42 | `a`, or else `b`: `a` when it is a non-empty string, otherwise `b` |
| Http.OrOpt | src/lib/security/abuse-protection.ts:40-41 | `a`, or else `b`, over two optional strings, by the same rule |
| RequestBody.ParseJsonBodyWithLimit | src/lib/security/request-body.ts:10-62 | every refusal is a 400, 413 or 415 |
| RequestBody.ParsedMeansChecked | src/lib/security/request-body.ts:17-61 | a body is parsed iff the content type passes (when required), the declared length is not over the limit, the body can be read, it is at most `maxBytes` UTF-8 bytes and it is valid JSON; the data is what the JSON parser returned |
| RequestBody.GuardOrder | src/lib/security/request-body.ts:17-34 | a wrong content type is 415 whatever the body; a declared length over the limit is 413 and the body is never looked at |
| RequestBody.NonFiniteLengthIgnored | src/lib/security/request-body.ts:25-28 | a content length that is not a finite number never refuses the request |
| SafeAction.Redact | src/lib/safe-action.ts:56-63 | the same keys; every sensitive key that is present holds `[REDACTED]`, every other key its own value |
| SafeAction.SanitizeInputs | src/lib/safe-action.ts:51-66 | a value that is not an object or an array comes back as it is; an object or array comes back as a shallow copy with its sensitive keys redacted |
| SafeAction.RedactIdempotent | src/lib/safe-action.ts:56-63 | redacting twice is redacting once |
| SafeAction.RedactExamples | src/lib/safe-action.ts:56-63 | an ordinary field such as `email` keeps its value; a password is hidden; redaction adds no key that was not there |
| SafeAction.GetTracingHeaders | src/lib/safe-action.ts:27-46 | outside a request: neither value; otherwise the user agent, and the client IP from the first forwarded hop, else `x-real-ip`, else `cf-connecting-ip`, with empty values counted as absent |
| SafeAction.WithLogging | src/lib/safe-action.ts:82-128 | the wrapped action's outcome is passed on unchanged; the one event names the action, carries the tracing headers and the sanitised inputs, and says success iff the action returned, with the error message iff it threw |
| Settings.SettingsOf | src/lib/api/settings.ts:24-27 | a key is in the map iff some row has it |
| Settings.LastRowWins | src/lib/api/settings.ts:25-27 | a key's value is that of a row with the key that no later row overrides |
| Settings.GetSettings | src/lib/api/settings.ts:14-33 | `{}` when the select fails; otherwise the `forEach` loop builds exactly `SettingsOf(rows)` |
| Settings.GetSetting | src/lib/api/settings.ts:38-57 | the default for a missing key; for a numeric default the number, or the default when it is NaN; for a boolean default true iff the text is exactly `true`; otherwise the text; the kind of the default is kept |
| Settings.FlagIsExact | src/lib/api/settings.ts:52-54 | `TRUE`, `True`, `1` and `yes` read as false |
| Settings.NumericOfNat | src/lib/api/settings.ts:47-50 | a stored natural number reads as that number |
| Settings.NumericFallback | src/lib/api/settings.ts:47-50 | a non-numeric text reads as the default; the empty text reads as 0, as `Number('')` does |
| Settings.UpdateSetting | src/lib/api/settings.ts:62-80 | stored iff the upsert has no error: the key gets the value and every other key keeps its own; an error is thrown with the key and message |
| Settings.UpdateThenRead | src/lib/api/settings.ts:38-80 | a value written is read back as that text |
| Challenges.GetChallengeModeStatus | src/lib/challenges/actions.ts:12-15 | false when unset; otherwise true iff the stored text is `true` |
| Challenges.Guard | src/lib/challenges/actions.ts:26-42 | lets the caller through iff signed in with the admin role; otherwise a failed result with the login or admin error (also lines 70-86) |
| Challenges.ToggleChallengeModeAsWritten | src/lib/challenges/actions.ts:21-60 | the toggle as written: the guard's result for a rejected caller; a failed upsert rejects the promise (see Findings) |
| Challenges.ToggleChallengeMode | src/lib/challenges/actions.ts:21-60 | the toggle with a failed update reported as its declared error result: always resolves |
| Challenges.SetChallengeModeStatusAsWritten | src/lib/challenges/actions.ts:66-98 | the setter as written: a failed upsert rejects the promise |
| Challenges.SetChallengeModeStatus | src/lib/challenges/actions.ts:66-98 | the setter with a failed update reported as its declared error result: always resolves |
| Challenges.FailedUpdateRejects | src/lib/challenges/actions.ts:49-53 | as written, an admin whose update fails gets a rejection carrying the upsert's message, never the declared error result (also lines 88-92) |
| Challenges.AsWrittenAgreesOnSuccess | src/lib/challenges/actions.ts:21-98 | without an upsert error the as-written and corrected actions agree |
| Challenges.ToggleRule | src/lib/challenges/actions.ts:21-60 | only a signed-in admin changes the table; then the flag reads as the negation of before, the result says so, and no other key changes; a failed update changes nothing and reports the failure |
| Challenges.ToggleTwiceRestores | src/lib/challenges/actions.ts:45-49 | two successful toggles restore the flag |
| Challenges.SetRule | src/lib/challenges/actions.ts:66-98 | only a signed-in admin changes the table; a successful set reads back as the value; a failed one changes nothing and reports the failure |
| FeatureFlags.ParseBooleanEnv | src/lib/feature-flags.ts:1-4 | an unset or empty value gives the default; any other value is true iff it lower-cases to `true` |
| FeatureFlags.CaseInsensitive | src/lib/feature-flags.ts:3 | a value and its upper-case form read the same |
| FeatureFlags.SetValueOverridesDefault | src/lib/feature-flags.ts:2-3 | `TRUE` and `True` are true; `1`, `yes` and ` true` are false even with a true default |
| FeatureFlags.EnableMatchShop | src/lib/feature-flags.ts:6-9 | off when the variable is unset; on only when it reads `true` |
| Plans.FeaturesDistinct | src/lib/constants/plans.ts:29-45 | no plan lists a feature twice |
| Plans.PlanFeatures | src/lib/constants/plans.ts:23-48 | each plan's entry is stored under its own name, with that plan's features, price and court limit |
| Plans.FeatureTiers | src/lib/constants/plans.ts:50-52 | STARTER has no feature, PRO every feature but MULTI_STAFF and ADVANCED_ANALYTICS, BUSINESS every feature |
| Plans.FeaturesNest | src/lib/constants/plans.ts:29-52 | a feature of a lower plan is a feature of every higher one |
| Plans.PricesAndCourtsIncrease | src/lib/constants/plans.ts:27-44 | a higher plan costs more, allows more courts and unlocks more features |
| Plans.NamesIdentifyPlans | src/lib/constants/plans.ts:25-41 | different plans have different names |
| PartnerOnboarding.Without | src/components/PartnerOnboarding.tsx:29 | exactly the goals other than `id`, shorter when `id` was there, still without duplicates |
| PartnerOnboarding.WithoutAbsent | src/components/PartnerOnboarding.tsx:29 | a list without `id` is left as it is |
| PartnerOnboarding.ToggleRule | src/components/PartnerOnboarding.tsx:27-35 | `id` is selected afterwards iff it was not and fewer than five were selected; every other goal keeps its state |
| PartnerOnboarding.ToggleKeepsBounds | src/components/PartnerOnboarding.tsx:27-35 | the selection stays free of duplicates and at most five |
| PartnerOnboarding.ToggleTwiceRestores | src/components/PartnerOnboarding.tsx:27-35 | selecting a goal and deselecting it again restores the selection |
| PartnerOnboarding.WithoutAppended | src/components/PartnerOnboarding.tsx:29-32 | removing a goal that was just appended to a list without it gives the list back |
| PartnerOnboarding.ToggleTwiceMovesLast | src/components/PartnerOnboarding.tsx:27-35 | deselecting and reselecting a goal keeps the same goals, with `id` moved to the end |
| PartnerOnboarding.Onboarding.constructor | src/components/PartnerOnboarding.tsx:23-25 | step 0, no goals, no plan, no completion |
| PartnerOnboarding.Onboarding.ToggleGoal | src/components/PartnerOnboarding.tsx:27-35 | the goals become `Toggle` of them; the step is `StepAfter` the goal press (unchanged), and the plan and the completions are unchanged (also line 126) |
| PartnerOnboarding.Onboarding.SelectPlan | src/components/PartnerOnboarding.tsx:158-160 | only the plan changes (also lines 294-296) |
| PartnerOnboarding.Onboarding.NextStep | src/components/PartnerOnboarding.tsx:37-43 | below the last step it advances one; on the last step it completes once with the goals and the plan |
| PartnerOnboarding.Onboarding.PrevStep | src/components/PartnerOnboarding.tsx:45-49 | back one step, never below 0, which is `StepAfter` a Back press |
| PartnerOnboarding.Onboarding.PressContinue | src/components/PartnerOnboarding.tsx:249-252 | nothing while disabled; otherwise it acts as `NextStep`; the new step is `StepAfter` a Continue press |
| PartnerOnboarding.Onboarding.PressSkip | src/components/PartnerOnboarding.tsx:240-245 | where Skip is shown, one completion with no goals and no plan; nothing else changes; the step is `StepAfter` a Skip press |
| PartnerOnboarding.PlanRequiredToAdvance | src/components/PartnerOnboarding.tsx:240-252 | without a plan, no sequence of presses starting at or before the plan step moves past it |
| PartnerOnboarding.PlanUnlocksContinue | src/components/PartnerOnboarding.tsx:249-252 | with a plan chosen, Continue on the plan step reaches the last step, after which the presses act as from there |
| ShopActions.EmailPatternShape | src/lib/shop/actions.ts:288 | the email pattern accepts exactly the strings with no white space, exactly one `@` that is not first, and a `.` after it with at least one character on each side |
| ShopActions.EmailExamples | src/lib/shop/actions.ts:288-291 | `a@b.co` is accepted; `a@b`, `@b.co` and `a@.co` are refused |
| ShopActions.AdminGuard | src/lib/shop/actions.ts:149-166 | the caller gets through iff signed in with the `admin` role; a refusal is never a success |
| ShopActions.NonEmpty | src/lib/shop/actions.ts:176-186 | a non-empty text is kept; an empty or missing one becomes null |
| ShopActions.InsertedProduct | src/lib/shop/actions.ts:176-186 | the inserted row is active with the given id, name, category and price; new only when marked so; stock 0 when not given; empty description and image become null |
| ShopActions.ApplyPatch | src/lib/shop/actions.ts:225-229 | every field the patch names is replaced and every other field kept; the id never changes |
| ShopActions.EmptyPatchIdentity | src/lib/shop/actions.ts:225-229 | the empty patch changes nothing |
| ShopActions.FilterProducts | src/lib/shop/actions.ts:62-84 | exactly the rows the caller's conditions select, no more than there are rows |
| ShopActions.GetProducts | src/lib/shop/actions.ts:45-96 | a failed query gives no products; otherwise exactly the rows selected for the caller |
| ShopActions.VisitorsSeeActiveOnly | src/lib/shop/actions.ts:65-82 | a caller who is not admin sees only active products, and an `isActive` filter changes nothing for them |
| ShopActions.FilterIgnoresIsActive | src/lib/shop/actions.ts:79-82 | for a non-admin the `isActive` filter is ignored |
| ShopActions.GetProductById | src/lib/shop/actions.ts:101-135 | a product iff the query succeeds, the id exists, and it is active or the caller is admin; then the stored row |
| ShopActions.ShopStore.constructor | src/lib/shop/actions.ts:1-37 | the given products and subscribers |
| ShopActions.ShopStore.CreateProduct | src/lib/shop/actions.ts:140-196 | refused (no change) for a non-admin, a category outside Racket, Shoes, Apparel and Accessory, or a failed insert; otherwise the inserted row is added; subscribers never change |
| ShopActions.ShopStore.UpdateProduct | src/lib/shop/actions.ts:201-236 | refused (no change) for a non-admin or a failed update; otherwise the patch is applied to the row with that id, and an unknown id changes nothing |
| ShopActions.ShopStore.DeleteProduct | src/lib/shop/actions.ts:242-275 | refused (no change) for a non-admin or a failed update; otherwise the product becomes inactive and stays in the table |
| ShopActions.ShopStore.SubscribeNewsletter | src/lib/shop/actions.ts:283-339 | an address the pattern refuses changes nothing; an active subscriber is left alone; an inactive one is reactivated, a new one added, each unless the write fails; on success the lower-cased address is active; other subscribers never change |
| ShopActions.ShopStore.UnsubscribeNewsletter | src/lib/shop/actions.ts:344-358 | a failed update changes nothing; otherwise the lower-cased address becomes inactive, and an unknown address is not an error |
| ShopActions.SubscriberKeyIgnoresCase | src/lib/shop/actions.ts:295-299 | addresses that differ only in case are the same subscriber (also lines 349-350) |
| ShopActions.DeletedProductHidden | src/lib/shop/actions.ts:130-132 | after a soft delete a visitor can no longer fetch the product by id, an admin still can (also line 265) |
| ShopActions.GetNewsletterSubscribers | src/lib/shop/actions.ts:363-394 | the subscribers for an admin; nothing for anyone else or when the query fails |
| ReportsActions.GetAdminContext | src/app/reports/actions.ts:34-60 | signed out iff "Not authenticated"; a user is admin iff their email is the configured, trimmed admin address or their role is `admin`; every other user is "Forbidden" |
| ReportsActions.AdminEmailBypassesRole | src/app/reports/actions.ts:44-47 | the configured address is admin whatever its stored role, with or without spaces around the setting |
| ReportsActions.StatusFor | src/app/reports/actions.ts:182 | `dismiss` gives dismissed; any other action gives resolved |
| ReportsActions.NonEmpty | src/app/reports/actions.ts:92 | a non-empty text is kept; an empty or missing one becomes null (also line 201) |
| ReportsActions.MapReport | src/app/reports/actions.ts:148-161 | the report fields are kept; a reporter is present iff the row has one, with its id, "Unknown" for a missing name and "" for a missing email |
| ReportsActions.SelectReports | src/app/reports/actions.ts:136-162 | exactly the mapped rows that pass the status and target-type filters, no more than there are rows |
| ReportsActions.GetReports | src/app/reports/actions.ts:110-169 | a non-admin gets the access error and no data; a failed query gets "Failed to fetch reports." and no data; otherwise the listing is exactly the reports `SelectReports` picks for the status and target type, with no error |
| ReportsActions.GetReportActions | src/app/reports/actions.ts:217-249 | a non-admin gets the access error and no data; a failed query gets "Failed to fetch report actions." and no data; otherwise exactly the actions logged for the report |
| ReportsActions.ActionsOf | src/app/reports/actions.ts:239 | exactly the actions of one report |
| ReportsActions.ReportStore.constructor | src/app/reports/actions.ts:6-32 | the given reports and action log |
| ReportsActions.ReportStore.SubmitReport | src/app/reports/actions.ts:65-105 | signed out or a missing target type, target id or reason: an error and no change; otherwise a pending report is filed under the new id unless the insert fails; the action log never changes |
| ReportsActions.ReportStore.ResolveReport | src/app/reports/actions.ts:174-212 | a non-admin and a failed status update change nothing; otherwise the report's status becomes dismissed or resolved, and the action is logged unless the log insert fails, in which case the new status stays and an error is returned |
| ReportsActions.ResolutionLogged | src/app/reports/actions.ts:217-244 | a logged resolution shows up in that report's action history (also lines 195-202) |
| AdminActions.Filtered | src/lib/admin/actions.ts:77-84 | the rows kept are exactly the table's rows meeting the role and search conditions (membership; the order is stated by `AdminActions.FilteredAppend`) |
| AdminActions.FilteredAppend | src/lib/admin/actions.ts:77-84 | the filter distributes over concatenation and keeps a one-row list iff its row passes: the kept rows are in input order, each as often as it occurs |
| AdminActions.Window | src/lib/admin/actions.ts:58-86 | at most `limit` rows, exactly `limit` when the table reaches that far, each the row at `from + k` |
| AdminActions.GetAllUsers | src/lib/admin/actions.ts:36-100 | succeeds iff the caller is a signed-in admin and the query does not fail; the login and admin errors otherwise; page and limit default to 1 and 10, the role filter is skipped for `all`, and the users are the page's window of the matching rows with `totalPages` = ceil(total / limit) |
| AdminActions.RowOnItsPage | src/lib/admin/actions.ts:56-59 | every matching row appears on page `k / limit + 1` at position `k % limit`, and that page is within `totalPages` (also line 98) |
| AdminActions.PageSpansLimit | src/lib/admin/actions.ts:58-59 | every page holds at most `limit` rows, and a page before the last holds exactly `limit` (also line 98) |
| AdminActions.UserTable.UpdateUserRole | src/lib/admin/actions.ts:106-144 | succeeds iff the caller is an admin, the role is one of the three and the update does not fail; only then is the user's role changed, and nothing else is |
| AdminActions.Take | src/lib/admin/actions.ts:179 | `.limit(n)`: a prefix of the rows of length min(n, rows) |
| AdminActions.SearchUsers | src/lib/admin/actions.ts:150-187 | empty for a non-admin, a query under two UTF-16 code units or a failed query; otherwise a prefix of the matching rows in table order, at most 20, exactly 20 when that many match, and every match when fewer than 20 match |
| AdminActions.UserTable.constructor | src/lib/admin/actions.ts:106-144 | the given role table |
| ChatRoom.Merge | src/components/community/ChatRoom.tsx:117-120 | the row is replaced, the sender and reactions are kept, and `is_deleted` holds iff the update has a `deleted_at` |
| ChatRoom.ApplyUpdate | src/components/community/ChatRoom.tsx:115-122 | same length; every message with the updated id is merged, every other message is kept |
| ChatRoom.UpdateKeepsIds | src/components/community/ChatRoom.tsx:117-120 | an update keeps every id in place, so a list without duplicate ids stays without |
| ChatRoom.Inserted | src/components/community/ChatRoom.tsx:87-99 | an inserted message carries the row and the fetched sender, no reactions, not deleted |
| ChatRoom.ChatRoomState.constructor | src/components/community/ChatRoom.tsx:17-20 | no messages, loading, `hasMore` true, no cursor |
| ChatRoom.ChatRoomState.LoadMessages | src/components/community/ChatRoom.tsx:41-57 | a good answer replaces the list, cursor and `hasMore`; an error keeps them; loading ends |
| ChatRoom.ChatRoomState.HandleLoadMore | src/components/community/ChatRoom.tsx:60-71 | a request is made iff there is more and a non-empty cursor; older messages are appended after those shown; an error or no request changes nothing |
| ChatRoom.ChatRoomState.HandleNewMessage | src/components/community/ChatRoom.tsx:74-112 | a message with a new id goes first; a known id changes nothing; the id is listed afterwards and ids stay unique |
| ChatRoom.ChatRoomState.HandleUpdateMessage | src/components/community/ChatRoom.tsx:115-122 | the list becomes `ApplyUpdate` of it; ids stay unique; nothing else changes |
| ChatRoom.InsertMakesIdKnown | src/components/community/ChatRoom.tsx:103-111 | after an insert the id is known, so the same event delivered again is ignored |
| ChatRoom.UpdateOfUnknownId | src/components/community/ChatRoom.tsx:117-120 | an update for an id not listed changes nothing |
| DMChat.Merge | src/components/community/DMChat.tsx:75 | the update's fields win, and the message is deleted iff the update carries `deleted_at` |
| DMChat.ApplyUpdate | src/components/community/DMChat.tsx:72-78 | same length; the message with the update's id is merged, every other one is unchanged |
| DMChat.Reversed | src/components/community/DMChat.tsx:125 | the display order: position k shows the stored message from the other end |
| DMChat.ReversedTwice | src/components/community/DMChat.tsx:125 | reversing the display order gives back the stored order |
| DMChat.NewestShownLast | src/components/community/DMChat.tsx:59-71 | a message just received is shown last (also line 125) |
| DMChat.CommunityIdOf | src/components/community/DMChat.tsx:91 | the conversation id up to its first `_`, or all of it without one; it never contains `_` |
| DMChat.CommunityIdOfComposite | src/components/community/DMChat.tsx:91 | a conversation id `community_rest` names that community |
| DMChat.SendCall | src/components/community/DMChat.tsx:89-94 | the send goes to the other user (`""` without one) in the conversation's community, with the text and image |
| DMChat.DMChatState.constructor | src/components/community/DMChat.tsx:24-34 | no messages, loading, empty input, no image, not editing, no calls |
| DMChat.DMChatState.LoadMessages | src/components/community/DMChat.tsx:40-49 | a good answer replaces the list (empty without data) and the cursor; an error keeps them; loading ends |
| DMChat.DMChatState.OnInsert | src/components/community/DMChat.tsx:59-71 | the new message is put first, not deleted, without checking its id; nothing else changes |
| DMChat.DMChatState.OnUpdate | src/components/community/DMChat.tsx:72-78 | the list becomes `ApplyUpdate`; nothing else changes |
| DMChat.DMChatState.HandleSendMessage | src/components/community/DMChat.tsx:81-104 | blank text and no image: a toast and no call; otherwise exactly one `SendCall`; success clears text and image, an error is toasted and keeps them; sending ends |
| DMChat.DMChatState.HandleEditMessage | src/components/community/DMChat.tsx:106-117 | blank content only leaves edit mode, with no call; otherwise one edit call, and success leaves edit mode and clears the content |
| DMChat.RepeatedInsertDuplicates | src/components/community/DMChat.tsx:59-71 | the same insert twice is listed twice |
| MessageInput.PdfSupported | src/components/community/MessageInput.tsx:40-45 | every PDF is supported; a supported file that is not a PDF has an `image/` type (also line 80) |
| MessageInput.Extension | src/components/community/MessageInput.tsx:105 | never empty |
| MessageInput.ExtensionWithoutDot | src/components/community/MessageInput.tsx:105 | a name without a dot is its own extension, lower-cased, or `bin` when empty |
| MessageInput.ExtensionAfterLastDot | src/components/community/MessageInput.tsx:105 | the extension is the lower-cased text after the last dot, `bin` when that is empty |
| MessageInput.Quote | src/components/community/MessageInput.tsx:141-142 | the reply quote opens with `> [` |
| MessageInput.FinalContent | src/components/community/MessageInput.tsx:139-144 | the typed content, with the quote in front when replying |
| MessageInput.UnnamedSenderQuote | src/components/community/MessageInput.tsx:141-142 | a reply to a sender without a name is attributed to `Unknown` |
| MessageInput.AttachmentPath | src/components/community/MessageInput.tsx:97-107 | no path iff neither `currentUserId` nor the session gives a user; `currentUserId` wins when set |
| MessageInput.Composer.constructor | src/components/community/MessageInput.tsx:29-38 | an empty composer with no file, no toasts, uploads or sends |
| MessageInput.Composer.HandleFileChange | src/components/community/MessageInput.tsx:59-83 | no file: nothing; unsupported or over 5 MB: a toast and the old attachment stays; otherwise the file is attached, a PDF without a preview and an image with one |
| MessageInput.Composer.ClearSelectedFile | src/components/community/MessageInput.tsx:85-95 | no file, no preview, not a PDF; nothing else changes |
| MessageInput.Composer.Deliver | src/components/community/MessageInput.tsx:146-157 | exactly one send of the final content; success clears text, file and reply; an error is toasted and keeps them |
| MessageInput.Composer.UploadAttachment | src/components/community/MessageInput.tsx:97-122 | `Not authenticated` without a user; otherwise the path of `AttachmentPath`, recorded as uploaded, unless the upload fails |
| MessageInput.Composer.HandleSendMessage | src/components/community/MessageInput.tsx:124-166 | blank text and no file: nothing happens; a failed upload is toasted and nothing is sent; otherwise one send of the final content with the uploaded path; success clears the composer, an error keeps it; loading ends |
| MessageInfoModal.LazyUntil | src/components/community/MessageInfoModal.tsx:55-60 | the lazy `(.*?)` before a stop: the least length at which the stop occurs with no line break before it |
| MessageInfoModal.LazyUntilFinds | src/components/community/MessageInfoModal.tsx:55 | the lazy group ends at the first stop when nothing before it is a line break or starts a stop |
| MessageInfoModal.QuotePreview | src/components/community/MessageInfoModal.tsx:52-84 | the reply part is shown iff it is not blank; the id form gives its sender and text; with neither form the sender is empty and the quote is all text |
| MessageInfoModal.RenderMessagePreview | src/components/community/MessageInfoModal.tsx:45-93 | content not opening with `> ` or without a blank line is shown as it is |
| MessageInfoModal.ReplySplit | src/components/community/MessageInfoModal.tsx:46-50 | a one-line quote between `> ` and a blank line is cut out as the quote, the rest as the reply |
| MessageInfoModal.RenderSplitAt | src/components/community/MessageInfoModal.tsx:47-50 | a text opening with `> ` is cut at its first blank line |
| MessageInfoModal.IdFormParsed | src/components/community/MessageInfoModal.tsx:55-58 | `[name] [id:id] rest` gives the sender `name` and keeps `rest` |
| MessageInfoModal.QuoteRegrouped | src/components/community/MessageInput.tsx:142 | the composer's quote and the reply text are the same characters |
| MessageInfoModal.SeparatorFound | src/components/community/MessageInfoModal.tsx:47 | the first blank line of a reply is the one the composer put after the quote |
| MessageInfoModal.ReplyRoundTrip | src/components/community/MessageInfoModal.tsx:45-86 | the preview undoes the composer: a reply shows its sender (`Unknown` without a name), the quoted text behind its `[uid:..]` prefix, and the typed content when it is not blank |
| MessageInfoModal.QuoteWithoutSender | src/components/community/MessageInfoModal.tsx:59-65 | a quote with no leading bracket is all text, with no sender |
| MessageReactions.GroupOf | src/components/community/MessageReactions.tsx:17-23 | exactly the reactions with that emoji, in order |
| MessageReactions.Emojis | src/components/community/MessageReactions.tsx:17-31 | every emoji used, each once, in order of first use |
| MessageReactions.GroupReactions | src/components/community/MessageReactions.tsx:17-23 | the `reduce` loop yields a group per used emoji, each equal to `GroupOf`, with the keys in order of first use |
| MessageReactions.GroupStep | src/components/community/MessageReactions.tsx:18-21 | one step of the `reduce` keeps the groups and key order in line with the reactions read |
| MessageReactions.EmojisStep | src/components/community/MessageReactions.tsx:18-20 | one reaction more adds its emoji at the end unless it was used before |
| MessageReactions.GroupOfStep | src/components/community/MessageReactions.tsx:21 | one reaction more joins the end of its own emoji's group only |
| MessageReactions.NoSuchEmoji | src/components/community/MessageReactions.tsx:17-23 | an emoji nobody used has an empty group |
| MessageReactions.GroupsPartition | src/components/community/MessageReactions.tsx:17-23 | the group sizes add up to the number of reactions |
| MessageReactions.SignedOutReactedNowhere | src/components/community/MessageReactions.tsx:32 | a signed-out viewer is in no group |
| MessageReactions.Click | src/components/community/MessageReactions.tsx:37-41 | a removal of that emoji iff the viewer is in the group |
| MessageReactions.Names | src/components/community/MessageReactions.tsx:46 | one name per reactor, the empty text for a missing name |
| MessageReactions.RenderChip | src/components/community/MessageReactions.tsx:35-52 | the chip shows the emoji and the group's size, highlighted iff the viewer reacted |
| MessageReactions.TitleNamesEveryone | src/components/community/MessageReactions.tsx:46 | every reactor's name appears in the chip's title |
| MessageReactions.RenderReactions | src/components/community/MessageReactions.tsx:31-54 | one chip per emoji, in order of first use, each rendered from its group |
| MessageReactions.CountsAddUp | src/components/community/MessageReactions.tsx:31-54 | the counts on the chips add up to the number of reactions |
| CommunityActivities.FilteredActivities | src/components/community/CommunityActivities.tsx:52-56 | exactly the activities the active chip keeps (membership; the order is stated by `CommunityActivities.FilteredActivitiesAppend`) |
| CommunityActivities.FilteredActivitiesAppend | src/components/community/CommunityActivities.tsx:52-56 | the filter distributes over concatenation: the kept activities are in input order, each as often as it occurs |
| CommunityActivities.FilteredActivitiesOne | src/components/community/CommunityActivities.tsx:52-56 | a single activity is kept iff the active chip keeps it |
| CommunityActivities.FilterRule | src/components/community/CommunityActivities.tsx:52-56 | All keeps the whole list; Sparring keeps sparring and drilling; Open Play and Tournaments keep exactly their mode |
| CommunityActivities.OneChipPerMode | src/components/community/CommunityActivities.tsx:88-110 | an activity of a known mode shows under exactly one chip besides All (also line 55) |
| CommunityActivities.OtherModesOnlyUnderAll | src/components/community/CommunityActivities.tsx:53-55 | an activity of any other mode shows only under All |
| CommunityActivities.ModeLabel | src/components/community/CommunityActivities.tsx:40-44 | `Tournament` iff RANKED, `Drilling` iff DRILLING, otherwise `Main Bareng` |
| CommunityActivities.TimeLabel | src/components/community/CommunityActivities.tsx:36 | the first five characters of a start time; empty iff there is none |
| CommunityActivities.FormatShortDate | src/components/community/CommunityActivities.tsx:34-38 | corrected: without a start time the label is the date alone |
| CommunityActivities.ShortDateWithTime | src/components/community/CommunityActivities.tsx:34-38 | corrected: an `HH:MM:SS` start shows as the date, a bullet and `HH:MM` |
| CommunityActivities.SeparatorMisencoded | src/components/community/CommunityActivities.tsx:37 | as written, the label carries three stray characters where the bullet belongs, so it differs from the corrected one |
| CommunityActivities.CreateButtonShown | src/components/community/CommunityActivities.tsx:180-191 | shown only to an admin; with activities, shown iff the viewer is an admin of a page with a community id (also lines 24, 71) |
| CommunityActivities.EmptyStateIgnoresCommunityId | src/components/community/CommunityActivities.tsx:24 | the empty state offers the button to an admin without a community id, although `canCreateActivity` is false then (also line 180) |
| CommunityActivities.StripZeros | src/components/community/CommunityActivities.tsx:159 | a prefix of the text, having dropped only zeros and ending in a non-zero |
| CommunityActivities.PriceLabel | src/components/community/CommunityActivities.tsx:158-160 | `Free` iff there is no price or it is not positive |
| CommunityActivities.ThousandsRoundTrip | src/components/community/CommunityActivities.tsx:159 | the text between `IDR ` and `k` gives the price back: thousands before the point, the padded fraction after it |
| CommunityActivities.WholeThousands | src/components/community/CommunityActivities.tsx:159 | a whole number of thousands shows as `IDR <k>k` |
| BookingHistory.FilteredBookings | src/app/bookings/history/page.tsx:50-55 | exactly the bookings of the active tab (completed or confirmed, cancelled, pending) (membership; the order is stated by `BookingHistory.FilteredBookingsAppend`) |
| BookingHistory.FilteredBookingsAppend | src/app/bookings/history/page.tsx:50-55 | the filter distributes over concatenation and keeps a one-row list iff its row passes: the kept rows are in input order, each as often as it occurs |
| BookingHistory.OneTabPerStatus | src/app/bookings/history/page.tsx:50-55 | each of the four statuses is in exactly one tab, confirmed under Completed; any other status is in none |
| BookingHistory.TabsPartition | src/app/bookings/history/page.tsx:50-55 | for bookings of the four statuses the three tab sizes add up to the number of bookings |
| BookingHistory.StatusLabel | src/app/bookings/history/page.tsx:152 | SELESAI iff completed, LUNAS iff confirmed, BELUM BAYAR iff pending, DIBATALKAN iff none of these |
| BookingHistory.ActionFor | src/app/bookings/history/page.tsx:178-196 | book again iff completed or confirmed; pay iff pending, to the payment URL when non-empty, else to the confirmation link; refunded otherwise |
| BookingHistory.FirstValue | src/app/bookings/history/page.tsx:20-30 | the value of the first pair with that name, none iff no pair has it |
| BookingHistory.ConfirmationTarget | src/app/bookings/history/page.tsx:29-37 | a booking is confirmed only when `payment` is `success` and `booking_id` is present and non-empty, and it is that id |
| BookingHistory.TwoParams | src/app/bookings/history/page.tsx:20-30 | two `&`-joined pairs with different names read back as their values |
| BookingHistory.FallbackLinkConfirms | src/app/bookings/history/page.tsx:29-37 | the fallback pay link leads back to a page that confirms exactly that booking, for any non-empty id without `&` (also line 187) |
| HeroBookingWidget.Matching | src/components/HeroBookingWidget.tsx:48-52 | exactly the venues whose lower-cased name, or non-empty lower-cased city, contains the lower-cased query (membership; the order is stated by `HeroBookingWidget.MatchingAppend`) |
| HeroBookingWidget.MatchingAppend | src/components/HeroBookingWidget.tsx:48-52 | the filter distributes over concatenation and keeps a one-row list iff its row passes: the kept rows are in input order, each as often as it occurs |
| HeroBookingWidget.Suggestions | src/components/HeroBookingWidget.tsx:42-54 | none for an empty query; otherwise at most five venues, each of them a match |
| HeroBookingWidget.SuggestionsArePrefix | src/components/HeroBookingWidget.tsx:53 | the suggestions are the first matches in order: all of them when at most five, else the first five |
| HeroBookingWidget.FindByName | src/components/HeroBookingWidget.tsx:74 | a venue whose name equals the query ignoring case; none iff no venue's name does |
| HeroBookingWidget.FindOwnName | src/components/HeroBookingWidget.tsx:74 | with case-distinct names, looking up a venue's own name finds that venue |
| HeroBookingWidget.Set | src/components/HeroBookingWidget.tsx:70-82 | `params.set`: afterwards the name reads back the new value and every other name keeps its value; an existing name is replaced in place |
| HeroBookingWidget.SearchQueryRule | src/components/HeroBookingWidget.tsx:67-84 | a search always carries `tab=book`; a query naming a venue exactly gives `venueId`, any other non-empty query gives `q`, an empty one neither; a non-empty date gives `date` |
| HeroBookingWidget.TabComesFirst | src/components/HeroBookingWidget.tsx:70 | setting any other parameter leaves `tab` first |
| HeroBookingWidget.SearchWidget.constructor | src/components/HeroBookingWidget.tsx:16-22 | empty query, today's date, no venues, list closed, no navigation |
| HeroBookingWidget.SearchWidget.LoadVenues | src/components/HeroBookingWidget.tsx:28-37 | the fetched venues replace the list; a failed fetch leaves it; nothing else changes |
| HeroBookingWidget.SearchWidget.ChangeQuery | src/components/HeroBookingWidget.tsx:120-122 | the query is the typed value and the list opens; nothing else changes |
| HeroBookingWidget.SearchWidget.ChangeDate | src/components/HeroBookingWidget.tsx:173 | only the date changes |
| HeroBookingWidget.SearchWidget.HandleSearch | src/components/HeroBookingWidget.tsx:67-86 | one navigation is appended, carrying `SearchQuery` of the override (or the current query), the venues and the date; the list closes |
| HeroBookingWidget.SearchWidget.HandleSuggestionClick | src/components/HeroBookingWidget.tsx:88-91 | the query becomes the venue's name and the list closes, with no navigation |
| CoachSection.Capitalize | src/components/CoachSection.tsx:36-43 | same length; the first letter upper-cased and the rest unchanged |
| CoachSection.CapitalizeKeepsLetters | src/components/CoachSection.tsx:36-43 | capitalising changes nothing but the case of the first letter |
| CoachSection.TransformCoachToUI | src/components/CoachSection.tsx:32-48 | the card keeps id, name and price; title and level are the capitalised level; location is `city, district` exactly when a district is set; the first specialization or `General Training`; experience iff years > 0; achievements iff there are certifications; about iff a non-empty bio |
| CoachSection.MissingFieldsDefault | src/components/CoachSection.tsx:38-41 | a missing rating, review count and photo give 0, 0 and the stock photo |
| CoachSection.LocationNamesDistrict | src/components/CoachSection.tsx:37 | a location with a district starts with the city and ends with the district |
| CoachSection.FilteredCoaches | src/components/CoachSection.tsx:65-73 | exactly the cards whose lower-cased name or location contains the lower-cased query (membership; the order is stated by `CoachSection.FilteredCoachesAppend`) |
| CoachSection.FilteredCoachesAppend | src/components/CoachSection.tsx:65-73 | the filter distributes over concatenation and keeps a one-row list iff its row passes: the kept rows are in input order, each as often as it occurs |
| CoachSection.EmptySearchShowsAll | src/components/CoachSection.tsx:65-73 | an empty search shows every card, in order |
| CoachSection.InitialState | src/components/CoachSection.tsx:56-58 | the query and city come from `q` and `city`, else empty; no card is open |
| CoachSection.CityFilterIgnored | src/components/CoachSection.tsx:57-73 | the city filter never changes which coaches are shown |
| CoachSection.VisibleRule | src/components/CoachSection.tsx:61-73 | a coach is shown iff its card matches the search |
| CoachSection.Visible | src/components/CoachSection.tsx:61-73 | no more cards are shown than there are coaches |
| Strings.Trim | src/lib/payments/service.ts:72-76 | `trim` keeps a middle stretch of the text that neither starts nor ends with white space, and is empty iff the text is all white space |
| Strings.TrimIdempotent | src/lib/payments/service.ts:72-76 | trimming twice is trimming once |
| Strings.TrimToUpperCommute | src/app/api/play-together/route.ts:47-49 | trimming and upper-casing commute |
| Strings.ReplaceFirst | src/lib/payments/service.ts:133 | a text that does not contain the pattern is returned unchanged |
| Strings.Split | src/app/api/webhooks/xendit/route.ts:10-22 | `split` on one character gives at least one part, and no part holds the separator |
| Strings.JoinSplit | src/app/api/webhooks/xendit/route.ts:22 | joining the parts of a split on the same separator gives the text back |
| Strings.IndexOf | src/components/community/MessageInfoModal.tsx:47 | `indexOf` gives the first index where the pattern occurs, and none iff it does not occur |
| Strings.LexLessTrichotomy | src/lib/date-utils.ts:47 | `<` on strings is irreflexive, and of two different strings exactly one is the smaller |
| Strings.LexLessTransitive | src/lib/date-utils.ts:47 | `<` on strings is transitive |
| Strings.NatToStringRoundTrip | src/lib/auth/password-reset-actions.ts:10 | reading back the digits of `String(n)` gives `n` |
| Strings.Pad2 | src/lib/api/bookings.ts:297 | `padStart(2, '0')` gives at least two digits, exactly two below 100 |
| Strings.Pad2RoundTrip | src/app/api/external/v1/bookings/route.ts:27 | reading back a padded number gives the number |
| Strings.JsLength | src/app/reset-password/page.tsx:132-137 | the UTF-16 length `.length` reports: each character counts once, or twice outside the Basic Multilingual Plane |
| Strings.EndsWithAppended | src/app/api/external/v1/bookings/route.ts:27 | appending text in front keeps a suffix |
| JsValues.Get | src/app/api/payments/initiate/route.ts:43-44 | a property of a plain object; `undefined` for a missing key or a non-object |
| JsValues.StringToNumber | src/app/matches/create/page-client.tsx:325 | `Number(s)` of a string: blank text is 0; the forms it reads are worked out by the lemmas below |
| JsValues.NumberOfUntrimmable | src/app/matches/create/page-client.tsx:325 | a text that starts and ends with a non-space is read as it is |
| JsValues.ExponentOfDigits | src/app/matches/create/page-client.tsx:325 | digits, `e`, digits reads as the significand times ten to the exponent |
| JsValues.ExponentParts | src/app/matches/create/page-client.tsx:325 | the trimmed reader splits such a literal at its `e` |
| JsValues.ExponentIndexAt | src/app/matches/create/page-client.tsx:325 | the exponent marker found is the first `e` after a run of digits |
| JsValues.SignificandOfDigits | src/app/matches/create/page-client.tsx:325 | a run of digits is a valid significand with that value |
| JsValues.NonDecimalOfDigits | src/app/matches/create/page-client.tsx:325 | `0x`, `0o` or `0b` followed by digits of that radix reads as their value |
| JsValues.NonDecimalIsNotDecimal | src/app/matches/create/page-client.tsx:325 | a text opening with a radix prefix is not a decimal literal |
| JsValues.SecondNotSignificand | src/app/matches/create/page-client.tsx:325 | a significand whose second character is a radix letter is malformed |
| JsValues.SignedHexIsNaN | src/app/matches/create/page-client.tsx:325 | `Number("-0x10")` is NaN: a sign is not allowed before a radix prefix |
| JsValues.BareExponentIsNaN | src/app/matches/create/page-client.tsx:325 | `Number("1e")` is NaN |
| JsValues.ExponentExample | src/app/matches/create/page-client.tsx:325 | `Number("1e3")` is 1000 |
| JsValues.HexExample | src/app/matches/create/page-client.tsx:325 | `Number("0x10")` is 16 |
| JsValues.HexTen | src/app/matches/create/page-client.tsx:325 | the hexadecimal digits `10` are sixteen |
| JsValues.ParseUnsignedDecimal | src/lib/date-utils.ts:56 | a decimal literal reads as a non-negative value |
| JsValues.NumberOfNatString | src/app/matches/create/page-client.tsx:325 | `Number(String(n))` gives back every natural `n` |
| JsValues.NumberOfDigits | src/lib/date-utils.ts:56 | a run of decimal digits reads as its value |
| JsValues.NumberOfUnsigned | src/lib/date-utils.ts:56 | a trimmed unsigned literal reads through the decimal parser |
| JsValues.LeadingDigits | src/lib/match-rooms/status.ts:20-22 | the longest all-digit prefix: the next character, if any, is not a digit |
| JsValues.ParseSigned | src/lib/match-rooms/status.ts:20-22 | after the white space, NaN iff no digit follows the optional sign |
| JsValues.ParseIntSkipsSpace | src/lib/match-rooms/status.ts:20-22 | `parseInt` skips leading white space and is NaN iff no digit follows it and the sign |
| JsValues.SignedBody | src/lib/match-rooms/status.ts:20-22 | the text after one leading sign, or all of it |
| JsValues.ParseIntOfDigits | src/lib/match-rooms/status.ts:20-22 | `parseInt` reads back a two-digit rendering followed by non-digit text |
| JsValues.ParseIntOfDigitRun | src/lib/match-rooms/status.ts:20-22 | text opening with a digit parses as its leading run of digits |
| JsValues.ParseIntOfPad2 | src/lib/match-rooms/status.ts:20-22 | `parseInt` reads a zero-padded rendering back |
| JsValues.NumberOfPad2 | src/lib/date-utils.ts:56 | `Number` reads a zero-padded rendering back |
| JsValues.Add | src/app/api/external/v1/bookings/route.ts:26 | `a + b` on numbers: exact on finite ones, NaN when either is NaN |
| JsValues.NumberText | src/app/api/external/v1/bookings/route.ts:27 | `String(n)` renders a natural as its decimal digits |
| JsValues.PadStart2 | src/app/api/external/v1/bookings/route.ts:27 | `padStart(2, '0')`: at least two characters, ending in the original text |
| JsValues.PadStart2OfNat | src/app/api/external/v1/bookings/route.ts:27 | padding a natural's rendering is its two-digit rendering |
| JsValues.ToNumber | src/app/api/payments/initiate/route.ts:72 | `Number(v)`: a number is itself, null is 0, undefined is NaN, a string is read as `Number(s)`; an array is read through its `join(',')` text: `[]` is 0, `[x]` is x's number (0 for null, NaN for a boolean or object), two or more elements are NaN |
| JsValues.NatToStringInjective | src/app/api/external/v1/bookings/route.ts:27 | distinct naturals print differently |
| JsValues.Spread | src/app/api/payments/initiate/route.ts:79-82 | `{ ...v }`: an object's own fields, an array's elements keyed by index |
| Arith.CeilDiv | src/lib/admin/actions.ts:98 | `Math.ceil(d / m)` for a positive divisor: the least r with d <= r * m |
| Arith.CeilDivPositive | src/lib/auth/actions.ts:268 | the ceiling is at least 1 exactly when the dividend is positive |

## Left out

**External services and their results**

- Supabase queries, storage and auth sessions are not modelled. Their results are inputs, and a table is a `map` or `seq`. Query-builder behaviour such as `.eq`, `.order` and `.single()` is stated only as far as each action relies on it, for example "the rows of this email". Ordering by `created_at` is taken as the order of the input sequence.
- The Xendit HTTP client's `fetch`, e-mail sending through Resend and the venue list the landing page fetches are outside the model. Their answers are inputs.
- The Xendit retry loop runs over an abstract sequence of responses. Its retry of 4xx answers is modelled as the code behaves.
- The cryptography and randomness are not modelled: `crypto.randomUUID`, `randomBytes`, hashing, chat encryption and `Math.random`. A generated id or random value is an input; the OTP's random value is a real in [0, 1).
- `Date.now`, `new Date` parsing, `Intl.DateTimeFormat` and `date-fns-tz` are not modelled. "Now", today's venue date and localised date labels are inputs.
- `getVenueDateString` (src/lib/date-utils.ts:20-23) is not modelled: it only formats the current instant in the venue's time zone, and that string is an input.
- The image library `sharp` is reduced to the width and height it reports.
- The URL that `URL.createObjectURL` returns is an input. `revokeObjectURL` is not modelled, because it only frees browser memory.
- Realtime subscriptions are not modelled. Their events are method calls on the component classes.
- The `unstable_cache` around the settings reads (tag `settings`, src/lib/api/settings.ts:14-32) is not modelled. `updateSetting` revalidates a path, not that tag (lines 76-78), so a cached read may return the old value. `Settings.UpdateThenRead` assumes every read sees the latest write.
- `revalidatePath`, the timer that redirects after a password reset and logger and console output are not modelled, except where a log row is the observable result, as in `webhook_logs` and the `withLogging` event.
- The webhook route takes the payment service's handler as a function parameter. `WebhookRoute.ServiceHandler` builds that handler from `PaymentsService.HandleXenditWebhook`.
- The OTP reset in `updatePasswordWithOTP` changes the password of the session's user. That is how `supabase.auth.updateUser` works, so the model records the change without a user id.

**Operations not modelled**

- `signUp`, `signIn`, `signOut`, `updateProfile` and `getGoogleAuthUrl` (src/lib/auth/actions.ts:22-181) are not modelled. They pass their arguments straight to Supabase auth.
- `getBookings`, `getBookingById`, `updateBookingStatus` and `uploadPaymentProof` in src/lib/api/bookings.ts are not modelled: they are pass-through queries.
- `getCoaches`, `getCoachById`, `getCoachAvailability` and `getUserCoachBookings` in src/lib/coaches/actions.ts are not modelled: they are pass-through queries.
- `leaveMatchRoom` and `getMatchRoomDetail` in src/lib/api/matchmaking.ts are not modelled. The court selector records its leave call instead.
- `getPaymentRequestStatus` and `getOrderPaymentStatus` in src/lib/payments/service.ts are lookups that feed the transition. Only the transition is modelled.
- `handleDeleteMessage` of DMChat (src/components/community/DMChat.tsx:119-123) is not modelled: it only calls the delete action and leaves the list to the realtime update.
- The read receipts of MessageInfoModal are not modelled. Only the quote parser is.
- The `main` driver of scripts/fix-lucide-imports.js (lines 99-109) and its `fixedCount` counter are not modelled: they only run the walk and print.
- Reading a path that does not exist with `readFileSync` is not modelled: the walk only yields existing files.
- The shared `fileList` array that `findFiles` mutates is modelled as a value threaded through the recursion.

**JavaScript semantics simplified**

- Numbers are real values plus NaN and the infinities. IEEE rounding is not modelled, and money amounts are exact.
- `trim` and the regular-expression class `\s` cover ASCII white space only: space, tab, line feed, carriage return, form feed and vertical tab.
- `toUpperCase` and `toLowerCase` map ASCII letters only.
- Letter case and Unicode normalisation beyond ASCII are not modelled.
- The order of `Object.entries` and of object spreads is not modelled. Objects are maps, so only the final value of each key is observable.
- `URLSearchParams` percent-decoding is not modelled. A query string is split on `&` and `=` as it is.
- `.length`, indexes and slices count UTF-16 code units in JavaScript. The password checks and the user search use `Strings.JsLength` for this. Every other length and slice counts characters. Those other texts are times, dates, ids and hex digits, which are ASCII.
- `$` patterns in the replacement text of `String.prototype.replace` are not modelled. The scripts' replacements hold none.
- `path.join` normalisation is not modelled. A path is a sequence of names.

**Behaviour the model does not capture**

- `CourtSelector.HandleSlotClick`: the source's branch for "leave my own slot" cannot be reached, because an occupied slot returns first. The model puts `assert false` there, and `CourtSelector.LeaveOwnUnreachable` proves the branch is unreachable.
- AdminActions.SearchMatches: the `%` and `_` in the query are taken literally, although `ilike` reads them as wildcards. A comma in the query, which splits the PostgREST `.or()` filter, is not modelled either.
- ShopActions.SearchMatches: the `%` and `_` in the query are taken literally, although `ilike` reads them as wildcards. A comma in the query, which splits the PostgREST `.or()` filter, is not modelled either.
- `CourtSelector`: only the overlay grid (src/components/matchmaking/VisualCourtSelector.tsx:240-264) is modelled. The first layout underneath it is not.
- `Bookings.GetAvailableSlots`: a stored `start_time` is compared with the `HH:00` label exactly. A stored `HH:00:00` therefore does not block the slot, which is how the code behaves.
- PlayTogetherRoute.Validate: its own ensures says only that every refusal is a failure response. The order of the guards is stated by `PlayTogetherRoute.IdentityGuards`, `PlayTogetherRoute.TitleGuards` and `PlayTogetherRoute.ScheduleGuards`.

## Findings

| source | as written | input that shows it | evidently intended | confidence | as-written member | corrected member |
|---|---|---|---|---|---|---|
| src/lib/challenges/actions.ts:49-53,88-92 | `updateSetting` throws when the upsert fails, so the `!result.success` branch can never run and the action rejects instead of answering | an upsert that fails with the error "timeout" | the action returns its declared `{ success: false, error }` result | not executed | Challenges.ToggleChallengeModeAsWritten, Challenges.SetChallengeModeStatusAsWritten, Challenges.FailedUpdateRejects | Challenges.ToggleChallengeMode, Challenges.SetChallengeModeStatus |
| src/components/community/CommunityActivities.tsx:37 | the separator between date and time is the mis-encoded text "â€¢" | any activity with a start time, for example "19:00:00" | a "•" bullet between the date and the time | not executed | CommunityActivities.SeparatorMisencoded, CommunityActivities.FormatShortDateAsWritten | CommunityActivities.ShortDateWithTime, CommunityActivities.FormatShortDate |
