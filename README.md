# MedGuard core in Dafny

MedGuard is a drug-authenticity service for the Nigerian market. People scan a
QR code or send an SMS holding a batch number, and the service answers from
several sources. The first is its own registry of drug batches, with an
expiry check. The second is a simulated NAFDAC public registry. Otherwise the
scanned text is classified as a web address or as unknown. Regulators sign in
with an approved e-mail domain. They can:

- register batches, which gives a QR code;
- list them with a status filter and pages;
- delete them, which also deletes their adverse-reaction reports;
- export the list to Word or PDF;
- go through counterfeit reports filed by the public.

A simulated chaincode keeps an append-only ownership history per batch. On
the admin pages, a browser-side countdown signs the regulator out after 15
idle minutes.

This project models those decision procedures and state changes, and proves
their properties. Tables are maps keyed by id or batch number. Sessions and
forms are maps. "Today", the transaction timestamp, the password check, the
fresh CSRF token and the outcome of the public-registry HTTP call are all
parameters.

Modules follow the source files:

| module | models |
|---|---|
| `Verify` | the smart-scan route |
| `Sms` | the SMS webhook |
| `NafdacApi` | the public-registry route |
| `Emdex` | the EMDEX stub |
| `Chaincode` | the ledger, a class over the world-state map |
| `BlockchainUtils` | the simulated dispatcher |
| `Parser` | QR pre-fill: Python's `urlsplit` and `parse_qs`, the manufacturer heuristic, the batch-parameter search |
| `Ai` | the chatbot's keyword matcher |
| `App` | the e-mail allow-list, login and logout |
| `Report` | counterfeit reports, with a class over the reports table |
| `Admin` | the back office, with a class over the drugs and ADR tables |
| `AdminTimer` | the countdown, a class over the page's variables |

Shared modules:

| module | contents |
|---|---|
| `Wrappers` | Option and Result |
| `Text` | Python string operations (`strip()` over the full `str.isspace` set, ASCII case and digits) and lexicographic order |
| `Dates` | `datetime.date` with `strptime("%Y-%m-%d")`, `isoformat()` and `timedelta(days=n)`, and SQLite's `date()` |
| `Drugs` | the drugs row |

Two observations are proved here:

- The Word and PDF exports label expiry dates differently. The PDF compares
  texts, so an unpadded date that `strptime` accepts ("2025-9-1") sorts after
  "2025-10-14". On 2025-10-14 the Word export calls that batch Expired and the
  PDF export does not (`Admin.LabelsDifferOnUnpaddedDate`). On zero-padded
  dates the two always agree (`Admin.PdfAgreesWithWord`,
  `Admin.ExportsAgreeOnIsoDates`).
- A stored value of empty bytes counts as existing when a batch is registered
  but as absent when it is transferred or queried
  (`Chaincode.EmptyValueExistsButIsAbsent`).

## Model

| member | source | states |
|---|---|---|
| Text.Strip | backend/routes/verify.py:17 | the result is the input with its leading and trailing whitespace removed, and it neither starts nor ends with whitespace |
| Text.StripIdempotent | backend/routes/verify.py:17 | stripping twice is stripping once |
| Dates.NextDay | backend/routes/admin.py:273 | the day after a calendar date is a later calendar date |
| Dates.NextDayIsNext | backend/routes/admin.py:273 | no calendar date lies strictly between a date and its next day |
| Dates.AddDays | backend/routes/admin.py:273 | adding n days gives a calendar date; it is the same date for n = 0 and a later one for n > 0 |
| Dates.AddDaysIsDaysLater | backend/routes/admin.py:273 | adding n days by carrying whole months equals taking the next day n times |
| Dates.IsoOrder | backend/routes/admin.py:369-371 | for dates of years up to 9999, isoformat() texts compare as the dates do, and are equal exactly when the dates are |
| Dates.ParseDate | backend/routes/verify.py:28 | a date that strptime("%Y-%m-%d") accepts is a real date of years 1 to 9999 |
| Dates.ParseIsoRoundTrip | backend/routes/verify.py:28 | strptime reads back exactly the date that isoformat() wrote |
| Dates.SqliteDate | backend/routes/admin.py:179-184 | SQLite's date() on YYYY-MM-DD text yields a real date of a year up to 9999, or NULL |
| Dates.SqliteDateOfIso | backend/routes/admin.py:179-184 | SQLite's date() returns isoformat() text unchanged |
| Verify.VerifySmartScan | backend/routes/verify.py:16-60 | on the stripped text, each verdict holds exactly in its case: valid when the text is a local batch whose expiry parses and is not before today; expired when that expiry is before today; "Could not parse expiry date." when the local expiry does not parse; public_info_found with the public body when there is no local batch and the public registry answered 200; external_url when neither holds and the lower-cased text starts with http:// or https://; otherwise notfound carrying the text |
| Verify.UsesStrippedInput | backend/routes/verify.py:17-22 | stripping the scanned text first changes no verdict |
| Verify.LocalMatchIgnoresPublic | backend/routes/verify.py:25-38 | with a local match the public service has no influence, and the status is valid, expired or notfound |
| Verify.ExpiringTodayIsValid | backend/routes/verify.py:29-32 | a batch expiring today is valid |
| Verify.PastExpiryIsExpired | backend/routes/verify.py:29-30 | a batch whose expiry date is before today is expired |
| Verify.AgainstPublicRegistry | backend/routes/verify.py:38-45 | when the request for a non-empty batch without '/' reaches the public lookup route, an unmatched batch is public_info_found exactly when the snapshot holds a non-empty record for it, and that record is passed on |
| Sms.SmsReply | backend/routes/sms.py:11-43 | exactly one message. It is the prompt exactly when the stripped body is empty (a missing Body reads as ""). Otherwise: "not found" for an unknown batch; the EXPIRED alert before the expiry date; the OK text from the expiry date on; the date error when the expiry does not parse |
| Sms.AgreesWithScan | backend/routes/sms.py:30-40 | for a stored batch, the SMS replies OK, ALERT or date error exactly when the scan says valid, expired or date error |
| Sms.PromptIsNoVerdict | backend/routes/sms.py:19-21 | the prompt is none of the verdict texts |
| Sms.MissingBodyPrompts | backend/routes/sms.py:11 | a missing or empty body gets the prompt |
| NafdacApi.LoadPublicDb | backend/routes/nafdac_api.py:7-15 | the loaded snapshot as it was read, or the empty map when loading fails |
| NafdacApi.LookupDrug | backend/routes/nafdac_api.py:18-28 | 200 with the stored record exactly when the batch holds a non-empty record, otherwise 404 with "Drug not found in public registry" |
| NafdacApi.FailedLoadFindsNothing | backend/routes/nafdac_api.py:13-15 | with a failed load, every lookup answers 404 |
| Emdex.GetDrugInfoFromEmdex | backend/emdex.py:3-32 | a record exactly for "SAM-0808", with status "Registered" and manufacturer "HealthWell Inc."; None otherwise |
| Emdex.IgnoresApiKey | backend/emdex.py:3-25 | the answer does not depend on the API key |
| Emdex.CaseSensitive | backend/emdex.py:25 | "sam-0808" is unknown |
| Chaincode.GetAsset | blockchain/chaincode.py:56-60 | an asset exactly when the key holds non-empty bytes, and then the stored one |
| Chaincode.TransferAppendsOne | blockchain/chaincode.py:39-41 | a transfer sets the new owner and appends exactly one entry naming both owners; the earlier history and every other field are kept |
| Chaincode.EmptyValueExistsButIsAbsent | blockchain/chaincode.py:56-63 | a key holding empty bytes exists for registration but has no asset for transfer and query |
| Chaincode.RegisterKeepsInvariant | blockchain/chaincode.py:18-28 | writing a new registration under an absent key keeps every registered batch's history equal to its registration entry plus one entry per transfer; the new batch has no transfers |
| Chaincode.TransferKeepsInvariant | blockchain/chaincode.py:35-43 | rewriting a key with its transferred asset keeps that invariant, with one more transfer counted for the key |
| Chaincode.MedGuardChaincode.RegisterDrugBatch | blockchain/chaincode.py:10-29 | an existing key (empty bytes included) is refused and the state is left unchanged. Otherwise only that key is written: an asset the manufacturer owns, whose history is one "Registered by" entry |
| Chaincode.MedGuardChaincode.TransferDrugOwnership | blockchain/chaincode.py:31-44 | a key without an asset is refused and the state is left unchanged. Otherwise only that key is rewritten, with the transferred asset. Every registered batch keeps a history of 1 + its number of transfers, starting with its registration |
| Chaincode.MedGuardChaincode.QueryDrugHistory | blockchain/chaincode.py:46-54 | the stored history, or the refusal; on a registered batch, its length is 1 + the number of transfers; no state is changed |
| BlockchainUtils.InvokeChaincode | backend/blockchain_utils.py:7-23 | SUCCESS with the message naming args[0] (and args[1] for a transfer) for the two known names; an IndexError when those arguments are missing; ERROR "Function not found" for every other name |
| BlockchainUtils.QueryChaincode | backend/blockchain_utils.py:25-42 | the fixed three-entry journey exactly for "query_drug_history", and [] otherwise |
| BlockchainUtils.QueryIgnoresArguments | backend/blockchain_utils.py:34-42 | query answers do not depend on the arguments |
| BlockchainUtils.InvokeIgnoresExtraArguments | backend/blockchain_utils.py:18-23 | arguments after the first two never change an invocation's answer |
| Parser.UrlSplit | backend/routes/parser.py:10 | urlsplit fails exactly when the netloc has only one kind of square bracket; the netloc holds no '/', '?' or '#', and the query holds no '#' |
| Parser.HttpNetloc | backend/routes/parser.py:10 | for http:// and https:// text, the netloc is the text after the prefix up to the first '/', '?' or '#' |
| Parser.Capitalize | backend/routes/parser.py:12 | the first character is upper-cased and the rest lower-cased, with the length kept |
| Parser.ExtractManufacturerFromDomain | backend/routes/parser.py:7-14 | "" when urlsplit raises; the guess is never longer than the netloc |
| Parser.ManufacturerOfHost | backend/routes/parser.py:7-14 | for "http://" or "https://", an optional "www.", a first label n and the rest of the host up to the end or a '/', '?' or '#', the guess is n capitalised (n holds no '.' and does not end in "www"; the host holds no bracket) |
| Parser.LabelCut | backend/routes/parser.py:11 | removing "www." and splitting at '.' gives back the host's first label |
| Text.RemoveAllKeepsPrefix | backend/routes/parser.py:11 | str.replace(pat, "") keeps a leading part in which no occurrence of pat starts |
| Parser.ManufacturerHasNoDot | backend/routes/parser.py:11 | the guessed company name never contains a '.' |
| Parser.Unquote | backend/routes/parser.py:31 | decoding never lengthens the text, keeps non-empty text non-empty, and leaves text without '%' unchanged |
| Parser.UnquoteQuoteAll | backend/routes/parser.py:31 | decoding undoes "%XX" escaping of ASCII text |
| Parser.PieceToPairs | backend/routes/parser.py:31 | a "&"-separated piece gives a pair exactly when something follows its first '=' |
| Parser.QueryPairs | backend/routes/parser.py:31 | every pair parse_qs keeps has a non-empty value |
| Parser.Group | backend/routes/parser.py:31 | each name appears once, and each has at least one value |
| Parser.ParseQs | backend/routes/parser.py:31 | parse_qs: the query's pairs grouped by name, each name once with at least one value |
| Parser.FirstBatchPair | backend/routes/parser.py:32-35 | the value of the first pair whose lower-cased name contains "batch" or "lot", or none when no name does |
| Parser.FirstBatchGroup | backend/routes/parser.py:32-35 | the search over the dictionary finds nothing exactly when no name is a batch key |
| Parser.GroupKeepsFirstBatch | backend/routes/parser.py:31-35 | searching the dictionary parse_qs builds finds the same value as searching the query's pairs in order |
| Parser.FindBatchNumber | backend/routes/parser.py:31-34 | the loop over the dictionary ends with the first value of the first batch or lot name, or "" when there is none |
| Parser.ParseQrData | backend/routes/parser.py:17-39 | 400 exactly for empty stripped data. Text not starting with "http://" or "https://" (case-sensitive) is itself the batch number, with no manufacturer. A URL gives the domain's manufacturer and the first batch/lot value ("" when there is none), or 500 when urlsplit raises. The drug name is always "" |
| Ai.FirstMatch | backend/routes/ai.py:23-26 | the position of the first intent with a keyword in the message, or none exactly when no intent matches |
| Ai.AnswerFor | backend/routes/ai.py:23-27 | the answer of the first matching intent, the fallback text when none matches, the KeyError when that intent has no "answer"; FirstMatchIs and AnswerIsKnown state its meaning |
| Ai.GetAiResponse | backend/routes/ai.py:20-27 | the loops answer, for the lower-cased message, the first matching intent's answer, or the fallback sentence (a KeyError when that intent has no answer) |
| Ai.FirstMatchIs | backend/routes/ai.py:23-26 | the first intent that matches is the one chosen |
| Ai.AnswerIsKnown | backend/routes/ai.py:26-27 | an answer is the fallback or is the answer of a matching intent |
| Ai.NoKeywordsNeverMatch | backend/routes/ai.py:24 | an intent without "keywords" is never chosen |
| Ai.EarlierIntentWins | backend/routes/ai.py:23-26 | an earlier matching intent shadows every later one |
| Ai.UpperCaseKeywordNeverMatches | backend/routes/ai.py:22-25 | a keyword holding an upper-case ASCII letter never matches, since only the message is lower-cased |
| Ai.HandleChat | backend/routes/ai.py:30-39 | 400 with "I didn't receive a message" exactly for an empty or missing message; otherwise 200 with the matcher's answer, or 500 when the first matching intent has no "answer" |
| App.EmailAllowed | backend/app.py:57-64 | an allowed address contains an '@' |
| App.EmailAllowedIff | backend/app.py:54-61 | an address is allowed exactly when the text after its first '@', lower-cased, is nafdac.gov.ng or regulator.example.org |
| App.NoAtRejected | backend/app.py:60-64 | an address without '@' is rejected |
| App.SecondAtRejected | backend/app.py:60 | a second '@' stays in the domain, and the address is rejected |
| App.EmailAllowedIgnoresCase | backend/app.py:60 | the verdict ignores ASCII case |
| App.AdminLogin | backend/app.py:131-153 | a GET shows the form. A POST checks the domain first. The dashboard is reached exactly when the domain is allowed, the user exists, is verified, is a regulator and the password matches; the session is then cleared and set to the id, the role and a fresh token. Every refusal leaves the session as it was |
| App.AdminLogout | backend/app.py:156-161 | 400 exactly when the form's csrf differs from the session's; otherwise the session is emptied |
| App.LogoutNeedsIssuedToken | backend/app.py:145-159 | after a login, logout succeeds exactly with the issued token |
| App.TokenlessLogoutOfEmptySession | backend/app.py:158-161 | with no token in either the form or the session, the check passes |
| Report.AllowedFile | backend/routes/report.py:12-15 | an allowed name contains a '.' |
| Report.AllowedFileIff | backend/routes/report.py:10-15 | a name "stem.ext" is allowed exactly when ext, lower-cased, is png, jpg, jpeg or gif |
| Report.NoDotRefused | backend/routes/report.py:14 | a name without '.' is refused |
| Report.StatusLabel | backend/routes/report.py:100 | "New" exactly for status 0, otherwise "Checked" |
| Report.Marked | backend/routes/report.py:112 | only the given report changes, to status 1, and the ids are kept |
| Report.NewCountAfterFiling | backend/routes/report.py:48-55 | filing a report raises the count of new reports by one |
| Report.NewCountAfterMarking | backend/routes/report.py:112 | marking a new report lowers the count by one; marking any other id leaves it unchanged |
| Report.MarkedIdempotent | backend/routes/report.py:112 | marking twice is marking once |
| Report.LabelReports | backend/routes/report.py:98-100 | every listed report keeps its row and now has the label "New" exactly when its status is 0, and "Checked" otherwise |
| Report.ReportStore.CreateReport | backend/routes/report.py:21-65 | a missing or empty batch_number is refused with 400 and nothing is stored. Otherwise 201, and one row is added under a fresh id: status 0, the form fields, and the picture only for an allowed file name |
| Report.ReportStore.MarkReportChecked | backend/routes/report.py:109-114 | the table becomes the marked table and nothing else changes |
| Report.ReportStore.CountNewReports | backend/routes/report.py:124-127 | the number of reports with status 0 |
| Admin.RoleRequired | backend/routes/admin.py:21-29 | the handler's answer exactly when the session's admin_role is the role, and otherwise the login redirect |
| Admin.SignedInPassesGuard | backend/routes/admin.py:21-29 | a session that has just signed in passes the regulator guard |
| Admin.PingSession | backend/routes/admin.py:457-463 | 200 "session_refreshed" exactly when the session has a truthy admin_id, and otherwise 401 "unauthenticated" |
| Admin.MissingFields | backend/routes/admin.py:119-122 | the missing or empty required fields, in the required order. It is empty exactly when every field is present and non-empty |
| Admin.WithoutReportsOf | backend/routes/admin.py:224 | the adverse-reaction reports of other drugs, unchanged |
| Admin.AdminDb.AdminRegister | backend/routes/admin.py:112-134 | guard, then 401, 400 with the missing fields listed, 409 for a batch that is taken, or the QR code of the batch number. Only then is one row added; batch numbers stay unique |
| Admin.AdminDb.DeleteDrug | backend/routes/admin.py:216-231 | guard, then 401. Otherwise the drug's reports and row are deleted, and no report refers to the drug afterwards. The answer is 404 exactly when there was no such row |
| Admin.TotalPages | backend/routes/admin.py:195 | the fewest pages of 20 that hold every row; 0 exactly when there are no rows |
| Admin.PageRows | backend/routes/admin.py:171-173 | at most 20 rows |
| Admin.FirstPagesArePrefix | backend/routes/admin.py:171-194 | pages 1 to n together are the first 20n rows |
| Admin.PagesCoverRows | backend/routes/admin.py:171-195 | paging from 1 to total_pages shows every row once, in order |
| Admin.PageBounds | backend/routes/admin.py:171-194 | pages after the last are empty; page numbers of 1 or less show the first page |
| Admin.SqlDateText | backend/routes/admin.py:179-184 | date(expiry_date) is NULL exactly when SQLite reads no date; otherwise it is text that SQLite reads back as the same date |
| Admin.SqlDateTextOfIso | backend/routes/admin.py:179-184 | an expiry stored as isoformat() text is compared as that very text |
| Admin.TextFilter | backend/routes/admin.py:179-184 | the three WHERE conditions on the normalised expiry text, with today's and today + 30 days' text; any other status adds no condition; TextFilterOnDates gives their meaning on dates |
| Admin.StatusFilter | backend/routes/admin.py:179-184 | the WHERE condition of a status on one expiry value as SQLite evaluates it today; ValidFilterMeaning, ExpiredFilterMeaning and SoonFilterMeaning give its meaning |
| Admin.TextFilterOnDates | backend/routes/admin.py:179-184 | on isoformat() texts, the three WHERE conditions mean on or after today, before today, and from today to the soon date |
| Admin.StatusFilterOnDate | backend/routes/admin.py:179-184 | the filter on an expiry string is the text filter on the isoformat() of SQLite's date for it |
| Admin.ValidFilterMeaning | backend/routes/admin.py:179-180 | "valid" keeps exactly the rows whose expiry SQLite reads as today or later |
| Admin.ExpiredFilterMeaning | backend/routes/admin.py:181-182 | "expired" keeps exactly the rows whose expiry SQLite reads as before today |
| Admin.SoonFilterMeaning | backend/routes/admin.py:183-184 | "soon" keeps exactly the rows whose expiry falls from today to today + 30 days |
| Admin.WithinAsText | backend/routes/admin.py:184 | BETWEEN on isoformat() texts is between on dates |
| Admin.TextFiltersPartition | backend/routes/admin.py:179-184 | on isoformat() texts, "valid" and "expired" are complementary for readable dates; "soon" implies "valid" |
| Admin.StatusFiltersPartition | backend/routes/admin.py:179-184 | "valid" and "expired" split the readable rows; "soon" rows are valid |
| Admin.FilterByStatus | backend/routes/admin.py:174-194 | the kept rows are exactly the rows the filter selects, in the listing's order and each as often as in the listing |
| Admin.WordLabel | backend/routes/admin.py:288-299 | Expired before today, Expiring Soon up to today + 30 days, otherwise Valid; an expiry that does not parse counts as today, so it is Expiring Soon |
| Admin.PdfLabel | backend/routes/admin.py:369-374 | one of "Expired", "Expiring Soon" and "Valid", chosen by comparing the expiry text with today's and today + 30 days' isoformat() text; PdfAgreesWithWord and LabelsDifferOnUnpaddedDate relate it to the Word label |
| Admin.PdfAgreesWithWord | backend/routes/admin.py:366-374 | on isoformat() expiry texts, the PDF's text comparison gives the Word export's label |
| Admin.LabelsDifferOnUnpaddedDate | backend/routes/admin.py:288-299 | on 2025-10-14, "2025-9-1" is Expired in Word but not in the PDF |
| Admin.Cells | backend/routes/admin.py:300-307 | the seven cells of a row, with the expiry, the label and the creation time in place |
| Admin.WordTable | backend/routes/admin.py:278-307 | the header, then one row per drug with its Word label |
| Admin.PdfTable | backend/routes/admin.py:364-378 | the header, then one row per drug with its PDF label |
| Admin.ExportsAgreeOnIsoDates | backend/routes/admin.py:288-299 | with isoformat() expiries, the two exports give the same rows |
| AdminTimer.Decimal | frontend/static/admin_timer.js:56-59 | the digits of a number; a single digit exactly below 10 |
| AdminTimer.PadStart2 | frontend/static/admin_timer.js:56-59 | padStart(2, "0") gives at least two characters |
| AdminTimer.FormatCountdown | frontend/static/admin_timer.js:56-59 | the MM:SS read-out, at least five characters; CountdownShape fixes its contents |
| AdminTimer.DecimalRoundTrip | frontend/static/admin_timer.js:56-59 | the digits read back as the number |
| AdminTimer.CountdownShape | frontend/static/admin_timer.js:54-64 | for 0 to 5999 seconds, the read-out is "MM:SS": minutes r / 60 and seconds r mod 60, two digits each, which give back r |
| AdminTimer.ResetState | frontend/static/admin_timer.js:83-95 | 900 seconds, the interval running and the modal hidden; the read-out and the logout flag are kept |
| AdminTimer.TickState | frontend/static/admin_timer.js:54-81 | one second less, with the read-out of the old count. The modal is shown exactly at 120 seconds or less, showing the count. The interval stops, with a logout, exactly at 0 or less |
| AdminTimer.PingState | frontend/static/admin_timer.js:34-52 | an ok ping resets, a refused one logs out and nothing else, and a network error changes nothing |
| AdminTimer.TicksCountDown | frontend/static/admin_timer.js:75-80 | while time is left, each tick takes one second off, and nobody is logged out |
| AdminTimer.TicksAdd | frontend/static/admin_timer.js:94 | n ticks then m ticks are n + m ticks |
| AdminTimer.IdleLogout | frontend/static/admin_timer.js:75-80 | after a reset, the 900th tick still leaves the session, and the 901st logs out and stops the interval |
| AdminTimer.ModalFirstAppears | frontend/static/admin_timer.js:67-72 | after a reset, the modal is first shown on the 781st tick |
| AdminTimer.SessionTimer.constructor | frontend/static/admin_timer.js:21-107 | page load: 900 seconds and a first reset |
| AdminTimer.SessionTimer.Reset | frontend/static/admin_timer.js:83-95 | the page's state becomes this reset state |
| AdminTimer.SessionTimer.Tick | frontend/static/admin_timer.js:54-81 | the page's state becomes the ticked state, and the invariant is kept |
| AdminTimer.SessionTimer.Ping | frontend/static/admin_timer.js:40-51 | the page's state becomes the ping state |
| AdminTimer.SessionTimer.OnActivity | frontend/static/admin_timer.js:102-104 | a click, mousemove, keypress or scroll resets the timer |

## Left out

- Data access is not modelled: SQL text, connections and transactions. Tables
  are maps or sequences. The listing's `LIKE` search and its `created_at`
  date-range filter are not modelled, and neither is `ORDER BY created_at
  DESC`: the rows arrive already ordered.
- HTTP, templates and Twilio are not modelled. The public lookup's HTTP call
  is an abstract outcome: an answer, or an exception. The `verified_on` text
  built from the clock is not modelled. Sending SMS alerts after a report is
  filed is not modelled either.
- No documents or images are generated: no QR image, Word file or PDF file.
  Only the cells and labels of the export tables are modelled. The uploaded
  picture's stored name is given as a parameter, and saving the file is not
  modelled.
- Password hashing and `secrets.token_urlsafe` are parameters: a checker
  function and a token.
- JSON and the world-state bytes are not parsed: knowledge bases, snapshots
  and `str`/`eval` of chaincode assets are given as values. JSON fields are
  modelled as text, so a number or `null` sent as a form field or batch is
  not reachable.
- Text: `lower()`, `upper()` and digit recognition are modelled on ASCII
  only; non-ASCII case pairs and non-ASCII digits are not. `strip()` removes
  the whole `str.isspace` set.
- Ai.HandleChat: the 500 for an intent without "answer" is Flask's HTML error
  page; the model gives the KeyError text in its place.
- Parser.Unquote: only "%XX" escapes of ASCII characters are decoded. Escapes
  that form multi-byte UTF-8 sequences are kept as written.
- Parser.UrlSplit: the check of a bracketed host as an IPv6 address is not
  modelled, nor the NFKC check on non-ASCII netlocs, nor the port.
- Dates.AddDays: `timedelta` arithmetic past year 9999 raises OverflowError in
  Python. The admin model only uses dates whose "today + 30 days" stays within
  year 9999, as a precondition.
- Verify.AgainstPublicRegistry: the routing of the request built by
  `url_for` is not modelled. A batch containing '/', or an empty one, matches
  no route and gets Flask's HTML 404; the lemma covers only batches that reach
  `lookup_drug`.
- Admin.StatusFilter: SQLite's `date('now','localtime')` is the same "today"
  the Python side uses. A clock reading taken at a different instant, or in a
  different zone, is not modelled. `date()` applied to text other than strict
  YYYY-MM-DD (times, Julian day numbers, modifiers) reads as NULL here.
- Admin.AdminDb.AdminRegister: a failure while generating the QR image (500)
  is not modelled. The HTML page that follows a form submission (the latest 20
  reports) is shown here as the same QR answer.
- The admin dashboard, the report-location and hotspot routes, and the ADR
  routes are not part of this model.
- backend/routes/auth.py, backend/models.py and backend/database.py are not
  part of this model.
- AdminTimer.SessionTimer: the alerts, the logout form submission and the
  navigation are not modelled. A logout is a flag. A click on the "stay" or
  "logout" buttons is also a window click, and is modelled only as the
  activity reset. The interval's phase after `setInterval` is reset is not
  modelled.
- The scan route in backend/routes/verify.py does not call
  `get_drug_info_from_emdex`, so no scan verdict depends on it.
