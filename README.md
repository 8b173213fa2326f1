# Sheet ↔ CRM reconciliation, modelled in Dafny

`app2.py` keeps two Google Sheets worksheets, an exhibitor ledger and a speaker
ledger, in step with the Leads module of a vtiger-style CRM webservice. This
project models the decision logic of that script and proves what it does:

- **Sheet helpers** (`sheet.dfy`, module `Sheet`):
  - `col_to_a1` is a loop producing bijective base-26 letters.
  - `header_to_index` and `row_to_dict` are modelled.
  - `ensure_col` is modelled.
  - A worksheet's queue of cell writes is a value, and `batch_update` applies such a queue to a grid.
- **Text** (`text.dfy`, module `Text`): Python's `strip`, `lower`, `upper` and `in` on strings, as used by the script.
- **Dates** (`dates.dfy`, module `Dates`):
  - `parse_sheet_date` and `to_crm_date` are modelled over a `Calendar` value.
  - The `Calendar` stands for dateutil's day-first parser and `strftime`.
- **The CRM client** (`crm.dfy`, module `Crm`):
  - `CRMClient` is a class with its `session_name` and `session_expiry` fields.
  - Its methods log in again when the session is missing or expired, and retry once on the replies the source retries on.
  - Comments are formatted newest first.
  - Every method is proved equal to a pure specification over the client state and the log of requests sent.
  - The remote server and the clock are an `Environment` object. It answers each request by an arbitrary function of the request history.
- **The payload** (`payload.dfy`, module `Payload`): `build_payload_from_row` is modelled as a method that mutates a map, and is proved equal to `PayloadSpec`.
- **Flow 1** (`merge.dfy` and `flow1.dfy`, modules `Merge` and `Flow1`):
  - Rows are grouped by address into `emap`.
  - For each address the flow chooses the primary row, then either copies a known id, creates the lead, or marks a CRM duplicate.
  - The cell writes are queued per worksheet.
- **Flow 2** (`flow2.dfy`, `flow2_steps.dfy` and `flow2_props.dfy`, modules `Flow2`, `Flow2Steps` and `Flow2Props`):
  - The flow builds `crm_rows`, then skips rows marked DUPLICATE.
  - It pushes a newer sheet date to the CRM, or pulls a newer CRM date into the sheet.
  - It copies the comments into the sheet, and clears ids the CRM no longer serves.
- **Start-up** (`bootstrap.dfy`, module `Bootstrap`): the two `ensure_col` calls per worksheet, see "## Findings".

Every row loop of the source, and the loops of `col_to_a1`, `get_all_comments` and `build_payload_from_row`, is a Dafny method with loop invariants. The methods are `ColToA1`, `FormatComments`, `BuildPayload`, `CollectRows`, `CreateAndSyncDuplicates`, `CollectTargets` and `SyncCrmToSheet`. Each is proved equal to a pure specification function, and the properties are proved as lemmas about those functions. Three small loops are not methods, see "## Left out": the two loops that apply the queued writes (app2.py:525-527 and 646-648) and the loop that drops the time stamps of a lead (app2.py:586-587).

Exceptions are `Result` values, and the error text is `str(e)`. The messages are built exactly as the source builds them: "Failed to get challenge token", "CRM login failed: …", "Failed to create lead: …", "Failed retrieving lead <id>: …". A failed lookup raises a `KeyError`, and its text is `'<key>'`.

Where the code and its documentation disagree, the model follows the code:

- A failed login does not stop a flow:
  - In Flow 1 the exception is caught by the `try` around the create, for that one address.
  - In Flow 2 it is caught by the per-row `try`. When its text contains "invalid", the row's id and status are even cleared (`Flow2Props.LoginInvalidClears`).
- `_login` moves the expiry to now + 3600 as soon as it has a challenge, before the login request. So a rejected login leaves the new expiry and the old session name.
- `create_lead` retries only on a reply mentioning "invalid". `get_lead` retries on "invalid" or "session". `get_all_comments` retries on "invalid", and returns "" when the reply still fails.
- Flow 2 iterates per ledger row, not per address. It pushes the date as `%d-%m-%Y`, while `to_crm_date` writes `%Y-%m-%d`. It ignores the reply to the update request.
- The skip test of Flow 2 reads the "CRM Update" cell by header and upper-cases it. Both status texts Flow 1 writes for a twin row contain "DUPLICATE": "DUPLICATE – CRM ID COPIED" and "Failed to add in CRM – Duplicate detected". Such rows are therefore never synced (`Flow2Props.MarkedRowsSkipped`).
- `crm_rows` is built outside any `try`:
  - A worksheet with no "Email" header ends Flow 2 before any request and before any write, provided one of its rows carries a non-blank CRM id (`Flow2.TargetsFail`).
  - So does a row with an id that is too short to hold its e-mail cell (`Flow2Props.Flow2Crash`).
- A row whose ledger has no date column raises `KeyError` when the CRM date is newer. That text is not a stale-id text, so the row writes nothing at all, not even its comments.

## Model

| member | source | states |
|---|---|---|
| Sheet.ColToA1 | app2.py:192-197 | the `divmod` loop computes exactly `Letters(col)` |
| Sheet.LettersShape | app2.py:192-197 | the letters are non-empty exactly when col ≥ 1, and use only 'A'..'Z' |
| Sheet.LettersRoundTrip | app2.py:192-197 | reading the letters back as a bijective base-26 numeral gives the column |
| Sheet.LettersOnto | app2.py:192-197 | every string of 'A'..'Z' is the letters of exactly its own value |
| Sheet.LettersInjective | app2.py:192-197 | two columns with the same letters are the same column |
| Sheet.HeaderToIndexShape | app2.py:199-200 | the keys are the header names; each maps to a 1-based column holding that name, and no later column holds it (a repeated name keeps its last column) |
| Sheet.RowToDictShape | app2.py:202-203 | the keys are exactly the header names; each value is the row's cell under that name's column, "" past the row's end |
| Sheet.EnsureCol | app2.py:205-210 | an existing name gives its own column and no write; a missing name gives column len(header)+1 and the header write that creates it |
| Sheet.Queues.Append | app2.py:439-446 | appending to one worksheet's list extends that list and leaves the other unchanged |
| Sheet.Put | app2.py:525-527 | one cell write changes exactly that cell, growing the grid when needed |
| Sheet.FlushLastWriteWins | app2.py:525-527 | after `batch_update` every cell holds the last value queued for it, or its old value |
| Text.StripShape | app2.py:19 | `strip` removes exactly a white-space prefix and suffix, leaving no white space at either end |
| Text.StripBlank | app2.py:16 | the stripped text is empty exactly when every character is white space |
| Text.StripIdempotent | app2.py:19 | stripping twice is stripping once |
| Text.CaseMapAt | app2.py:345 | `lower` and `upper` map each character by its ASCII case |
| Dates.BlankIsNoDate | app2.py:16-17 | a blank or white-space value gives no date, whatever the parser does |
| Dates.ParseIgnoresPadding | app2.py:18-19 | surrounding white space never changes the date read |
| Dates.CellToCrmDate | app2.py:13-27 | a cell read by `parse_sheet_date` and written by `to_crm_date` gives "" when blank or unreadable, otherwise the `%Y-%m-%d` text of the stripped cell's date, and padding never changes it |
| Crm.Environment.Call | app2.py:64 | a request is appended to the log and answered from the history before it |
| Crm.Environment.Now | app2.py:74 | the clock reading is a function of the requests sent so far |
| Crm.CrmClient.constructor | app2.py:33-39 | a new client has no session and expiry 0 |
| Crm.CrmClient.GetChallenge | app2.py:41-48 | the new state and result are those of `ChallengeSpec` |
| Crm.CrmClient.Login | app2.py:50-70 | the new state and result are those of `LoginSpec` |
| Crm.CrmClient.GetSession | app2.py:72-76 | the new state and result are those of `SessionSpec` |
| Crm.CrmClient.CreateLead | app2.py:78-98 | the new state and result are those of `CreateSpec` |
| Crm.CrmClient.GetLead | app2.py:100-121 | the new state and result are those of `RetrieveSpec` |
| Crm.CrmClient.GetAllComments | app2.py:123-158 | the new state and result are those of `CommentsSpec` |
| Crm.LoginFacts | app2.py:50-70 | a challenge request, then a login request only if a challenge came back; the expiry becomes clock + 3600 once a challenge came back, even if the login fails; the session is named only on success; a failure is a login error |
| Crm.SessionFacts | app2.py:72-76 | a live session (named, clock before expiry) is returned with no request and no change; otherwise the client logs in; no lead is created |
| Crm.CreateSpec | app2.py:78-98 | at most two create requests; a failure is a login error or "Failed to create lead: …" |
| Crm.CreatePost | app2.py:86-96 | the first post and its one retry send at most two create requests, and fail only with a login error or "Failed to create lead: …" |
| Crm.CreateRetry | app2.py:89-92 | the retry (a fresh login, then the post again) sends at most one create request, and fails only with a login error or "Failed to create lead: …" |
| Crm.CreateSendsOneElement | app2.py:79-92 | every create request sent carries the same lead element |
| Crm.RetrieveFacts | app2.py:100-121 | `get_lead` creates nothing; it fails only with a login error or "Failed retrieving lead <id>: …" |
| Crm.CommentsFacts | app2.py:123-146 | `get_all_comments` creates nothing, and fails only when a login fails |
| Crm.LoginReplies | app2.py:41-70 | a rejected challenge raises "Failed to get challenge token" after that one request; a token is signed into exactly one login request; a rejected login raises "CRM login failed: " and the reply; the login succeeds exactly when the login reply names a session, which becomes the result and the client's session |
| Crm.CreateRetryRule | app2.py:89-96 | the retry is a fresh login (challenge first) and then one create under the new session exactly when that login named one; the last create's reply decides the result (a rejection raises "Failed to create lead: …"); one create at most |
| Crm.CreatePostRule | app2.py:86-96 | from the first create on: a second create, after a fresh login, is sent exactly when the first reply is rejected mentioning "invalid" and that login succeeds; otherwise the one create's reply decides, so a rejection without "invalid" fails after exactly one create; the number of creates is 1 or, on that retry, 2 |
| Crm.CreateLeadRule | app2.py:78-98 | a failed `get_session` raises its login error with no create sent; otherwise the call from its first create on follows `CreatePostRule` under the session obtained |
| Crm.RetrieveRetryRule | app2.py:111-121 | the retry is a fresh login and then one retrieve under the new session exactly when that login named one; the last retrieve's reply decides (a rejection raises "Failed retrieving lead <id>: …") |
| Crm.RetrievePostRule | app2.py:108-121 | from the first retrieve on: a second retrieve, after a fresh login, is sent exactly when the first reply is rejected mentioning "invalid" or "session" and that login succeeds; the final retrieve's reply decides the result |
| Crm.GetLeadRule | app2.py:100-121 | a failed `get_session` raises its login error with no retrieve sent; otherwise the call follows `RetrievePostRule` under the session obtained |
| Crm.CommentsRetryRule | app2.py:138-146 | the retry is a fresh login and then one query under the new session exactly when that login named one; a rejected final query gives "" |
| Crm.CommentsPostRule | app2.py:136-158 | from the first query on: a second query, after a fresh login, is sent exactly when the first reply is rejected mentioning "invalid" and that login succeeds; a rejected final query gives "", rows give their formatted text |
| Crm.GetAllCommentsRule | app2.py:123-158 | a failed `get_session` raises its login error with no query sent; otherwise the call follows `CommentsPostRule` under the session obtained |
| Crm.FormatComments | app2.py:148-158 | the loop, the reversal and the join compute `Formatted(rows)` |
| Crm.CommentsResult | app2.py:144-158 | a rejected final reply gives "", a list of rows gives its formatting |
| Crm.NewestFirst | app2.py:148-158 | the formatted text starts with the line of the newest non-blank comment |
| Crm.CommentsBlankIff | app2.py:148-158 | the formatted text is blank exactly when every comment is blank |
| Payload.SheetToCrmDistinct | app2.py:216-240 | no two sheet columns map to the same CRM field |
| Payload.SheetToCrmAvoidsStatic | app2.py:216-251 | no mapped column overwrites a static field |
| Payload.SheetToCrmAvoidsFixups | app2.py:216-240 | no mapped column targets `phone`, `cf_1153`, `cf_1049` or `cf_1205` |
| Payload.BuildPayload | app2.py:286-332 | the method computes `PayloadSpec` |
| Payload.FixUp | app2.py:298-330 | the fix-up statements compute `Fixed` of the base map |
| Payload.FixSurname | app2.py:298-304 | a blank surname becomes the trimmed first name, else "Unknown" |
| Payload.FixPhone | app2.py:307-309 | the mobile becomes the phone when there is a mobile and no phone |
| Payload.FixFollowUpDate | app2.py:312-321 | the ledger's date column, when it reads as a date, becomes `cf_1153` |
| Payload.BaseKeys | app2.py:287-295 | after the copy the keys are the static fields and the mapped targets |
| Payload.BaseMapped | app2.py:291-295 | each mapped field holds its column's value, "" for a missing column |
| Payload.BaseStatic | app2.py:288-295 | the static fields keep their values after the copy |
| Payload.FixedKeeps | app2.py:298-330 | the fix-ups change no field other than the surname, phone, the two dates and the two tags |
| Payload.SurnameNotBlank | app2.py:298-304 | after the surname step the surname is never blank |
| Payload.PayloadFields | app2.py:286-332 | the payload's keys are exactly the static fields, the mapped targets, the two tags, `phone` iff there is a mobile, and `cf_1153` iff the ledger's date column reads as a date |
| Payload.PayloadStatic | app2.py:288 | every static field keeps its value |
| Payload.PayloadCopies | app2.py:291-295 | every mapped column other than the surname and next follow-up is copied verbatim, "" when missing |
| Payload.PayloadSurname | app2.py:298-304 | the surname is the row's surname, else its trimmed first name, else "Unknown", and never blank |
| Payload.PayloadFixups | app2.py:307-330 | phone = mobile when there is a mobile; the tags are the caller's; the dates are reformatted when they parse; an unreadable next follow-up is passed on as written |
| Merge.Block.Set | app2.py:350 | setting one ledger's row keeps the other ledger's row |
| Merge.Record | app2.py:349-350 | `setdefault` then the assignment compute `Enter` |
| Merge.RecordRow | app2.py:343-350 | one loop iteration skips a blank address and otherwise records the row's side |
| Merge.CollectRows | app2.py:343-350 | the ledger loop computes `Collect` |
| Merge.BuildEMap | app2.py:339-360 | the two loops compute `MergeSpec` |
| Merge.EnterWellFormed | app2.py:349-350 | recording a non-blank address keeps `emap` well formed (keys unique in insertion order, no blank key, every entry has a row) |
| Merge.CollectWellFormed | app2.py:343-350 | a ledger loop keeps `emap` well formed |
| Merge.CollectEmail | app2.py:343-350 | after a ledger loop an address is present iff it was before or a row carries it; its side is the last such row's; the other ledger's side is untouched |
| Merge.MergeSides | app2.py:338-360 | an address is in `emap` iff some row carries it, and holds the last exhibitor row and the last speaker row with it |
| Merge.MergeWellFormed | app2.py:338-360 | `emap` after both loops is well formed |
| Merge.LastSideRow | app2.py:343-350 | a recorded side is a real row carrying the address, with that row's stripped id |
| Flow1.ChooseRoles | app2.py:374-431 | the primary is the exhibitor row with an id, else the speaker row with an id, else the exhibitor row, else the speaker row; the secondary is the other ledger's row, present iff both are; the primary has no id iff neither row has one |
| Flow1.DuplicateTestIsCaseless | app2.py:492 | the duplicate test holds exactly when the lower-cased text contains "duplicate" |
| Flow1.HandleKnownId | app2.py:433-448 | a primary with an id (the "DUPLICATE" blocker included) sends nothing; a row without an id gets that id and "DUPLICATE – CRM ID COPIED" |
| Flow1.SettleMarks | app2.py:467-521 | after the create, each row of the address gets the marks of the outcome in its own worksheet's queue |
| Flow1.HandleCreate | app2.py:450-521 | an address without an id is created from its primary row; on success every row gets the new id and "ADDED IN CRM"; on a duplicate error every row gets the duplicate mark and "DUPLICATE"; any other error writes nothing |
| Flow1.LeadTags | app2.py:454-461 | the tags are "Exhibitor/Speaker" / "Exhibitor,Speaker" for both rows, "Exhibitor_opportunity" / "Exhibitor" for an exhibitor only, "speaker_opportunity" / "Speaker" otherwise; the surname is never blank |
| Flow1.HandleRequests | app2.py:433-486 | one address sends at most two creates, each carrying its lead, and none when its primary has an id |
| Flow1.HandleConfined | app2.py:433-521 | one address writes only the id and status cells of its own rows |
| Flow1.HandleEmail | app2.py:363-521 | one loop iteration computes `Handle` |
| Flow1.CreateAndSyncDuplicates | app2.py:338-527 | the flow's queued writes and new client state are those of `Flow1Spec` |
| Flow1.Flow1LoopFacts | app2.py:363-521 | the process loop sends at most two creates per address, and queues only id and status writes |
| Flow1.Flow1Facts | app2.py:338-527 | Flow 1 sends at most two creates per address, and queues only addressable id and status writes below the header |
| Flow1.SettledIdentified | app2.py:343-360 | when every row with an address has an id, so does every row of `emap` |
| Flow1.QuietLoop | app2.py:433-448 | addresses whose rows all have ids send nothing and queue nothing |
| Flow1.Flow1Settled | app2.py:338-527 | once every row with an address has an id, Flow 1 sends no request and queues no write |
| Flow2.TargetsFail | app2.py:540-544 | the `crm_rows` loop of one ledger raises exactly when some row with an id lacks an e-mail cell |
| Flow2.TargetsEntries | app2.py:540-544 | every entry is a row of that ledger below the header, with that row's stripped, non-empty id, in increasing row order |
| Flow2.TargetsComplete | app2.py:540-544 | every row with an id is listed |
| Flow2.CrmRowsFit | app2.py:540-550 | every entry names a row below the header of its worksheet |
| Flow2.CrmRowsFail | app2.py:540-550 | building `crm_rows` fails exactly when a row of either ledger has an id but no e-mail cell |
| Flow2Steps.CollectTargets | app2.py:540-544 | the loop computes `Targets` |
| Flow2Steps.CollectCrmRows | app2.py:540-550 | the two loops compute `CrmRows` |
| Flow2Steps.SkipTest | app2.py:560-565 | the test computes `Skipped` |
| Flow2Steps.SendUpdate | app2.py:581-592 | `get_session` then the update POST compute `Push` |
| Flow2Steps.ReconcileRow | app2.py:571-606 | the date comparison, the push or pull, and the comments compute `Reconcile` |
| Flow2Steps.TrySync | app2.py:567-606 | the body of the `try` computes `SyncSpec` |
| Flow2Steps.Except | app2.py:608-643 | the `except` branch queues the clearing writes for a stale-id text and nothing otherwise |
| Flow2Steps.SyncRow | app2.py:553-643 | one loop iteration computes `RowStep` |
| Flow2Steps.SyncCrmToSheet | app2.py:535-648 | the flow's result and new client state are those of `Flow2Spec` |
| Flow2Props.Flow2Crash | app2.py:540-550 | Flow 2 fails exactly when building `crm_rows` raises, and then sends nothing |
| Flow2Props.RecencyTrichotomy | app2.py:580-599 | the sheet-newer and CRM-newer tests never both hold, and neither holds exactly when the dates are equal or both absent |
| Flow2Props.UpdateElementFields | app2.py:582-587 | the update element is the lead with the id, the new date, and without `createdtime` and `modifiedtime` |
| Flow2Props.PushRequests | app2.py:581-592 | the push creates nothing; on success the last request is an update of that element under the client's session; a failure is a login error |
| Flow2Props.ReconcileDirection | app2.py:571-606 | sheet newer: the CRM is updated with the day-first date; CRM newer: the sheet date cell gets the raw CRM value, or a `KeyError` when the column is missing; equal: only the comments; only a push sends anything |
| Flow2Props.ReconcileFills | app2.py:595-606 | every write of a successful row is in that row, at a real column, with a non-empty value |
| Flow2Props.SyncRequests | app2.py:567-606 | one row never creates a lead; a successful row writes only non-empty values into its own row |
| Flow2Props.ClearIff | app2.py:608-643 | a row's id cell is blanked iff its exception text is a stale-id text; then both cells are blanked, and any other exception queues nothing |
| Flow2Props.LeadErrorEndsSync | app2.py:568 | a failed `get_lead` ends the `try` with its error before the comments are fetched |
| Flow2Props.InvalidIsStale | app2.py:613-619 | any text containing "invalid" in any case is a stale-id text |
| Flow2Props.RowStepSkips | app2.py:560-565 | a skipped row sends nothing and queues nothing |
| Flow2Props.RowStepSyncs | app2.py:553-643 | a row not skipped runs the `try` body and queues its outcome in its own worksheet only |
| Flow2Props.LoginInvalidClears | app2.py:608-641 | a lead fetch failing with "invalid" in its text, a failed login included, clears the row's id and status |
| Flow2Props.UpperDuplicate | app2.py:564 | a cell containing "Duplicate" or "DUPLICATE" contains "DUPLICATE" once upper-cased |
| Flow2Props.MarkedRowsSkipped | app2.py:560-565 | a row whose status is "DUPLICATE – CRM ID COPIED" or "Failed to add in CRM – Duplicate detected" is skipped |
| Flow2Props.TryReadsAndFills | app2.py:567-606 | the `try` body never creates a lead; on success it writes only non-empty values into its own row |
| Flow2Props.RowStepFacts | app2.py:553-643 | one row never creates a lead, and keeps every queued write below the header |
| Flow2Props.Flow2LoopFacts | app2.py:552-643 | the loop never creates a lead, and keeps every queued write below the header |
| Flow2Props.Flow2Facts | app2.py:535-648 | Flow 2 never creates a lead, and queues only addressable writes below the header |
| Bootstrap.StatusColumnsCollide | app2.py:269-272 | as written, a worksheet with neither column gets the same column for both, headed "CRM Update" |
| Bootstrap.FreshColumnsShape | app2.py:269-272 | with the header read again between the calls, the two columns differ, existing ones keep their place and missing ones are appended |
| Bootstrap.OpenTabLabels | app2.py:269-280 | with the header read again, each column is headed by its own name and the old header cells are kept |

## Left out

- HTTP, JSON and the webservice URL are left out. A request is a `Request` value and a reply is a `Reply` value, answered by an arbitrary function of the request history. A successful reply whose result has the wrong shape fails the client call at once with the error text "malformed reply"; the source raises a `KeyError`, `TypeError` or `AttributeError` only where the result is first used.
- `Crm.RetrieveOutcome`: a successful retrieve whose result is not an object fails `get_lead` with "malformed reply". The source returns that result unchanged (app2.py:121). Flow 2 then still calls `get_all_comments` (app2.py:569), which sends its query and may log in again, and only then raises an `AttributeError` at app2.py:574. So for such a reply the model's request log and session state stop before the comments query, and its error text differs. In both the row's `try` fails. But in the source the error can come from that extra comments call, so the decision to clear the row can differ too.
- JSON `null` field values are left out: a lead is a map of strings.
- The connection errors that `requests` can raise are left out: every request gets a reply.
- `time.time()` is a float. It is an integer-valued function of the request history here.
- MD5 signing of the challenge is left out: it is a function passed in with the credentials.
- dateutil's `parse` and `strftime` are left out: they are the functions of a `Calendar` value, and dates compare as integers.
- The values `parse` can return for non-blank text are left out: the value is whatever the `Calendar` gives.
- The A1 range text of a queued write is not built: a write carries its column number, and `ColToA1` is proved separately. The order of the two worksheets' `batch_update` calls is left out, since they touch different worksheets.
- gspread and authorisation, `get_all_values`, the module-level configuration and the `__main__` driver are left out. Flow 1 and Flow 2 take the two worksheets' grids and chosen columns as `Tab` values, and `Bootstrap.OpenTab` builds such a value with the corrected start-up.
- Every `print` is left out.
- `build_payload_from_row` turning int and float cells into text is left out: sheet cells are strings here.
- `Text.Lower`, `Text.Upper`: map only the ASCII letters, not full Unicode case mapping.
- `Sheet.Flush`: the loops that hand each worksheet's queue to `batch_update` (app2.py:525-527, 646-648) are the recursive function `Flush` over a grid value, not a method updating a worksheet in place; the order of the writes is kept, in-place update of the remote sheet is not modelled.
- `Flow2.UpdateElement`: the loop that pops "createdtime" and "modifiedtime" from the retrieved lead (app2.py:586-587) is a map key-set difference, not two in-place `pop` calls; the result is the same map.

## Findings

| source | as written | input that shows it | evidently intended | confidence | as-written member | corrected member |
|---|---|---|---|---|---|---|
| app2.py:269-272 | both `ensure_col` calls of a worksheet look the names up in the header read before either call wrote a header cell | a worksheet whose header is `["Email"]`: "CRM Lead ID" and "CRM Update" are both given column 2, and the second header write replaces the first, so the CRM ids and the statuses share one column | the second call sees the column the first one added (the re-read at app2.py:274-280 shows the columns were meant to be distinct and headed by their names) | not executed | Bootstrap.StatusColumnsCollide | Bootstrap.OpenTabLabels |
