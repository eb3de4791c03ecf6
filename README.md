# CommsService core, modelled in Dafny

CommsService is a multi-tenant notes and messaging service for a pharmacy
integration ("Perch"). This project models its command and delivery layer:

- **Webhook delivery engine** (`WebhookEngine`, `DeliverySelection`,
  `Backoff`, `PharmacyTransform`, `WebhookTypes`). `emitEvent` fans an event
  out into one pending delivery row per matching subscription.
  `processWebhookBatch` selects the due, unleased rows, earliest first. It
  leases each one, attempts it (a subscriber POST, or the "pharmacy"
  transform that turns an order note into a note on the pharmacy's order),
  and records the outcome: sent, pending with a backoff delay, or failed.
  The outbox is the class `DeliveryStore`, a map of rows plus their
  insertion order.
- **Idempotency ledger** (`Idempotency`, `RouteEffects`). `withIdempotency`
  either replays a stored response, refuses a reused key with 409, or runs
  the handler and records its result. The ledger is the class `Ledger`.
  `RouteEffects` describes what a handler run does: rows written, events
  emitted, pharmacy calls made, result.
- **Multipart reader and media upload** (`Multipart`, `CustomerMedia`).
  Covers `getBoundary`, the split loop and part reader of
  `parseMultipartFormData`, and the whole `POST /api/customers/media` handler.
- **Route rules** (`PerchOrders`, `PerchMembers`, `NoteReplies`, `Grouping`,
  `Tables`, `Text`):
  - the upsert merges (COALESCE) of orders and members;
  - the linkage guards of order creation and order notes;
  - name and email derivation and the required-field check of member linking;
  - note-type mapping and author fallbacks;
  - the grouping of replies by note and of notes by member;
  - note lookup precedence for replies.

I/O becomes parameters:
- **Clock:** `now` is an integer in the engine; `nowIso` is a string in the routes.
- **Fresh ids:** `crypto.randomUUID` values are passed in (`FreshIds`, `noteId`, `replyId`, `documentId`).
- **Network:** a function from the request to a reply (`net`, `pharmacy`, or a `PharmacyReply` value).
- **Hashing:** `sha256` and the HMAC signature are an uninterpreted function `hash`, or are not modelled.
- **Configuration:** `Config` and `MediaConfig` values.

Tables are sequences in row order when they are searched by non-key
columns, and maps when they are read by key.

Where the code and the written design disagree, the model follows the code:
- **Event ids:** `emitEvent` draws a fresh event id per subscription, not one per emission (`EmitEventIdsDistinct`).
- **Backoff index:** the dispatcher asks for the delay of attempt number `attempt_count + 1`. The first retry therefore waits 15 s, not 5 s, and the 5 s entry is never used (`RetryDelayNeverFirstEntry`).
- **Lease:** the lease update's row count is never checked. A row leased in between is attempted anyway. The model has one sequential worker, whose leases always succeed on the rows it selected.
- **Order status:** no order-status transition guard exists in the code, so none is modelled.

## Model

| member | source | states |
|---|---|---|
| Backoff.ComputeNextAttempt | src/webhooks/webhooks.service.ts:54-58 | the delay is an entry of the table 5…86400, and 86400 from attempt 7 on (clamped to the last entry) |
| Backoff.ScheduleValues | src/webhooks/webhooks.service.ts:56-57 | the delay for attempts 0..6 is 5, 15, 60, 300, 900, 3600, 21600 and for every attempt ≥ 7 it is 86400 |
| Backoff.NextAttemptMonotone | src/webhooks/webhooks.service.ts:54-58 | a later attempt never waits less than an earlier one |
| Backoff.RetryDelayNeverFirstEntry | src/webhooks/webhooks.service.ts:174 | the delay for `attempt_count + 1` is at least 15 s and never the 5 s entry |
| DeliverySelection.DueCandidates | src/webhooks/webhooks.service.ts:91-96 | an id is a candidate exactly when it is in the table and the row is pending, due and unleased or with an expired lease; no duplicates when the table has none |
| DeliverySelection.TakeEarliest | src/webhooks/webhooks.service.ts:97-98 | takes min(limit, #candidates) ids, all of them candidates |
| DeliverySelection.TakeEarliestSorted | src/webhooks/webhooks.service.ts:97 | the selection is in ascending `next_attempt_at` order |
| DeliverySelection.TakeEarliestKeepsEarliest | src/webhooks/webhooks.service.ts:97-98 | no candidate left out is earlier than any selected one |
| DeliverySelection.TakeEarliestDistinct | src/webhooks/webhooks.service.ts:91-98 | distinct candidates give distinct selected ids |
| DeliverySelection.SelectDue | src/webhooks/webhooks.service.ts:91-100 | at most `limit` ids, exactly min(limit, #due) of them, every one due, distinct, ascending in `next_attempt_at`, and no due row left out is earlier than a selected one |
| DeliverySelection.TerminalRowsNeverSelected | src/webhooks/webhooks.service.ts:94 | a sent or failed row is never selected again |
| DeliverySelection.SelectionFillsLimit | src/webhooks/webhooks.service.ts:98 | when at least `limit` rows are due, exactly `limit` are selected |
| PharmacyTransform.PharmacyNoteType | src/webhooks/webhooks.service.ts:62-65 | CLINICAL exactly for `clinical_note`, ADMIN for `admin_note` and any other type |
| PharmacyTransform.WebhookAuthor | src/webhooks/webhooks.service.ts:250 | the first non-empty of display name, user id and role, or none; never an empty string |
| PharmacyTransform.BuildPharmacyOrderNotePayload | src/webhooks/webhooks.service.ts:201-253 | 400 for another event type or missing note/member/order id or non-order scope; 422 exactly when the order has no pharmacy reference; 404 exactly when the note is missing; otherwise the order reference, the note's body and type, the mapped type and the author |
| PharmacyTransform.CaughtMessage | src/webhooks/webhooks.service.ts:169-172 | the error's message, or "network error" when it is empty; never empty |
| PharmacyTransform.PostToPharmacy | src/webhooks/webhooks.service.ts:67-84 | the POST carries the order number, body, type and author; the attempt succeeds exactly on a 2xx reply |
| PharmacyTransform.AttemptDelivery | src/webhooks/webhooks.service.ts:130-172 | ok exactly when there is no error text, which is then non-empty. A pharmacy row that is not an order `note.created` succeeds with no call. A transform error fails with its message and no call. A non-admin note under the admin-only filter succeeds with no call. Any other order note is the pharmacy POST of the built note, which succeeds exactly on a 2xx reply. A generic row POSTs the envelope and fails with "HTTP <status>" or the thrown message |
| PharmacyTransform.MissingLinkageFailsBeforeFilter | src/webhooks/webhooks.service.ts:139-145 | an order note whose order lacks a pharmacy reference fails with no call, even where the admin-only filter would have skipped it |
| WebhookEngine.MatchingSubs | src/webhooks/webhooks.service.ts:11-22 | a subscription receives the event exactly when it is of the tenant, enabled and lists the event type |
| WebhookEngine.NewDelivery | src/webhooks/webhooks.service.ts:24-50 | the new row is pending, unattempted, due now and unleased, with the drawn ids and the envelope of the event |
| WebhookEngine.EmitRows | src/webhooks/webhooks.service.ts:18-51 | at most one row per subscription, each carrying ids drawn for one of them |
| WebhookEngine.EmitOnePerMatch | src/webhooks/webhooks.service.ts:18-51 | exactly one row per matching subscription, in subscription order |
| WebhookEngine.EmitRowsArePending | src/webhooks/webhooks.service.ts:34-41 | every emitted row is pending, attempt_count 0, next_attempt_at = now, unleased and has no error |
| WebhookEngine.EmitEventIdsDistinct | src/webhooks/webhooks.service.ts:24 | with distinct drawn ids, the rows of one emission carry pairwise different event ids |
| WebhookEngine.Lease | src/webhooks/webhooks.service.ts:106-113 | a pending row with no live lease gets `locked_until = now + lockSeconds`, whether or not it is due; a row that is not pending or is leased is unchanged |
| WebhookEngine.FindSubscription | src/webhooks/webhooks.service.ts:116-123 | the subscription with the delivery's subscription id, or none when there is no such subscription |
| WebhookEngine.RecordOutcome | src/webhooks/webhooks.service.ts:174-196 | attempt_count + 1, lease cleared, last attempt now. Sent exactly on success. Pending exactly on failure with attempts left, then due after `ComputeNextAttempt(attempt_count + 1)` ≥ 15 s. Failed otherwise, with next_attempt_at kept. The error is cleared on success. The row's ids, tenant, event type and payload are unchanged |
| WebhookEngine.RunBatchKeys | src/webhooks/webhooks.service.ts:102-197 | a batch adds and removes no rows |
| WebhookEngine.RunBatchFrame | src/webhooks/webhooks.service.ts:107-111 | a row outside the batch is untouched |
| WebhookEngine.RunBatchPerRow | src/webhooks/webhooks.service.ts:102-197 | with distinct ids each selected row ends as one lease-attempt-record step from its state before the batch |
| WebhookEngine.AttemptedRow | src/webhooks/webhooks.service.ts:105-196 | a due row with a subscription is attempted once: count + 1, lease released, sent exactly when the attempt succeeded, a retry scheduled with the `attempt_count + 1` delay |
| WebhookEngine.OrphanRowStaysLeased | src/webhooks/webhooks.service.ts:116-123 | a row whose subscription is gone is skipped but keeps its lease; it is not due again until the lease expires, and is due after it |
| WebhookEngine.RowAfterWithinBudget | src/webhooks/webhooks.service.ts:175 | handling a pending row keeps attempt_count ≤ maxAttempts, with a pending row below it |
| WebhookEngine.StepWithinBudget | src/webhooks/webhooks.service.ts:175-191 | handling one pending row keeps the whole table within budget |
| WebhookEngine.RunBatchWithinBudget | src/webhooks/webhooks.service.ts:102-197 | a batch over distinct due rows keeps every row within its attempt budget |
| WebhookEngine.EmitWithinBudget | src/webhooks/webhooks.service.ts:40 | fresh rows (attempt_count 0) keep the table within budget when at least one attempt is allowed |
| WebhookEngine.DeliveryStore.Insert | src/webhooks/webhooks.service.ts:34-50 | a new row is added under its fresh id and its id appended to the insertion order; the table stays consistent |
| WebhookEngine.DeliveryStore.Replace | src/webhooks/webhooks.service.ts:177-196 | an existing row is overwritten in place, the order unchanged; the table stays consistent |
| WebhookEngine.DeliveryStore.EmitEvent | src/webhooks/webhooks.service.ts:10-52 | the table becomes the old one plus the emitted rows, in subscription order, and the order list grows by their ids; the table stays consistent |
| WebhookEngine.DeliveryStore.Handle | src/webhooks/webhooks.service.ts:102-197 | one loop iteration replaces the row by its leased-attempted-recorded state and nothing else |
| WebhookEngine.DeliveryStore.ProcessBatch | src/webhooks/webhooks.service.ts:86-200 | returns the number of selected rows (including rows skipped on re-read) and leaves the table as the batch of the selected ids |
| WebhookEngine.BatchOutcome | src/webhooks/webhooks.service.ts:86-200 | after a batch the same rows exist, each selected row is handled once from its earlier state, others are untouched, and the attempt budget is kept |
| Idempotency.Execute | src/idempotency.ts:9-45 | the ledger only grows, by this call's key at most; the handler runs exactly when there is no key or no record; its failure records nothing; a replay runs nothing and writes nothing |
| Idempotency.NoKeyBypassesLedger | src/idempotency.ts:16 | without a key the handler runs, the ledger is unchanged and its contents do not matter |
| Idempotency.ConflictRefuses | src/idempotency.ts:27-32 | a record with another hash gives 409, runs nothing, changes nothing |
| Idempotency.SameHashReplays | src/idempotency.ts:27-33 | a record with the same hash replays the stored response, runs nothing, changes nothing |
| Idempotency.NewKeyRecords | src/idempotency.ts:36-44 | a new key runs the handler; success adds exactly (key, hash, result), failure adds nothing |
| Idempotency.RepeatReplays | src/idempotency.ts:18-44 | after a successful keyed call, the same call replays its result without running the handler |
| Idempotency.OtherTriplesIrrelevant | src/idempotency.ts:20-25 | records under another (tenant, endpoint, key) change nothing about a call |
| Idempotency.Ledger.WithIdempotency | src/idempotency.ts:9-45 | the method's ledger, result and whether it ran the handler are those of `Execute` |
| RouteEffects.CheckedBody | src/routes/perch.orders.ts:107-111 | the body of a 2xx reply; otherwise "Pharmacy API error: <status>" or the thrown message |
| RouteEffects.CheckedId | src/routes/perch.orders.ts:124-134 | a non-empty id from a 2xx reply; the "missing" error for a missing or empty one |
| RouteEffects.NewNote | src/routes/perch.orders.ts:295-322 | the stored note carries the request's fields, and status `open` when none is given |
| RouteEffects.RunKeyed | src/idempotency.ts:36-44 | a handler's writes, events and calls happen exactly when the ledger runs it |
| RouteEffects.FailedRunIsRunAgain | src/idempotency.ts:36-42 | a keyed handler that throws after writing keeps its writes, records nothing, and runs again with all its effects on retry |
| RouteEffects.KeyReuseForOtherTargetConflicts | src/routes/perch.orders.ts:277 | reusing a key for another path target (hashing apart) is refused with 409 and does nothing |
| Tables.FindNote | src/webhooks/webhooks.service.ts:231-242 | a note with the tenant and id, or none exactly when there is no such note |
| Tables.EnsureMember | src/routes/perch.orders.ts:195-200 | the member row exists afterwards; an existing key changes nothing, a new one appends one row |
| Grouping.RepliesOfCounts | src/routes/perch.orders.ts:253-258 | a note's list holds each of its replies as often as the input does, and no other reply |
| Grouping.NoRepliesGivesEmpty | src/routes/perch.orders.ts:261 | a note with no replies gets the empty list |
| Grouping.GroupReplies | src/routes/perch.orders.ts:253-258 | every note's array is its replies in input order; exactly the replied-to notes have a key |
| Grouping.ThreadReplies | src/routes/perch.orders.ts:253-262 | one item per note, in order, with that note's replies in input order |
| Grouping.MemberOrderDistinct | src/routes/perch.members.ts:236-246 | each member appears once, and exactly the members with a note appear |
| Grouping.MemberOrderExtends | src/routes/perch.members.ts:236-246 | groups keep the place their first note gave them |
| Grouping.NotesOfCounts | src/routes/perch.members.ts:236-241 | a member's group holds each of its notes as often as the input, and nothing else |
| Grouping.GroupStep | src/routes/perch.members.ts:237-241 | one loop turn keeps every member's array equal to its threaded notes |
| Grouping.GroupNotes | src/routes/perch.members.ts:236-241 | the map keys in first-appearance order, each array the member's notes in input order with their replies |
| Grouping.GroupByMember | src/routes/perch.members.ts:229-246 | one item per member in first-appearance order, holding its notes in input order with their replies |
| Grouping.EachNoteInOneGroup | src/routes/perch.members.ts:236-246 | every note lands in its member's group, as often as in the input, and in no other group |
| PerchOrders.UpsertOrder | src/routes/perch.orders.ts:202-217 | the key is present afterwards, other orders are untouched, the member is overwritten, and reference and status are overwritten when given and kept when null |
| PerchOrders.UpsertOrderIdempotent | src/routes/perch.orders.ts:205-209 | repeating an upsert changes nothing more |
| PerchOrders.RefSurvivesNullUpserts | src/routes/perch.orders.ts:207 | an upsert without a reference keeps the stored one |
| PerchOrders.LinkOrder | src/routes/perch.orders.ts:188-222 | ensures the member row, upserts the order, emits `order.link.updated`, answers ok with the given reference |
| PerchOrders.MemberByPatientRef | src/routes/perch.orders.ts:148-157 | a member of the tenant with that pharmacy reference, none exactly when there is none |
| PerchOrders.CreateOrderRoute | src/routes/perch.orders.ts:137-186 | 422 before any call for an unknown customer; a failed pharmacy call writes nothing and throws the error of the checked reply (500 with "Pharmacy API error: <status>", the thrown message, or "Pharmacy API missing orderNumber"); success upserts the order with the pharmacy's number and no status and emits `order.link.updated` |
| PerchOrders.CreatedOrderIsLinked | src/routes/perch.orders.ts:161-176 | a created order has a non-empty pharmacy reference, so it can take notes |
| PerchOrders.RouteAuthor | src/routes/perch.orders.ts:330 | display name if present, else user id if present, else role |
| PerchOrders.AuthorsAgreeUnlessEmpty | src/routes/perch.orders.ts:330 | route and webhook transform name the same author unless a present name or id is empty |
| PerchOrders.AuthorsDifferOnEmptyName | src/routes/perch.orders.ts:330 | an empty display name is sent by the route and skipped by the transform |
| PerchOrders.PharmacyNoteId | src/routes/perch.orders.ts:342 | `pharmacy_note_id` when present, else the note object's id |
| PerchOrders.CreateOrderNoteRoute | src/routes/perch.orders.ts:267-350 | 400 for an unlinked order, 422 for a missing reference, both before anything happens. Past them the note is stored and announced and the pharmacy called, whatever its answer. Success answers the note, type, status (default open), time and pharmacy ids |
| PerchOrders.PharmacyFailureDuplicatesNoteOnRetry | src/routes/perch.orders.ts:277-345 | a pharmacy failure leaves the note stored; the keyed retry stores and announces a second copy |
| PerchOrders.OrderNoteEventIsForwardedAgain | src/routes/perch.orders.ts:324-331 | the order note's event, delivered to a pharmacy subscription, builds the same order number, body and type the route already sent |
| PerchMembers.LinkEmail | src/routes/perch.members.ts:144 | `email` when present, else `memberEmail` |
| PerchMembers.JoinNames | src/routes/perch.members.ts:145 | the non-empty names joined by one space |
| PerchMembers.FullName | src/routes/perch.members.ts:145 | `name` when present, else the trimmed joined names |
| PerchMembers.DerivedNameIsTrimmed | src/routes/perch.members.ts:145 | a derived name has no surrounding white space |
| PerchMembers.EmptyNameIsNotDerived | src/routes/perch.members.ts:145-160 | an empty `name` is refused even with first and last name given |
| PerchMembers.UpsertMember | src/routes/perch.members.ts:174-193 | the row is updated in place or appended; other rows are unchanged; each given field replaces, each null one keeps the stored value |
| PerchMembers.LinkMemberRoute | src/routes/perch.members.ts:134-198 | 400 exactly when a required field is falsy, before any call or write; a failed pharmacy call writes nothing and throws the error of the checked reply (500 with "Pharmacy API error: <status>", the thrown message, or "Pharmacy API missing customerId"); success upserts the member with the customer id and emits `member.link.updated` |
| PerchMembers.LinkedMemberCanOrder | src/routes/perch.members.ts:174-193 | after a link, order creation for the new customer id finds this member |
| PerchMembers.CreatePatientNoteRoute | src/routes/perch.members.ts:303-357 | ensures the member, stores a patient note with no order (status default open), emits `note.created`, makes no call; answers with the note id as its own thread root, scope "patient", the path's member id, no order, the body's note type, the status and the creation time |
| PerchMembers.PatientNotesStayLocal | src/routes/perch.members.ts:349 | a pharmacy subscription counts a patient note's delivery as done without any call |
| NoteReplies.FindByExternalRef | src/routes/notes.ts:40-46 | a note of the tenant with that external reference, none exactly when there is none |
| NoteReplies.ResolveNote | src/routes/notes.ts:40-48 | a note matching by id or external reference; none exactly when nothing matches; a match by external reference wins |
| NoteReplies.ReplyEventData | src/routes/notes.ts:80-85 | note, reply and member ids; the order id exactly when it is truthy |
| NoteReplies.CreateReplyRoute | src/routes/notes.ts:39-88 | 404 with nothing written for an unknown note; otherwise the reply is stored under the resolved note's id, `note.reply.created` is emitted, and the answer echoes the lookup id |
| NoteReplies.ReplyListedUnderResolvedNote | src/routes/notes.ts:55-87 | the new reply is listed under the resolved note, while the answer names the lookup id when they differ |
| NoteReplies.PatientReplyHasNoOrder | src/routes/notes.ts:84 | a reply to a note without a truthy order id is announced with no order |
| NoteReplies.KeyReusedForOtherNoteConflicts | src/routes/notes.ts:39 | the same key and reply body sent to another note is refused with 409 |
| Multipart.GetBoundary | src/routes/customer.media.ts:17-20 | none exactly when no `boundary=` (in any case) is followed by a non-`;` character; otherwise the capture of the leftmost match, trimmed and unquoted; never contains `;` |
| Multipart.FirstMatchLeftmost | src/routes/customer.media.ts:18 | a match is the leftmost one, and there is none exactly when no position matches |
| Multipart.StripQuotes | src/routes/customer.media.ts:19 | a leading quote is dropped exactly when there is one, then a trailing quote exactly when what is left ends with one; the rest is kept as it is |
| Multipart.SpanEndsAreDelimiters | src/routes/customer.media.ts:35-46 | each part lies between two occurrences of the delimiter at or after the cursor |
| Multipart.SpansChain | src/routes/customer.media.ts:35-46 | consecutive parts share their delimiter: the parts are everything between the occurrences used |
| Multipart.SpansHoldNoDelimiter | src/routes/customer.media.ts:37-41 | no part contains the delimiter |
| Multipart.SpansStopAtLastDelimiter | src/routes/customer.media.ts:37-41 | the loop stops only when no delimiter follows the last one used: trailing bytes never form a part |
| Multipart.SplitParts | src/routes/customer.media.ts:35-46 | the loop terminates and returns exactly the segments between consecutive delimiters |
| Multipart.FilenameOrDefault | src/routes/customer.media.ts:75 | the declared filename when it is non-empty, else "upload.bin"; never empty |
| Multipart.PartContentType | src/routes/customer.media.ts:71-76 | the part's trimmed Content-Type when it has a non-blank one, else "application/octet-stream"; never empty |
| Multipart.ReadPart | src/routes/customer.media.ts:61-81 | skipped exactly when no header line is a Content-Disposition or it has no `name="…"`. Otherwise it is a file when the disposition has a `filename="…"`: that name or "upload.bin", the trimmed Content-Type or "application/octet-stream", and the content. Without one it is a field named by the `name` capture, holding the trimmed content |
| Multipart.ParsePart | src/routes/customer.media.ts:51-81 | after the leading CRLF is dropped, an empty part, `--\r\n` or a part with no blank line is skipped. Otherwise the headers before the first blank line are read with the content that follows it, less its last two characters, of length max(0, …). A field's value is that content trimmed |
| Multipart.ParseMultipartFormData | src/routes/customer.media.ts:30-85 | the parsed fields and file are those of the parts applied in order |
| Multipart.FileFromSomePart | src/routes/customer.media.ts:73-78 | there is a file exactly when some part has a filename |
| Multipart.LastFileWins | src/routes/customer.media.ts:73-78 | the file is that of the last part with a filename |
| Multipart.FieldsAreNamed | src/routes/customer.media.ts:79-80 | a field exists exactly when some text part has that name (other than `__proto__`) |
| Multipart.LastFieldWins | src/routes/customer.media.ts:79-80 | a field holds the value of the last text part with its name |
| CustomerMedia.ReadInput | src/routes/customer.media.ts:94-114 | a multipart body fails with 400 exactly when the boundary is missing or empty, and is otherwise the trimmed email, the trimmed url (when non-empty) and the file of the parsed body. Any other body gives the trimmed JSON email (or empty), a trimmed url exactly when the JSON url is truthy, and no file |
| CustomerMedia.CheckInput | src/routes/customer.media.ts:116-126 | 400 unless there is an email and exactly one of file and url |
| CustomerMedia.FindMemberByEmail | src/routes/customer.media.ts:128-142 | a member of the tenant with that email, none exactly when there is none |
| CustomerMedia.FinalUrl | src/routes/customer.media.ts:185-186 | the pharmacy's URL, else the request's, else empty, trimmed |
| CustomerMedia.Description | src/routes/customer.media.ts:189 | the pharmacy's description, else the file name, else "Customer document" |
| CustomerMedia.Forward | src/routes/customer.media.ts:144-217 | a 404 reply is answered 404 "Customer not found". Any other non-2xx reply is answered 400 with the pharmacy's message, or "Failed to upload media". A thrown error is answered 500. A row is stored exactly on a 2xx reply, with its URL, description and source type, and answered 200 |
| CustomerMedia.ServeInput | src/routes/customer.media.ts:116-168 | a failed check is answered 400 with its message and no call; a valid input whose email names no member of the tenant is answered 404 "Customer not found" with no call; a valid input of a found member is forwarded as the file upload or, without a file, the URL link, and the pharmacy's reply decides the answer |
| CustomerMedia.ServeUpload | src/routes/customer.media.ts:87-217 | 403 exactly for a missing or wrong key, with nothing done; with the key accepted, a body whose boundary cannot be read is answered 400 "Invalid multipart boundary" and any other body is served as the input it reads as; a call and a row only after every check passes. The service is this upload fed the lower-cased Content-Type (`HandleMediaUploadAsWritten`); the corrected handler feeds it the header as sent (`HandleMediaUpload`) |
| CustomerMedia.RecordedSourceIsExclusive | src/routes/customer.media.ts:120-126 | a recorded document has exactly one source, and `source_type` is "file" exactly when a file was uploaded |
| CustomerMedia.RecordedUrlPrefersPharmacy | src/routes/customer.media.ts:186 | the recorded URL is the pharmacy's, else the request's, else empty for a file |
| CustomerMedia.GetBoundaryAfterPrefix | src/routes/customer.media.ts:17-20 | after `multipart/form-data; boundary=`, the whole rest of the header is the boundary, trimmed and unquoted |
| CustomerMedia.GetBoundaryReadsQuoted | src/routes/customer.media.ts:17-20 | `boundary="<b>"` is read back as `<b>` |
| CustomerMedia.GetBoundaryReadsPadded | src/routes/customer.media.ts:17-20 | `boundary= <b> ` is read back as `<b>` |
| CustomerMedia.GetBoundaryReadsDeclared | src/routes/customer.media.ts:17-20 | `getBoundary` reads back a plain boundary declared as `multipart/form-data; boundary=<b>` |
| CustomerMedia.LowerCasedHeader | src/routes/customer.media.ts:94 | lower-casing the header lower-cases the boundary and nothing else |
| CustomerMedia.AsWrittenSplitsAtLowerCase | src/routes/customer.media.ts:94-107 | the service splits the body at `--` plus the lower-cased boundary |
| CustomerMedia.CorrectedSplitsAtDeclared | src/routes/customer.media.ts:101-107 | the corrected handler splits the body at `--` plus the boundary as declared |
| CustomerMedia.AsWrittenHandlerSplitsAtLowerCase | src/routes/customer.media.ts:87-117 | with the key accepted, the service serves the body as split at `--` plus the lower-cased boundary |
| CustomerMedia.CorrectedHandlerSplitsAtDeclared | src/routes/customer.media.ts:87-117 | with the key accepted, the corrected handler serves the body as split at `--` plus the boundary as declared |
| CustomerMedia.AsWrittenReadsNothing | src/routes/customer.media.ts:94-110 | when the body lacks a character of the lower-cased delimiter, the service reads an empty email and neither file nor url |
| CustomerMedia.LowerCasedBoundaryLosesParts | src/routes/customer.media.ts:94-117 | when the body lacks a character of the lower-cased delimiter, the service answers 400 "Customer email is required" |
| CustomerMedia.MixedCaseBoundaryLosesEmail | src/routes/customer.media.ts:94-117 | a concrete upload with boundary `QZ` and an email field is refused for a missing email |
| Text.Trim | src/routes/customer.media.ts:80 | the slice of the input left when the leading and trailing white space is removed: no white space at either end, empty exactly when the input is all white space |
| Text.TrimIdempotent | src/routes/customer.media.ts:108 | trimming twice is trimming once |
| Text.LeadingSpace | src/routes/customer.media.ts:80 | the length of the leading run of white space: all white space before it, none at it |
| Text.IndexOf | src/routes/customer.media.ts:37 | the first occurrence at or after `from`, or -1 when there is none |

## Left out

- SQL, the MySQL pool and transactions. Tables are sequences or maps, and each statement is a function on them. Statements run one after another with no rollback, as in the code.
- `fetch`. Every outbound call is a parameter: a function from the request to a reply, or a reply value.
- HMAC-SHA256 signing (`signWebhook`) and `sha256`. The ledger's digest is an uninterpreted function. The signature header is not part of `SubscriberPost`.
- `crypto.randomUUID` and `new Date()`. Fresh ids and the clock are parameters, and their freshness is a precondition (`FreshFor`).
- Concurrency. The model has one sequential dispatcher, and `ProcessBatch` does not claim exclusive leases across workers; the code does not check the lease update either. Racing ledger inserts are likewise not modelled.
- JSON parsing and serialisation. The model does not cover the `event_types` column decoding, the payload round trip or a non-JSON pharmacy body. A body that is not JSON is an absent `document`.
- zod schema validation. Bodies arrive already validated, as datatypes. Path parameters do too: `memberID` and `orderID` are integers in the model, while `Number(...)` of other path text gives NaN or a fraction.
- The JSON body of the media upload, which no schema checks. The source runs `String(...)` on whatever `email` and `url` hold. The model takes them as optional strings (`MediaRequest.bodyEmail`, `MediaRequest.bodyUrl`), so numbers, objects and arrays there are not modelled.
- Stream reading of the raw body. The body is a sequence of characters, one per octet, with no UTF-8 decoding.
- `toLowerCase` only folds ASCII letters (`Text.ToLowerAscii`), and SQL collation is exact string equality.
- `__proto__` as a multipart field name is a no-op, as on a plain object. Other inherited property names are ordinary keys.
- The error-to-status mapping of the Express app. A thrown error without a status is answered 500; the "Unsupported pharmacy event type" path is unreachable from the dispatcher.
- The messages routes, `GET /v1/perch/customers/:email` (a pass-through), the worker loop, the internal batch route, authentication and configuration loading. None of them holds logic of the core.
- Order details forwarded to the pharmacy on order creation are one opaque string (`OrderCreateBody.details`).
- The listing routes' `LIMIT` and `ORDER BY created_at`. Rows are given in query order, and grouping is modelled over that order.
- One clock per batch. The source reads `CURRENT_TIMESTAMP(3)` separately in the select, in each lease and in each outcome update, and stamps the event envelope with the application's clock. The model gives the whole batch, and an emission, a single `now` (`BatchContext.now`). It does not capture that `last_attempt_at`, `locked_until` and the retry time of a later row are taken after the earlier rows' requests.
- Row choice among ties. SQL may return any matching row in these lookups, and each model function scans rows in the order given. Its contract promises only some matching row:
  - the member lookup of the media upload is `LIMIT 1` with no `ORDER BY` (`CustomerMedia.FindMemberByEmail`);
  - the member lookup of order creation takes `memberRows[0]` with no `ORDER BY` (`PerchOrders.MemberByPatientRef`);
  - the note lookup of the reply route orders only by the `CASE` on which column matched, so notes that share one `external_note_ref` tie (`NoteReplies.ResolveNote`, `NoteReplies.FindByExternalRef`).
- Ties in `ORDER BY next_attempt_at`. SQL leaves the order of rows with equal `next_attempt_at` open, and that order decides which tied rows the `LIMIT` cuts off. The model breaks ties by insertion order (`DeliveryStore.order`), so it promises one particular choice among those SQL allows.
- The default batch size of 50. `ProcessBatch` takes the limit as a parameter, and the default argument of `processWebhookBatch` is not modelled.

## Findings

| source | as written | input that shows it | evidently intended | confidence | as-written member | corrected member |
|---|---|---|---|---|---|---|
| src/routes/customer.media.ts:94-101 | the boundary is read from the lower-cased Content-Type, so the body is split at `--` plus the lower-cased boundary | Content-Type `multipart/form-data; boundary=QZ` with a body whose delimiters are `--QZ` and which carries an `email` field: no part is found and the answer is 400 "Customer email is required" | split at the boundary exactly as declared (boundaries are case-sensitive) | high, not executed | CustomerMedia.MixedCaseBoundaryLosesEmail | CustomerMedia.CorrectedHandlerSplitsAtDeclared |
