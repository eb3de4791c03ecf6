/**
 * What a route handler does besides answering: the rows it writes, the
 * events it hands to `emitEvent`, and the calls it makes to the pharmacy
 * API; and how `withIdempotency` decides whether those effects happen.
 * Nothing is undone when a handler throws half-way: the statements run one
 * after the other, outside any transaction.
 */
module RouteEffects {
  import opened Wrappers
  import opened Text
  import opened Tables
  import opened WebhookTypes
  import opened Idempotency

  /** A request a route sends to the pharmacy API. */
  datatype PharmacyCall =
    | PostCustomer(name: string, email: string, dob: string, phone: string, gender: string,
                   addressLine1: string, city: string, postCode: string, country: string)
    | PostOrder(customerId: string, details: string)
    | PostOrderNote(orderNumber: string, body: string, noteType: string, author: string)

  /** How the pharmacy answered: a response with its status and decoded JSON body, or a `fetch` that threw. */
  datatype PharmacyReply<T> = Responded(status: int, body: T) | Unreachable(message: string)

  /**
   * `if (!resp.ok) throw new Error("Pharmacy API error: <status>")`, then the
   * decoded body. Errors thrown without a status are answered with 500.
   */
  function CheckedBody<T>(reply: PharmacyReply<T>): (r: Result<T>)
    ensures r.Ok? <==> reply.Responded? && IsOkStatus(reply.status)
    ensures r.Ok? ==> r.value == reply.body
    ensures r.Err? ==> r.error.status == 500
    ensures reply.Responded? && !IsOkStatus(reply.status) ==>
      r.error.message == "Pharmacy API error: " + IntToString(reply.status)
    ensures reply.Unreachable? ==> r.error.message == reply.message
  {
    match reply
    case Unreachable(message) => Err(HttpError(500, message))
    case Responded(status, body) =>
      if IsOkStatus(status) then Ok(body)
      else Err(HttpError(500, "Pharmacy API error: " + IntToString(status)))
  }

  /**
   * A checked reply whose body carries an id that must be truthy
   * (`orderNumber`, `data.customerId`); a missing or empty one throws `missing`.
   */
  function CheckedId(reply: PharmacyReply<Option<string>>, missing: HttpError): (r: Result<string>)
    ensures r.Ok? <==> CheckedBody(reply).Ok? && Truthy(reply.body)
    ensures r.Ok? ==> Some(r.value) == reply.body && r.value != ""
    ensures CheckedBody(reply).Ok? && !Truthy(reply.body) ==> r == Err(missing)
    ensures CheckedBody(reply).Err? ==> r == Err(CheckedBody(reply).error)
  {
    match CheckedBody(reply)
    case Err(e) => Err(e)
    case Ok(id) => if Truthy(id) then Ok(id.value) else Err(missing)
  }

  /**
   * One run of a handler: the tables afterwards, the events it emitted, the
   * pharmacy calls it made, and what it returned or threw.
   */
  datatype Run<T> = Run(db: Database, events: seq<Event>, calls: seq<PharmacyCall>, result: Result<T>)

  /** A handler that throws before doing anything. */
  function Refused<T>(db: Database, e: HttpError): Run<T> {
    Run(db, [], [], Err(e))
  }

  /** The note body the note-creating routes accept. */
  datatype NoteCreateBody = NoteCreateBody(
    noteType: string,
    title: Option<string>,
    body: string,
    status: Option<string>,
    createdBy: Actor,
    externalNoteRef: Option<string>)

  /** The row stored for a new note; the status defaults to `open`. */
  function NewNote(noteId: string, tenantId: string, scope: string, memberId: int, orderId: Option<int>, body: NoteCreateBody): (n: NoteRow)
    ensures n.status == if body.status.Some? then body.status.value else "open"
    ensures n.noteId == noteId && n.tenantId == tenantId && n.scope == scope && n.memberId == memberId && n.orderId == orderId
    ensures n.noteType == body.noteType && n.title == body.title && n.body == body.body
    ensures n.createdBy == body.createdBy && n.externalNoteRef == body.externalNoteRef
  {
    NoteRow(noteId, tenantId, scope, memberId, orderId, body.noteType, body.title, body.body,
            body.status.GetOr("open"), body.createdBy, body.externalNoteRef)
  }

  /** A handler called through the ledger: the ledger afterwards and what the call did. */
  datatype Keyed<T> = Keyed(ledger: map<LedgerKey, LedgerRecord<T>>, run: Run<Executed<T>>)

  /**
   * `withIdempotency(tenant, endpoint, key, body, handler)` around a handler
   * that, if run on `db`, would do `run`: its effects happen exactly when the
   * ledger runs it.
   */
  function RunKeyed<T, B>(ledger: map<LedgerKey, LedgerRecord<T>>, tenantId: string, endpoint: string, idemKey: Option<string>,
                          body: B, hash: B -> string, db: Database, run: Run<T>): (k: Keyed<T>)
    ensures var o := Execute(ledger, tenantId, endpoint, idemKey, body, hash, run.result);
      && k.ledger == o.ledger && k.run.result == o.result
      && (o.ranHandler ==> k.run.db == run.db && k.run.events == run.events && k.run.calls == run.calls)
      && (!o.ranHandler ==> k.run.db == db && k.run.events == [] && k.run.calls == [])
  {
    var o := Execute(ledger, tenantId, endpoint, idemKey, body, hash, run.result);
    if o.ranHandler then Keyed(o.ledger, Run(run.db, run.events, run.calls, o.result))
    else Keyed(o.ledger, Run(db, [], [], o.result))
  }

  /**
   * A keyed handler that throws after writing keeps what it wrote, records
   * nothing in the ledger, and so is run again, effects and all, when the
   * client retries with the same key.
   */
  lemma FailedRunIsRunAgain<T, B>(ledger: map<LedgerKey, LedgerRecord<T>>, tenantId: string, endpoint: string, key: string,
                                  body: B, hash: B -> string, db: Database, first: Run<T>, second: Run<T>)
    requires key != "" && LedgerKey(tenantId, endpoint, key) !in ledger
    requires first.result.Err?
    ensures var k1 := RunKeyed(ledger, tenantId, endpoint, Some(key), body, hash, db, first);
      var k2 := RunKeyed(k1.ledger, tenantId, endpoint, Some(key), body, hash, first.db, second);
      && k1.ledger == ledger && k1.run.db == first.db && k1.run.events == first.events && k1.run.result.Err?
      && k2.run.db == second.db && k2.run.events == second.events && k2.run.calls == second.calls
  {
    NewKeyRecords(ledger, tenantId, endpoint, key, body, hash, first.result);
    NewKeyRecords(ledger, tenantId, endpoint, key, body, hash, second.result);
  }

  /**
   * The ledger's body for a keyed route carries the path parameter: two
   * requests that differ only in it hash apart (for any hash that tells
   * them apart), so reusing a key for another target is refused with 409
   * and runs nothing, instead of replaying the first target's answer.
   */
  lemma KeyReuseForOtherTargetConflicts<T, B>(ledger: map<LedgerKey, LedgerRecord<T>>, tenantId: string, endpoint: string, key: string,
                                              first: B, second: B, hash: B -> string, db: Database, run1: Run<T>, db2: Database, run2: Run<T>)
    requires key != "" && LedgerKey(tenantId, endpoint, key) !in ledger
    requires run1.result.Ok? && hash(first) != hash(second)
    ensures var k1 := RunKeyed(ledger, tenantId, endpoint, Some(key), first, hash, db, run1);
      var k2 := RunKeyed(k1.ledger, tenantId, endpoint, Some(key), second, hash, db2, run2);
      k2 == Keyed(k1.ledger, Run(db2, [], [], Err(ConflictError)))
  {
    NewKeyRecords(ledger, tenantId, endpoint, key, first, hash, run1.result);
  }
}
