/**
 * The order routes of the Perch integration: linking an order to a member
 * and a pharmacy order reference, creating the order at the pharmacy,
 * listing an order's notes with their replies, and adding a note to an
 * order, which is stored, announced as `note.created` and posted to the
 * pharmacy's order.
 */
module PerchOrders {
  import opened Wrappers
  import opened Text
  import opened Tables
  import opened WebhookTypes
  import opened PharmacyTransform
  import opened Idempotency
  import opened RouteEffects

  const OrderNotesEndpoint := "/v1/perch/orders/:orderID/notes"
  const OrderCreateEndpoint := "/v1/perch/orders/:orderID/create"

  /**
   * The order upsert: insert the row, or, when the key exists, overwrite the
   * member and keep the stored pharmacy reference and status unless a
   * non-null value is given for them.
   */
  function UpsertOrder(orders: map<OrderKey, OrderRow>, key: OrderKey, memberId: int, ref: Option<string>, status: Option<string>)
    : (r: map<OrderKey, OrderRow>)
    ensures r.Keys == orders.Keys + {key}
    ensures forall k :: k in orders && k != key ==> r[k] == orders[k]
    // the member is always overwritten
    ensures r[key].memberId == memberId
    // a given reference or status replaces the stored one; a null one keeps it
    ensures ref.Some? ==> r[key].pharmacyOrderRef == ref
    ensures ref.None? ==> r[key].pharmacyOrderRef == if key in orders then orders[key].pharmacyOrderRef else None
    ensures status.Some? ==> r[key].status == status
    ensures status.None? ==> r[key].status == if key in orders then orders[key].status else None
  {
    if key in orders then
      var stored := orders[key];
      orders[key := OrderRow(memberId, ref.OrElse(stored.pharmacyOrderRef), status.OrElse(stored.status))]
    else
      orders[key := OrderRow(memberId, ref, status)]
  }

  /** Repeating an upsert changes nothing more. */
  lemma UpsertOrderIdempotent(orders: map<OrderKey, OrderRow>, key: OrderKey, memberId: int, ref: Option<string>, status: Option<string>)
    ensures var once := UpsertOrder(orders, key, memberId, ref, status);
      UpsertOrder(once, key, memberId, ref, status) == once
  {
  }

  /** Once an order has a pharmacy reference, no upsert without one removes it. */
  lemma RefSurvivesNullUpserts(orders: map<OrderKey, OrderRow>, key: OrderKey, memberId: int, status: Option<string>)
    requires key in orders && orders[key].pharmacyOrderRef.Some?
    ensures UpsertOrder(orders, key, memberId, None, status)[key].pharmacyOrderRef == orders[key].pharmacyOrderRef
  {
  }

  /** `data` of `order.link.updated`. */
  function OrderLinkData(orderId: int, memberId: int): EventData {
    EventData(None, None, Some(memberId), Some(orderId), None)
  }

  /** The body of `POST /v1/perch/orders/:orderID/link`. */
  datatype OrderLinkBody = OrderLinkBody(memberId: int, pharmacyOrderRef: Option<string>, status: Option<string>)

  /** `{ ok: true, pharmacy_order_ref }` */
  datatype LinkResponse = LinkResponse(ok: bool, pharmacyOrderRef: Option<string>)

  /**
   * `POST /v1/perch/orders/:orderID/link`: make sure the member row exists,
   * upsert the order, announce `order.link.updated`.
   */
  function LinkOrder(db: Database, tenantId: string, orderId: int, body: OrderLinkBody): (run: Run<LinkResponse>)
    ensures run.result == Ok(LinkResponse(true, body.pharmacyOrderRef))
    ensures run.calls == [] && run.events == [Event("order.link.updated", OrderLinkData(orderId, body.memberId))]
    ensures run.db.members == EnsureMember(db.members, tenantId, body.memberId)
    ensures run.db.orders == UpsertOrder(db.orders, OrderKey(tenantId, orderId), body.memberId, body.pharmacyOrderRef, body.status)
    ensures run.db.notes == db.notes && run.db.replies == db.replies
  {
    var members := EnsureMember(db.members, tenantId, body.memberId);
    var orders := UpsertOrder(db.orders, OrderKey(tenantId, orderId), body.memberId, body.pharmacyOrderRef, body.status);
    Run(db.(members := members, orders := orders), [Event("order.link.updated", OrderLinkData(orderId, body.memberId))], [],
        Ok(LinkResponse(true, body.pharmacyOrderRef)))
  }

  /**
   * The member of the tenant whose pharmacy patient reference is the
   * customer id: the first such row.
   */
  function MemberByPatientRef(members: seq<MemberRow>, tenantId: string, customerId: string): (r: Option<int>)
    ensures r.Some? ==> exists m :: m in members && m.tenantId == tenantId && m.pharmacyPatientRef == Some(customerId) && m.memberId == r.value
    ensures r.None? <==> forall m :: m in members ==> !(m.tenantId == tenantId && m.pharmacyPatientRef == Some(customerId))
  {
    if members == [] then None
    else if members[0].tenantId == tenantId && members[0].pharmacyPatientRef == Some(customerId) then Some(members[0].memberId)
    else MemberByPatientRef(members[1..], tenantId, customerId)
  }

  /** The body of `POST /v1/perch/orders/:orderID/create`; `details` (items, shipping, assessment, notes) is forwarded as is. */
  datatype OrderCreateBody = OrderCreateBody(customerId: string, details: string)

  /** `{ ok: true, orderNumber }` */
  datatype CreateResponse = CreateResponse(ok: bool, orderNumber: string)

  const MemberNotLinked := HttpError(422, "Member not found for customerId. Link member with pharmacy_patient_ref first.")
  const MissingOrderNumber := HttpError(500, "Pharmacy API missing orderNumber")

  /**
   * The handler of `POST /v1/perch/orders/:orderID/create`: find the member
   * by its pharmacy customer id, create the order at the pharmacy, upsert the
   * order with the pharmacy's order number and no status, announce
   * `order.link.updated`.
   */
  function CreateOrderRoute(db: Database, tenantId: string, orderId: int, body: OrderCreateBody, reply: PharmacyReply<Option<string>>)
    : (run: Run<CreateResponse>)
    // an unknown customer is refused before the pharmacy is called
    ensures MemberByPatientRef(db.members, tenantId, body.customerId).None? ==> run == Refused(db, MemberNotLinked)
    ensures MemberByPatientRef(db.members, tenantId, body.customerId).Some? ==>
      && run.calls == [PostOrder(body.customerId, body.details)]
      && (run.result.Ok? <==> CheckedId(reply, MissingOrderNumber).Ok?)
    // a failed pharmacy call throws the error of the checked reply: a non-2xx status, the thrown message, or the missing number
    ensures MemberByPatientRef(db.members, tenantId, body.customerId).Some? && run.result.Err? ==>
      run.result == Err(CheckedId(reply, MissingOrderNumber).error)
    // a failure writes and announces nothing
    ensures run.result.Err? ==> run.db == db && run.events == []
    ensures run.result.Ok? ==>
      var memberId := MemberByPatientRef(db.members, tenantId, body.customerId).value;
      var orderNumber := CheckedId(reply, MissingOrderNumber).value;
      && run.result.value == CreateResponse(true, orderNumber)
      && run.db == db.(orders := UpsertOrder(db.orders, OrderKey(tenantId, orderId), memberId, Some(orderNumber), None))
      && run.events == [Event("order.link.updated", OrderLinkData(orderId, memberId))]
  {
    match MemberByPatientRef(db.members, tenantId, body.customerId)
    case None => Refused(db, MemberNotLinked)
    case Some(memberId) =>
      var calls := [PostOrder(body.customerId, body.details)];
      match CheckedId(reply, MissingOrderNumber)
      case Err(e) => Run(db, [], calls, Err(e))
      case Ok(orderNumber) =>
        var orders := UpsertOrder(db.orders, OrderKey(tenantId, orderId), memberId, Some(orderNumber), None);
        Run(db.(orders := orders), [Event("order.link.updated", OrderLinkData(orderId, memberId))], calls,
            Ok(CreateResponse(true, orderNumber)))
  }

  /** A created order can take notes: its row carries the pharmacy's order number. */
  lemma CreatedOrderIsLinked(db: Database, tenantId: string, orderId: int, body: OrderCreateBody, reply: PharmacyReply<Option<string>>)
    requires CreateOrderRoute(db, tenantId, orderId, body, reply).result.Ok?
    ensures OrderLinked(CreateOrderRoute(db, tenantId, orderId, body, reply).db, tenantId, orderId)
  {
  }

  /** The pharmacy order reference of a linked order, as `orders` holds it. */
  predicate OrderLinked(db: Database, tenantId: string, orderId: int) {
    OrderKey(tenantId, orderId) in db.orders && Truthy(db.orders[OrderKey(tenantId, orderId)].pharmacyOrderRef)
  }

  /**
   * The author the order-note route sends to the pharmacy:
   * display name, else user id, else role: the first one that is present.
   */
  function RouteAuthor(actor: Actor): (author: string)
    ensures actor.displayName.Some? ==> author == actor.displayName.value
    ensures actor.displayName.None? && actor.userId.Some? ==> author == actor.userId.value
    ensures actor.displayName.None? && actor.userId.None? ==> author == actor.role
  {
    actor.displayName.OrElse(actor.userId).GetOr(actor.role)
  }

  /**
   * The route and the webhook transform name the same author unless a
   * display name or user id is present but empty, which the route keeps
   * and the transform skips.
   */
  lemma AuthorsAgreeUnlessEmpty(actor: Actor)
    requires actor.role != "" && actor.displayName != Some("") && actor.userId != Some("")
    ensures WebhookAuthor(actor) == Some(RouteAuthor(actor))
  {
  }

  /** An empty display name is sent by the route, and skipped by the webhook transform. */
  lemma AuthorsDifferOnEmptyName()
    ensures RouteAuthor(Actor("admin", Some("u1"), Some(""))) == ""
    ensures WebhookAuthor(Actor("admin", Some("u1"), Some(""))) == Some("u1")
  {
  }

  /** What the pharmacy's note endpoint answers: `pharmacy_note_id`, `note._id`, `thread_id`. */
  datatype PharmacyNoteCreated = PharmacyNoteCreated(pharmacyNoteId: Option<string>, noteObjectId: Option<string>, threadId: Option<string>)

  /** The answer of `POST /v1/perch/orders/:orderID/notes`. */
  datatype OrderNoteResponse = OrderNoteResponse(
    noteId: string,
    threadRootId: string,
    scope: string,
    memberId: int,
    orderId: int,
    noteType: string,
    status: string,
    createdAt: string,
    pharmacyNoteId: Option<string>,
    pharmacyThreadId: Option<string>)

  /** The pharmacy's note id: `pharmacy_note_id` when present, else the note object's id, else none. */
  function PharmacyNoteId(created: PharmacyNoteCreated): (id: Option<string>)
    ensures created.pharmacyNoteId.Some? ==> id == created.pharmacyNoteId
    ensures created.pharmacyNoteId.None? ==> id == created.noteObjectId
  {
    created.pharmacyNoteId.OrElse(created.noteObjectId)
  }

  const OrderNotLinked := HttpError(400, "Order is not linked. Call POST /v1/perch/orders/{orderID}/link first.")
  const MissingOrderRef := HttpError(422, "Order is missing pharmacy_order_ref. Link the order with pharmacy_order_ref first.")

  /** `data` of the `note.created` event of an order note. */
  function OrderNoteData(noteId: string, memberId: int, orderId: int): EventData {
    EventData(Some(noteId), None, Some(memberId), Some(orderId), Some("order"))
  }

  /**
   * The handler of `POST /v1/perch/orders/:orderID/notes`, with `noteId` the
   * fresh UUID, `nowIso` the clock and `reply` the pharmacy's answer.
   */
  function CreateOrderNoteRoute(db: Database, tenantId: string, orderId: int, body: NoteCreateBody, noteId: string, nowIso: string,
                                reply: PharmacyReply<PharmacyNoteCreated>): (run: Run<OrderNoteResponse>)
    // both linkage checks run before anything is written, announced or sent
    ensures OrderKey(tenantId, orderId) !in db.orders ==> run == Refused(db, OrderNotLinked)
    ensures OrderKey(tenantId, orderId) in db.orders && !OrderLinked(db, tenantId, orderId) ==> run == Refused(db, MissingOrderRef)
    // past them, the note is stored and announced whatever the pharmacy answers
    ensures OrderLinked(db, tenantId, orderId) ==>
      var row := db.orders[OrderKey(tenantId, orderId)];
      && run.db == db.(notes := db.notes + [NewNote(noteId, tenantId, "order", row.memberId, Some(orderId), body)])
      && run.events == [Event("note.created", OrderNoteData(noteId, row.memberId, orderId))]
      && run.calls == [PostOrderNote(row.pharmacyOrderRef.value, body.body, PharmacyNoteType(body.noteType), RouteAuthor(body.createdBy))]
      && (run.result.Ok? <==> CheckedBody(reply).Ok?)
      && (run.result.Err? ==> run.result.error == CheckedBody(reply).error)
    ensures run.result.Ok? ==>
      var v := run.result.value;
      && v.noteId == noteId && v.threadRootId == noteId && v.scope == "order" && v.orderId == orderId
      && v.memberId == db.orders[OrderKey(tenantId, orderId)].memberId
      && v.noteType == body.noteType && v.status == (if body.status.Some? then body.status.value else "open")
      && v.createdAt == nowIso
      && v.pharmacyNoteId == PharmacyNoteId(reply.body) && v.pharmacyThreadId == reply.body.threadId
  {
    var key := OrderKey(tenantId, orderId);
    if key !in db.orders then Refused(db, OrderNotLinked)
    else
      var row := db.orders[key];
      if !Truthy(row.pharmacyOrderRef) then Refused(db, MissingOrderRef)
      else
        var note := NewNote(noteId, tenantId, "order", row.memberId, Some(orderId), body);
        var db' := db.(notes := db.notes + [note]);
        var events := [Event("note.created", OrderNoteData(noteId, row.memberId, orderId))];
        var calls := [PostOrderNote(row.pharmacyOrderRef.value, body.body, PharmacyNoteType(body.noteType), RouteAuthor(body.createdBy))];
        match CheckedBody(reply)
        case Err(e) => Run(db', events, calls, Err(e))
        case Ok(created) =>
          Run(db', events, calls, Ok(OrderNoteResponse(noteId, noteId, "order", row.memberId, orderId, body.noteType, note.status,
                                                      nowIso, PharmacyNoteId(created), created.threadId)))
  }

  /** The request body the ledger hashes for an order note: `{ orderID, ...body }`. */
  datatype OrderNoteRequest = OrderNoteRequest(orderId: int, body: NoteCreateBody)

  /**
   * A pharmacy failure after the note was stored leaves the note, and its
   * event, in place and records nothing in the ledger; the client's retry
   * with the same idempotency key stores and announces a second copy.
   */
  lemma PharmacyFailureDuplicatesNoteOnRetry(ledger: map<LedgerKey, LedgerRecord<OrderNoteResponse>>, db: Database, tenantId: string,
                                             orderId: int, body: NoteCreateBody, key: string, hash: OrderNoteRequest -> string,
                                             firstId: string, secondId: string, nowIso: string,
                                             failed: PharmacyReply<PharmacyNoteCreated>, answered: PharmacyReply<PharmacyNoteCreated>)
    requires key != "" && LedgerKey(tenantId, OrderNotesEndpoint, key) !in ledger
    requires OrderLinked(db, tenantId, orderId)
    requires CheckedBody(failed).Err?
    ensures var request := OrderNoteRequest(orderId, body);
      var k1 := RunKeyed(ledger, tenantId, OrderNotesEndpoint, Some(key), request, hash, db,
                         CreateOrderNoteRoute(db, tenantId, orderId, body, firstId, nowIso, failed));
      var k2 := RunKeyed(k1.ledger, tenantId, OrderNotesEndpoint, Some(key), request, hash, k1.run.db,
                         CreateOrderNoteRoute(k1.run.db, tenantId, orderId, body, secondId, nowIso, answered));
      var memberId := db.orders[OrderKey(tenantId, orderId)].memberId;
      && k1.run.result.Err?
      && k2.run.db.notes == db.notes + [NewNote(firstId, tenantId, "order", memberId, Some(orderId), body),
                                        NewNote(secondId, tenantId, "order", memberId, Some(orderId), body)]
      && |k1.run.events + k2.run.events| == 2
  {
    var request := OrderNoteRequest(orderId, body);
    var first := CreateOrderNoteRoute(db, tenantId, orderId, body, firstId, nowIso, failed);
    assert OrderLinked(first.db, tenantId, orderId);
    var second := CreateOrderNoteRoute(first.db, tenantId, orderId, body, secondId, nowIso, answered);
    FailedRunIsRunAgain(ledger, tenantId, OrderNotesEndpoint, key, request, hash, db, first, second);
  }

  /**
   * The `note.created` event of an order note is also what the pharmacy
   * subscriber forwards: when the note's member and order ids are truthy and
   * its id is new, a delivery of that event to a "pharmacy" subscription
   * builds the same order number, body and type the route already sent.
   * With such a subscription the note reaches the pharmacy twice, unless the
   * dispatcher's admin-only filter (`onlyAdminNotes`) skips a note whose
   * type is not `admin_note`.
   */
  lemma OrderNoteEventIsForwardedAgain(db: Database, tenantId: string, orderId: int, body: NoteCreateBody, noteId: string, nowIso: string,
                                       reply: PharmacyReply<PharmacyNoteCreated>, eventId: string, occurredAt: int)
    requires OrderLinked(db, tenantId, orderId)
    requires noteId != "" && orderId != 0 && db.orders[OrderKey(tenantId, orderId)].memberId != 0
    requires FindNote(db.notes, tenantId, noteId).None?
    ensures var run := CreateOrderNoteRoute(db, tenantId, orderId, body, noteId, nowIso, reply);
      var env := Envelope(eventId, run.events[0].eventType, occurredAt, tenantId, run.events[0].data);
      && PharmacyForwards(env)
      && BuildPharmacyOrderNotePayload(tenantId, env, run.db).Ok?
      && var sent := BuildPharmacyOrderNotePayload(tenantId, env, run.db).value;
         && run.calls[0].orderNumber == sent.orderNumber
         && run.calls[0].body == sent.body
         && run.calls[0].noteType == sent.pharmacyType
  {
    var row := db.orders[OrderKey(tenantId, orderId)];
    var note := NewNote(noteId, tenantId, "order", row.memberId, Some(orderId), body);
    FindNoteAppend(db.notes, note);
    var run := CreateOrderNoteRoute(db, tenantId, orderId, body, noteId, nowIso, reply);
    assert run.db.notes == db.notes + [note];
    assert OrderRefOf(run.db, tenantId, orderId) == row.pharmacyOrderRef;
  }
}
