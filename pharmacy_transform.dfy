/**
 * One delivery attempt of the dispatcher: the generic subscriber POST, and
 * the "pharmacy" subscriber kind, which turns an order-scoped `note.created`
 * event into a note on the pharmacy's order and skips everything else.
 */
module PharmacyTransform {
  import opened Wrappers
  import opened Text
  import opened Tables
  import opened WebhookTypes

  /** The pharmacy's note type: CLINICAL for clinical notes, ADMIN for admin notes and anything else. */
  function PharmacyNoteType(noteType: string): (t: string)
    ensures t == "ADMIN" || t == "CLINICAL"
    ensures t == "CLINICAL" <==> noteType == "clinical_note"
    ensures noteType == "admin_note" ==> t == "ADMIN"
  {
    if noteType == "clinical_note" then "CLINICAL" else "ADMIN"
  }

  /**
   * The author sent to the pharmacy by the dispatcher:
   * display name, else user id, else role, the first non-empty one, or none.
   */
  function WebhookAuthor(actor: Actor): (author: Option<string>)
    ensures author.Some? ==> author.value != ""
    ensures Truthy(actor.displayName) ==> author == actor.displayName
    ensures !Truthy(actor.displayName) && Truthy(actor.userId) ==> author == actor.userId
    ensures !Truthy(actor.displayName) && !Truthy(actor.userId) ==> author == (if actor.role != "" then Some(actor.role) else None)
  {
    var a := OrTruthy(OrTruthy(actor.displayName, actor.userId), Some(actor.role));
    if Truthy(a) then a else None
  }

  /** What the pharmacy transform extracts for one note. */
  datatype PharmacyNote = PharmacyNote(
    orderNumber: string,
    body: string,
    pharmacyType: string,
    author: Option<string>,
    noteType: string)

  /** The linkage checks of the transform: note, member and order present, order scope. */
  predicate HasOrderLinkage(data: EventData) {
    Truthy(data.noteId) && TruthyInt(data.memberId) && TruthyInt(data.orderId) && data.scope == Some("order")
  }

  /** `orders.pharmacy_order_ref` of the event's order, when the row exists. */
  function OrderRefOf(db: Database, tenantId: string, orderId: int): Option<string> {
    var key := OrderKey(tenantId, orderId);
    if key in db.orders then db.orders[key].pharmacyOrderRef else None
  }

  /**
   * `buildPharmacyOrderNotePayload`: 400 for another event type or a missing
   * link, 422 when the order has no pharmacy reference, 404 when the note is
   * gone; otherwise the order reference, the note's body, its mapped type and
   * its author.
   */
  function BuildPharmacyOrderNotePayload(tenantId: string, payload: Envelope, db: Database): (r: Result<PharmacyNote>)
    ensures payload.eventType != "note.created" ==> r.Err? && r.error.status == 400
    ensures payload.eventType == "note.created" && !HasOrderLinkage(payload.data) ==> r.Err? && r.error.status == 400
    ensures r.Err? && r.error.status == 422 <==>
      payload.eventType == "note.created" && HasOrderLinkage(payload.data)
      && !Truthy(OrderRefOf(db, tenantId, payload.data.orderId.value))
    ensures r.Err? && r.error.status == 404 <==>
      payload.eventType == "note.created" && HasOrderLinkage(payload.data)
      && Truthy(OrderRefOf(db, tenantId, payload.data.orderId.value))
      && FindNote(db.notes, tenantId, payload.data.noteId.value).None?
    ensures r.Err? ==> r.error.status in {400, 404, 422}
    ensures r.Ok? ==>
      && payload.eventType == "note.created" && HasOrderLinkage(payload.data)
      && Some(r.value.orderNumber) == OrderRefOf(db, tenantId, payload.data.orderId.value)
      && r.value.orderNumber != ""
      && var n := FindNote(db.notes, tenantId, payload.data.noteId.value);
         && n.Some?
         && r.value.body == n.value.body
         && r.value.noteType == n.value.noteType
         && r.value.pharmacyType == PharmacyNoteType(n.value.noteType)
         && r.value.author == WebhookAuthor(n.value.createdBy)
  {
    var data := payload.data;
    if payload.eventType != "note.created" then
      Err(HttpError(400, "Unsupported pharmacy event type"))
    else if !HasOrderLinkage(data) then
      Err(HttpError(400, "Pharmacy requires order-scoped note.created events with orderID"))
    else
      var orderNumber := OrderRefOf(db, tenantId, data.orderId.value);
      if !Truthy(orderNumber) then
        Err(HttpError(422, "Missing pharmacy_order_ref for orderID=" + IntToString(data.orderId.value) + "."))
      else match FindNote(db.notes, tenantId, data.noteId.value)
        case None => Err(HttpError(404, "Note not found for note_id"))
        case Some(n) =>
          Ok(PharmacyNote(orderNumber.value, n.body, PharmacyNoteType(n.noteType), WebhookAuthor(n.createdBy), n.noteType))
  }

  /** How one attempt ended: `ok`, the error text recorded on failure, and the call made, if any. */
  datatype Attempt = Attempt(ok: bool, error: Option<string>, request: Option<Outbound>)

  /** The error text of a caught error: its message, or "network error" when that is empty. */
  function CaughtMessage(message: string): (text: string)
    ensures text != ""
    ensures message != "" ==> text == message
  {
    if message != "" then message else "network error"
  }

  predicate IsPharmacy(sub: Subscription) {
    sub.subscriberSystem == Some("pharmacy")
  }

  /** Only order-scoped `note.created` events are forwarded to the pharmacy. */
  predicate PharmacyForwards(payload: Envelope) {
    payload.eventType == "note.created" && payload.data.scope == Some("order")
  }

  /** The call to the pharmacy for one note, and how its reply ends the attempt. */
  function PostToPharmacy(d: Delivery, note: PharmacyNote, net: Outbound -> Reply): (a: Attempt)
    ensures a.request == Some(PharmacyNotePost(d.deliveryId, note.orderNumber, note.body, note.pharmacyType, note.author))
    ensures a.ok <==> net(a.request.value).Responded? && IsOkStatus(net(a.request.value).status)
  {
    var request := PharmacyNotePost(d.deliveryId, note.orderNumber, note.body, note.pharmacyType, note.author);
    match net(request)
    case Responded(status) =>
      if IsOkStatus(status) then Attempt(true, None, Some(request))
      else Attempt(false, Some("Pharmacy API error: " + IntToString(status)), Some(request))
    case Threw(message) => Attempt(false, Some(CaughtMessage(message)), Some(request))
  }

  /**
   * The body of the `try` in `processWebhookBatch` for one re-read row and its
   * subscription. Every error is caught and becomes the row's error text.
   */
  function AttemptDelivery(d: Delivery, sub: Subscription, db: Database, cfg: Config, net: Outbound -> Reply): (a: Attempt)
    ensures a.ok <==> a.error.None?
    ensures a.error.Some? ==> a.error.value != ""
    ensures IsPharmacy(sub) && !PharmacyForwards(d.payload) ==> a == Attempt(true, None, None)
    ensures IsPharmacy(sub) && PharmacyForwards(d.payload) ==>
      match BuildPharmacyOrderNotePayload(d.tenantId, d.payload, db)
      case Err(e) => a == Attempt(false, Some(e.message), None)
      case Ok(note) =>
        if cfg.onlyAdminNotes && note.noteType != "admin_note" then a == Attempt(true, None, None)
        else a == PostToPharmacy(d, note, net)
    ensures !IsPharmacy(sub) ==>
      && a.request == Some(SubscriberPost(d.deliveryId, sub.url, sub.secret, d.payload))
      && match net(a.request.value)
         case Responded(status) =>
           if IsOkStatus(status) then a.ok else a.error == Some("HTTP " + IntToString(status))
         case Threw(message) => a.error == Some(CaughtMessage(message))
  {
    if IsPharmacy(sub) then
      if !PharmacyForwards(d.payload) then Attempt(true, None, None)
      else match BuildPharmacyOrderNotePayload(d.tenantId, d.payload, db)
        case Err(e) => Attempt(false, Some(CaughtMessage(e.message)), None)
        case Ok(note) =>
          if cfg.onlyAdminNotes && note.noteType != "admin_note" then Attempt(true, None, None)
          else PostToPharmacy(d, note, net)
    else
      var request := SubscriberPost(d.deliveryId, sub.url, sub.secret, d.payload);
      match net(request)
      case Responded(status) =>
        if IsOkStatus(status) then Attempt(true, None, Some(request))
        else Attempt(false, Some("HTTP " + IntToString(status)), Some(request))
      case Threw(message) => Attempt(false, Some(CaughtMessage(message)), Some(request))
  }

  /**
   * A forwarded note whose order has no pharmacy reference fails the attempt
   * even when the admin-only filter would have skipped it: the transform runs
   * before the filter.
   */
  lemma MissingLinkageFailsBeforeFilter(d: Delivery, sub: Subscription, db: Database, cfg: Config, net: Outbound -> Reply)
    requires IsPharmacy(sub) && PharmacyForwards(d.payload) && HasOrderLinkage(d.payload.data)
    requires !Truthy(OrderRefOf(db, d.tenantId, d.payload.data.orderId.value))
    ensures !AttemptDelivery(d, sub, db, cfg, net).ok
    ensures AttemptDelivery(d, sub, db, cfg, net).request.None?
  {
  }
}
