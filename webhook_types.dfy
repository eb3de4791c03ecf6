/**
 * The entities of the webhook delivery engine: subscriptions, event
 * envelopes, delivery rows, the dispatcher's configuration and the
 * outbound calls it makes.
 */
module WebhookTypes {
  import opened Wrappers

  /**
   * The `data` object of an event. Every emitter fills some of these fields:
   * `note.created` (note, member, order for order notes, scope),
   * `note.reply.created` (note, reply, member, order), `order.link.updated`
   * (order, member), `member.link.updated` (member).
   */
  datatype EventData = EventData(
    noteId: Option<string>,
    noteReplyId: Option<string>,
    memberId: Option<int>,
    orderId: Option<int>,
    scope: Option<string>)

  /** An event a handler asks `emitEvent` to publish. */
  datatype Event = Event(eventType: string, data: EventData)

  /** The JSON payload stored with each delivery. */
  datatype Envelope = Envelope(eventId: string, eventType: string, occurredAt: int, tenantId: string, data: EventData)

  /** A row of `webhook_subscriptions`; `subscriberSystem` "pharmacy" selects the pharmacy transform. */
  datatype Subscription = Subscription(
    subscriptionId: string,
    tenantId: string,
    url: string,
    secret: string,
    eventTypes: seq<string>,
    enabled: bool,
    subscriberSystem: Option<string>)

  datatype DeliveryStatus = Pending | Sent | Failed

  /** A row of `webhook_deliveries`. Times are integers on one clock. */
  datatype Delivery = Delivery(
    deliveryId: string,
    tenantId: string,
    subscriptionId: string,
    eventId: string,
    eventType: string,
    payload: Envelope,
    status: DeliveryStatus,
    attemptCount: nat,
    lastAttemptAt: Option<int>,
    lastError: Option<string>,
    nextAttemptAt: int,
    lockedUntil: Option<int>)

  /**
   * Settings the dispatcher reads from the environment: WEBHOOK_MAX_ATTEMPTS,
   * WEBHOOK_LOCK_SECONDS and PHARMACY_ONLY_ADMIN_NOTES.
   */
  datatype Config = Config(maxAttempts: int, lockSeconds: int, onlyAdminNotes: bool)

  /** An HTTP call the dispatcher makes, tagged with the delivery it is made for. */
  datatype Outbound =
    | SubscriberPost(deliveryId: string, url: string, secret: string, envelope: Envelope)
    | PharmacyNotePost(deliveryId: string, orderNumber: string, body: string, noteType: string, author: Option<string>)

  /** What a `fetch` does: answers with a status, or throws an error with a (possibly empty) message. */
  datatype Reply = Responded(status: int) | Threw(message: string)

  /** `resp.ok` */
  predicate IsOkStatus(status: int) {
    200 <= status <= 299
  }

  predicate NoDuplicates<T(==)>(s: seq<T>) {
    forall i, j :: 0 <= i < j < |s| ==> s[i] != s[j]
  }
}
