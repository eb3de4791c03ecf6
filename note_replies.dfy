/**
 * `POST /v1/notes/:note_id/replies`: a reply to a note named either by its
 * own id or by the external reference it was created with. The reply is
 * stored under the note's own id, announced as `note.reply.created`, and
 * answered with the id the caller used.
 */
module NoteReplies {
  import opened Wrappers
  import opened Text
  import opened Tables
  import opened WebhookTypes
  import opened Idempotency
  import opened RouteEffects
  import opened Grouping

  const RepliesEndpoint := "/v1/notes/:note_id/replies"
  const NoteNotFound := HttpError(404, "Note not found")

  /** The first note of the tenant whose `external_note_ref` is `ref`. */
  function FindByExternalRef(notes: seq<NoteRow>, tenantId: string, ref: string): (r: Option<NoteRow>)
    ensures r.Some? ==> r.value in notes && r.value.tenantId == tenantId && r.value.externalNoteRef == Some(ref)
    ensures r.None? ==> forall n :: n in notes ==> !(n.tenantId == tenantId && n.externalNoteRef == Some(ref))
  {
    if notes == [] then None
    else if notes[0].tenantId == tenantId && notes[0].externalNoteRef == Some(ref) then Some(notes[0])
    else FindByExternalRef(notes[1..], tenantId, ref)
  }

  /**
   * The note lookup: rows of the tenant whose `note_id` or
   * `external_note_ref` equals the lookup id, those matched by the external
   * reference first, one row.
   */
  function ResolveNote(notes: seq<NoteRow>, tenantId: string, lookupId: string): (r: Option<NoteRow>)
    ensures r.Some? ==> r.value in notes && r.value.tenantId == tenantId
                        && (r.value.noteId == lookupId || r.value.externalNoteRef == Some(lookupId))
    // nothing is found exactly when no row matches either way
    ensures r.None? <==> forall n :: n in notes && n.tenantId == tenantId ==> n.noteId != lookupId && n.externalNoteRef != Some(lookupId)
    // a match by external reference wins over a match by id
    ensures (exists n :: n in notes && n.tenantId == tenantId && n.externalNoteRef == Some(lookupId)) ==>
              r.Some? && r.value.externalNoteRef == Some(lookupId)
  {
    match FindByExternalRef(notes, tenantId, lookupId)
    case Some(n) => Some(n)
    case None => FindNote(notes, tenantId, lookupId)
  }

  /** The body of the route. */
  datatype ReplyBody = ReplyBody(body: string, createdBy: Actor, externalReplyRef: Option<string>)

  /** `{ note_reply_id, note_id, created_at }` */
  datatype ReplyResponse = ReplyResponse(noteReplyId: string, noteId: string, createdAt: string)

  /** `data` of `note.reply.created`: `orderID` is null when the note's order id is absent or 0. */
  function ReplyEventData(note: NoteRow, replyId: string): (data: EventData)
    ensures data.noteId == Some(note.noteId) && data.noteReplyId == Some(replyId) && data.memberId == Some(note.memberId)
    ensures data.orderId.Some? <==> TruthyInt(note.orderId)
    ensures data.orderId.Some? ==> data.orderId == note.orderId
    ensures data.scope.None?
  {
    EventData(Some(note.noteId), Some(replyId), Some(note.memberId), if TruthyInt(note.orderId) then note.orderId else None, None)
  }

  /**
   * The handler, with `replyId` the fresh UUID and `nowIso` the clock:
   * resolve the note, store the reply, announce it.
   */
  function CreateReplyRoute(db: Database, tenantId: string, lookupId: string, body: ReplyBody, replyId: string, nowIso: string)
    : (run: Run<ReplyResponse>)
    // an unknown note is refused with nothing stored or announced
    ensures ResolveNote(db.notes, tenantId, lookupId).None? ==> run == Refused(db, NoteNotFound)
    ensures ResolveNote(db.notes, tenantId, lookupId).Some? ==>
      var note := ResolveNote(db.notes, tenantId, lookupId).value;
      // stored under the resolved note's own id
      && run.db == db.(replies := db.replies + [ReplyRow(replyId, tenantId, note.noteId, body.body, body.createdBy, body.externalReplyRef)])
      && run.events == [Event("note.reply.created", ReplyEventData(note, replyId))]
      && run.calls == []
      // answered with the id the caller used
      && run.result == Ok(ReplyResponse(replyId, lookupId, nowIso))
  {
    match ResolveNote(db.notes, tenantId, lookupId)
    case None => Refused(db, NoteNotFound)
    case Some(note) =>
      var reply := ReplyRow(replyId, tenantId, note.noteId, body.body, body.createdBy, body.externalReplyRef);
      Run(db.(replies := db.replies + [reply]), [Event("note.reply.created", ReplyEventData(note, replyId))], [],
          Ok(ReplyResponse(replyId, lookupId, nowIso)))
  }

  /**
   * A reply addressed through an external reference that differs from the
   * note's id is listed under the note, while the answer names the
   * reference: the two ids disagree.
   */
  lemma ReplyListedUnderResolvedNote(db: Database, tenantId: string, lookupId: string, body: ReplyBody, replyId: string, nowIso: string)
    requires ResolveNote(db.notes, tenantId, lookupId).Some?
    ensures var note := ResolveNote(db.notes, tenantId, lookupId).value;
      var run := CreateReplyRoute(db, tenantId, lookupId, body, replyId, nowIso);
      && RepliesOf(run.db.replies, note.noteId) == RepliesOf(db.replies, note.noteId) + [run.db.replies[|db.replies|]]
      && (note.noteId != lookupId ==> run.result.value.noteId != note.noteId)
  {
    var note := ResolveNote(db.notes, tenantId, lookupId).value;
    var run := CreateReplyRoute(db, tenantId, lookupId, body, replyId, nowIso);
    HavingSnoc(db.replies, run.db.replies[|db.replies|], ReplyNote, note.noteId);
  }

  /** A reply to a patient note, or to an order note with order id 0, is announced with `orderID: null`. */
  lemma PatientReplyHasNoOrder(db: Database, tenantId: string, lookupId: string, body: ReplyBody, replyId: string, nowIso: string)
    requires ResolveNote(db.notes, tenantId, lookupId).Some?
    requires !TruthyInt(ResolveNote(db.notes, tenantId, lookupId).value.orderId)
    ensures CreateReplyRoute(db, tenantId, lookupId, body, replyId, nowIso).events[0].data.orderId.None?
  {
  }

  /** The body the ledger hashes: `{ note_id: <lookup id>, ...body }`. */
  datatype ReplyRequest = ReplyRequest(noteId: string, body: ReplyBody)

  /**
   * The same idempotency key and reply body sent to another note is refused
   * with 409, because the lookup id is part of the hashed body, for any hash
   * that tells the two requests apart.
   */
  lemma KeyReusedForOtherNoteConflicts(ledger: map<LedgerKey, LedgerRecord<ReplyResponse>>, db: Database, tenantId: string, key: string,
                                       firstId: string, secondId: string, body: ReplyBody, hash: ReplyRequest -> string,
                                       replyId1: string, replyId2: string, nowIso: string)
    requires key != "" && LedgerKey(tenantId, RepliesEndpoint, key) !in ledger
    requires ResolveNote(db.notes, tenantId, firstId).Some?
    requires hash(ReplyRequest(firstId, body)) != hash(ReplyRequest(secondId, body))
    ensures var first := CreateReplyRoute(db, tenantId, firstId, body, replyId1, nowIso);
      var k1 := RunKeyed(ledger, tenantId, RepliesEndpoint, Some(key), ReplyRequest(firstId, body), hash, db, first);
      var k2 := RunKeyed(k1.ledger, tenantId, RepliesEndpoint, Some(key), ReplyRequest(secondId, body), hash, k1.run.db,
                         CreateReplyRoute(k1.run.db, tenantId, secondId, body, replyId2, nowIso));
      k2.run == Run(k1.run.db, [], [], Err(ConflictError))
  {
    var first := CreateReplyRoute(db, tenantId, firstId, body, replyId1, nowIso);
    var k1 := RunKeyed(ledger, tenantId, RepliesEndpoint, Some(key), ReplyRequest(firstId, body), hash, db, first);
    KeyReuseForOtherTargetConflicts(ledger, tenantId, RepliesEndpoint, key, ReplyRequest(firstId, body), ReplyRequest(secondId, body), hash,
                                    db, first, k1.run.db, CreateReplyRoute(k1.run.db, tenantId, secondId, body, replyId2, nowIso));
  }
}
