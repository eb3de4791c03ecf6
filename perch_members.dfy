/**
 * The member routes of the Perch integration: linking a member to a new
 * pharmacy customer, and adding a patient-scoped note to a member. The
 * note listings of these routes are the groupings of `Grouping`.
 */
module PerchMembers {
  import opened Wrappers
  import opened Text
  import opened Tables
  import opened WebhookTypes
  import opened PharmacyTransform
  import opened RouteEffects
  import opened PerchOrders

  /** The body of `POST /v1/perch/members/:memberID/link`; every field may be null or absent. */
  datatype MemberLinkBody = MemberLinkBody(
    email: Option<string>,
    memberEmail: Option<string>,
    name: Option<string>,
    firstName: Option<string>,
    lastName: Option<string>,
    phone: Option<string>,
    pharmacyPatientRef: Option<string>,
    dob: Option<string>,
    gender: Option<string>,
    addressLine1: Option<string>,
    city: Option<string>,
    postCode: Option<string>,
    country: Option<string>)

  /** The email of the link body: `email` when present, else `memberEmail`, else none. */
  function LinkEmail(body: MemberLinkBody): (email: Option<string>)
    ensures body.email.Some? ==> email == body.email
    ensures body.email.None? ==> email == body.memberEmail
  {
    body.email.OrElse(body.memberEmail)
  }

  /** The non-empty ones of first and last name, joined by one space. */
  function JoinNames(first: Option<string>, last: Option<string>): (joined: string)
    ensures Truthy(first) && Truthy(last) ==> joined == first.value + " " + last.value
    ensures Truthy(first) && !Truthy(last) ==> joined == first.value
    ensures !Truthy(first) && Truthy(last) ==> joined == last.value
    ensures !Truthy(first) && !Truthy(last) ==> joined == ""
  {
    var parts := (if Truthy(first) then [first.value] else []) + (if Truthy(last) then [last.value] else []);
    if |parts| == 2 then parts[0] + " " + parts[1]
    else if |parts| == 1 then parts[0]
    else ""
  }

  /** The customer name: `name` when present (even empty), else the joined first and last names, trimmed. */
  function FullName(body: MemberLinkBody): (name: string)
    ensures body.name.Some? ==> name == body.name.value
    ensures body.name.None? ==> name == Trim(JoinNames(body.firstName, body.lastName))
  {
    if body.name.Some? then body.name.value else Trim(JoinNames(body.firstName, body.lastName))
  }

  /** A name derived from first and last name has no surrounding white space. */
  lemma DerivedNameIsTrimmed(body: MemberLinkBody)
    requires body.name.None?
    ensures Trim(FullName(body)) == FullName(body)
  {
    TrimIdempotent(JoinNames(body.firstName, body.lastName));
  }

  /** The nine fields the pharmacy requires, each truthy. */
  predicate RequiredFieldsPresent(body: MemberLinkBody) {
    && Truthy(LinkEmail(body)) && FullName(body) != ""
    && Truthy(body.dob) && Truthy(body.phone) && Truthy(body.gender)
    && Truthy(body.addressLine1) && Truthy(body.city) && Truthy(body.postCode) && Truthy(body.country)
  }

  /**
   * An empty `name` is present, so the name does not fall back to first and
   * last name: such a body is refused even with both names given.
   */
  lemma EmptyNameIsNotDerived(body: MemberLinkBody)
    requires body.name == Some("")
    ensures !RequiredFieldsPresent(body)
  {
  }

  /** The row of (tenantId, memberId), if there is one. */
  function StoredMember(members: seq<MemberRow>, tenantId: string, memberId: int): Option<MemberRow> {
    match MemberIndex(members, tenantId, memberId)
    case Some(i) => Some(members[i])
    case None => None
  }

  /**
   * The member upsert: insert the row, or, when the key exists, keep each of
   * email, first_name, last_name, phone and pharmacy_patient_ref unless a
   * non-null value is given for it.
   */
  function UpsertMember(members: seq<MemberRow>, tenantId: string, memberId: int, email: Option<string>, firstName: Option<string>,
                        lastName: Option<string>, phone: Option<string>, patientRef: Option<string>): (r: seq<MemberRow>)
    ensures MemberIndex(r, tenantId, memberId).Some?
    // the row is updated in place, or appended when the key is new; no other row changes
    ensures |r| == |members| + (if MemberIndex(members, tenantId, memberId).Some? then 0 else 1)
    ensures forall j :: 0 <= j < |members| && !(members[j].tenantId == tenantId && members[j].memberId == memberId) ==> r[j] == members[j]
    // a non-null value replaces the stored one, a null one keeps it
    ensures var prior := StoredMember(members, tenantId, memberId);
      var row := r[MemberIndex(r, tenantId, memberId).value];
      && row.email == (if email.Some? then email else (if prior.Some? then prior.value.email else None))
      && row.firstName == (if firstName.Some? then firstName else (if prior.Some? then prior.value.firstName else None))
      && row.lastName == (if lastName.Some? then lastName else (if prior.Some? then prior.value.lastName else None))
      && row.phone == (if phone.Some? then phone else (if prior.Some? then prior.value.phone else None))
      && row.pharmacyPatientRef == (if patientRef.Some? then patientRef else (if prior.Some? then prior.value.pharmacyPatientRef else None))
  {
    match MemberIndex(members, tenantId, memberId)
    case None =>
      var r := members + [MemberRow(tenantId, memberId, email, firstName, lastName, phone, patientRef)];
      MemberIndexAppend(members, r[|members|]);
      r
    case Some(i) =>
      var stored := members[i];
      var r := members[i := MemberRow(tenantId, memberId, email.OrElse(stored.email), firstName.OrElse(stored.firstName),
                                      lastName.OrElse(stored.lastName), phone.OrElse(stored.phone),
                                      patientRef.OrElse(stored.pharmacyPatientRef))];
      MemberIndexUpdate(members, i, r[i]);
      r
  }

  lemma {:induction false} MemberIndexAppend(members: seq<MemberRow>, m: MemberRow)
    requires MemberIndex(members, m.tenantId, m.memberId).None?
    ensures MemberIndex(members + [m], m.tenantId, m.memberId) == Some(|members|)
  {
    if members != [] {
      assert (members + [m])[1..] == members[1..] + [m];
      MemberIndexAppend(members[1..], m);
    }
  }

  lemma {:induction false} MemberIndexUpdate(members: seq<MemberRow>, i: nat, m: MemberRow)
    requires MemberIndex(members, m.tenantId, m.memberId) == Some(i)
    ensures MemberIndex(members[i := m], m.tenantId, m.memberId) == Some(i)
  {
    if i > 0 {
      assert members[i := m][1..] == members[1..][i - 1 := m];
      MemberIndexUpdate(members[1..], i - 1, m);
    }
  }

  /** The answer of the link route: 400 with a message, or 200 with the pharmacy customer id. */
  datatype MemberLinkResponse = MemberLinkResponse(status: int, ok: bool, message: Option<string>, customerId: Option<string>)

  const MissingFieldsResponse := MemberLinkResponse(400, false, Some("Missing required pharmacy customer fields."), None)
  const MissingCustomerId := HttpError(500, "Pharmacy API missing customerId")

  /** The customer the link route asks the pharmacy to create. */
  function CustomerCall(body: MemberLinkBody): PharmacyCall
    requires RequiredFieldsPresent(body)
  {
    PostCustomer(FullName(body), LinkEmail(body).value, body.dob.value, body.phone.value, body.gender.value,
                 body.addressLine1.value, body.city.value, body.postCode.value, body.country.value)
  }

  /** `data` of `member.link.updated`. */
  function MemberLinkData(memberId: int): EventData {
    EventData(None, None, Some(memberId), None, None)
  }

  /**
   * The handler of `POST /v1/perch/members/:memberID/link`: check the
   * required fields, create the pharmacy customer, upsert the member with the
   * customer id as its `pharmacy_patient_ref`, announce `member.link.updated`.
   */
  function LinkMemberRoute(db: Database, tenantId: string, memberId: int, body: MemberLinkBody, reply: PharmacyReply<Option<string>>)
    : (run: Run<MemberLinkResponse>)
    // a missing field is answered with 400, before any call or write
    ensures !RequiredFieldsPresent(body) <==> run == Run(db, [], [], Ok(MissingFieldsResponse))
    ensures RequiredFieldsPresent(body) ==>
      && run.calls == [CustomerCall(body)]
      && (run.result.Ok? <==> CheckedId(reply, MissingCustomerId).Ok?)
    // a failed pharmacy call throws the error of the checked reply: a non-2xx status, the thrown message, or the missing id
    ensures run.result.Err? ==> run.result == Err(CheckedId(reply, MissingCustomerId).error)
    // a failed pharmacy call writes and announces nothing
    ensures run.result.Err? ==> run.db == db && run.events == []
    ensures RequiredFieldsPresent(body) && run.result.Ok? ==>
      var customerId := CheckedId(reply, MissingCustomerId).value;
      && run.result.value == MemberLinkResponse(200, true, None, Some(customerId))
      && run.db == db.(members := UpsertMember(db.members, tenantId, memberId, LinkEmail(body), body.firstName, body.lastName,
                                               body.phone, Some(customerId)))
      && run.events == [Event("member.link.updated", MemberLinkData(memberId))]
  {
    if !RequiredFieldsPresent(body) then Run(db, [], [], Ok(MissingFieldsResponse))
    else
      var calls := [CustomerCall(body)];
      match CheckedId(reply, MissingCustomerId)
      case Err(e) => Run(db, [], calls, Err(e))
      case Ok(customerId) =>
        var members := UpsertMember(db.members, tenantId, memberId, LinkEmail(body), body.firstName, body.lastName, body.phone, Some(customerId));
        Run(db.(members := members), [Event("member.link.updated", MemberLinkData(memberId))], calls,
            Ok(MemberLinkResponse(200, true, None, Some(customerId))))
  }

  /**
   * After a successful link, an order for the new customer id finds this
   * member, unless an earlier row of the tenant already carries that id.
   */
  lemma LinkedMemberCanOrder(db: Database, tenantId: string, memberId: int, body: MemberLinkBody, reply: PharmacyReply<Option<string>>)
    requires RequiredFieldsPresent(body) && CheckedId(reply, MissingCustomerId).Ok?
    requires forall m :: m in db.members && m.tenantId == tenantId && m.memberId != memberId ==>
               m.pharmacyPatientRef != Some(CheckedId(reply, MissingCustomerId).value)
    ensures MemberByPatientRef(LinkMemberRoute(db, tenantId, memberId, body, reply).db.members, tenantId, CheckedId(reply, MissingCustomerId).value)
              == Some(memberId)
  {
    var c := CheckedId(reply, MissingCustomerId).value;
    var r := LinkMemberRoute(db, tenantId, memberId, body, reply).db.members;
    var i := MemberIndex(r, tenantId, memberId).value;
    assert r[i].pharmacyPatientRef == Some(c);
    OnlyHolderIsFound(r, tenantId, memberId, c, i);
  }

  lemma {:induction false} OnlyHolderIsFound(members: seq<MemberRow>, tenantId: string, memberId: int, c: string, i: nat)
    requires i < |members| && members[i].tenantId == tenantId && members[i].memberId == memberId && members[i].pharmacyPatientRef == Some(c)
    requires forall m :: m in members && m.tenantId == tenantId && m.pharmacyPatientRef == Some(c) ==> m.memberId == memberId
    ensures MemberByPatientRef(members, tenantId, c) == Some(memberId)
  {
    if i > 0 && !(members[0].tenantId == tenantId && members[0].pharmacyPatientRef == Some(c)) {
      assert members[1..][i - 1] == members[i];
      OnlyHolderIsFound(members[1..], tenantId, memberId, c, i - 1);
    }
  }

  /** The answer of `POST /v1/perch/members/:memberID/notes`. */
  datatype PatientNoteResponse = PatientNoteResponse(
    noteId: string,
    threadRootId: string,
    scope: string,
    memberId: int,
    orderId: Option<int>,
    noteType: string,
    status: string,
    createdAt: string)

  /** `data` of the `note.created` event of a patient note. */
  function PatientNoteData(noteId: string, memberId: int): EventData {
    EventData(Some(noteId), None, Some(memberId), None, Some("patient"))
  }

  /**
   * The handler of `POST /v1/perch/members/:memberID/notes`: make sure the
   * member row exists, store the note with scope `patient` and no order,
   * announce `note.created`.
   */
  function CreatePatientNoteRoute(db: Database, tenantId: string, memberId: int, body: NoteCreateBody, noteId: string, nowIso: string)
    : (run: Run<PatientNoteResponse>)
    ensures run.db.members == EnsureMember(db.members, tenantId, memberId)
    ensures run.db.notes == db.notes + [NewNote(noteId, tenantId, "patient", memberId, None, body)]
    ensures run.db.orders == db.orders && run.db.replies == db.replies
    ensures run.events == [Event("note.created", PatientNoteData(noteId, memberId))] && run.calls == []
    ensures run.result.Ok?
    ensures run.result.value.status == if body.status.Some? then body.status.value else "open"
    ensures run.result.value.noteId == noteId && run.result.value.threadRootId == noteId && run.result.value.orderId.None?
    ensures run.result.value.scope == "patient" && run.result.value.memberId == memberId
    ensures run.result.value.noteType == body.noteType && run.result.value.createdAt == nowIso
  {
    var members := EnsureMember(db.members, tenantId, memberId);
    var note := NewNote(noteId, tenantId, "patient", memberId, None, body);
    Run(db.(members := members, notes := db.notes + [note]), [Event("note.created", PatientNoteData(noteId, memberId))], [],
        Ok(PatientNoteResponse(noteId, noteId, "patient", memberId, None, body.noteType, note.status, nowIso)))
  }

  /**
   * A patient note never reaches the pharmacy: a "pharmacy" subscription
   * counts its `note.created` delivery as done without any call.
   */
  lemma PatientNotesStayLocal(db: Database, tenantId: string, memberId: int, body: NoteCreateBody, noteId: string, nowIso: string,
                              d: Delivery, sub: Subscription, cfg: Config, net: Outbound -> Reply)
    requires d.payload.data == CreatePatientNoteRoute(db, tenantId, memberId, body, noteId, nowIso).events[0].data
    requires IsPharmacy(sub)
    ensures AttemptDelivery(d, sub, db, cfg, net) == Attempt(true, None, None)
  {
  }
}
