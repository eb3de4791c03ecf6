/**
 * The rows of the relational tables the route handlers and the webhook
 * transform read and write: members, orders, notes and note replies.
 * A table whose rows are looked up by something other than its key is a
 * sequence in row order; `orders`, only ever read by key, is a map.
 */
module Tables {
  import opened Wrappers

  /** `created_by` of a note or reply: a role, and an optional user id and display name. */
  datatype Actor = Actor(role: string, userId: Option<string>, displayName: Option<string>)

  /** A row of `members`, keyed by (tenantId, memberId). */
  datatype MemberRow = MemberRow(
    tenantId: string,
    memberId: int,
    email: Option<string>,
    firstName: Option<string>,
    lastName: Option<string>,
    phone: Option<string>,
    pharmacyPatientRef: Option<string>)

  datatype OrderKey = OrderKey(tenantId: string, orderId: int)

  /** A row of `orders` (the key lives in the map). */
  datatype OrderRow = OrderRow(memberId: int, pharmacyOrderRef: Option<string>, status: Option<string>)

  /** A row of `notes`; `scope` is "order" or "patient". */
  datatype NoteRow = NoteRow(
    noteId: string,
    tenantId: string,
    scope: string,
    memberId: int,
    orderId: Option<int>,
    noteType: string,
    title: Option<string>,
    body: string,
    status: string,
    createdBy: Actor,
    externalNoteRef: Option<string>)

  /** A row of `note_replies`. */
  datatype ReplyRow = ReplyRow(
    noteReplyId: string,
    tenantId: string,
    noteId: string,
    body: string,
    createdBy: Actor,
    externalReplyRef: Option<string>)

  datatype Database = Database(
    members: seq<MemberRow>,
    orders: map<OrderKey, OrderRow>,
    notes: seq<NoteRow>,
    replies: seq<ReplyRow>)

  /** The note of the tenant with the given id: the first such row. */
  function FindNote(notes: seq<NoteRow>, tenantId: string, noteId: string): (r: Option<NoteRow>)
    ensures r.Some? ==> r.value in notes && r.value.tenantId == tenantId && r.value.noteId == noteId
    ensures r.None? ==> forall n :: n in notes ==> !(n.tenantId == tenantId && n.noteId == noteId)
  {
    if notes == [] then None
    else if notes[0].tenantId == tenantId && notes[0].noteId == noteId then Some(notes[0])
    else FindNote(notes[1..], tenantId, noteId)
  }

  /** A note appended under a new id is the one found under that id. */
  lemma {:induction false} FindNoteAppend(notes: seq<NoteRow>, n: NoteRow)
    requires FindNote(notes, n.tenantId, n.noteId).None?
    ensures FindNote(notes + [n], n.tenantId, n.noteId) == Some(n)
  {
    if notes != [] {
      assert (notes + [n])[1..] == notes[1..] + [n];
      FindNoteAppend(notes[1..], n);
    }
  }

  /** The position of the member row with key (tenantId, memberId), if there is one. */
  function MemberIndex(members: seq<MemberRow>, tenantId: string, memberId: int): (r: Option<nat>)
    ensures r.Some? ==> r.value < |members| && members[r.value].tenantId == tenantId && members[r.value].memberId == memberId
    ensures r.None? ==> forall m :: m in members ==> !(m.tenantId == tenantId && m.memberId == memberId)
  {
    if members == [] then None
    else if members[0].tenantId == tenantId && members[0].memberId == memberId then Some(0)
    else match MemberIndex(members[1..], tenantId, memberId)
      case None => None
      case Some(i) => Some(i + 1)
  }

  /**
   * The insert of a bare member row: adds an empty row when the key is new
   * and otherwise changes nothing.
   */
  function EnsureMember(members: seq<MemberRow>, tenantId: string, memberId: int): (r: seq<MemberRow>)
    ensures MemberIndex(r, tenantId, memberId).Some?
    ensures |members| <= |r| <= |members| + 1 && r[..|members|] == members
    ensures MemberIndex(members, tenantId, memberId).Some? ==> r == members
  {
    if MemberIndex(members, tenantId, memberId).Some? then members
    else members + [MemberRow(tenantId, memberId, None, None, None, None, None)]
  }
}
