/**
 * How the note-listing routes shape their answer: replies grouped by the
 * note they answer, each note carrying its replies, and (for the listing of
 * all members' notes) notes grouped by member in order of first appearance.
 * The rows come in the order the queries return them.
 */
module Grouping {
  import opened Tables

  /** The rows of `s` whose key is `k`, in input order. */
  function Having<T, K(==)>(s: seq<T>, keyOf: T -> K, k: K): (rs: seq<T>)
    ensures |rs| <= |s|
  {
    if s == [] then []
    else
      var last := s[|s| - 1];
      Having(s[..|s| - 1], keyOf, k) + (if keyOf(last) == k then [last] else [])
  }

  lemma HavingSnoc<T, K>(s: seq<T>, x: T, keyOf: T -> K, k: K)
    ensures Having(s + [x], keyOf, k) == Having(s, keyOf, k) + (if keyOf(x) == k then [x] else [])
  {
    assert (s + [x])[..|s|] == s;
  }

  /** Each row with key `k` is kept as often as it occurs in the input, and no other row is. */
  lemma {:induction false} HavingCounts<T, K>(s: seq<T>, keyOf: T -> K, k: K, x: T)
    ensures multiset(Having(s, keyOf, k))[x] == if keyOf(x) == k then multiset(s)[x] else 0
  {
    if s != [] {
      var init, last := s[..|s| - 1], s[|s| - 1];
      assert s == init + [last];
      HavingCounts(init, keyOf, k, x);
    }
  }

  /** The note a reply answers. */
  function ReplyNote(r: ReplyRow): string {
    r.noteId
  }

  /** The member a note belongs to. */
  function NoteMember(n: NoteRow): int {
    n.memberId
  }

  /** The replies of one note, in input order. */
  function RepliesOf(replies: seq<ReplyRow>, noteId: string): seq<ReplyRow> {
    Having(replies, ReplyNote, noteId)
  }

  /**
   * Every reply addressed to the note lands in its list, as often as it
   * occurs in the input, and no other reply does.
   */
  lemma RepliesOfCounts(replies: seq<ReplyRow>, noteId: string, x: ReplyRow)
    ensures multiset(RepliesOf(replies, noteId))[x] == if x.noteId == noteId then multiset(replies)[x] else 0
  {
    HavingCounts(replies, ReplyNote, noteId, x);
  }

  /** A note with no reply in the input gets the empty list. */
  lemma {:induction false} NoRepliesGivesEmpty(replies: seq<ReplyRow>, noteId: string)
    requires forall r :: r in replies ==> r.noteId != noteId
    ensures RepliesOf(replies, noteId) == []
  {
    if replies != [] {
      NoRepliesGivesEmpty(replies[..|replies| - 1], noteId);
    }
  }

  /** A map read in which an absent key gives an empty array. */
  function Lookup<K, V>(m: map<K, seq<V>>, k: K): seq<V> {
    if k in m then m[k] else []
  }

  /**
   * The `repliesBy` loop: one pass over the replies, appending each to the
   * array of its note.
   */
  method GroupReplies(replies: seq<ReplyRow>) returns (byNote: map<string, seq<ReplyRow>>)
    ensures forall id :: Lookup(byNote, id) == RepliesOf(replies, id)
    ensures forall id :: id in byNote <==> exists r :: r in replies && r.noteId == id
  {
    byNote := map[];
    for i := 0 to |replies|
      invariant forall id :: Lookup(byNote, id) == RepliesOf(replies[..i], id)
      invariant forall id :: id in byNote <==> exists r :: r in replies[..i] && r.noteId == id
    {
      var r := replies[i];
      var arr := Lookup(byNote, r.noteId);
      arr := arr + [r];
      byNote := byNote[r.noteId := arr];
      assert replies[..i + 1] == replies[..i] + [r];
      forall id
        ensures Lookup(byNote, id) == RepliesOf(replies[..i + 1], id)
      {
        HavingSnoc(replies[..i], r, ReplyNote, id);
        assert RepliesOf(replies[..i + 1], id) == RepliesOf(replies[..i], id) + (if r.noteId == id then [r] else []);
      }
    }
    assert replies[..|replies|] == replies;
  }

  /** A note row together with its replies (`{ ...n, replies }`). */
  datatype ThreadedNote = ThreadedNote(note: NoteRow, replies: seq<ReplyRow>)

  /** Each note with the replies the grouping gives it. */
  function ThreadAll(notes: seq<NoteRow>, replies: seq<ReplyRow>): seq<ThreadedNote> {
    seq(|notes|, i requires 0 <= i < |notes| => ThreadedNote(notes[i], RepliesOf(replies, notes[i].noteId)))
  }

  lemma ThreadAllSnoc(notes: seq<NoteRow>, n: NoteRow, replies: seq<ReplyRow>)
    ensures ThreadAll(notes + [n], replies) == ThreadAll(notes, replies) + [ThreadedNote(n, RepliesOf(replies, n.noteId))]
  {
  }

  /**
   * The listing of one order's (or one member's) notes: each note, in input
   * order, with the replies addressed to it.
   */
  method ThreadReplies(notes: seq<NoteRow>, replies: seq<ReplyRow>) returns (items: seq<ThreadedNote>)
    ensures |items| == |notes|
    ensures forall i :: 0 <= i < |notes| ==> items[i].note == notes[i]
    ensures forall i :: 0 <= i < |notes| ==> items[i].replies == RepliesOf(replies, notes[i].noteId)
  {
    var byNote := GroupReplies(replies);
    items := seq(|notes|, i requires 0 <= i < |notes| => ThreadedNote(notes[i], Lookup(byNote, notes[i].noteId)));
  }

  /** The distinct member ids of `notes`, in order of first appearance. */
  function MemberOrder(notes: seq<NoteRow>): (ids: seq<int>)
    ensures |ids| <= |notes|
  {
    if notes == [] then []
    else
      var last := notes[|notes| - 1];
      var prior := MemberOrder(notes[..|notes| - 1]);
      if last.memberId in prior then prior else prior + [last.memberId]
  }

  lemma MemberOrderSnoc(notes: seq<NoteRow>, n: NoteRow)
    ensures MemberOrder(notes + [n]) == if n.memberId in MemberOrder(notes) then MemberOrder(notes) else MemberOrder(notes) + [n.memberId]
  {
    assert (notes + [n])[..|notes|] == notes;
  }

  /** Each member appears once, and exactly the members that have a note appear. */
  lemma {:induction false} MemberOrderDistinct(notes: seq<NoteRow>)
    ensures forall i, j :: 0 <= i < j < |MemberOrder(notes)| ==> MemberOrder(notes)[i] != MemberOrder(notes)[j]
    ensures forall id :: id in MemberOrder(notes) <==> exists n :: n in notes && n.memberId == id
  {
    if notes != [] {
      var init, last := notes[..|notes| - 1], notes[|notes| - 1];
      assert notes == init + [last];
      MemberOrderDistinct(init);
    }
  }

  /**
   * Groups keep the place their first note gave them: the groups of any
   * prefix of the notes are a prefix of the groups of all of them.
   */
  lemma {:induction false} MemberOrderExtends(notes: seq<NoteRow>, p: nat)
    requires p <= |notes|
    ensures MemberOrder(notes[..p]) <= MemberOrder(notes)
    decreases |notes| - p
  {
    if p < |notes| {
      MemberOrderExtends(notes, p + 1);
      assert notes[..p + 1][..p] == notes[..p];
    } else {
      assert notes[..p] == notes;
    }
  }

  /** The notes of one member, in input order. */
  function NotesOf(notes: seq<NoteRow>, memberId: int): seq<NoteRow> {
    Having(notes, NoteMember, memberId)
  }

  /** A member's group holds each of its notes as often as the input does, and nothing else. */
  lemma NotesOfCounts(notes: seq<NoteRow>, memberId: int, x: NoteRow)
    ensures multiset(NotesOf(notes, memberId))[x] == if x.memberId == memberId then multiset(notes)[x] else 0
  {
    HavingCounts(notes, NoteMember, memberId, x);
  }

  /** One turn of the `notesByMember` loop keeps every member's array equal to its threaded notes. */
  lemma GroupStep(groups: map<int, seq<ThreadedNote>>, seen: seq<NoteRow>, n: NoteRow, replies: seq<ReplyRow>)
    requires forall id :: Lookup(groups, id) == ThreadAll(NotesOf(seen, id), replies)
    ensures var groups' := groups[n.memberId := Lookup(groups, n.memberId) + [ThreadedNote(n, RepliesOf(replies, n.noteId))]];
      forall id :: Lookup(groups', id) == ThreadAll(NotesOf(seen + [n], id), replies)
  {
    var groups' := groups[n.memberId := Lookup(groups, n.memberId) + [ThreadedNote(n, RepliesOf(replies, n.noteId))]];
    forall id
      ensures Lookup(groups', id) == ThreadAll(NotesOf(seen + [n], id), replies)
    {
      HavingSnoc(seen, n, NoteMember, id);
      if id == n.memberId {
        ThreadAllSnoc(NotesOf(seen, id), n, replies);
      } else {
        assert Lookup(groups', id) == Lookup(groups, id);
      }
    }
  }

  /** One entry of `items`: a member and its notes. */
  datatype MemberNotes = MemberNotes(memberId: int, notes: seq<ThreadedNote>)

  /**
   * The `notesByMember` loop over a JavaScript `Map`, whose entries keep the
   * order in which their keys were first set: the `Map` is `keys` (that
   * order) and `groups` (the arrays). `byNote` is the `repliesBy` map.
   */
  method GroupNotes(notes: seq<NoteRow>, replies: seq<ReplyRow>, byNote: map<string, seq<ReplyRow>>)
    returns (keys: seq<int>, groups: map<int, seq<ThreadedNote>>)
    requires forall id :: Lookup(byNote, id) == RepliesOf(replies, id)
    ensures keys == MemberOrder(notes)
    ensures forall id :: id in groups <==> id in keys
    ensures forall id :: Lookup(groups, id) == ThreadAll(NotesOf(notes, id), replies)
  {
    keys, groups := [], map[];
    for i := 0 to |notes|
      invariant keys == MemberOrder(notes[..i])
      invariant forall id :: id in groups <==> id in keys
      invariant forall id :: Lookup(groups, id) == ThreadAll(NotesOf(notes[..i], id), replies)
    {
      var n := notes[i];
      assert notes[..i + 1] == notes[..i] + [n];
      MemberOrderSnoc(notes[..i], n);
      GroupStep(groups, notes[..i], n, replies);
      var memberNotes := Lookup(groups, n.memberId);
      memberNotes := memberNotes + [ThreadedNote(n, Lookup(byNote, n.noteId))];
      if n.memberId !in groups {
        keys := keys + [n.memberId];
      }
      groups := groups[n.memberId := memberNotes];
    }
    assert notes[..|notes|] == notes;
  }

  /**
   * The listing of all members' notes: one item per member, in order of the
   * member's first note, holding that member's notes in input order, each
   * with its replies.
   */
  method GroupByMember(notes: seq<NoteRow>, replies: seq<ReplyRow>) returns (items: seq<MemberNotes>)
    ensures |items| == |MemberOrder(notes)|
    ensures forall k :: 0 <= k < |items| ==> items[k].memberId == MemberOrder(notes)[k]
    ensures forall k :: 0 <= k < |items| ==> items[k].notes == ThreadAll(NotesOf(notes, items[k].memberId), replies)
  {
    var byNote := GroupReplies(replies);
    var keys, groups := GroupNotes(notes, replies, byNote);
    // every key has its array, so the entries are the keys with their arrays
    items := seq(|keys|, k requires 0 <= k < |keys| => MemberNotes(keys[k], Lookup(groups, keys[k])));
  }

  /**
   * Every note lands in exactly one group: the group of its member holds it
   * as often as the input does, and every other group holds it not at all.
   */
  lemma EachNoteInOneGroup(notes: seq<NoteRow>, x: NoteRow)
    requires x in notes
    ensures x.memberId in MemberOrder(notes)
    ensures multiset(NotesOf(notes, x.memberId))[x] == multiset(notes)[x]
    ensures forall id :: id != x.memberId ==> x !in NotesOf(notes, id)
  {
    MemberOrderDistinct(notes);
    NotesOfCounts(notes, x.memberId, x);
    forall id | id != x.memberId
      ensures x !in NotesOf(notes, id)
    {
      NotesOfCounts(notes, id, x);
    }
  }
}
