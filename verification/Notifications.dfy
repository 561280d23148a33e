/** Notifications, newest first and at most fifty per user
    (src/feature/notification/store/notification.store.ts), against the history of what was sent
    and read. */
module Notifications {
  import opened Collections

  const MAX_PER_USER := 50

  datatype Kind =
    | Like | Comment | Share | Follow | Mention
    | FriendRequest | FriendAccept | FriendReject
    | ReportSubmitted | ReportApproved | ReportRejected

  datatype Note = Note(
    id: string,
    recipientId: string,
    actorId: string,
    actorName: string,
    kind: Kind,
    postId: Option<string>,
    preview: Option<string>,
    read: bool,
    createdAt: int)

  /** The first fifty: `list.length = 50`, and `slice(0, 50)`. */
  function Cap(list: seq<Note>): seq<Note> {
    if |list| > MAX_PER_USER then list[..MAX_PER_USER] else list
  }

  /** The index of the first note with this id, or the length. */
  function FindNote(list: seq<Note>, id: string): (k: nat)
    ensures k <= |list|
    ensures k < |list| ==> list[k].id == id
    ensures forall i :: 0 <= i < k ==> list[i].id != id
  {
    if list == [] || list[0].id == id then 0 else 1 + FindNote(list[1..], id)
  }

  /** What a read mark finds to change. */
  predicate IsUnread(list: seq<Note>, id: string) {
    var k := FindNote(list, id);
    k < |list| && !list[k].read
  }

  function MarkOne(list: seq<Note>, id: string): seq<Note> {
    if IsUnread(list, id) then var k := FindNote(list, id); list[k := list[k].(read := true)] else list
  }

  function MarkAll(list: seq<Note>): seq<Note> {
    seq(|list|, i requires 0 <= i < |list| => list[i].(read := true))
  }

  // ---------------------------------------------------------------- the book of all users

  type Book = map<string, seq<Note>>

  function NotesOf(book: Book, userId: string): seq<Note> {
    if userId in book then book[userId] else []
  }

  datatype Event =
    | Created(note: Note)  // unread, with a fresh id and the time
    | Read(userId: string, id: string)
    | AllRead(userId: string)

  function Apply(book: Book, e: Event): Book {
    match e
    case Created(note) => book[note.recipientId := Cap([note] + NotesOf(book, note.recipientId))]
    case Read(u, id) => if u in book then book[u := MarkOne(book[u], id)] else book
    case AllRead(u) => if u in book then book[u := MarkAll(book[u])] else book
  }

  function Run(es: seq<Event>): Book {
    if es == [] then map[] else Apply(Run(es[..|es| - 1]), es[|es| - 1])
  }

  // ---------------------------------------------------------------- the history

  predicate IsSent(e: Event, userId: string) {
    e.Created? && e.note.recipientId == userId
  }

  /** When the user was sent their notifications, latest first, without any bound. */
  function Sent(es: seq<Event>, userId: string): seq<nat> {
    if es == [] then []
    else
      var n := |es| - 1;
      (if IsSent(es[n], userId) then [n] else []) + Sent(es[..n], userId)
  }

  predicate Reads(e: Event, note: Note) {
    e == Read(note.recipientId, note.id) || e == AllRead(note.recipientId)
  }

  predicate ReadSince(es: seq<Event>, i: nat)
    requires i < |es| && es[i].Created?
  {
    exists j :: i < j < |es| && Reads(es[j], es[i].note)
  }

  /** The note sent at `i` as it should show now. */
  function NoteAt(es: seq<Event>, i: nat): Note
    requires i < |es| && es[i].Created?
  {
    es[i].note.(read := ReadSince(es, i))
  }

  predicate Fresh(es: seq<Event>) {
    && (forall i :: 0 <= i < |es| && es[i].Created? ==> !es[i].note.read)
    && (forall i, j :: 0 <= i < j < |es| && es[i].Created? && es[j].Created? ==> es[i].note.id != es[j].note.id)
  }

  lemma {:induction false} SentIsSent(es: seq<Event>, userId: string)
    ensures forall k :: 0 <= k < |Sent(es, userId)| ==>
              Sent(es, userId)[k] < |es| && IsSent(es[Sent(es, userId)[k]], userId)
    ensures forall k, l :: 0 <= k < l < |Sent(es, userId)| ==> Sent(es, userId)[l] < Sent(es, userId)[k]
  {
    if es != [] {
      SentIsSent(es[..|es| - 1], userId);
    }
  }

  /** The history lists every notification sent to the user, and no other event. */
  lemma {:induction false} SentIsAll(es: seq<Event>, userId: string)
    ensures forall i: nat :: i in Sent(es, userId) <==> i < |es| && IsSent(es[i], userId)
  {
    if es != [] {
      var n := |es| - 1;
      SentIsAll(es[..n], userId);
    }
  }

  lemma ReadSinceGrows(es: seq<Event>, i: nat)
    requires i < |es| - 1 && es[i].Created?
    ensures ReadSince(es, i) <==> ReadSince(es[..|es| - 1], i) || Reads(es[|es| - 1], es[i].note)
  {
    var n := |es| - 1;
    if ReadSince(es[..n], i) {
      var j :| i < j < n && Reads(es[..n][j], es[i].note);
      assert Reads(es[j], es[i].note);
    }
    if ReadSince(es, i) && !Reads(es[n], es[i].note) {
      var j :| i < j < |es| && Reads(es[j], es[i].note);
      assert Reads(es[..n][j], es[..n][i].note);
    }
  }

  // ---------------------------------------------------------------- one event, one list

  function Update(e: Event, note: Note): Note {
    if Reads(e, note) then note.(read := true) else note
  }

  function UpdateList(e: Event, list: seq<Note>): seq<Note> {
    seq(|list|, i requires 0 <= i < |list| => Update(e, list[i]))
  }

  /** At most fifty notes, to this user, with distinct ids. */
  predicate ListOk(list: seq<Note>, userId: string) {
    && |list| <= MAX_PER_USER
    && (forall i :: 0 <= i < |list| ==> list[i].recipientId == userId)
    && (forall i, j :: 0 <= i < j < |list| ==> list[i].id != list[j].id)
  }

  lemma MarkOneUpdates(list: seq<Note>, userId: string, id: string)
    requires ListOk(list, userId)
    ensures MarkOne(list, id) == UpdateList(Read(userId, id), list)
  {
    var f := FindNote(list, id);
    forall i | 0 <= i < |list| ensures MarkOne(list, id)[i] == Update(Read(userId, id), list[i]) {
      if f < |list| && i != f {
        assert list[i].id != list[f].id;
      }
    }
  }

  lemma OthersStay(e: Event, list: seq<Note>, userId: string)
    requires ListOk(list, userId)
    requires match e case Created(_) => true case Read(u, _) => u != userId case AllRead(u) => u != userId
    ensures UpdateList(e, list) == list
  {}

  /** What an event does to one user's list, whoever it is about. */
  lemma EventUpdates(book: Book, e: Event, userId: string)
    requires ListOk(NotesOf(book, userId), userId)
    ensures NotesOf(Apply(book, e), userId) ==
            Cap((if IsSent(e, userId) then [e.note] else []) + UpdateList(e, NotesOf(book, userId)))
  {
    var list := NotesOf(book, userId);
    match e
    case Created(note) => OthersStay(e, list, userId);
    case Read(u, id) =>
      if u == userId { MarkOneUpdates(list, userId, id); } else { OthersStay(e, list, userId); }
    case AllRead(u) =>
      if u == userId { assert MarkAll(list) == UpdateList(e, list); } else { OthersStay(e, list, userId); }
  }

  // ---------------------------------------------------------------- the book shows the history

  predicate ShowsAt(note: Note, es: seq<Event>, i: nat) {
    i < |es| && es[i].Created? && note == NoteAt(es, i)
  }

  predicate ShowsAll(notes: seq<Note>, es: seq<Event>, sent: seq<nat>) {
    |notes| <= |sent| && forall k :: 0 <= k < |notes| ==> ShowsAt(notes[k], es, sent[k])
  }

  /** The user's notes are the latest fifty they were sent, each read if it has been since. */
  predicate Shows(book: Book, es: seq<Event>, userId: string) {
    var notes, sent := NotesOf(book, userId), Sent(es, userId);
    && |notes| == (if |sent| > MAX_PER_USER then MAX_PER_USER else |sent|)
    && ShowsAll(notes, es, sent)
  }

  lemma ShowsLater(note: Note, es: seq<Event>, i: nat)
    requires es != [] && ShowsAt(note, es[..|es| - 1], i)
    ensures ShowsAt(Update(es[|es| - 1], note), es, i)
  {
    ReadSinceGrows(es, i);
  }

  lemma ShowsAllLater(notes: seq<Note>, es: seq<Event>, sent: seq<nat>)
    requires es != [] && ShowsAll(notes, es[..|es| - 1], sent)
    ensures ShowsAll(UpdateList(es[|es| - 1], notes), es, sent)
  {
    forall k | 0 <= k < |notes| ensures ShowsAt(Update(es[|es| - 1], notes[k]), es, sent[k]) {
      ShowsLater(notes[k], es, sent[k]);
    }
  }

  lemma NewestShows(notes: seq<Note>, es: seq<Event>, sent: seq<nat>)
    requires es != [] && Fresh(es) && es[|es| - 1].Created? && ShowsAll(notes, es, sent)
    ensures ShowsAll([es[|es| - 1].note] + notes, es, [|es| - 1] + sent)
  {
    var n := |es| - 1;
    assert !ReadSince(es, n);
    assert ShowsAt(es[n].note, es, n);
  }

  lemma ShownListIsOk(book: Book, es: seq<Event>, userId: string)
    requires Fresh(es) && Shows(book, es, userId)
    ensures ListOk(NotesOf(book, userId), userId)
  {
    SentIsSent(es, userId);
    var notes, sent := NotesOf(book, userId), Sent(es, userId);
    forall i | 0 <= i < |notes| ensures notes[i].recipientId == userId {
      assert ShowsAt(notes[i], es, sent[i]);
    }
    forall i, j | 0 <= i < j < |notes| ensures notes[i].id != notes[j].id {
      assert ShowsAt(notes[i], es, sent[i]) && ShowsAt(notes[j], es, sent[j]);
    }
  }

  /** One more event, list by list. */
  lemma EventShows(was: seq<Note>, es: seq<Event>, userId: string)
    requires es != [] && Fresh(es)
    requires ShowsAll(was, es[..|es| - 1], Sent(es[..|es| - 1], userId))
    ensures var e := es[|es| - 1];
            ShowsAll((if IsSent(e, userId) then [e.note] else []) + UpdateList(e, was), es, Sent(es, userId))
  {
    var n := |es| - 1;
    ShowsAllLater(was, es, Sent(es[..n], userId));
    if IsSent(es[n], userId) {
      NewestShows(UpdateList(es[n], was), es, Sent(es[..n], userId));
    } else {
      assert [] + UpdateList(es[n], was) == UpdateList(es[n], was);
    }
  }

  lemma CapShows(notes: seq<Note>, es: seq<Event>, sent: seq<nat>)
    requires ShowsAll(notes, es, sent)
    ensures ShowsAll(Cap(notes), es, sent)
  {}

  /** The capped list loses nothing a reader can see: after any run, with fresh ids, each user's
      list is the latest fifty notifications ever sent to them, latest first, and each shows as read
      exactly when some later event read it, however many came and went in between. */
  lemma {:induction false} ListShowsHistory(es: seq<Event>, userId: string)
    requires Fresh(es)
    ensures Shows(Run(es), es, userId)
    ensures forall i: nat :: i in Sent(es, userId) <==> i < |es| && IsSent(es[i], userId)
    ensures forall k, l :: 0 <= k < l < |Sent(es, userId)| ==> Sent(es, userId)[l] < Sent(es, userId)[k]
  {
    SentIsAll(es, userId);
    SentIsSent(es, userId);
    if es != [] {
      var n := |es| - 1;
      ListShowsHistory(es[..n], userId);
      StepShows(Run(es[..n]), es, userId);
    }
  }

  lemma StepShows(book: Book, es: seq<Event>, userId: string)
    requires es != [] && Fresh(es) && Shows(book, es[..|es| - 1], userId)
    ensures Shows(Apply(book, es[|es| - 1]), es, userId)
  {
    var n := |es| - 1;
    var was := NotesOf(book, userId);
    ShownListIsOk(book, es[..n], userId);
    EventUpdates(book, es[n], userId);
    EventShows(was, es, userId);
    CapShows((if IsSent(es[n], userId) then [es[n].note] else []) + UpdateList(es[n], was), es, Sent(es, userId));
  }

  lemma IdsStayDistinct(es: seq<Event>, userId: string, k: nat, l: nat)
    requires Fresh(es) && k < l < |NotesOf(Run(es), userId)|
    ensures NotesOf(Run(es), userId)[k].id != NotesOf(Run(es), userId)[l].id
  {
    ListShowsHistory(es, userId);
    SentIsSent(es, userId);
    assert ShowsAt(NotesOf(Run(es), userId)[k], es, Sent(es, userId)[k]);
    assert ShowsAt(NotesOf(Run(es), userId)[l], es, Sent(es, userId)[l]);
  }

  /** `markRead` answers true exactly when the note is among the user's latest fifty and no earlier
      event has read it. */
  lemma MarkReadAnswersExactly(es: seq<Event>, userId: string, id: string)
    requires Fresh(es)
    ensures IsUnread(NotesOf(Run(es), userId), id) <==>
            exists k :: 0 <= k < |NotesOf(Run(es), userId)| && IsOpen(es, userId, id, k)
  {
    ListShowsHistory(es, userId);
    SentIsSent(es, userId);
    var notes, sent := NotesOf(Run(es), userId), Sent(es, userId);
    var f := FindNote(notes, id);
    if f < |notes| {
      assert ShowsAt(notes[f], es, sent[f]);
      if !notes[f].read {
        assert IsOpen(es, userId, id, f);
      }
    }
    forall k | 0 <= k < |notes| && IsOpen(es, userId, id, k) ensures IsUnread(notes, id) {
      assert ShowsAt(notes[k], es, sent[k]);
      ShownListIsOk(Run(es), es, userId);
      assert f == k;
    }
  }

  /** The `k`-th latest notification of the user has this id and has not been read. */
  predicate IsOpen(es: seq<Event>, userId: string, id: string, k: nat) {
    var sent := Sent(es, userId);
    k < |sent| && sent[k] < |es| && es[sent[k]].Created? && es[sent[k]].note.id == id && !ReadSince(es, sent[k])
  }

  /** ... so it answers true at most once for a notification. */
  lemma MarkReadIsTrueOnce(es: seq<Event>, userId: string, id: string, i: nat, j: nat)
    requires Fresh(es) && i < j < |es| && es[i] == es[j] == Read(userId, id)
    ensures !(IsUnread(NotesOf(Run(es[..i]), userId), id) && IsUnread(NotesOf(Run(es[..j]), userId), id))
  {
    if IsUnread(NotesOf(Run(es[..i]), userId), id) && IsUnread(NotesOf(Run(es[..j]), userId), id) {
      MarkReadAnswersExactly(es[..i], userId, id);
      MarkReadAnswersExactly(es[..j], userId, id);
      var k :| 0 <= k && IsOpen(es[..i], userId, id, k);
      var l :| 0 <= l && IsOpen(es[..j], userId, id, l);
      ReadClosesIt(es, userId, id, i, j, k, l);
    }
  }

  lemma ReadClosesIt(es: seq<Event>, userId: string, id: string, i: nat, j: nat, k: nat, l: nat)
    requires Fresh(es) && i < j < |es| && es[i] == Read(userId, id) && IsOpen(es[..i], userId, id, k)
    ensures !IsOpen(es[..j], userId, id, l)
  {
    SentIsSent(es[..i], userId);
    SentIsSent(es[..j], userId);
    var sent := Sent(es[..j], userId);
    if l < |sent| && es[sent[l]].note.id == id {
      var a, b := Sent(es[..i], userId)[k], sent[l];
      assert es[a].note.id == es[b].note.id;
      assert a == b;
      assert Reads(es[..j][i], es[..j][b].note);
    }
  }
}
