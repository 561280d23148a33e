/** The in-memory notification store, whose rows are marked in place
    (src/feature/notification/store/notification.store.ts). */
module NotificationStore {
  import opened Collections
  import opened Notifications

  class StoredRow {
    const id: string
    const recipientId: string
    const actorId: string
    const actorName: string
    const kind: Kind
    const postId: Option<string>
    const preview: Option<string>
    const createdAt: int
    var read: bool

    constructor (note: Note)
      ensures Dto() == note
    {
      id, recipientId, actorId, actorName, kind := note.id, note.recipientId, note.actorId, note.actorName, note.kind;
      postId, preview, createdAt, read := note.postId, note.preview, note.createdAt, note.read;
    }

    function Dto(): Note
      reads this
    {
      Note(id, recipientId, actorId, actorName, kind, postId, preview, read, createdAt)
    }
  }

  function Dtos(rows: seq<StoredRow>): seq<Note>
    reads rows
  {
    seq(|rows|, i requires 0 <= i < |rows| reads rows => rows[i].Dto())
  }

  datatype Input = Input(
    recipientId: string,
    actorId: string,
    actorName: string,
    kind: Kind,
    postId: Option<string>,
    preview: Option<string>)

  /** Unread, with this id and time, and else as asked for. */
  predicate IsNew(note: Note, input: Input, id: string, now: int) {
    && note.id == id && note.createdAt == now && !note.read
    && note.recipientId == input.recipientId && note.actorId == input.actorId && note.actorName == input.actorName
    && note.kind == input.kind && note.postId == input.postId && note.preview == input.preview
  }

  /** A field whose value is falsy is left out. */
  function Present(field: Option<string>): Option<string> {
    if field == Some("") then None else field
  }

  function Wire(note: Note): Note {
    note.(postId := Present(note.postId), preview := Present(note.preview))
  }

  /** What goes out of a stored note: every field as it is, but nothing for one that is empty. */
  predicate IsWire(dto: Note, note: Note) {
    && dto.id == note.id && dto.recipientId == note.recipientId
    && dto.actorId == note.actorId && dto.actorName == note.actorName && dto.kind == note.kind
    && dto.read == note.read && dto.createdAt == note.createdAt
    && dto.postId == (if note.postId.None? || note.postId.value == "" then None else note.postId)
    && dto.preview == (if note.preview.None? || note.preview.value == "" then None else note.preview)
  }

  ghost predicate AllWire(dtos: seq<Note>, notes: seq<Note>) {
    |dtos| == |notes| && forall k :: 0 <= k < |notes| ==> IsWire(dtos[k], notes[k])
  }

  function WireAll(notes: seq<Note>): seq<Note> {
    seq(|notes|, i requires 0 <= i < |notes| => Wire(notes[i]))
  }

  /** No row is listed twice. */
  predicate Unshared(rows: seq<StoredRow>) {
    forall i, j :: 0 <= i < j < |rows| ==> rows[i] != rows[j]
  }

  class Store {
    var byRecipient: map<string, seq<StoredRow>>

    ghost function Rows(): set<StoredRow>
      reads this
    {
      set u, r | u in byRecipient && r in byRecipient[u] :: r
    }

    ghost predicate Valid()
      reads this
    {
      && (forall u, i :: u in byRecipient && 0 <= i < |byRecipient[u]| ==> byRecipient[u][i].recipientId == u)
      && (forall u :: u in byRecipient ==> Unshared(byRecipient[u]) && |byRecipient[u]| <= MAX_PER_USER)
    }

    ghost function Abs(): Book
      reads this, Rows()
    {
      map u | u in byRecipient :: assert forall r :: r in byRecipient[u] ==> r in Rows(); Dtos(byRecipient[u])
    }

    /** A row belongs to one recipient, so two users' lists share none. */
    lemma Separate(u: string, v: string)
      requires Valid() && u in byRecipient && v in byRecipient && u != v
      ensures forall r :: r in byRecipient[u] ==> r in Rows() && r !in byRecipient[v]
    {}

    constructor ()
      ensures Valid() && Abs() == map[]
    {
      byRecipient := map[];
    }

    method ListNotifications(userId: string) returns (notes: seq<Note>)
      requires Valid()
      ensures notes == WireAll(NotesOf(Abs(), userId))
      ensures AllWire(notes, NotesOf(Abs(), userId))
    {
      if userId !in byRecipient { return []; }
      var rows := byRecipient[userId];
      rows := rows[..if |rows| < MAX_PER_USER then |rows| else MAX_PER_USER];
      assert rows == byRecipient[userId];
      notes := WireAll(Dtos(rows));
    }

    /** `byRecipient.get(u) ?? []` */
    method RowsOf(u: string) returns (list: seq<StoredRow>)
      requires Valid()
      ensures Dtos(list) == NotesOf(Abs(), u) && Unshared(list)
      ensures forall r :: r in list ==> r in Rows() && r.recipientId == u
    {
      list := if u in byRecipient then byRecipient[u] else [];
    }

    /** `byRecipient.set(u, list)` */
    method SaveList(u: string, list: seq<StoredRow>)
      requires Valid() && Unshared(list) && |list| <= MAX_PER_USER && forall r :: r in list ==> r.recipientId == u
      modifies this
      ensures Valid() && Abs() == old(Abs())[u := Dtos(list)]
      ensures forall r :: r in Rows() ==> r in list || r in old(Rows())
    {
      byRecipient := byRecipient[u := list];
    }

    /** `unshift` on the recipient's list, which is cut to length and saved. */
    method Prepend(row: StoredRow)
      requires Valid() && row !in Rows()
      modifies this
      ensures Valid() && Rows() <= old(Rows()) + {row}
      ensures Abs() == Apply(old(Abs()), Created(row.Dto()))
    {
      var list := RowsOf(row.recipientId);
      Prepended(row, list);
      list := [row] + list;
      if |list| > MAX_PER_USER { list := list[..MAX_PER_USER]; }
      SaveList(row.recipientId, list);
    }

    method CreateNotification(input: Input, id: string, now: int) returns (dto: Note)
      requires Valid()
      modifies this
      ensures Valid() && fresh(Rows() - old(Rows()))
      ensures exists note ::
                && Abs() == Apply(old(Abs()), Created(note)) && IsNew(note, input, id, now)
                && dto == Wire(note) && IsWire(dto, note)
    {
      var note := Note(id, input.recipientId, input.actorId, input.actorName, input.kind, input.postId, input.preview,
                       false, now);
      var row := new StoredRow(note);
      Prepend(row);
      dto := Wire(row.Dto());
    }

    method MarkRead(userId: string, notificationId: string) returns (marked: bool)
      requires Valid()
      modifies Rows()
      ensures Valid()
      ensures Abs() == Apply(old(Abs()), Read(userId, notificationId))
      ensures marked <==> IsUnread(NotesOf(old(Abs()), userId), notificationId)
    {
      if userId !in byRecipient { return false; }
      var list := byRecipient[userId];
      ghost var was := Dtos(list);
      var k := 0;
      while k < |list| && list[k].id != notificationId
        invariant 0 <= k <= |list|
        invariant forall i :: 0 <= i < k ==> list[i].id != notificationId
      {
        k := k + 1;
      }
      FindIsFirst(was, notificationId, k);
      if k == |list| || list[k].read {
        assert Abs() == Apply(old(Abs()), Read(userId, notificationId));
        return false;
      }
      assert list[k] in list;
      list[k].read := true;
      assert Dtos(list) == was[k := was[k].(read := true)];
      marked := true;
    }

    method MarkAllRead(userId: string)
      requires Valid()
      modifies Rows()
      ensures Valid()
      ensures Abs() == Apply(old(Abs()), AllRead(userId))
    {
      if userId !in byRecipient { return; }
      var list := byRecipient[userId];
      for k := 0 to |list|
        invariant forall i :: 0 <= i < k ==> list[i].read
        invariant forall r :: r in old(Rows()) && r !in list[..k] ==> r.read == old(r.read)
      {
        assert list[k] in list && list[k] in Rows();
        list[k].read := true;
      }
      assert Dtos(list) == MarkAll(old(Dtos(list)));
      forall u | u in byRecipient && u != userId ensures Dtos(byRecipient[u]) == old(Dtos(byRecipient[u])) {
        Separate(u, userId);
      }
    }
  }

  lemma Prepended(row: StoredRow, list: seq<StoredRow>)
    requires Unshared(list) && row !in list
    ensures var longer := [row] + list;
            var capped := if |longer| > MAX_PER_USER then longer[..MAX_PER_USER] else longer;
            && Dtos(capped) == Cap([row.Dto()] + Dtos(list)) && Unshared(capped)
            && forall r :: r in capped ==> r == row || r in list
  {
    assert Dtos([row] + list) == [row.Dto()] + Dtos(list);
  }

  /** After any run, what `listNotifications` answers is the latest fifty notifications sent to the user,
      latest first, as they were sent, each read exactly when some later event read it. */
  lemma ListedShowsHistory(es: seq<Event>, userId: string)
    requires Fresh(es)
    ensures var dtos, sent := WireAll(NotesOf(Run(es), userId)), Sent(es, userId);
            && |dtos| == (if |sent| > 50 then 50 else |sent|)
            && forall k :: 0 <= k < |dtos| ==>
                 && sent[k] < |es| && es[sent[k]].Created?
                 && IsWire(dtos[k], es[sent[k]].note.(read := dtos[k].read))
                 && (dtos[k].read <==> exists j :: sent[k] < j < |es| && Reads(es[j], es[sent[k]].note))
  {
    ListShowsHistory(es, userId);
    var notes, sent := NotesOf(Run(es), userId), Sent(es, userId);
    forall k | 0 <= k < |notes| ensures ShowsAt(notes[k], es, sent[k]) {}
  }

  lemma FindIsFirst(notes: seq<Note>, id: string, k: nat)
    requires k <= |notes| && (forall i :: 0 <= i < k ==> notes[i].id != id) && (k < |notes| ==> notes[k].id == id)
    ensures FindNote(notes, id) == k
  {}
}
