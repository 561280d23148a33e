/** From rows to wire messages: reply parents and reactions resolved for many rows at once
    (src/feature/chat/store/message.store.ts). */
module Hydration {
  import opened Collections
  import opened MessageTable

  datatype ReplyContext = ReplyContext(
    id: string,
    senderId: string,
    senderName: string,
    content: string,
    kind: MessageType)

  datatype ReactionDto = ReactionDto(userId: string, userName: string, emoji: string)

  /** An absent field is `None`, `false` or the empty list. */
  datatype ChatMessage = ChatMessage(
    id: string,
    conversationId: string,
    senderId: string,
    senderName: string,
    content: string,
    timestamp: int,
    kind: MessageType,
    replyTo: Option<ReplyContext>,
    editedAt: Option<int>,
    deleted: bool,
    reactions: seq<ReactionDto>)

  const SYSTEM := "system"
  const REPLY_SNIPPET_MAX := 140

  function ReplySnippet(kind: MessageType, content: string): string {
    if kind == Text && |content| > REPLY_SNIPPET_MAX then content[..REPLY_SNIPPET_MAX] + "\U{2026}" else content
  }

  function SenderOf(row: Row): string {
    if row.senderId.Some? then row.senderId.value else SYSTEM
  }

  function ToReplyContext(parent: Option<Row>): Option<ReplyContext> {
    if parent.None? || parent.value.deleted || parent.value.kind == System then None
    else
      var p := parent.value;
      Some(ReplyContext(p.id, SenderOf(p), p.senderName, ReplySnippet(p.kind, p.content), p.kind))
  }

  function RowToMessage(row: Row, replyTo: Option<ReplyContext>, reactions: seq<ReactionDto>): ChatMessage {
    ChatMessage(row.id, row.conversationId, SenderOf(row), row.senderName, row.content, row.createdAt, row.kind,
                replyTo, row.editedAt, row.deleted, reactions)
  }

  /** A reply link that is set; the empty string is falsy. */
  predicate Linked(row: Row) {
    row.replyToId.Some? && row.replyToId.value != ""
  }

  function ToDto(r: Reaction): ReactionDto {
    ReactionDto(r.userId, r.userName, r.emoji)
  }

  /** The reactions to one message, in table order. */
  function ReactionsOf(reactions: seq<Reaction>, messageId: string): seq<ReactionDto> {
    if reactions == [] then []
    else
      var n := |reactions| - 1;
      ReactionsOf(reactions[..n], messageId) + if reactions[n].messageId == messageId then [ToDto(reactions[n])] else []
  }

  /** One row on its own: look up its parent, filter its reactions. */
  function HydrateOne(db: Db, row: Row): ChatMessage {
    RowToMessage(row,
                 if Linked(row) then ToReplyContext(FindById(db.messages, row.replyToId.value)) else None,
                 ReactionsOf(db.reactions, row.id))
  }

  function HydrateAll(db: Db, rows: seq<Row>): seq<ChatMessage> {
    seq(|rows|, i requires 0 <= i < |rows| => HydrateOne(db, rows[i]))
  }

  // ---------------------------------------------------------------- the batched form

  function HasId(ids: set<string>): Row -> bool {
    (r: Row) => r.id in ids
  }

  function OnMessage(ids: set<string>): Reaction -> bool {
    (r: Reaction) => r.messageId in ids
  }

  /** The parents fetched in one query are those a lookup by id would find. */
  lemma {:induction false} FindAmongFetched(messages: seq<Row>, ids: set<string>, id: string)
    requires id in ids
    ensures FindById(Filter(messages, HasId(ids)), id) == FindById(messages, id)
  {
    if messages != [] {
      var front, last := messages[..|messages| - 1], messages[|messages| - 1];
      assert messages == front + [last];
      FilterAppend(front, last, HasId(ids));
      FindAmongFetched(front, ids, id);
      var kept := Filter(front, HasId(ids));
      if last.id in ids {
        assert (kept + [last])[..|kept|] == kept;
      } else {
        assert kept + [] == kept;
      }
    }
  }

  lemma {:induction false} ReactionsAmongFetched(reactions: seq<Reaction>, ids: set<string>, id: string)
    requires id in ids
    ensures ReactionsOf(Filter(reactions, OnMessage(ids)), id) == ReactionsOf(reactions, id)
  {
    if reactions != [] {
      var front, last := reactions[..|reactions| - 1], reactions[|reactions| - 1];
      assert reactions == front + [last];
      FilterAppend(front, last, OnMessage(ids));
      ReactionsAmongFetched(front, ids, id);
      var kept := Filter(front, OnMessage(ids));
      if last.messageId in ids {
        assert (kept + [last])[..|kept|] == kept;
      } else {
        assert kept + [] == kept;
      }
    }
  }

  /** `new Map(parents.map((p) => [p.id, p]))` */
  method ParentsById(parents: seq<Row>) returns (byId: map<string, Row>)
    ensures forall id :: (if id in byId then Some(byId[id]) else None) == FindById(parents, id)
  {
    byId := map[];
    for i := 0 to |parents|
      invariant forall id :: (if id in byId then Some(byId[id]) else None) == FindById(parents[..i], id)
    {
      assert parents[..i + 1][..i] == parents[..i];
      byId := byId[parents[i].id := parents[i]];
    }
    assert parents[..|parents|] == parents;
  }

  lemma OneMoreReaction(reacts: seq<Reaction>, i: nat, id: string)
    requires i < |reacts|
    ensures ReactionsOf(reacts[..i + 1], id) ==
            ReactionsOf(reacts[..i], id) + if reacts[i].messageId == id then [ToDto(reacts[i])] else []
  {
    assert reacts[..i + 1][..i] == reacts[..i];
  }

  /** The loop that groups reactions by message. */
  method GroupReactions(reacts: seq<Reaction>) returns (byMessage: map<string, seq<ReactionDto>>)
    ensures forall id :: (if id in byMessage then byMessage[id] else []) == ReactionsOf(reacts, id)
  {
    byMessage := map[];
    for i := 0 to |reacts|
      invariant forall id :: (if id in byMessage then byMessage[id] else []) == ReactionsOf(reacts[..i], id)
    {
      var r := reacts[i];
      var list := if r.messageId in byMessage then byMessage[r.messageId] else [];
      list := list + [ToDto(r)];
      ghost var was := byMessage;
      byMessage := byMessage[r.messageId := list];
      forall id ensures (if id in byMessage then byMessage[id] else []) == ReactionsOf(reacts[..i + 1], id) {
        OneMoreReaction(reacts, i, id);
        assert (if id in was then was[id] else []) == ReactionsOf(reacts[..i], id);
      }
    }
    assert reacts[..|reacts|] == reacts;
  }

  /** `[...new Set(rows.map((r) => r.replyToId).filter(truthy))]` */
  function ParentIds(rows: seq<Row>): set<string> {
    set r | r in rows && Linked(r) :: r.replyToId.value
  }

  function RowIds(rows: seq<Row>): set<string> {
    set r | r in rows :: r.id
  }

  /** What the two queries fetch is enough to resolve each row. */
  lemma FetchedIsEnough(db: Db, rows: seq<Row>, row: Row)
    requires row in rows
    ensures var parents := Filter(db.messages, HasId(ParentIds(rows)));
            Linked(row) ==> FindById(parents, row.replyToId.value) == FindById(db.messages, row.replyToId.value)
    ensures ReactionsOf(Filter(db.reactions, OnMessage(RowIds(rows))), row.id) == ReactionsOf(db.reactions, row.id)
  {
    if Linked(row) {
      FindAmongFetched(db.messages, ParentIds(rows), row.replyToId.value);
    }
    ReactionsAmongFetched(db.reactions, RowIds(rows), row.id);
  }

  /** No query is sent for an empty set of parents, and none was needed. */
  lemma NoParents(messages: seq<Row>)
    ensures Filter(messages, HasId({})) == []
  {
    FilterNone(messages, HasId({}));
  }

  method Resolve(row: Row, parentById: map<string, Row>, reactionsByMessage: map<string, seq<ReactionDto>>)
    returns (message: ChatMessage)
    ensures var parent := if Linked(row) && row.replyToId.value in parentById
                          then Some(parentById[row.replyToId.value]) else None;
            message == RowToMessage(row, if Linked(row) then ToReplyContext(parent) else None,
                                    if row.id in reactionsByMessage then reactionsByMessage[row.id] else [])
  {
    var replyTo := None;
    if Linked(row) {
      var id := row.replyToId.value;
      replyTo := ToReplyContext(if id in parentById then Some(parentById[id]) else None);
    }
    message := RowToMessage(row, replyTo, if row.id in reactionsByMessage then reactionsByMessage[row.id] else []);
  }

  /** The batched `hydrate` gives every row what it would get on its own. */
  method Hydrate(db: Db, rows: seq<Row>) returns (messages: seq<ChatMessage>)
    ensures messages == HydrateAll(db, rows)
  {
    if |rows| == 0 { return []; }
    var parents := if ParentIds(rows) != {} then Filter(db.messages, HasId(ParentIds(rows))) else [];
    var reacts := Filter(db.reactions, OnMessage(RowIds(rows)));
    NoParents(db.messages);
    var parentById := ParentsById(parents);
    var reactionsByMessage := GroupReactions(reacts);
    messages := [];
    for i := 0 to |rows|
      invariant |messages| == i
      invariant forall k :: 0 <= k < i ==> messages[k] == HydrateOne(db, rows[k])
    {
      FetchedIsEnough(db, rows, rows[i]);
      var message := Resolve(rows[i], parentById, reactionsByMessage);
      messages := messages + [message];
    }
  }

  /** Hydration treats rows one by one, so it distributes over concatenation. */
  lemma HydrationDistributes(db: Db, rows: seq<Row>, more: seq<Row>)
    ensures HydrateAll(db, rows + more) == HydrateAll(db, rows) + HydrateAll(db, more)
  {}

  // ---------------------------------------------------------------- lookups

  /** `findFirst` on the primary key and the conversation. */
  function FindRow(messages: seq<Row>, conversationId: string, id: string): Option<Row> {
    match FindById(messages, id)
    case Some(row) => if row.conversationId == conversationId then Some(row) else None
    case None => None
  }

  function FoundMessage(db: Db, conversationId: string, id: string): Option<ChatMessage> {
    match FindRow(db.messages, conversationId, id)
    case Some(row) => Some(HydrateOne(db, row))
    case None => None
  }

  /** With unique ids, a row is found again under its id. */
  lemma RowIsFound(messages: seq<Row>, row: Row)
    requires LinksOk(messages) && row in messages
    ensures FindById(messages, row.id) == Some(row)
  {
    var found := FindById(messages, row.id);
    assert row.id in Ids(messages);
    var i :| 0 <= i < |messages| && messages[i] == row;
    var j :| 0 <= j < |messages| && messages[j] == found.value;
    IdsAreUnique(messages, i, j);
  }

  /** A hydrated list of stored rows is `findMessage` of each. */
  lemma HydratedListIsFound(db: Db, rows: seq<Row>, conversationId: string)
    requires LinksOk(db.messages)
    requires forall r :: r in rows ==> r in db.messages && r.conversationId == conversationId
    ensures forall i :: 0 <= i < |rows| ==>
              FoundMessage(db, conversationId, rows[i].id) == Some(HydrateAll(db, rows)[i])
  {
    forall i | 0 <= i < |rows|
      ensures FoundMessage(db, conversationId, rows[i].id) == Some(HydrateAll(db, rows)[i])
    {
      assert rows[i] in rows;
      RowIsFound(db.messages, rows[i]);
    }
  }
}
