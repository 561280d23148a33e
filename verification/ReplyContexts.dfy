/** The reply that a new message carries (src/feature/chat/util/reply.ts) and the row it becomes. */
module ReplyContexts {
  import opened Collections
  import opened MessageTable
  import opened Hydration
  import opened MessageViews

  const SNIPPET_MAX := 140

  function SnippetFor(kind: MessageType, content: string): string {
    if kind == Text && |content| > SNIPPET_MAX then content[..SNIPPET_MAX] + "\U{2026}" else content
  }

  /** What is taken from the client when the server cannot vouch for the target. */
  function FromClient(reply: ReplyContext): ReplyContext {
    reply.(content := SnippetFor(reply.kind, reply.content))
  }

  function BuildReplyContext(db: Db, conversationId: string, clientReply: Option<ReplyContext>): Option<ReplyContext> {
    if clientReply.None? then None
    else
      var target := FoundMessage(db, conversationId, clientReply.value.id);
      if target.Some? && !target.value.deleted && target.value.kind != System then
        var t := target.value;
        Some(ReplyContext(t.id, t.senderId, t.senderName, SnippetFor(t.kind, t.content), t.kind))
      else Some(FromClient(clientReply.value))
  }

  /** The message of the `chat:message` handler, as broadcast and acknowledged. */
  function Compose(db: Db, conversationId: string, userId: string, userName: string, content: string, kind: MessageType,
                   clientReply: Option<ReplyContext>, id: string, now: int): ChatMessage
  {
    ChatMessage(id, conversationId, userId, userName, content, now, kind,
                BuildReplyContext(db, conversationId, clientReply), None, false, [])
  }

  /** The link of `addMessage`: only to a parent that exists. */
  function LinkOf(messages: seq<Row>, message: ChatMessage): Option<string> {
    if message.replyTo.Some? && message.replyTo.value.id != "" && FindById(messages, message.replyTo.value.id).Some?
    then Some(message.replyTo.value.id) else None
  }

  /** Its row. */
  function LinkedRow(conversationId: string, message: ChatMessage, replyToId: Option<string>): Row {
    Row(message.id, conversationId, if message.senderId == SYSTEM then None else Some(message.senderId),
        message.senderName, message.content, message.kind, replyToId,
        if message.editedAt == Some(0) then None else message.editedAt, message.deleted, message.timestamp)
  }

  function NewRow(messages: seq<Row>, conversationId: string, message: ChatMessage): Row {
    LinkedRow(conversationId, message, LinkOf(messages, message))
  }

  /** The reply names a row that can be resolved again: of this conversation, undeleted and not a
      system message; or of another one, when the client happens to describe it as the server would. */
  predicate Resolves(db: Db, conversationId: string, reply: ReplyContext) {
    reply.id != "" &&
    var parent := FindById(db.messages, reply.id);
    && parent.Some? && !parent.value.deleted && parent.value.kind != System
    && (parent.value.conversationId == conversationId || ToReplyContext(parent) == Some(FromClient(reply)))
  }

  lemma FindInLonger(messages: seq<Row>, row: Row, id: string)
    ensures FindById(messages + [row], id) == if row.id == id then Some(row) else FindById(messages, id)
  {
    assert (messages + [row])[..|messages|] == messages;
  }

  lemma {:induction false} NoReactions(reactions: seq<Reaction>, id: string)
    requires forall r :: r in reactions ==> r.messageId != id
    ensures ReactionsOf(reactions, id) == []
  {
    if reactions != [] {
      var n := |reactions| - 1;
      assert reactions == reactions[..n] + [reactions[n]];
      NoReactions(reactions[..n], id);
    }
  }

  /** The two snippet functions and the two resolutions agree on a target of the conversation. */
  lemma ResolutionsAgree(db: Db, conversationId: string, reply: ReplyContext)
    ensures var row := FindRow(db.messages, conversationId, reply.id);
            BuildReplyContext(db, conversationId, Some(reply)) ==
            if ToReplyContext(row).Some? then ToReplyContext(row) else Some(FromClient(reply))
  {}

  /** The message a reply may quote: of this conversation, not unsent, no system message. */
  predicate Answerable(messages: seq<Row>, conversationId: string, id: string, parent: Row) {
    && parent in messages && parent.id == id && parent.conversationId == conversationId
    && !parent.deleted && parent.kind != System
  }

  /** A reply quotes the stored message, whatever the client says of it; where there is none to quote,
      it carries the client's own words, cut to length. */
  ghost predicate IsReply(messages: seq<Row>, conversationId: string, clientReply: ReplyContext, reply: ReplyContext) {
    && (forall parent :: Answerable(messages, conversationId, clientReply.id, parent) ==> Quotes(reply, parent))
    && ((forall parent :: !Answerable(messages, conversationId, clientReply.id, parent)) ==>
          && reply.id == clientReply.id && reply.kind == clientReply.kind
          && reply.senderId == clientReply.senderId && reply.senderName == clientReply.senderName
          && Abridges(reply.content, clientReply.kind, clientReply.content, 140))
  }

  lemma ReplyIsBuilt(db: Db, conversationId: string, clientReply: Option<ReplyContext>)
    requires LinksOk(db.messages)
    ensures var reply := BuildReplyContext(db, conversationId, clientReply);
            && (reply.Some? <==> clientReply.Some?)
            && (reply.Some? ==> IsReply(db.messages, conversationId, clientReply.value, reply.value))
  {
    if clientReply.Some? {
      var id := clientReply.value.id;
      var found := FindRow(db.messages, conversationId, id);
      forall parent | Answerable(db.messages, conversationId, id, parent) ensures found == Some(parent) {
        RowIsFound(db.messages, parent);
      }
      if found.Some? && !found.value.deleted && found.value.kind != System {
        assert Answerable(db.messages, conversationId, id, found.value);
      }
    }
  }

  /** Sending round-trips, without a concurrent change, exactly when there is no reply or the reply
      resolves: then `findMessage` returns the very message that was broadcast. The `"system"`
      sentinel inverts for every sender. */
  lemma SendRoundTripsExactly(db: Db, conversationId: string, userId: string, userName: string, content: string,
                              kind: MessageType, clientReply: Option<ReplyContext>, id: string, now: int)
    requires DbOk(db) && id !in Ids(db.messages)
    ensures var message := Compose(db, conversationId, userId, userName, content, kind, clientReply, id, now);
            var outcome := InsertMessage(db, NewRow(db.messages, conversationId, message));
            && outcome.Done?
            && (FoundMessage(outcome.db, conversationId, id) == Some(message) <==>
                clientReply.None? || Resolves(db, conversationId, clientReply.value))
  {
    var message := Compose(db, conversationId, userId, userName, content, kind, clientReply, id, now);
    var row := NewRow(db.messages, conversationId, message);
    FindInLonger(db.messages, row, id);
    NoReactions(db.reactions, id);
    if clientReply.Some? {
      var reply := clientReply.value;
      ResolutionsAgree(db, conversationId, reply);
      assert message.replyTo.value.id == reply.id;
      FindInLonger(db.messages, row, reply.id);
    }
  }
}
