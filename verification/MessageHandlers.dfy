/** The socket handlers on messages and reactions, run to completion
    (src/feature/chat/handlers/message.handler.ts, src/feature/chat/handlers/reaction.handler.ts). */
module MessageHandlers {
  import opened Collections
  import opened ConversationIds
  import opened MessageTable
  import opened Hydration
  import opened MessageLookups
  import opened MessageViews
  import opened ReplyContexts
  import opened MessageRaces
  import MessageStore
  import GroupModel

  /** An emitted event and the rooms it goes to. */
  datatype Emit<T> = Emit(rooms: set<Room>, payload: T)

  datatype Ack = Accepted | Refused(why: Refusal) | Threw  // a rejected statement leaves the client without an answer

  datatype Edited = Edited(conversationId: string, messageId: string, content: string, editedAt: int)
  datatype Unsent = Unsent(conversationId: string, messageId: string)
  datatype Reacted = Reacted(conversationId: string, messageId: string, messageOwnerId: string,
                             userId: string, userName: string, emoji: Option<string>)

  const REACTION_KEYS: set<string> := {"like", "love", "haha", "wow", "sad", "angry"}

  predicate IsGroupId(conversationId: string) {
    "group:" <= conversationId
  }

  /** The answers to a new message: group messages are for members who are not muted. */
  predicate SendAnswer(ack: Ack, groups: map<string, GroupModel.GroupDto>, conversationId: string, userId: string,
                       idTaken: bool)
  {
    var ofGroup := "group:" <= conversationId;
    var member := conversationId in groups && userId in groups[conversationId].memberIds;
    var muted := member && userId in groups[conversationId].mutedMembers;
    match ack
    case Refused(NotMember) => ofGroup && !member
    case Refused(Muted) => ofGroup && muted
    case Threw => (ofGroup ==> member && !muted) && idTaken
    case Accepted => (ofGroup ==> member && !muted) && !idTaken
    case _ => false
  }

  /** To an edit: only its sender edits a message, and only a text that was not unsent. */
  predicate EditAnswer(ack: Ack, target: Option<ChatMessage>, userId: string) {
    match ack
    case Refused(Forbidden) => target.Some? && target.value.senderId != userId
    case Refused(Gone) => target.Some? && target.value.senderId == userId && target.value.deleted
    case Refused(NonEditable) =>
      target.Some? && target.value.senderId == userId && !target.value.deleted && target.value.kind != Text
    case Accepted =>
      target.Some? ==> target.value.senderId == userId && !target.value.deleted && target.value.kind == Text
    case _ => false
  }

  predicate UnsendAnswer(ack: Ack, target: Option<ChatMessage>, userId: string) {
    match ack
    case Refused(Forbidden) => target.Some? && target.value.senderId != userId
    case Accepted => target.Some? ==> target.value.senderId == userId
    case _ => false
  }

  /** To a reaction: one of six, to a message that is there, was not unsent and is no system message. */
  predicate ReactAnswer(ack: Ack, target: Option<ChatMessage>, emoji: Option<string>) {
    var valid := emoji.Some? ==> emoji.value in {"like", "love", "haha", "wow", "sad", "angry"};
    var reactable := target.Some? && !target.value.deleted && target.value.kind != System;
    match ack
    case Refused(InvalidEmoji) => !valid
    case Refused(NotFound) => valid && !reactable
    case Accepted => valid && reactable
    case _ => false
  }

  /** The new message is as its sender wrote it, plain text unless they say otherwise. */
  predicate IsAsWritten(m: ChatMessage, userId: string, userName: string, conversationId: string, content: string,
                        kind: Option<MessageType>, id: string, now: int)
  {
    && m.id == id && m.conversationId == conversationId && m.senderId == userId && m.senderName == userName
    && m.content == content && m.timestamp == now && m.kind == (if kind.Some? then kind.value else Text)
    && m.editedAt.None? && !m.deleted && m.reactions == []
  }

  /** The row links to the message replied to as long as that exists, in whatever conversation. */
  predicate IsLinked(row: Row, messages: seq<Row>, clientReply: Option<ReplyContext>) {
    row.replyToId == if clientReply.Some? && clientReply.value.id != "" && clientReply.value.id in Ids(messages)
                     then Some(clientReply.value.id) else None
  }

  /** An accepted message: what is told to whom, and what is stored. */
  ghost predicate IsSent(before: Db, after: Db, sent: ChatMessage, clientReply: Option<ReplyContext>) {
    && (sent.replyTo.Some? <==> clientReply.Some?)
    && (clientReply.Some? ==> IsReply(before.messages, sent.conversationId, clientReply.value, sent.replyTo.value))
    && exists row ::
         && after == before.(messages := before.messages + [row])
         && MessageStore.IsRowOf(row, sent.conversationId, sent, row.replyToId)
         && IsLinked(row, before.messages, clientReply)
  }

  /** What `Compose` says is so. */
  lemma ComposedIsSent(db: Db, conversationId: string, userId: string, userName: string, content: string,
                       kind: Option<MessageType>, clientReply: Option<ReplyContext>, id: string, now: int)
    requires DbOk(db) && id !in Ids(db.messages)
    ensures var sent := Compose(db, conversationId, userId, userName, content,
                                if kind.Some? then kind.value else Text, clientReply, id, now);
            && IsAsWritten(sent, userId, userName, conversationId, content, kind, id, now)
            && IsSent(db, Execute(db, Insert(NewRow(db.messages, conversationId, sent))), sent, clientReply)
  {
    var sent := Compose(db, conversationId, userId, userName, content,
                        if kind.Some? then kind.value else Text, clientReply, id, now);
    var row := NewRow(db.messages, conversationId, sent);
    ReplyIsBuilt(db, conversationId, clientReply);
    ComposedIsStored(db, conversationId, sent);
    if clientReply.Some? {
      assert sent.replyTo.value.id == clientReply.value.id;
    }
    assert MessageStore.IsRowOf(row, conversationId, sent, row.replyToId) && IsLinked(row, db.messages, clientReply);
  }

  /** Inserting what was composed: rejected only for an id already taken. */
  lemma ComposedIsStored(db: Db, conversationId: string, message: ChatMessage)
    requires message.id !in Ids(db.messages)
    ensures var row := NewRow(db.messages, conversationId, message);
            InsertMessage(db, row) == Done(db.(messages := db.messages + [row]))
  {}

  /** A message that may be sent is stored, then broadcast and acknowledged as one and the same;
      it reads back unchanged when it replies to nothing or to what resolves again. */
  method HandleMessage(store: MessageStore.Store, groups: map<string, GroupModel.GroupDto>, userId: string,
                       userName: string, conversationId: string, content: string, kind: Option<MessageType>,
                       clientReply: Option<ReplyContext>, id: string, now: int)
    returns (ack: Ack, emitted: seq<Emit<ChatMessage>>)
    requires DbOk(store.db)
    modifies store
    ensures DbOk(store.db)
    ensures SendAnswer(ack, groups, conversationId, userId, id in Ids(old(store.db).messages))
    ensures var sent := Compose(old(store.db), conversationId, userId, userName, content,
                                if kind.Some? then kind.value else Text, clientReply, id, now);
            if ack != Accepted then emitted == [] && store.db == old(store.db)
            else
              && IsAsWritten(sent, userId, userName, conversationId, content, kind, id, now)
              && IsSent(old(store.db), store.db, sent, clientReply)
              && emitted == [Emit(BroadcastRooms(conversationId, userId), sent)]
              && store.db == Execute(old(store.db), Insert(NewRow(old(store.db).messages, conversationId, sent)))
              && (FoundMessage(store.db, conversationId, id) == Some(sent) <==>
                  clientReply.None? || Resolves(old(store.db), conversationId, clientReply.value))
  {
    emitted := [];
    if IsGroupId(conversationId) {
      if conversationId !in groups || userId !in groups[conversationId].memberIds {
        return Refused(NotMember), [];
      }
      if userId in groups[conversationId].mutedMembers {
        return Refused(Muted), [];
      }
    }
    var type' := if kind.Some? then kind.value else Text;
    var replyTo := BuildReplyContext(store.db, conversationId, clientReply);
    var message := ChatMessage(id, conversationId, userId, userName, content, now, type', replyTo, None, false, []);
    ghost var before := store.db;
    var stored := store.AddMessage(conversationId, message);
    StatementKeepsDb(before, Insert(NewRow(before.messages, conversationId, message)));
    if !stored { return Threw, []; }
    emitted := [Emit(BroadcastRooms(conversationId, userId), message)];
    ack := Accepted;
    SendRoundTripsExactly(before, conversationId, userId, userName, content, type', clientReply, id, now);
    ComposedIsStored(before, conversationId, message);
    ComposedIsSent(before, conversationId, userId, userName, content, kind, clientReply, id, now);
  }

  /** What an accepted edit leaves: only a message that was there and passed the check is changed,
      but the event goes out even when there was none. */
  method HandleEdit(store: MessageStore.Store, userId: string, conversationId: string, messageId: string,
                    content: string, now: int)
    returns (ack: Ack, emitted: seq<Emit<Edited>>)
    requires DbOk(store.db)
    modifies store
    ensures DbOk(store.db)
    ensures var target := FoundMessage(old(store.db), conversationId, messageId);
            var refusal := if target.Some? then EditCheck(target.value, userId) else None;
            && EditAnswer(ack, target, userId)
            && ack == (if refusal.Some? then Refused(refusal.value) else Accepted)
            && emitted == (if refusal.Some? then []
                           else [Emit(BroadcastRooms(conversationId, userId),
                                      Edited(conversationId, messageId, content, now))])
            && store.db == (if target.Some? && refusal.None?
                            then Execute(old(store.db), Edit(conversationId, messageId, content, now))
                            else old(store.db))
    ensures ack == Accepted && FoundMessage(old(store.db), conversationId, messageId).Some? ==>
              FoundText(store.db, conversationId, messageId) == Some(content)
  {
    emitted := [];
    var target := store.FindMessage(conversationId, messageId);
    if target.Some? {
      if target.value.senderId != userId { return Refused(Forbidden), []; }
      if target.value.deleted { return Refused(Gone), []; }
      if target.value.kind != Text { return Refused(NonEditable), []; }
      ghost var before := store.db;
      store.EditMessage(conversationId, messageId, content, now);
      EditedTextIsFound(before, conversationId, messageId, content, now);
    }
    emitted := [Emit(BroadcastRooms(conversationId, userId), Edited(conversationId, messageId, content, now))];
    ack := Accepted;
  }

  function FoundText(db: Db, conversationId: string, messageId: string): Option<string> {
    var found := FoundMessage(db, conversationId, messageId);
    if found.Some? then Some(found.value.content) else None
  }

  lemma EditedTextIsFound(db: Db, conversationId: string, messageId: string, content: string, at: int)
    requires DbOk(db) && FindRow(db.messages, conversationId, messageId).Some?
    ensures DbOk(Execute(db, Edit(conversationId, messageId, content, at)))
    ensures FoundText(Execute(db, Edit(conversationId, messageId, content, at)), conversationId, messageId) ==
              Some(content)
  {
    StatementKeepsDb(db, Edit(conversationId, messageId, content, at));
    EditFinds(db.messages, conversationId, messageId, content, at, conversationId, messageId);
  }

  method HandleUnsend(store: MessageStore.Store, userId: string, conversationId: string, messageId: string)
    returns (ack: Ack, emitted: seq<Emit<Unsent>>)
    requires DbOk(store.db)
    modifies store
    ensures DbOk(store.db)
    ensures var target := FoundMessage(old(store.db), conversationId, messageId);
            var refusal := if target.Some? then UnsendCheck(target.value, userId) else None;
            && UnsendAnswer(ack, target, userId)
            && ack == (if refusal.Some? then Refused(refusal.value) else Accepted)
            && emitted == (if refusal.Some? then []
                           else [Emit(BroadcastRooms(conversationId, userId), Unsent(conversationId, messageId))])
            && store.db == (if target.Some? && refusal.None?
                            then Execute(old(store.db), Unsend(conversationId, messageId)) else old(store.db))
    ensures var was := FindRow(old(store.db).messages, conversationId, messageId);
            ack == Accepted && was.Some? ==>
              FindRow(store.db.messages, conversationId, messageId) == Some(was.value.(content := "", deleted := true))
  {
    emitted := [];
    var target := store.FindMessage(conversationId, messageId);
    if target.Some? {
      if target.value.senderId != userId { return Refused(Forbidden), []; }
      ghost var before := store.db;
      store.UnsendMessage(conversationId, messageId);
      StatementKeepsDb(before, Unsend(conversationId, messageId));
    }
    emitted := [Emit(BroadcastRooms(conversationId, userId), Unsent(conversationId, messageId))];
    ack := Accepted;
  }

  /** With nothing in between, the write cannot be rejected: the message it checked exists. */
  method HandleReact(store: MessageStore.Store, userId: string, userName: string, conversationId: string,
                     messageId: string, emoji: Option<string>)
    returns (ack: Ack, emitted: seq<Emit<Reacted>>)
    requires DbOk(store.db)
    modifies store
    ensures DbOk(store.db) && ack != Threw
    ensures var target := FoundMessage(old(store.db), conversationId, messageId);
            && ReactAnswer(ack, target, emoji)
            && if ack.Refused? then emitted == [] && store.db == old(store.db)
               else
                 && emitted == [Emit(ConversationRooms(conversationId), Reacted(
                      conversationId, messageId, target.value.senderId, userId, userName, emoji))]
                 && store.db == Execute(old(store.db),
                                        ReactTask(userId, userName, conversationId, messageId, emoji).Statement())
                 && FoundMessage(store.db, conversationId, messageId).Some?
                 && ReactionReplaced(target.value, FoundMessage(store.db, conversationId, messageId).value,
                                     userId, userName, emoji)
  {
    emitted := [];
    if emoji.Some? && emoji.value !in REACTION_KEYS { return Refused(InvalidEmoji), []; }
    var msg := store.FindMessage(conversationId, messageId);
    if msg.None? || msg.value.deleted || msg.value.kind == System { return Refused(NotFound), []; }
    ghost var before := store.db;
    var applied := store.ApplyReaction(messageId, userId, userName, emoji);
    StatementKeepsDb(before, ReactTask(userId, userName, conversationId, messageId, emoji).Statement());
    assert messageId in Ids(before.messages);
    ReactionIsSeen(before, conversationId, messageId, userId, userName, emoji);
    emitted := [Emit(ConversationRooms(conversationId),
                     Reacted(conversationId, messageId, msg.value.senderId, userId, userName, emoji))];
    ack := Accepted;
  }
}
