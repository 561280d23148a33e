/** The store that owns the message tables (src/feature/chat/store/message.store.ts), with every
    Prisma call as one statement, and the replay that reads it on connection
    (src/feature/chat/chat.handler.ts). */
module MessageStore {
  import opened Collections
  import opened MessageTable
  import opened RowOrder
  import opened History
  import opened Hydration
  import opened MessageLookups
  import opened MessageViews
  import opened ReplyContexts
  import opened ConversationIds
  import opened UserSockets
  import DmDelivery

  /** The newest rows of a list that is oldest first. */
  function Newest(rows: seq<Row>, limit: nat): seq<Row> {
    if |rows| > limit then rows[|rows| - limit..] else rows
  }

  lemma PageIsNewest(messages: seq<Row>, conversationId: string, cursor: Option<int>, limit: nat)
    ensures var window, rows := Window(messages, conversationId, cursor),
                                FindNewest(messages, conversationId, cursor, limit + 1);
            && (|rows| > limit <==> |window| > limit)
            && Reverse(if |rows| > limit then rows[..limit] else rows) == Newest(window, limit)
  {
    PageIsSuffix(messages, conversationId, cursor, limit);
  }

  /** Each message is what `findMessage` would return for its id. */
  ghost predicate AllFound(db: Db, conversationId: string, messages: seq<ChatMessage>) {
    forall i :: 0 <= i < |messages| ==> FoundMessage(db, conversationId, messages[i].id) == Some(messages[i])
  }

  lemma PageIsFound(db: Db, conversationId: string, cursor: Option<int>, limit: nat)
    requires LinksOk(db.messages)
    ensures AllFound(db, conversationId, HydrateAll(db, Newest(Window(db.messages, conversationId, cursor), limit)))
  {
    var rows := Newest(Window(db.messages, conversationId, cursor), limit);
    WindowRowsAreRows(db.messages, conversationId, cursor);
    forall r | r in rows ensures r in db.messages && r.conversationId == conversationId {
      assert r in Window(db.messages, conversationId, cursor);
    }
    HydratedListIsFound(db, rows, conversationId);
  }

  /** A page shows the newest `limit` rows of the window, field by field. */
  ghost predicate PageShows(db: Db, window: seq<Row>, limit: nat, messages: seq<ChatMessage>) {
    && |messages| == (if |window| > limit then limit else |window|)
    && AllShown(db, window[|window| - |messages|..], messages)
  }

  lemma PageIsShown(db: Db, window: seq<Row>, limit: nat)
    requires LinksOk(db.messages)
    ensures PageShows(db, window, limit, HydrateAll(db, Newest(window, limit)))
  {
    RowsAreShown(db, Newest(window, limit));
  }

  lemma PageIsRight(db: Db, conversationId: string, cursor: Option<int>, limit: nat)
    ensures var window := Window(db.messages, conversationId, cursor);
            LinksOk(db.messages) ==>
              && AllFound(db, conversationId, HydrateAll(db, Newest(window, limit)))
              && PageShows(db, window, limit, HydrateAll(db, Newest(window, limit)))
  {
    if LinksOk(db.messages) {
      PageIsFound(db, conversationId, cursor, limit);
      PageIsShown(db, Window(db.messages, conversationId, cursor), limit);
    }
  }

  ghost predicate OldestFirst(rows: seq<Row>) {
    forall i, j :: 0 <= i < j < |rows| ==>
      rows[i].createdAt < rows[j].createdAt
      || (rows[i].createdAt == rows[j].createdAt && StringLeq(rows[i].id, rows[j].id))
  }

  /** The messages are those the user has not seen since, and no others: direct messages of their own
      conversations that someone else sent and has not unsent, each once, oldest first. */
  ghost predicate AllOwed(db: Db, userId: string, since: int, messages: seq<ChatMessage>) {
    exists rows: seq<Row> ::
      && OldestFirst(rows) && AllShown(db, rows, messages)
      && (forall r :: r in rows <==> r in db.messages && DmDelivery.Owed(r, userId, since))
      && (forall r :: multiset(rows)[r] <= 1)
  }

  lemma PendingOnce(messages: seq<Row>, userId: string, since: int, r: Row)
    requires LinksOk(messages)
    ensures multiset(DmDelivery.PendingRows(messages, userId, since))[r] <= 1
  {
    DmDelivery.PendingExactly(messages, userId, since);
    SortMembers(Filter(messages, DmDelivery.OwedTo(userId, since)));
    FilterCounts(messages, DmDelivery.OwedTo(userId, since));
    RowsAreListedOnce(messages, r);
  }

  lemma PendingIsOwed(db: Db, userId: string, since: int)
    requires LinksOk(db.messages)
    ensures AllOwed(db, userId, since, HydrateAll(db, DmDelivery.PendingRows(db.messages, userId, since)))
  {
    var rows := DmDelivery.PendingRows(db.messages, userId, since);
    DmDelivery.PendingExactly(db.messages, userId, since);
    SortedMeans(rows);
    forall r { PendingOnce(db.messages, userId, since, r); }
    RowsAreShown(db, rows);
  }

  /** The row has every field of the message; a sender "system" is a null one. */
  predicate IsRowOf(row: Row, conversationId: string, message: ChatMessage, replyToId: Option<string>) {
    && row.id == message.id && row.conversationId == conversationId
    && row.senderId != Some("system") && ShowsSender(message.senderId, row) && row.senderName == message.senderName
    && row.content == message.content && row.kind == message.kind && row.createdAt == message.timestamp
    && row.deleted == message.deleted && (message.editedAt != Some(0) ==> row.editedAt == message.editedAt)
    && row.replyToId == replyToId
  }

  class Store {
    var db: Db

    constructor ()
      ensures db == Db([], [])
    {
      db := Db([], []);
    }

    // -------------------------------------------------------------- reads

    method FindMessage(conversationId: string, messageId: string) returns (message: Option<ChatMessage>)
      ensures message == FoundMessage(db, conversationId, messageId)
      ensures LinksOk(db.messages) ==> Looks(db, conversationId, messageId, message)
    {
      if LinksOk(db.messages) {
        LookupShows(db, conversationId, messageId);
      }
      var row := FindRow(db.messages, conversationId, messageId);
      if row.None? { return None; }
      var messages := Hydrate(db, [row.value]);
      message := Some(messages[0]);
    }

    /** The newest `limit` messages the cursor leaves, oldest first, each as `findMessage` gives it;
        and a cursor exactly when some were left out. */
    method GetHistory(conversationId: string, cursor: Option<int>, limit: nat)
      returns (messages: seq<ChatMessage>, nextCursor: Option<int>, hasMore: bool)
      ensures var window := Window(db.messages, conversationId, cursor);
              && messages == HydrateAll(db, Newest(window, limit))
              && (hasMore <==> |window| > limit)
              && nextCursor == if hasMore && limit > 0 then Some(messages[0].timestamp) else None
      ensures LinksOk(db.messages) ==> AllFound(db, conversationId, messages)
      ensures LinksOk(db.messages) ==> PageShows(db, Window(db.messages, conversationId, cursor), limit, messages)
    {
      var rows := FindNewest(db.messages, conversationId, cursor, limit + 1);
      hasMore := |rows| > limit;
      var page := Reverse(if hasMore then rows[..limit] else rows);
      messages := Hydrate(db, page);
      nextCursor := if hasMore && |page| > 0 then Some(page[0].createdAt) else None;
      PageIsNewest(db.messages, conversationId, cursor, limit);
      PageIsRight(db, conversationId, cursor, limit);
    }

    method GetDirectMessagesSince(userId: string, since: int) returns (messages: seq<ChatMessage>)
      ensures messages == HydrateAll(db, DmDelivery.PendingRows(db.messages, userId, since))
      ensures LinksOk(db.messages) ==> AllOwed(db, userId, since, messages)
    {
      if LinksOk(db.messages) {
        PendingIsOwed(db, userId, since);
      }
      var rows := Sort(Filter(db.messages, DmDelivery.ReplayWhere(userId, since)));
      var mine: seq<Row> := [];
      for i := 0 to |rows|
        invariant mine == Filter(rows[..i], DmDelivery.Mine(userId))
      {
        FilterAppend(rows[..i], rows[i], DmDelivery.Mine(userId));
        assert rows[..i + 1] == rows[..i] + [rows[i]];
        if ReplayInvolves(rows[i].conversationId, userId) {
          mine := mine + [rows[i]];
        }
      }
      assert rows[..|rows|] == rows;
      messages := Hydrate(db, mine);
    }

    // -------------------------------------------------------------- writes

    /** The first await of `addMessage`: link only to a parent that exists now. */
    method FindParent(message: ChatMessage) returns (replyToId: Option<string>)
      ensures replyToId == LinkOf(db.messages, message)
    {
      replyToId := None;
      if message.replyTo.Some? && message.replyTo.value.id != "" {
        var parent := FindById(db.messages, message.replyTo.value.id);
        if parent.Some? { replyToId := Some(parent.value.id); }
      }
    }

    /** Its second await, on a table that may have changed since: false when the id is taken or the
        parent has gone, and then nothing changes. */
    method CreateMessage(conversationId: string, message: ChatMessage, replyToId: Option<string>) returns (stored: bool)
      modifies this
      ensures db == Execute(old(db), Insert(LinkedRow(conversationId, message, replyToId)))
      ensures stored <==>
              && message.id !in Ids(old(db).messages)
              && (replyToId.Some? ==> replyToId.value in Ids(old(db).messages))
      ensures stored ==> FindById(db.messages, message.id) == Some(LinkedRow(conversationId, message, replyToId))
      ensures stored ==> IsRowOf(FindById(db.messages, message.id).value, conversationId, message, replyToId)
    {
      var row := Row(
        message.id, conversationId, if message.senderId == SYSTEM then None else Some(message.senderId),
        message.senderName, message.content, message.kind, replyToId,
        if message.editedAt == Some(0) then None else message.editedAt, message.deleted, message.timestamp);
      FindInLonger(db.messages, row, row.id);
      var outcome := InsertMessage(db, row);
      stored := outcome.Done?;
      if stored { db := outcome.db; }
    }

    /** Both, with nothing in between: the link never dangles. */
    method AddMessage(conversationId: string, message: ChatMessage) returns (stored: bool)
      modifies this
      ensures db == Execute(old(db), Insert(NewRow(old(db).messages, conversationId, message)))
      ensures stored <==> message.id !in Ids(old(db).messages)
    {
      var replyToId := FindParent(message);
      stored := CreateMessage(conversationId, message, replyToId);
    }

    method EditMessage(conversationId: string, messageId: string, content: string, editedAt: int)
      modifies this
      ensures db == Execute(old(db), Edit(conversationId, messageId, content, editedAt))
      ensures EditedOnly(old(db), db, conversationId, messageId, content, editedAt)
    {
      EditIsSeen(db, conversationId, messageId, content, editedAt);
      db := db.(messages := SetContent(db.messages, conversationId, messageId, content, editedAt));
    }

    method UnsendMessage(conversationId: string, messageId: string)
      modifies this
      ensures db == Execute(old(db), Unsend(conversationId, messageId))
      ensures UnsentOnly(old(db), db, conversationId, messageId)
    {
      UnsendIsSeen(db, conversationId, messageId);
      db := db.(messages := SetDeleted(db.messages, conversationId, messageId));
    }

    method DeleteConversationMessages(conversationId: string)
      modifies this
      ensures db == Execute(old(db), DeleteAll(conversationId))
      ensures LinksOk(old(db).messages) ==> ConversationGone(old(db), db, conversationId)
    {
      if LinksOk(db.messages) {
        DeletionIsSeen(db, conversationId);
      }
      db := DeleteConversation(db, conversationId);
    }

    /** `emoji` is None to take the reaction back. False when the message has gone. */
    method ApplyReaction(messageId: string, userId: string, userName: string, emoji: Option<string>)
      returns (applied: bool)
      modifies this
      ensures db == Execute(old(db), match emoji
                                     case None => Unreact(messageId, userId)
                                     case Some(e) => React(Reaction(messageId, userId, userName, e)))
      ensures applied <==> emoji.None? || messageId in Ids(old(db).messages)
    {
      if emoji.None? {
        db := db.(reactions := DeleteReaction(db.reactions, messageId, userId));
        return true;
      }
      var outcome := UpsertReaction(db, Reaction(messageId, userId, userName, emoji.value));
      applied := outcome.Done?;
      if applied { db := outcome.db; }
    }
  }

  // ---------------------------------------------------------------- the replay on connection

  /** A user's first socket is sent all that is pending for them since their last visit, oldest
      first; a further socket nothing. */
  method ConnectUser(userSockets: UserSocketStore, store: Store, userId: string, socketId: string)
    returns (emitted: seq<ChatMessage>)
    modifies userSockets`activeUserSockets
    ensures userSockets.activeUserSockets == PutInBucket(old(userSockets.activeUserSockets), userId, socketId)
    ensures emitted == if Bucket(old(userSockets.activeUserSockets), userId) == {}
                       then HydrateAll(store.db, DmDelivery.PendingRows(store.db.messages, userId,
                                                                        userSockets.GetLastSeen(userId)))
                       else []
    ensures var lastSeen := userSockets.lastSeenStore;
            LinksOk(store.db.messages) && Bucket(old(userSockets.activeUserSockets), userId) == {} ==>
              AllOwed(store.db, userId, if userId in lastSeen then lastSeen[userId] else 0, emitted)
  {
    var wasEmpty := userSockets.AddUserSocket(userId, socketId);
    emitted := [];
    if wasEmpty {
      var pending := store.GetDirectMessagesSince(userId, userSockets.GetLastSeen(userId));
      for i := 0 to |pending|
        invariant emitted == pending[..i]
      {
        emitted := emitted + [pending[i]];
      }
    }
  }

  /** These are the very deliveries that `DmDelivery` counts for the connection. */
  lemma EmittedAreReplayed(db: Db, userId: string, since: int)
    ensures var rows := DmDelivery.PendingRows(db.messages, userId, since);
            (set m | m in HydrateAll(db, rows) :: DmDelivery.Key(userId, m.id)) == DmDelivery.Keys(userId, rows)
  {
    var rows := DmDelivery.PendingRows(db.messages, userId, since);
    var messages := HydrateAll(db, rows);
    forall k | k in DmDelivery.Keys(userId, rows)
      ensures exists m :: m in messages && k == DmDelivery.Key(userId, m.id)
    {
      var i :| 0 <= i < |rows| && k == DmDelivery.Key(userId, rows[i].id);
      assert messages[i] in messages;
    }
    forall m | m in messages ensures DmDelivery.Key(userId, m.id) in DmDelivery.Keys(userId, rows) {
      var i :| 0 <= i < |messages| && messages[i] == m;
      assert rows[i] in rows;
    }
  }
}
