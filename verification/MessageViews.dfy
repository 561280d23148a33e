/** What a reader sees of a stored message: every field, the reply it quotes, the reactions to it
    (`rowToMessage`, `toReplyContext`, src/feature/chat/store/message.store.ts). */
module MessageViews {
  import opened Collections
  import opened MessageTable
  import opened Hydration
  import opened Reactions

  // ---------------------------------------------------------------- reactions

  /** The places in the table of the reactions to a message: all of them, in order. */
  ghost predicate Lists(places: seq<nat>, shown: seq<ReactionDto>, reactions: seq<Reaction>, id: string) {
    && |places| == |shown|
    && (forall k :: 0 <= k < |places| ==>
          && places[k] < |reactions|
          && reactions[places[k]] == Reaction(id, shown[k].userId, shown[k].userName, shown[k].emoji))
    && (forall k, l :: 0 <= k < l < |places| ==> places[k] < places[l])
    && (forall p: nat :: p < |reactions| && reactions[p].messageId == id ==> p in places)
  }

  lemma ListsOneMore(places: seq<nat>, shown: seq<ReactionDto>, reactions: seq<Reaction>, last: Reaction, id: string)
    requires Lists(places, shown, reactions, id)
    ensures if last.messageId == id
            then Lists(places + [|reactions|], shown + [ToDto(last)], reactions + [last], id)
            else Lists(places, shown, reactions + [last], id)
  {
    var all := reactions + [last];
    forall p: nat | p < |all| && all[p].messageId == id
      ensures p in places + [|reactions|] && (last.messageId != id ==> p in places)
    {
      if p < |reactions| {
        assert reactions[p].messageId == id;
      }
    }
  }

  lemma {:induction false} ReactionsAreListed(reactions: seq<Reaction>, id: string) returns (places: seq<nat>)
    ensures Lists(places, ReactionsOf(reactions, id), reactions, id)
  {
    if reactions == [] {
      places := [];
    } else {
      var front, last := reactions[..|reactions| - 1], reactions[|reactions| - 1];
      assert reactions == front + [last];
      places := ReactionsAreListed(front, id);
      ListsOneMore(places, ReactionsOf(front, id), front, last, id);
      if last.messageId == id {
        places := places + [|front|];
      }
    }
  }

  /** A message shows a reaction exactly when the table has it. */
  lemma ReactionIsShown(reactions: seq<Reaction>, id: string, r: ReactionDto)
    ensures r in ReactionsOf(reactions, id) <==> Reaction(id, r.userId, r.userName, r.emoji) in reactions
  {
    var places := ReactionsAreListed(reactions, id);
    var shown := ReactionsOf(reactions, id);
    if r in shown {
      var k :| 0 <= k < |shown| && shown[k] == r;
      assert reactions[places[k]] in reactions;
    }
    if Reaction(id, r.userId, r.userName, r.emoji) in reactions {
      var p :| 0 <= p < |reactions| && reactions[p] == Reaction(id, r.userId, r.userName, r.emoji);
      var k :| 0 <= k < |places| && places[k] == p;
      assert shown[k] == r;
    }
  }

  predicate OneEach(shown: seq<ReactionDto>) {
    forall k, l :: 0 <= k < l < |shown| ==> shown[k].userId != shown[l].userId
  }

  lemma {:induction false} KeysDiffer(reactions: seq<Reaction>, i: nat, j: nat)
    requires KeysOk(reactions) && i < j < |reactions| && reactions[i].messageId == reactions[j].messageId
    ensures reactions[i].userId != reactions[j].userId
  {
    var n := |reactions| - 1;
    if j < n {
      KeysDiffer(reactions[..n], i, j);
    } else {
      assert reactions[..n][i] in reactions[..n];
    }
  }

  /** A user is shown with one reaction at most. */
  lemma OneReactionEach(reactions: seq<Reaction>, id: string)
    requires KeysOk(reactions)
    ensures OneEach(ReactionsOf(reactions, id))
  {
    var places := ReactionsAreListed(reactions, id);
    var shown := ReactionsOf(reactions, id);
    forall k, l | 0 <= k < l < |shown| ensures shown[k].userId != shown[l].userId {
      assert reactions[places[k]].messageId == id && reactions[places[l]].messageId == id;
      KeysDiffer(reactions, places[k], places[l]);
    }
  }

  // ---------------------------------------------------------------- replies

  /** A long text is shown by its beginning and an ellipsis, anything else as it is. */
  predicate Abridges(shown: string, kind: MessageType, content: string, max: nat) {
    if kind == Text && |content| > max
    then |shown| == max + 1 && shown[..max] == content[..max] && shown[max] == '\U{2026}'
    else shown == content
  }

  predicate ShowsSender(senderId: string, row: Row) {
    senderId == if row.senderId.Some? then row.senderId.value else "system"
  }

  predicate Quotes(reply: ReplyContext, parent: Row) {
    && reply.id == parent.id && reply.senderName == parent.senderName && reply.kind == parent.kind
    && ShowsSender(reply.senderId, parent)
    && Abridges(reply.content, parent.kind, parent.content, 140)
  }

  /** What a reply to a row is shown with: the row itself, unless it was unsent or is a system message. */
  predicate Quotable(messages: seq<Row>, link: Option<string>, parent: Row) {
    && parent in messages && link == Some(parent.id) && parent.id != ""
    && !parent.deleted && parent.kind != System
  }

  ghost predicate ShowsReply(messages: seq<Row>, link: Option<string>, reply: Option<ReplyContext>) {
    && (reply.None? ==> forall parent :: !Quotable(messages, link, parent))
    && (reply.Some? ==> exists parent :: Quotable(messages, link, parent) && Quotes(reply.value, parent))
  }

  lemma ReplyIsShown(db: Db, row: Row)
    requires LinksOk(db.messages)
    ensures ShowsReply(db.messages, row.replyToId, HydrateOne(db, row).replyTo)
  {
    var reply := HydrateOne(db, row).replyTo;
    if reply.Some? {
      var parent := FindById(db.messages, row.replyToId.value).value;
      assert Quotable(db.messages, row.replyToId, parent) && Quotes(reply.value, parent);
    }
    forall parent | Quotable(db.messages, row.replyToId, parent) ensures reply.Some? {
      RowIsFound(db.messages, parent);
    }
  }

  // ---------------------------------------------------------------- messages

  ghost predicate Shows(db: Db, row: Row, m: ChatMessage) {
    && m.id == row.id && m.conversationId == row.conversationId
    && ShowsSender(m.senderId, row) && m.senderName == row.senderName
    && m.content == row.content && m.kind == row.kind && m.timestamp == row.createdAt
    && m.editedAt == row.editedAt && m.deleted == row.deleted
    && ShowsReply(db.messages, row.replyToId, m.replyTo)
    && (exists places :: Lists(places, m.reactions, db.reactions, row.id))
  }

  /** A reader sees the row's own fields, the reply it names as long as that can be quoted, and all
      reactions to it in table order. */
  lemma RowIsShown(db: Db, row: Row)
    requires LinksOk(db.messages)
    ensures Shows(db, row, HydrateOne(db, row))
  {
    ReplyIsShown(db, row);
    var places := ReactionsAreListed(db.reactions, row.id);
  }

  ghost predicate AllShown(db: Db, rows: seq<Row>, messages: seq<ChatMessage>) {
    |rows| == |messages| && forall i :: 0 <= i < |rows| ==> Shows(db, rows[i], messages[i])
  }

  lemma RowsAreShown(db: Db, rows: seq<Row>)
    requires LinksOk(db.messages)
    ensures AllShown(db, rows, HydrateAll(db, rows))
  {
    forall i | 0 <= i < |rows| ensures Shows(db, rows[i], HydrateAll(db, rows)[i]) {
      RowIsShown(db, rows[i]);
    }
  }

  /** A lookup answers with the row under the id, if it is of the conversation. */
  ghost predicate Looks(db: Db, conversationId: string, id: string, found: Option<ChatMessage>) {
    && (found.None? ==> forall row :: row in db.messages ==> !(row.id == id && row.conversationId == conversationId))
    && (found.Some? ==> exists row :: row in db.messages && row.id == id && row.conversationId == conversationId
                                      && Shows(db, row, found.value))
  }

  lemma LookupShows(db: Db, conversationId: string, id: string)
    requires LinksOk(db.messages)
    ensures Looks(db, conversationId, id, FoundMessage(db, conversationId, id))
  {
    var found := FindRow(db.messages, conversationId, id);
    if found.Some? {
      RowIsShown(db, found.value);
    }
    forall row | row in db.messages && row.id == id && row.conversationId == conversationId ensures found.Some? {
      RowIsFound(db.messages, row);
    }
  }

  // ---------------------------------------------------------------- reactions, before and after

  /** The user's reaction is this one and no other, or none; everyone else's are as before. */
  ghost predicate ReactionReplaced(before: ChatMessage, after: ChatMessage, userId: string, userName: string,
                                   emoji: Option<string>)
  {
    && after == before.(reactions := after.reactions) && OneEach(after.reactions)
    && (forall r: ReactionDto :: r in after.reactions && r.userId == userId <==>
                    emoji.Some? && r == ReactionDto(userId, userName, emoji.value))
    && (forall r: ReactionDto :: r.userId != userId ==> (r in after.reactions <==> r in before.reactions))
  }

  lemma WrittenReactions(db: Db, s: Statement, id: string, r: ReactionDto)
    requires DbOk(db) && IsReactionWrite(s) && id in Ids(db.messages)
    ensures r in ReactionsOf(Execute(db, s).reactions, id) <==>
              if Touches(s, id, r.userId) then After(s) == Some(Reaction(id, r.userId, r.userName, r.emoji))
              else r in ReactionsOf(db.reactions, id)
  {
    var row, db' := Reaction(id, r.userId, r.userName, r.emoji), Execute(db, s);
    StatementKeepsDb(db, s);
    WriteSetsItsKey(db, s, id, r.userId);
    ReactionIsShown(db.reactions, id, r);
    ReactionIsShown(db'.reactions, id, r);
    IsInExactly(db.reactions, row);
    IsInExactly(db'.reactions, row);
  }

  lemma IsInExactly(reactions: seq<Reaction>, r: Reaction)
    requires KeysOk(reactions)
    ensures r in reactions <==> Lookup(reactions, r.messageId, r.userId) == Some(r)
  {
    LookupIsIn(reactions, r.messageId, r.userId);
    if r in reactions {
      LookupFindsRow(reactions, r);
    }
  }

  /** What a reader sees of a message after a user reacted to it, or took a reaction back. */
  lemma ReactionIsSeen(db: Db, conversationId: string, id: string, userId: string, userName: string,
                       emoji: Option<string>)
    requires DbOk(db) && FoundMessage(db, conversationId, id).Some?
    ensures var s := match emoji case None => Unreact(id, userId)
                                 case Some(e) => React(Reaction(id, userId, userName, e));
            var found := FoundMessage(Execute(db, s), conversationId, id);
            && found.Some?
            && ReactionReplaced(FoundMessage(db, conversationId, id).value, found.value, userId, userName, emoji)
  {
    var s := match emoji case None => Unreact(id, userId) case Some(e) => React(Reaction(id, userId, userName, e));
    var db' := Execute(db, s);
    assert id in Ids(db.messages) && db'.messages == db.messages;
    StatementKeepsDb(db, s);
    OneReactionEach(db'.reactions, id);
    var before, after := ReactionsOf(db.reactions, id), ReactionsOf(db'.reactions, id);
    forall r
      ensures r in after <==>
              if r.userId == userId then emoji.Some? && r == ReactionDto(userId, userName, emoji.value)
              else r in before
    {
      WrittenReactions(db, s, id, r);
    }
  }
}
