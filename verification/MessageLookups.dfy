/** What is found under an id after a statement on the messages. */
module MessageLookups {
  import opened Collections
  import opened MessageTable
  import opened Hydration

  // ---------------------------------------------------------------- by id

  function MapFound(found: Option<Row>, f: Row -> Row): Option<Row> {
    if found.Some? then Some(f(found.value)) else None
  }

  /** Rewriting rows in place, ids apart, rewrites what is found. */
  lemma {:induction false} RewriteFinds(messages: seq<Row>, rewritten: seq<Row>, f: Row -> Row, id: string)
    requires |rewritten| == |messages|
    requires forall i :: 0 <= i < |messages| ==> rewritten[i] == f(messages[i]) && rewritten[i].id == messages[i].id
    ensures FindById(rewritten, id) == MapFound(FindById(messages, id), f)
  {
    if messages != [] {
      RewriteFinds(messages[..|messages| - 1], rewritten[..|messages| - 1], f, id);
    }
  }

  function Edits(conversationId: string, id: string, content: string, at: int): Row -> Row {
    (r: Row) =>
      if r.id == id && r.conversationId == conversationId then r.(content := content, editedAt := Some(at)) else r
  }

  function Blanks(conversationId: string, id: string): Row -> Row {
    (r: Row) => if r.id == id && r.conversationId == conversationId then r.(content := "", deleted := true) else r
  }

  /** A deletion by ids leaves every other row under its id, with its link unless the target went. */
  lemma {:induction false} DeletionFinds(messages: seq<Row>, ids: set<string>, id: string)
    ensures FindById(DeleteRows(messages, ids), id) ==
            if id in ids then None else MapFound(FindById(messages, id), (r: Row) => Unlinked(r, ids))
  {
    if messages != [] {
      var front, last := messages[..|messages| - 1], messages[|messages| - 1];
      DeletionFinds(front, ids, id);
      if last.id !in ids {
        assert (DeleteRows(front, ids) + [Unlinked(last, ids)])[..|DeleteRows(front, ids)|] == DeleteRows(front, ids);
      }
    }
  }

  // ---------------------------------------------------------------- by conversation and id

  /** An edit changes the text and the edit mark of that message and nothing else. */
  lemma EditFinds(messages: seq<Row>, conversationId: string, id: string, content: string, at: int, c: string,
                  x: string)
    ensures var was := FindRow(messages, c, x);
            FindRow(SetContent(messages, conversationId, id, content, at), c, x) ==
            if was.Some? && c == conversationId && x == id
            then Some(was.value.(content := content, editedAt := Some(at))) else was
  {
    RewriteFinds(messages, SetContent(messages, conversationId, id, content, at),
                 Edits(conversationId, id, content, at), x);
  }

  /** An unsend blanks that message and nothing else. */
  lemma UnsendFinds(messages: seq<Row>, conversationId: string, id: string, c: string, x: string)
    ensures var was := FindRow(messages, c, x);
            FindRow(SetDeleted(messages, conversationId, id), c, x) ==
            if was.Some? && c == conversationId && x == id
            then Some(was.value.(content := "", deleted := true)) else was
  {
    RewriteFinds(messages, SetDeleted(messages, conversationId, id), Blanks(conversationId, id), x);
  }

  function IdsIn(messages: seq<Row>, conversationId: string): set<string> {
    set r | r in messages && r.conversationId == conversationId :: r.id
  }

  lemma InConversation(messages: seq<Row>, conversationId: string, id: string)
    requires LinksOk(messages)
    ensures id in IdsIn(messages, conversationId) <==> FindRow(messages, conversationId, id).Some?
  {
    if id in IdsIn(messages, conversationId) {
      var r :| r in messages && r.conversationId == conversationId && r.id == id;
      RowIsFound(messages, r);
    }
  }

  /** The reply names a message of this conversation. */
  predicate RepliesInto(messages: seq<Row>, row: Row, conversationId: string) {
    row.replyToId.Some? && FindRow(messages, conversationId, row.replyToId.value).Some?
  }

  /** Deleting a conversation leaves none of its messages; every other stays, and keeps its link
      unless that led into the conversation. */
  lemma ConversationDeletionFinds(db: Db, conversationId: string, c: string, x: string)
    requires LinksOk(db.messages)
    ensures var was := FindRow(db.messages, c, x);
            FindRow(DeleteConversation(db, conversationId).messages, c, x) ==
            if was.None? || c == conversationId then None
            else if RepliesInto(db.messages, was.value, conversationId) then Some(was.value.(replyToId := None))
            else was
  {
    var ids := IdsIn(db.messages, conversationId);
    DeletionFinds(db.messages, ids, x);
    InConversation(db.messages, conversationId, x);
    var found := FindById(db.messages, x);
    if found.Some? && found.value.replyToId.Some? {
      InConversation(db.messages, conversationId, found.value.replyToId.value);
    }
  }

  lemma {:induction false} FilteredReactions(reactions: seq<Reaction>, keep: Reaction -> bool, id: string, kept: bool)
    requires forall r :: r in reactions && r.messageId == id ==> keep(r) == kept
    ensures ReactionsOf(Filter(reactions, keep), id) == if kept then ReactionsOf(reactions, id) else []
  {
    if reactions != [] {
      var front, last := reactions[..|reactions| - 1], reactions[|reactions| - 1];
      assert reactions == front + [last];
      FilterAppend(front, last, keep);
      FilteredReactions(front, keep, id, kept);
      var some := Filter(front, keep);
      if keep(last) {
        assert (some + [last])[..|some|] == some;
      } else {
        assert some + [] == some;
      }
    }
  }

  /** Its reactions go with it, and no others. */
  lemma ConversationDeletionReactions(db: Db, conversationId: string, x: string)
    requires LinksOk(db.messages)
    ensures ReactionsOf(DeleteConversation(db, conversationId).reactions, x) ==
            if FindRow(db.messages, conversationId, x).Some? then [] else ReactionsOf(db.reactions, x)
  {
    var ids := IdsIn(db.messages, conversationId);
    InConversation(db.messages, conversationId, x);
    FilteredReactions(db.reactions, (r: Reaction) => r.messageId !in ids, x, x !in ids);
  }

  // ---------------------------------------------------------------- seen from outside

  /** This message has the new text and edit mark, every other is as before. */
  ghost predicate EditedOnly(before: Db, after: Db, conversationId: string, id: string, content: string, at: int) {
    && after.reactions == before.reactions
    && forall c, x ::
         FindRow(after.messages, c, x) ==
         var was := FindRow(before.messages, c, x);
         if was.Some? && c == conversationId && x == id
         then Some(was.value.(content := content, editedAt := Some(at))) else was
  }

  /** This message is deleted and without text, every other is as before. */
  ghost predicate UnsentOnly(before: Db, after: Db, conversationId: string, id: string) {
    && after.reactions == before.reactions
    && forall c, x ::
         FindRow(after.messages, c, x) ==
         var was := FindRow(before.messages, c, x);
         if was.Some? && c == conversationId && x == id
         then Some(was.value.(content := "", deleted := true)) else was
  }

  /** No message and no reaction of the conversation is left; every other message is, with its link
      unless that led into the conversation, and every other reaction. */
  ghost predicate ConversationGone(before: Db, after: Db, conversationId: string) {
    && (forall c, x ::
          FindRow(after.messages, c, x) ==
          var was := FindRow(before.messages, c, x);
          if was.None? || c == conversationId then None
          else if RepliesInto(before.messages, was.value, conversationId) then Some(was.value.(replyToId := None))
          else was)
    && (forall x ::
          ReactionsOf(after.reactions, x) ==
          if FindRow(before.messages, conversationId, x).Some? then [] else ReactionsOf(before.reactions, x))
  }

  lemma EditIsSeen(db: Db, conversationId: string, id: string, content: string, at: int)
    ensures EditedOnly(db, Execute(db, Edit(conversationId, id, content, at)), conversationId, id, content, at)
  {
    forall c, x { EditFinds(db.messages, conversationId, id, content, at, c, x); }
  }

  lemma UnsendIsSeen(db: Db, conversationId: string, id: string)
    ensures UnsentOnly(db, Execute(db, Unsend(conversationId, id)), conversationId, id)
  {
    forall c, x { UnsendFinds(db.messages, conversationId, id, c, x); }
  }

  lemma DeletionIsSeen(db: Db, conversationId: string)
    requires LinksOk(db.messages)
    ensures ConversationGone(db, Execute(db, DeleteAll(conversationId)), conversationId)
  {
    forall c, x { ConversationDeletionFinds(db, conversationId, c, x); }
    forall x { ConversationDeletionReactions(db, conversationId, x); }
  }
}
