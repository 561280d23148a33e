/** The two tables of prisma/schema.prisma and the statements the message store runs on them. Rows
    are listed in insertion order; each statement is one atomic step. */
module MessageTable {
  import opened Collections

  datatype MessageType = Text | Image | File | Video | System

  datatype Row = Row(
    id: string,
    conversationId: string,
    senderId: Option<string>,
    senderName: string,
    content: string,
    kind: MessageType,
    replyToId: Option<string>,
    editedAt: Option<int>,
    deleted: bool,
    createdAt: int)

  datatype Reaction = Reaction(messageId: string, userId: string, userName: string, emoji: string)

  datatype Db = Db(messages: seq<Row>, reactions: seq<Reaction>)

  function Ids(messages: seq<Row>): set<string> {
    set r | r in messages :: r.id
  }

  /** `findUnique` by id. */
  function FindById(messages: seq<Row>, id: string): (found: Option<Row>)
    ensures found.Some? ==> found.value in messages && found.value.id == id
    ensures found.None? <==> id !in Ids(messages)
  {
    if messages == [] then None
    else
      var n := |messages| - 1;
      if messages[n].id == id then
        assert messages[n] in messages;
        Some(messages[n])
      else
        var found := FindById(messages[..n], id);
        assert forall r :: r in messages <==> r in messages[..n] || r == messages[n];
        found
  }

  // ---------------------------------------------------------------- statements on messages

  datatype Outcome = Done(db: Db) | Rejected  // a violated key constraint

  /** INSERT: the primary key must be new and the foreign key must name a row. */
  function InsertMessage(db: Db, row: Row): Outcome {
    if row.id in Ids(db.messages) then Rejected
    else if row.replyToId.Some? && row.replyToId.value !in Ids(db.messages) then Rejected
    else Done(db.(messages := db.messages + [row]))
  }

  /** UPDATE ... WHERE id AND conversationId: content and editedAt. */
  function SetContent(messages: seq<Row>, conversationId: string, id: string, content: string, editedAt: int)
    : seq<Row>
  {
    seq(|messages|, i requires 0 <= i < |messages| =>
      if messages[i].id == id && messages[i].conversationId == conversationId
      then messages[i].(content := content, editedAt := Some(editedAt)) else messages[i])
  }

  /** UPDATE ... WHERE id AND conversationId: the soft delete. */
  function SetDeleted(messages: seq<Row>, conversationId: string, id: string): seq<Row> {
    seq(|messages|, i requires 0 <= i < |messages| =>
      if messages[i].id == id && messages[i].conversationId == conversationId
      then messages[i].(content := "", deleted := true) else messages[i])
  }

  /** `ON DELETE SET NULL`: a link to a deleted row is dropped, any other is kept. */
  function Unlinked(row: Row, ids: set<string>): Row {
    if row.replyToId.Some? && row.replyToId.value in ids then row.(replyToId := None) else row
  }

  /** DELETE of the rows with these ids. */
  function DeleteRows(messages: seq<Row>, ids: set<string>): seq<Row> {
    if messages == [] then []
    else
      var n := |messages| - 1;
      var row := messages[n];
      var front := DeleteRows(messages[..n], ids);
      if row.id in ids then front
      else front + [Unlinked(row, ids)]
  }

  function DeleteConversation(db: Db, conversationId: string): Db {
    var ids := set r | r in db.messages && r.conversationId == conversationId :: r.id;
    // the reactions go with their messages: ON DELETE CASCADE
    Db(DeleteRows(db.messages, ids), Filter(db.reactions, (r: Reaction) => r.messageId !in ids))
  }

  // ---------------------------------------------------------------- statements on reactions

  predicate SameKey(r: Reaction, messageId: string, userId: string) {
    r.messageId == messageId && r.userId == userId
  }

  /** DELETE WHERE messageId AND userId. */
  function DeleteReaction(reactions: seq<Reaction>, messageId: string, userId: string): seq<Reaction> {
    Filter(reactions, (r: Reaction) => !SameKey(r, messageId, userId))
  }

  predicate HasReaction(reactions: seq<Reaction>, messageId: string, userId: string) {
    exists r :: r in reactions && SameKey(r, messageId, userId)
  }

  /** UPSERT on the key (messageId, userId): rewrite the row in place, or insert one. */
  function PutReaction(reactions: seq<Reaction>, put: Reaction): seq<Reaction> {
    if HasReaction(reactions, put.messageId, put.userId)
    then seq(|reactions|, i requires 0 <= i < |reactions| =>
           if SameKey(reactions[i], put.messageId, put.userId) then put else reactions[i])
    else reactions + [put]
  }

  function UpsertReaction(db: Db, reaction: Reaction): Outcome {
    if reaction.messageId !in Ids(db.messages) then Rejected
    else Done(db.(reactions := PutReaction(db.reactions, reaction)))
  }

  // ---------------------------------------------------------------- integrity

  /** Ids are unique, and a reply names a row inserted strictly earlier. */
  predicate LinksOk(messages: seq<Row>) {
    messages == [] ||
    var n := |messages| - 1;
    && LinksOk(messages[..n])
    && messages[n].id !in Ids(messages[..n])
    && (messages[n].replyToId.Some? ==> messages[n].replyToId.value in Ids(messages[..n]))
  }

  /** At most one reaction per (message, user). */
  predicate KeysOk(reactions: seq<Reaction>) {
    reactions == [] ||
    var n := |reactions| - 1;
    KeysOk(reactions[..n]) && !HasReaction(reactions[..n], reactions[n].messageId, reactions[n].userId)
  }

  predicate DbOk(db: Db) {
    && LinksOk(db.messages)
    && KeysOk(db.reactions)
    && (forall r :: r in db.reactions ==> r.messageId in Ids(db.messages))
  }

  datatype Statement =
    | Insert(row: Row)  // with any reply link, looked up at any earlier time
    | Edit(conversationId: string, id: string, content: string, editedAt: int)
    | Unsend(conversationId: string, id: string)
    | DeleteAll(conversationId: string)
    | React(reaction: Reaction)
    | Unreact(messageId: string, userId: string)

  function Execute(db: Db, s: Statement): Db {
    match s
    case Insert(row) => (match InsertMessage(db, row) case Done(db') => db' case Rejected => db)
    case Edit(c, id, content, at) => db.(messages := SetContent(db.messages, c, id, content, at))
    case Unsend(c, id) => db.(messages := SetDeleted(db.messages, c, id))
    case DeleteAll(c) => DeleteConversation(db, c)
    case React(reaction) => (match UpsertReaction(db, reaction) case Done(db') => db' case Rejected => db)
    case Unreact(m, u) => db.(reactions := DeleteReaction(db.reactions, m, u))
  }

  function ExecuteAll(db: Db, statements: seq<Statement>): Db
    decreases |statements|
  {
    if statements == [] then db
    else ExecuteAll(Execute(db, statements[0]), statements[1..])
  }

  // ---------------------------------------------------------------- each statement keeps it

  lemma IdsOfPrefix(messages: seq<Row>)
    requires messages != []
    ensures Ids(messages) == Ids(messages[..|messages| - 1]) + {messages[|messages| - 1].id}
  {
    var n := |messages| - 1;
    assert forall r :: r in messages <==> r in messages[..n] || r == messages[n];
  }

  /** Rewriting rows without touching ids and links keeps the links. */
  lemma {:induction false} RewriteKeepsLinks(messages: seq<Row>, rewritten: seq<Row>)
    requires LinksOk(messages) && |rewritten| == |messages|
    requires forall i :: 0 <= i < |messages| ==>
               rewritten[i].id == messages[i].id && rewritten[i].replyToId == messages[i].replyToId
    ensures LinksOk(rewritten) && Ids(rewritten) == Ids(messages)
  {
    if messages != [] {
      var n := |messages| - 1;
      RewriteKeepsLinks(messages[..n], rewritten[..n]);
      IdsOfPrefix(messages);
      IdsOfPrefix(rewritten);
    }
  }

  /** SET NULL leaves no dangling link. */
  lemma {:induction false} DeleteKeepsLinks(messages: seq<Row>, ids: set<string>)
    requires LinksOk(messages)
    ensures LinksOk(DeleteRows(messages, ids)) && Ids(DeleteRows(messages, ids)) == Ids(messages) - ids
  {
    if messages != [] {
      var n := |messages| - 1;
      DeleteKeepsLinks(messages[..n], ids);
      IdsOfPrefix(messages);
      var kept, front := DeleteRows(messages, ids), DeleteRows(messages[..n], ids);
      if messages[n].id !in ids {
        assert kept[..|kept| - 1] == front;
        IdsOfPrefix(kept);
      }
    }
  }

  lemma {:induction false} FilterKeepsKeys(reactions: seq<Reaction>, keep: Reaction -> bool)
    requires KeysOk(reactions)
    ensures KeysOk(Filter(reactions, keep))
  {
    if reactions != [] {
      var n := |reactions| - 1;
      FilterKeepsKeys(reactions[..n], keep);
      FilterMembers(reactions[..n], keep);
      var kept, front := Filter(reactions, keep), Filter(reactions[..n], keep);
      var last := reactions[n];
      assert !HasReaction(front, last.messageId, last.userId);
      if keep(last) {
        assert kept == front + [last] && kept[..|kept| - 1] == front;
      } else {
        assert kept == front;
      }
    }
  }

  lemma {:induction false} RewriteKeepsKeys(reactions: seq<Reaction>, rewritten: seq<Reaction>)
    requires KeysOk(reactions) && |rewritten| == |reactions|
    requires forall i :: 0 <= i < |reactions| ==>
               rewritten[i].messageId == reactions[i].messageId && rewritten[i].userId == reactions[i].userId
    ensures KeysOk(rewritten)
  {
    if reactions != [] {
      var n := |reactions| - 1;
      RewriteKeepsKeys(reactions[..n], rewritten[..n]);
      if HasReaction(rewritten[..n], rewritten[n].messageId, rewritten[n].userId) {
        var i :| 0 <= i < n && SameKey(rewritten[..n][i], rewritten[n].messageId, rewritten[n].userId);
        assert reactions[..n][i] in reactions[..n];
        assert SameKey(reactions[..n][i], reactions[n].messageId, reactions[n].userId);
      }
    }
  }

  lemma PutKeepsKeys(reactions: seq<Reaction>, put: Reaction)
    requires KeysOk(reactions)
    ensures KeysOk(PutReaction(reactions, put))
    ensures forall r :: r in PutReaction(reactions, put) ==> r == put || r in reactions
  {
    if HasReaction(reactions, put.messageId, put.userId) {
      RewriteKeepsKeys(reactions, PutReaction(reactions, put));
    } else {
      assert (reactions + [put])[..|reactions|] == reactions;
    }
  }

  lemma InsertKeepsDb(db: Db, row: Row)
    requires DbOk(db) && InsertMessage(db, row).Done?
    ensures DbOk(InsertMessage(db, row).db)
  {
    assert (db.messages + [row])[..|db.messages|] == db.messages;
    assert Ids(db.messages) <= Ids(db.messages + [row]);
  }

  /** SET NULL and CASCADE leave nothing that names a deleted row. */
  lemma DeletionKeepsDb(db: Db, conversationId: string)
    requires DbOk(db)
    ensures DbOk(DeleteConversation(db, conversationId))
  {
    var ids := set r | r in db.messages && r.conversationId == conversationId :: r.id;
    DeleteKeepsLinks(db.messages, ids);
    FilterKeepsKeys(db.reactions, (r: Reaction) => r.messageId !in ids);
    FilterMembers(db.reactions, (r: Reaction) => r.messageId !in ids);
  }

  lemma UnreactKeepsDb(db: Db, messageId: string, userId: string)
    requires DbOk(db)
    ensures DbOk(db.(reactions := DeleteReaction(db.reactions, messageId, userId)))
  {
    FilterKeepsKeys(db.reactions, (r: Reaction) => !SameKey(r, messageId, userId));
    FilterMembers(db.reactions, (r: Reaction) => !SameKey(r, messageId, userId));
  }

  lemma StatementKeepsDb(db: Db, s: Statement)
    requires DbOk(db)
    ensures DbOk(Execute(db, s))
  {
    match s
    case Insert(row) =>
      if InsertMessage(db, row).Done? { InsertKeepsDb(db, row); }
    case Edit(c, id, content, at) => RewriteKeepsLinks(db.messages, SetContent(db.messages, c, id, content, at));
    case Unsend(c, id) => RewriteKeepsLinks(db.messages, SetDeleted(db.messages, c, id));
    case DeleteAll(c) => DeletionKeepsDb(db, c);
    case React(reaction) => PutKeepsKeys(db.reactions, reaction);
    case Unreact(m, u) => UnreactKeepsDb(db, m, u);
  }

  // ---------------------------------------------------------------- main theorems

  /** Any run of statements from empty tables keeps the keys unique and the links sound. */
  lemma {:induction false} RunsKeepDb(db: Db, statements: seq<Statement>)
    requires DbOk(db)
    ensures DbOk(ExecuteAll(db, statements))
    decreases |statements|
  {
    if statements != [] {
      StatementKeepsDb(db, statements[0]);
      RunsKeepDb(Execute(db, statements[0]), statements[1..]);
    }
  }

  /** What sound links mean: every reply names exactly one row, and that row was inserted before. */
  lemma {:induction false} ReplyIsEarlier(messages: seq<Row>, i: nat) returns (j: nat)
    requires LinksOk(messages) && i < |messages| && messages[i].replyToId.Some?
    ensures j < i && messages[j].id == messages[i].replyToId.value
    ensures forall k :: 0 <= k < |messages| && messages[k].id == messages[j].id ==> k == j
  {
    var n := |messages| - 1;
    if i == n {
      var r :| r in messages[..n] && r.id == messages[i].replyToId.value;
      j :| 0 <= j < n && messages[..n][j] == r;
      forall k | 0 <= k < |messages| && messages[k].id == messages[j].id ensures k == j {
        IdsAreUnique(messages, k, j);
      }
    } else {
      j := ReplyIsEarlier(messages[..n], i);
      forall k | 0 <= k < |messages| && messages[k].id == messages[j].id ensures k == j {
        IdsAreUnique(messages, k, j);
      }
    }
  }

  lemma {:induction false} IdsAreUnique(messages: seq<Row>, i: nat, j: nat)
    requires LinksOk(messages) && i < |messages| && j < |messages| && messages[i].id == messages[j].id
    ensures i == j
  {
    var n := |messages| - 1;
    if i < n && j < n {
      IdsAreUnique(messages[..n], i, j);
    }
  }

  /** Following reply links from any row: the path never meets a row twice and ends after at most
      as many steps as rows were inserted before. */
  ghost predicate IsReplyPath(messages: seq<Row>, path: seq<nat>) {
    && (forall k :: 0 <= k < |path| ==> path[k] < |messages|)
    && (forall k :: 0 <= k < |path| - 1 ==>
          messages[path[k]].replyToId == Some(messages[path[k + 1]].id))
  }

  lemma {:induction false} ReplyPathsEnd(messages: seq<Row>, path: seq<nat>)
    requires LinksOk(messages) && IsReplyPath(messages, path) && path != []
    ensures |path| <= path[0] + 1
    ensures forall k :: 0 <= k < |path| - 1 ==> path[k + 1] < path[k]
  {
    if |path| > 1 {
      assert messages[path[0]].replyToId == Some(messages[path[0 + 1]].id);
      var j := ReplyIsEarlier(messages, path[0]);
      assert path[1] == j;
      assert IsReplyPath(messages, path[1..]) by {
        forall k | 0 <= k < |path[1..]| - 1
          ensures messages[path[1..][k]].replyToId == Some(messages[path[1..][k + 1]].id)
        {
          assert messages[path[k + 1]].replyToId == Some(messages[path[k + 1 + 1]].id);
        }
      }
      ReplyPathsEnd(messages, path[1..]);
      forall k | 0 <= k < |path| - 1 ensures path[k + 1] < path[k] {
        if k > 0 {
          assert path[1..][k] == path[k + 1] && path[1..][k - 1] == path[k];
        }
      }
    }
  }
}
