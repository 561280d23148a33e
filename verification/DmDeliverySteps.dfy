/** Each step of direct-message delivery keeps the invariant of `DmDelivery`. */
module DmDeliverySteps {
  import opened Collections
  import opened ConversationIds
  import opened MessageTable
  import opened DmDelivery
  import opened Hydration

  // ---------------------------------------------------------------- connect, disconnect

  lemma KeyInReplay(messages: seq<Row>, row: Row, r: string, since: int)
    requires LinksOk(messages) && row in messages && RecipientOf(row) == Some(r)
    ensures Key(r, row.id) in Keys(r, PendingRows(messages, r, since)) <==> !row.deleted && row.createdAt > since
  {
    PendingForRecipient(messages, r, since, row);
    if Key(r, row.id) in Keys(r, PendingRows(messages, r, since)) {
      var x :| x in PendingRows(messages, r, since) && x.id == row.id;
      PendingMembers(messages, r, since, x);
      RowIsFound(messages, x);
      RowIsFound(messages, row);
    }
  }

  lemma ReplayIsOfRows(messages: seq<Row>, u: string, since: int, k: Key)
    requires k in Keys(u, PendingRows(messages, u, since))
    ensures k.user == u && k.id in Ids(messages)
  {
    var x :| x in PendingRows(messages, u, since) && k == Key(u, x.id);
    PendingMembers(messages, u, since, x);
  }

  /** A message the server knows: in the table, or still to be inserted. */
  predicate Known(st: Chat, row: Row) {
    row in st.db.messages || (row.id in st.stamped && st.stamped[row.id] == row)
  }

  /** A connection from nowhere: the recipient is back, and got what the replay held. */
  lemma ConnectedFace(st: Chat, u: string, sid: string, now: int, row: Row)
    requires IdsOk(st) && Known(st, row) && RecipientOf(row) == Some(u) && !st.Online(u)
    ensures var f := FaceOf(st, row, u);
            var held := f.phase != Stamped && !f.deleted && f.createdAt > f.lastSeen;
            FaceOf(OnConnect(st, u, sid, now), row, u) ==
            f.(online := true, replays := f.replays + if held then 1 else 0,
               early := f.early || (held && f.phase == Awaiting))
  {
    var keys := Keys(u, PendingRows(st.db.messages, u, st.LastSeen(u)));
    if row in st.db.messages {
      assert row.id in Ids(st.db.messages);
      KeyInReplay(st.db.messages, row, u, st.LastSeen(u));
    } else if Key(u, row.id) in keys {
      ReplayIsOfRows(st.db.messages, u, st.LastSeen(u), Key(u, row.id));
    }
  }

  lemma FaceConnects(f: Face)
    requires f.Ok() && !f.online
    ensures var held := f.phase != Stamped && !f.deleted && f.createdAt > f.lastSeen;
            f.(online := true, replays := f.replays + if held then 1 else 0,
               early := f.early || (held && f.phase == Awaiting)).Ok()
  {}

  lemma ConnectOfOthers(st: Chat, u: string, sid: string, now: int, row: Row, r: string)
    requires r != u || st.Online(u)
    ensures FaceOf(OnConnect(st, u, sid, now), row, r) == FaceOf(st, row, r)
  {
    if !st.Online(u) && Key(r, row.id) in Keys(u, PendingRows(st.db.messages, u, st.LastSeen(u))) {
      ReplayIsOfRows(st.db.messages, u, st.LastSeen(u), Key(r, row.id));
    }
  }

  lemma ConnectKeepsMessage(st: Chat, u: string, sid: string, now: int, row: Row)
    requires IdsOk(st) && MessageOk(st, row) && Known(st, row) && st.clock <= now
    ensures MessageOk(OnConnect(st, u, sid, now), row)
  {
    var recipient := RecipientOf(row);
    if recipient.Some? {
      if recipient.value == u && !st.Online(u) {
        ConnectedFace(st, u, sid, now, row);
        FaceConnects(FaceOf(st, row, u));
      } else {
        ConnectOfOthers(st, u, sid, now, row, recipient.value);
      }
    }
  }

  lemma ConnectKeepsIds(st: Chat, u: string, sid: string, now: int)
    requires IdsOk(st)
    ensures IdsOk(OnConnect(st, u, sid, now))
  {
    var st' := OnConnect(st, u, sid, now);
    forall k | Count(st'.live, k) + Count(st'.replays, k) > 0 ensures k.id in Ids(st.db.messages) {
      if Count(st.live, k) + Count(st.replays, k) == 0 {
        ReplayIsOfRows(st.db.messages, u, st.LastSeen(u), k);
      }
    }
  }

  lemma ConnectKeepsInv(st: Chat, u: string, sid: string, now: int)
    requires Inv(st) && Enabled(st, Connect(u, sid, now))
    ensures Inv(OnConnect(st, u, sid, now))
  {
    var st' := OnConnect(st, u, sid, now);
    ConnectKeepsIds(st, u, sid, now);
    assert MessagesOk(st') by {
      forall id | id in st.stamped ensures MessageOk(st', st.stamped[id]) {
        ConnectKeepsMessage(st, u, sid, now, st.stamped[id]);
      }
      forall r | r in st.db.messages ensures MessageOk(st', r) {
        ConnectKeepsMessage(st, u, sid, now, r);
      }
    }
  }

  /** The recipient leaves: their last visit is now, and a send under way has lost its race. */
  lemma DisconnectedFace(st: Chat, u: string, sid: string, now: int, row: Row)
    requires IdsOk(st) && Known(st, row) && RecipientOf(row) == Some(u) && !OnDisconnect(st, u, sid, now).Online(u)
    ensures var f := FaceOf(st, row, u);
            FaceOf(OnDisconnect(st, u, sid, now), row, u) ==
            f.(online := false, lastSeen := now, raced := f.raced || f.phase != Finished
                 || Key(u, row.id) in OnDisconnect(st, u, sid, now).raced)
  {
    if row.id in st.stamped {
      assert row.id !in Ids(st.db.messages);
      assert st.stamped[row.id] == row;
    }
  }

  lemma FaceDisconnects(f: Face, now: int, raced: bool)
    requires f.Ok() && f.online && f.createdAt <= now
    ensures f.(online := false, lastSeen := now, raced := f.raced || f.phase != Finished || raced).Ok()
  {}

  lemma DisconnectOfOthers(st: Chat, u: string, sid: string, now: int, row: Row, r: string)
    requires RecipientOf(row) == Some(r) && Enabled(st, Disconnect(u, sid, now))
    requires r != u || OnDisconnect(st, u, sid, now).Online(u)
    ensures FaceOf(OnDisconnect(st, u, sid, now), row, r) == FaceOf(st, row, r)
  {}

  lemma DisconnectKeepsMessage(st: Chat, u: string, sid: string, now: int, row: Row)
    requires IdsOk(st) && MessageOk(st, row) && Known(st, row) && Enabled(st, Disconnect(u, sid, now))
    ensures MessageOk(OnDisconnect(st, u, sid, now), row)
  {
    var recipient := RecipientOf(row);
    if recipient.Some? {
      var r, st' := recipient.value, OnDisconnect(st, u, sid, now);
      if r == u && !st'.Online(u) {
        DisconnectedFace(st, u, sid, now, row);
        FaceDisconnects(FaceOf(st, row, u), now, Key(u, row.id) in st'.raced);
      } else {
        DisconnectOfOthers(st, u, sid, now, row, r);
      }
    }
  }

  lemma DisconnectKeepsInv(st: Chat, u: string, sid: string, now: int)
    requires Inv(st) && Enabled(st, Disconnect(u, sid, now))
    ensures Inv(OnDisconnect(st, u, sid, now))
  {
    var st' := OnDisconnect(st, u, sid, now);
    assert MessagesOk(st') by {
      forall id | id in st.stamped ensures MessageOk(st', st.stamped[id]) {
        DisconnectKeepsMessage(st, u, sid, now, st.stamped[id]);
      }
      forall r | r in st.db.messages ensures MessageOk(st', r) {
        DisconnectKeepsMessage(st, u, sid, now, r);
      }
    }
  }

  // ---------------------------------------------------------------- the steps of a send

  /** A step that leaves a message's face alone. */
  lemma SameFace(st: Chat, st': Chat, row: Row)
    requires MessageOk(st, row) && st.clock <= st'.clock
    requires RecipientOf(row).Some? ==>
               FaceOf(st', row, RecipientOf(row).value) == FaceOf(st, row, RecipientOf(row).value)
    ensures MessageOk(st', row)
  {}

  lemma StampedFace(st: Chat, row: Row)
    requires IdsOk(st) && TimesOk(st) && Enabled(st, Stamp(row))
    ensures MessageOk(OnStamp(st, row), row)
  {
    if RecipientOf(row).Some? {
      var k := Key(RecipientOf(row).value, row.id);
      assert Count(st.live, k) + Count(st.replays, k) == 0;
      assert k !in st.tied;
    }
  }

  lemma StampOfOthers(st: Chat, row: Row, other: Row)
    requires MessageOk(st, other) && other.id != row.id && st.clock <= row.createdAt
    ensures MessageOk(OnStamp(st, row), other)
  {
    SameFace(st, OnStamp(st, row), other);
  }

  lemma StampKeepsInv(st: Chat, row: Row)
    requires Inv(st) && Enabled(st, Stamp(row))
    ensures Inv(OnStamp(st, row))
  {
    var st' := OnStamp(st, row);
    assert MessagesOk(st') by {
      StampedFace(st, row);
      forall id | id in st'.stamped && id != row.id ensures MessageOk(st', st'.stamped[id]) {
        StampOfOthers(st, row, st.stamped[id]);
      }
      forall r | r in st.db.messages ensures MessageOk(st', r) {
        assert r.id in Ids(st.db.messages);
        StampOfOthers(st, row, r);
      }
    }
  }

  lemma PersistKeepsIds(st: Chat, id: string)
    requires IdsOk(st) && id in st.stamped
    ensures IdsOk(OnPersist(st, id))
  {
    var row := st.stamped[id];
    if InsertMessage(st.db, row).Done? {
      LongerKeepsLinks(st.db, row);
      IdsOfLonger(st.db.messages, row);
    }
  }

  /** The row is in the table now, and still to be broadcast. */
  lemma PersistedFace(st: Chat, id: string, row: Row, r: string)
    requires IdsOk(st) && id in st.stamped && row.id == id && InsertMessage(st.db, st.stamped[id]).Done?
    ensures FaceOf(st, row, r).phase == Stamped
    ensures FaceOf(OnPersist(st, id), row, r) == FaceOf(st, row, r).(phase := Awaiting)
  {}

  lemma FacePersists(f: Face)
    requires f.Ok() && f.phase == Stamped
    ensures f.(phase := Awaiting).Ok()
  {}

  lemma PersistKeepsMessage(st: Chat, id: string, row: Row)
    requires IdsOk(st) && MessageOk(st, row) && Known(st, row) && id in st.stamped
    requires InsertMessage(st.db, st.stamped[id]).Rejected? ==> row.id != id
    ensures MessageOk(OnPersist(st, id), row)
  {
    if row.id != id {
      SameFace(st, OnPersist(st, id), row);
    } else if RecipientOf(row).Some? {
      PersistedFace(st, id, row, RecipientOf(row).value);
      FacePersists(FaceOf(st, row, RecipientOf(row).value));
    }
  }

  lemma PersistKeepsInv(st: Chat, id: string)
    requires Inv(st) && id in st.stamped
    ensures Inv(OnPersist(st, id))
  {
    var st' := OnPersist(st, id);
    PersistKeepsIds(st, id);
    assert MessagesOk(st') by {
      forall x | x in st'.stamped ensures MessageOk(st', st'.stamped[x]) {
        PersistKeepsMessage(st, id, st.stamped[x]);
      }
      forall r | r in st'.db.messages ensures MessageOk(st', r) {
        assert r in st.db.messages ==> r.id in Ids(st.db.messages);
        PersistKeepsMessage(st, id, r);
      }
    }
  }

  lemma LongerKeepsLinks(db: Db, row: Row)
    requires LinksOk(db.messages) && InsertMessage(db, row).Done?
    ensures LinksOk(db.messages + [row])
  {
    assert (db.messages + [row])[..|db.messages|] == db.messages;
  }

  lemma IdsOfLonger(messages: seq<Row>, row: Row)
    ensures Ids(messages + [row]) == Ids(messages) + {row.id}
  {
    assert (messages + [row])[..|messages|] == messages;
    IdsOfPrefix(messages + [row]);
  }

  /** The broadcast finds its recipient online, or not. */
  lemma BroadcastFace(st: Chat, row: Row)
    requires IdsOk(st) && row in st.db.messages && RecipientOf(row).Some? && row.id in st.awaiting
    ensures FindById(st.db.messages, row.id) == Some(row)
    ensures var r := RecipientOf(row).value;
            var f := FaceOf(st, row, r);
            FaceOf(OnBroadcast(st, row.id), row, r) == f.(phase := Finished, live := f.live + if f.online then 1 else 0)
  {
    RowIsFound(st.db.messages, row);
    var r := RecipientOf(row).value;
    assert UserRoom(r) in BroadcastRooms(row.conversationId, row.senderId.value);
    assert Key(r, row.id) in Reached(st, row) <==> st.Online(r);
    assert row.id in Ids(st.db.messages);
  }

  lemma BroadcastKeepsMessage(st: Chat, id: string, row: Row)
    requires IdsOk(st) && MessageOk(st, row) && Known(st, row) && Enabled(st, Broadcast(id))
    ensures MessageOk(OnBroadcast(st, id), row)
  {
    if row.id == id {
      assert row in st.db.messages;
      if RecipientOf(row).Some? {
        BroadcastFace(st, row);
      }
    } else {
      assert forall k :: k in Reached(st, FindById(st.db.messages, id).value) ==> k.id == id;
      SameFace(st, OnBroadcast(st, id), row);
    }
  }

  lemma BroadcastKeepsInv(st: Chat, id: string)
    requires Inv(st) && Enabled(st, Broadcast(id))
    ensures Inv(OnBroadcast(st, id))
  {
    var st' := OnBroadcast(st, id);
    assert forall k :: k in Reached(st, FindById(st.db.messages, id).value) ==> k.id == id;
    assert MessagesOk(st') by {
      forall x | x in st.stamped ensures MessageOk(st', st.stamped[x]) {
        BroadcastKeepsMessage(st, id, st.stamped[x]);
      }
      forall r | r in st.db.messages ensures MessageOk(st', r) {
        BroadcastKeepsMessage(st, id, r);
      }
    }
  }

  lemma UnsendKeepsInv(st: Chat, conversationId: string, id: string)
    requires Inv(st)
    ensures Inv(Next(st, Recall(conversationId, id)))
  {
    var st' := Next(st, Recall(conversationId, id));
    RewriteKeepsLinks(st.db.messages, st'.db.messages);
    assert MessagesOk(st') by {
      forall x | x in st.stamped ensures MessageOk(st', st.stamped[x]) {
        SameFace(st, st', st.stamped[x]);
      }
      forall r | r in st'.db.messages ensures MessageOk(st', r) {
        var i :| 0 <= i < |st'.db.messages| && st'.db.messages[i] == r;
        UnsentFace(st, st', st.db.messages[i], r);
      }
    }
  }

  lemma UnsentFace(st: Chat, st': Chat, row: Row, row': Row)
    requires MessageOk(st, row) && (row' == row || row' == row.(content := "", deleted := true))
    requires st' == st.(db := st'.db)
    ensures MessageOk(st', row')
  {
    assert RecipientOf(row') == RecipientOf(row);
    if RecipientOf(row).Some? {
      var r := RecipientOf(row).value;
      assert FaceOf(st', row', r) == FaceOf(st, row, r).(deleted := row'.deleted);
    }
  }

  /** What a send does, with nothing in between. */
  lemma SendSteps(st: Chat, row: Row)
    requires Inv(st) && Enabled(st, Send(row))
    ensures var st1 := OnStamp(st, row);
            var st2 := OnPersist(st1, row.id);
            && Inv(st1) && Inv(st2)
            && (row.id in st2.awaiting <==> InsertMessage(st.db, row).Done?)
            && (row.id in st2.awaiting ==> FindById(st2.db.messages, row.id) == Some(row))
  {
    StampKeepsInv(st, row);
    PersistKeepsInv(OnStamp(st, row), row.id);
    var st2 := OnPersist(OnStamp(st, row), row.id);
    if InsertMessage(st.db, row).Done? {
      RowIsFound(st2.db.messages, row);
    }
  }

  lemma SendKeepsInv(st: Chat, row: Row)
    requires Inv(st) && Enabled(st, Send(row))
    ensures Inv(OnSend(st, row))
  {
    SendSteps(st, row);
    var st2 := OnPersist(OnStamp(st, row), row.id);
    if row.id in st2.awaiting {
      BroadcastKeepsInv(st2, row.id);
    }
  }

  lemma NextKeepsInv(st: Chat, e: Event)
    requires Inv(st) && Enabled(st, e)
    ensures Inv(Next(st, e))
  {
    match e
    case Connect(u, sid, now) => ConnectKeepsInv(st, u, sid, now);
    case Disconnect(u, sid, now) => DisconnectKeepsInv(st, u, sid, now);
    case Stamp(row) => StampKeepsInv(st, row);
    case Persist(id) => PersistKeepsInv(st, id);
    case Broadcast(id) => BroadcastKeepsInv(st, id);
    case Recall(c, id) => UnsendKeepsInv(st, c, id);
    case Send(row) => SendKeepsInv(st, row);
  }
}
