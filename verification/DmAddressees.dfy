/** Who is sent a direct message at all, over whole runs: nobody but the users its conversation names,
    and its sender (src/feature/chat/chat.handler.ts, src/feature/chat/util/broadcast.ts). */
module DmAddressees {
  import opened ConversationIds
  import opened MessageTable
  import opened DmDelivery

  /** Whom the broadcast of a message may reach: its sender, and the users its conversation names. */
  predicate MayHear(row: Row, user: string) {
    && WellFormedDm(row.conversationId).Some?
    && (DmInvolves(row.conversationId, user)
        || user == if row.senderId.Some? then row.senderId.value else "system")
  }

  /** Whom a replay may: a user its conversation names, other than its sender. */
  predicate MayBeReplayed(row: Row, user: string) {
    DmInvolves(row.conversationId, user) && row.senderId.Some? && row.senderId.value != user
  }

  ghost predicate Addressed(st: Chat, k: Key) {
    && (Count(st.live, k) > 0 ==> exists row :: row in st.db.messages && row.id == k.id && MayHear(row, k.user))
    && (Count(st.replays, k) > 0 ==>
          exists row :: row in st.db.messages && row.id == k.id && MayBeReplayed(row, k.user))
  }

  // ---------------------------------------------------------------- steps

  predicate SameAddress(row: Row, later: Row) {
    later.id == row.id && later.conversationId == row.conversationId && later.senderId == row.senderId
  }

  /** Rows are added and rewritten, but keep their address. */
  ghost predicate KeepsAddresses(before: seq<Row>, after: seq<Row>) {
    |before| <= |after| && forall i :: 0 <= i < |before| ==> SameAddress(before[i], after[i])
  }

  lemma StaysAddressed(st: Chat, st': Chat, k: Key)
    requires Addressed(st, k) && KeepsAddresses(st.db.messages, st'.db.messages)
    ensures Count(st.live, k) > 0 ==> exists row :: row in st'.db.messages && row.id == k.id && MayHear(row, k.user)
    ensures Count(st.replays, k) > 0 ==>
              exists row :: row in st'.db.messages && row.id == k.id && MayBeReplayed(row, k.user)
  {
    forall row | row in st.db.messages && row.id == k.id
      ensures exists later :: later in st'.db.messages && SameAddress(row, later)
    {
      var i :| 0 <= i < |st.db.messages| && st.db.messages[i] == row;
      assert st'.db.messages[i] in st'.db.messages && SameAddress(row, st'.db.messages[i]);
    }
  }

  lemma ReachedMayHear(st: Chat, row: Row, k: Key)
    requires k in Reached(st, row)
    ensures k.id == row.id && MayHear(row, k.user)
  {
    var selfId := if row.senderId.Some? then row.senderId.value else "system";
    assert UserRoom(k.user) in BroadcastRooms(row.conversationId, selfId);
    match WellFormedDm(row.conversationId)
    case None =>
    case Some((a, b)) =>
      RoomsAre(row.conversationId, selfId, a, b);
      RecipientIsTheOther(row.conversationId, a, b);
  }

  lemma BroadcastAddresses(st: Chat, id: string, k: Key)
    requires FindById(st.db.messages, id).Some? && Addressed(st, k)
    ensures Addressed(OnBroadcast(st, id), k)
  {
    var row := FindById(st.db.messages, id).value;
    if k in Reached(st, row) {
      ReachedMayHear(st, row, k);
    }
  }

  lemma ConnectAddresses(st: Chat, u: string, sid: string, now: int, k: Key)
    requires Addressed(st, k)
    ensures Addressed(OnConnect(st, u, sid, now), k)
  {
    var rows := PendingRows(st.db.messages, u, st.LastSeen(u));
    if !st.Online(u) && k in Keys(u, rows) {
      var r :| r in rows && k == Key(u, r.id);
      PendingExactly(st.db.messages, u, st.LastSeen(u));
      assert r in st.db.messages && MayBeReplayed(r, k.user);
    }
  }

  lemma PersistAddresses(st: Chat, id: string, k: Key)
    requires id in st.stamped && Addressed(st, k)
    ensures Addressed(OnPersist(st, id), k)
  {
    StaysAddressed(st, OnPersist(st, id), k);
  }

  lemma SendAddresses(st: Chat, row: Row, k: Key)
    requires Addressed(st, k)
    ensures Addressed(OnSend(st, row), k)
  {
    var st1 := OnStamp(st, row);
    PersistAddresses(st1, row.id, k);
    var st2 := OnPersist(st1, row.id);
    if row.id in st2.awaiting && FindById(st2.db.messages, row.id).Some? {
      BroadcastAddresses(st2, row.id, k);
    }
  }

  lemma NextAddresses(st: Chat, e: Event, k: Key)
    requires Enabled(st, e) && Addressed(st, k)
    ensures Addressed(Next(st, e), k)
  {
    match e
    case Connect(u, sid, now) => ConnectAddresses(st, u, sid, now, k);
    case Disconnect(u, sid, now) =>
    case Stamp(row) =>
    case Persist(id) => PersistAddresses(st, id, k);
    case Broadcast(id) => BroadcastAddresses(st, id, k);
    case Recall(_, _) => StaysAddressed(st, Next(st, e), k);
    case Send(row) => SendAddresses(st, row, k);
  }

  // ---------------------------------------------------------------- runs

  lemma {:induction false} RunsStayAddressed(sts: seq<Chat>, es: seq<Event>, i: nat, k: Key)
    requires IsRun(sts, es) && i <= |es|
    ensures Addressed(sts[i], k)
  {
    if i > 0 {
      RunsStayAddressed(sts, es, i - 1, k);
      NextAddresses(sts[i - 1], es[i - 1], k);
    }
  }

  /** However sends, connections and unsends interleave: whoever was sent a message live is named by the
      id of its conversation or is its sender; whoever was sent it on connection is named by the id and
      is not its sender. */
  lemma OnlyParticipantsAreSent(sts: seq<Chat>, es: seq<Event>, i: nat, k: Key)
    requires IsRun(sts, es) && i <= |es|
    ensures var messages := sts[i].db.messages;
            && (Count(sts[i].live, k) > 0 ==> exists row :: row in messages && row.id == k.id && MayHear(row, k.user))
            && (Count(sts[i].replays, k) > 0 ==>
                  exists row :: row in messages && row.id == k.id && MayBeReplayed(row, k.user))
  {
    RunsStayAddressed(sts, es, i, k);
  }
}
