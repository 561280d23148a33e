/** Delivery of direct messages: live to a recipient who is online, else by the replay that follows
    their next connection (src/feature/chat/chat.handler.ts, src/feature/chat/handlers/message.handler.ts,
    src/feature/chat/store/user-sockets.store.ts).

    A send is three steps, split at its awaits: it stamps the message with `Date.now()`, persists
    it, broadcasts it. A connection and its replay are one step. The clock does not go back, and
    may stand still. */
module DmDelivery {
  import opened Collections
  import opened ConversationIds
  import opened MessageTable
  import opened RowOrder

  // ---------------------------------------------------------------- the replay query

  /** The WHERE clause. `NOT (sender_id = u)` is not true of a null sender. */
  function ReplayWhere(userId: string, since: int): Row -> bool {
    (r: Row) => IsDm(r.conversationId) && !r.deleted && r.createdAt > since
                && r.senderId.Some? && r.senderId.value != userId
  }

  function Mine(userId: string): Row -> bool {
    (r: Row) => ReplayInvolves(r.conversationId, userId)
  }

  /** `getDirectMessagesSince`, before hydration: oldest first. */
  function PendingRows(messages: seq<Row>, userId: string, since: int): seq<Row> {
    Filter(Sort(Filter(messages, ReplayWhere(userId, since))), Mine(userId))
  }

  /** The one a direct message is for: the participant who did not send it. */
  function RecipientOf(row: Row): Option<string> {
    match WellFormedDm(row.conversationId)
    case None => None
    case Some((a, b)) =>
      if a == b || row.senderId.None? then None
      else if row.senderId.value == a then Some(b)
      else if row.senderId.value == b then Some(a)
      else None
  }

  lemma PendingMembers(messages: seq<Row>, userId: string, since: int, r: Row)
    ensures r in PendingRows(messages, userId, since) <==>
            r in messages && ReplayWhere(userId, since)(r) && Mine(userId)(r)
  {
    var found := Filter(messages, ReplayWhere(userId, since));
    FilterMembers(messages, ReplayWhere(userId, since));
    SortMembers(found);
    SameMembers(Sort(found), found);
    FilterMembers(Sort(found), Mine(userId));
  }

  /** A message the user has not seen since: of a direct conversation of theirs, sent by someone else,
      not unsent. */
  predicate Owed(r: Row, userId: string, since: int) {
    && IsDm(r.conversationId) && DmInvolves(r.conversationId, userId)
    && !r.deleted && r.createdAt > since
    && r.senderId.Some? && r.senderId.value != userId
  }

  function OwedTo(userId: string, since: int): Row -> bool {
    (r: Row) => Owed(r, userId, since)
  }

  /** A replay holds exactly what is owed to its user, nobody else's messages, oldest first. */
  lemma PendingExactly(messages: seq<Row>, userId: string, since: int)
    ensures var rows := PendingRows(messages, userId, since);
            && rows == Sort(Filter(messages, OwedTo(userId, since))) && Sorted(rows)
            && forall r :: r in rows <==> r in messages && Owed(r, userId, since)
  {
    var where, mine := ReplayWhere(userId, since), Mine(userId);
    SortFilter(Filter(messages, where), mine);
    forall r: Row ensures OwedTo(userId, since)(r) <==> where(r) && mine(r) {
      if IsDm(r.conversationId) {
        ReplayFilterAgrees(r.conversationId, userId);
      }
    }
    FilterTwice(messages, where, mine, OwedTo(userId, since));
    SortIsSorted(Filter(messages, OwedTo(userId, since)));
    forall r { PendingMembers(messages, userId, since, r); }
  }

  /** A recipient's replay holds a message to them exactly when it is undeleted and newer than
      their last visit. */
  lemma PendingForRecipient(messages: seq<Row>, r: string, since: int, row: Row)
    requires row in messages && RecipientOf(row) == Some(r)
    ensures row in PendingRows(messages, r, since) <==> !row.deleted && row.createdAt > since
  {
    PendingMembers(messages, r, since, row);
    ReplayFilterAgrees(row.conversationId, r);
  }

  // ---------------------------------------------------------------- state

  /** A message as seen by one user. */
  datatype Key = Key(user: string, id: string)

  type Counts = map<Key, nat>

  function Count(counts: Counts, k: Key): nat {
    if k in counts then counts[k] else 0
  }

  function Bump(counts: Counts, keys: set<Key>): (r: Counts)
    ensures forall k :: Count(r, k) == Count(counts, k) + (if k in keys then 1 else 0)
  {
    map k | k in counts.Keys + keys :: Count(counts, k) + (if k in keys then 1 else 0)
  }

  datatype Chat = Chat(
    clock: int,
    active: map<string, set<string>>,
    lastSeen: map<string, int>,
    db: Db,
    used: set<string>,            // message ids drawn so far
    stamped: map<string, Row>,    // sends suspended before the table has the row
    awaiting: set<string>,        // sends suspended before their broadcast
    live: Counts,                 // broadcasts that found the user online
    replays: Counts,              // replays that held the message
    // history, for the statements below; no step depends on it
    raced: set<Key>,              // the recipient's last socket closed during the send
    tied: set<Key>,               // stamped while the recipient was away, no later than they left
    early: set<Key>)              // replayed between persist and broadcast
  {
    predicate Online(u: string) { Bucket(active, u) != {} }

    function LastSeen(u: string): int { if u in lastSeen then lastSeen[u] else 0 }

    predicate InSend(id: string) { id in stamped || id in awaiting }
  }

  const INIT := Chat(0, map[], map[], Db([], []), {}, map[], {}, map[], map[], {}, {}, {})

  datatype Event =
    | Connect(u: string, sid: string, now: int)
    | Disconnect(u: string, sid: string, now: int)
    | Stamp(row: Row)
    | Persist(id: string)
    | Broadcast(id: string)
    | Recall(conversationId: string, id: string)  // chat:unsend
    | Send(row: Row)  // the three steps of a send, run to completion

  predicate Enabled(st: Chat, e: Event) {
    match e
    case Connect(u, sid, now) => st.clock <= now && forall x :: x in st.active ==> sid !in st.active[x]
    case Disconnect(u, sid, now) => st.clock <= now && sid in Bucket(st.active, u)
    case Stamp(row) => st.clock <= row.createdAt && row.id !in st.used && !row.deleted
    case Send(row) => st.clock <= row.createdAt && row.id !in st.used && !row.deleted
    case Persist(id) => id in st.stamped
    case Broadcast(id) => id in st.awaiting && FindById(st.db.messages, id).Some?
    case Recall(_, _) => true
  }

  function Keys(u: string, rows: seq<Row>): set<Key> {
    set r | r in rows :: Key(u, r.id)
  }

  function OnConnect(st: Chat, u: string, sid: string, now: int): Chat {
    var st1 := st.(clock := now, active := PutInBucket(st.active, u, sid));
    if st.Online(u) then st1
    else
      var keys := Keys(u, PendingRows(st.db.messages, u, st.LastSeen(u)));
      st1.(replays := Bump(st.replays, keys),
           early := st.early + set k | k in keys && k.id in st.awaiting)
  }

  function OnDisconnect(st: Chat, u: string, sid: string, now: int): Chat {
    var st1 := st.(clock := now, active := DropFromBucket(st.active, u, sid));
    if st1.Online(u) then st1
    else
      st1.(lastSeen := st.lastSeen[u := now],
           raced := st.raced
                    + (set id | id in st.stamped && RecipientOf(st.stamped[id]) == Some(u) :: Key(u, id))
                    + (set r | r in st.db.messages && r.id in st.awaiting && RecipientOf(r) == Some(u) :: Key(u, r.id)))
  }

  function OnStamp(st: Chat, row: Row): Chat {
    var r := RecipientOf(row);
    st.(clock := row.createdAt,
        used := st.used + {row.id},
        stamped := st.stamped[row.id := row],
        tied := if r.Some? && !st.Online(r.value) && st.LastSeen(r.value) >= row.createdAt
                then st.tied + {Key(r.value, row.id)} else st.tied)
  }

  /** A rejected INSERT makes the handler throw: nothing is broadcast. */
  function OnPersist(st: Chat, id: string): Chat
    requires id in st.stamped
  {
    match InsertMessage(st.db, st.stamped[id])
    case Done(db) => st.(db := db, stamped := st.stamped - {id}, awaiting := st.awaiting + {id})
    case Rejected => st.(stamped := st.stamped - {id})
  }

  /** Whom `broadcast` reaches in their user rooms. */
  function Reached(st: Chat, row: Row): set<Key> {
    var selfId := if row.senderId.Some? then row.senderId.value else "system";
    set room | room in BroadcastRooms(row.conversationId, selfId) && room.UserRoom? && st.Online(room.userId)
      :: Key(room.userId, row.id)
  }

  function OnBroadcast(st: Chat, id: string): Chat
    requires FindById(st.db.messages, id).Some?
  {
    st.(awaiting := st.awaiting - {id}, live := Bump(st.live, Reached(st, FindById(st.db.messages, id).value)))
  }

  function OnSend(st: Chat, row: Row): Chat {
    var st2 := OnPersist(OnStamp(st, row), row.id);
    if row.id in st2.awaiting && FindById(st2.db.messages, row.id).Some? then OnBroadcast(st2, row.id) else st2
  }

  function Next(st: Chat, e: Event): Chat
    requires Enabled(st, e)
  {
    match e
    case Connect(u, sid, now) => OnConnect(st, u, sid, now)
    case Disconnect(u, sid, now) => OnDisconnect(st, u, sid, now)
    case Stamp(row) => OnStamp(st, row)
    case Persist(id) => OnPersist(st, id)
    case Broadcast(id) => OnBroadcast(st, id)
    case Recall(c, id) => st.(db := st.db.(messages := SetDeleted(st.db.messages, c, id)))
    case Send(row) => OnSend(st, row)
  }

  ghost predicate IsRun(sts: seq<Chat>, es: seq<Event>) {
    |sts| == |es| + 1 && sts[0] == INIT
    && forall i :: 0 <= i < |es| ==> Enabled(sts[i], es[i]) && sts[i + 1] == Next(sts[i], es[i])
  }

  // ---------------------------------------------------------------- the invariant

  datatype Phase = Stamped | Awaiting | Finished

  /** All that matters about a message and its recipient. */
  datatype Face = Face(
    online: bool, lastSeen: int, createdAt: int, deleted: bool, phase: Phase,
    live: nat, replays: nat, raced: bool, tied: bool, early: bool)
  {
    /** No replay can hold the message any more. */
    predicate Settled() { online || createdAt <= lastSeen }

    predicate Ok() {
      && live <= 1 && replays <= 1
      && (live + replays > 0 ==> Settled())
      && (phase == Stamped ==> live + replays == 0)
      && (phase == Awaiting ==> live == 0 && (replays == 1 ==> early))
      && (live + replays == 2 ==> early)
      && (tied ==> Settled() && replays == 0)
      && (!raced && !tied ==>
            if phase != Finished then online || lastSeen < createdAt
            else !deleted ==> live + replays > 0 || !Settled())
    }
  }

  function FaceOf(st: Chat, row: Row, r: string): Face {
    var k := Key(r, row.id);
    Face(st.Online(r), st.LastSeen(r), row.createdAt, row.deleted,
         if row.id in st.stamped then Stamped else if row.id in st.awaiting then Awaiting else Finished,
         Count(st.live, k), Count(st.replays, k), k in st.raced, k in st.tied, k in st.early)
  }

  predicate MessageOk(st: Chat, row: Row) {
    row.createdAt <= st.clock
    && (RecipientOf(row).Some? ==> FaceOf(st, row, RecipientOf(row).value).Ok())
  }

  ghost predicate IdsOk(st: Chat) {
    && LinksOk(st.db.messages)
    && Ids(st.db.messages) <= st.used && st.stamped.Keys <= st.used
    && (forall id :: id in st.stamped ==> st.stamped[id].id == id && id !in Ids(st.db.messages))
    && st.awaiting <= Ids(st.db.messages)
    && (forall k :: Count(st.live, k) + Count(st.replays, k) > 0 ==> k.id in Ids(st.db.messages))
    && (forall k :: k in st.tied ==> k.id in st.used)
  }

  ghost predicate TimesOk(st: Chat) {
    && st.clock >= 0
    && (forall u :: u in st.active ==> st.active[u] != {})
    && (forall u :: u in st.lastSeen ==> st.lastSeen[u] <= st.clock)
  }

  ghost predicate MessagesOk(st: Chat) {
    && (forall id :: id in st.stamped ==> MessageOk(st, st.stamped[id]))
    && (forall r :: r in st.db.messages ==> MessageOk(st, r))
  }

  ghost predicate Inv(st: Chat) {
    IdsOk(st) && TimesOk(st) && MessagesOk(st)
  }

  /** How often a user has been sent a message, live or replayed. */
  function Deliveries(st: Chat, k: Key): nat {
    Count(st.live, k) + Count(st.replays, k)
  }
}
