/** Direct messages that are lost or delivered twice when handlers interleave: exactly when, and runs
    in which it happens. */
module DmRaces {
  import opened Collections
  import opened MessageTable
  import opened Hydration
  import opened DmDelivery
  import opened DmDeliverySteps
  import opened DmDeliveryRuns
  import opened Standing

  // ---------------------------------------------------------------- a message through a run

  /** An earlier state of a row: unsending is all that happens to it. */
  predicate IsEarlier(was: Row, row: Row) {
    row == was.(content := row.content, deleted := row.deleted) && (was.deleted ==> row.deleted)
  }

  lemma SendRows(st: Chat, row: Row)
    ensures OnSend(st, row).db == match InsertMessage(st.db, row) case Done(db) => db case Rejected => st.db
  {
    var st1 := OnStamp(st, row);
    assert st1.db == st.db && st1.stamped[row.id] == row;
    assert OnPersist(st1, row.id).db == match InsertMessage(st.db, row) case Done(db) => db case Rejected => st.db;
  }

  lemma RowBeforeRecall(messages: seq<Row>, conversationId: string, id: string, row: Row) returns (was: Row)
    requires row in SetDeleted(messages, conversationId, id)
    ensures was in messages && was.id == row.id && IsEarlier(was, row)
  {
    var i :| 0 <= i < |messages| && SetDeleted(messages, conversationId, id)[i] == row;
    was := messages[i];
  }

  lemma EarlierRow(st: Chat, e: Event, row: Row) returns (was: Row)
    requires Enabled(st, e) && row in Next(st, e).db.messages && row.id in Ids(st.db.messages)
    ensures was in st.db.messages && was.id == row.id && IsEarlier(was, row)
  {
    was := row;
    if e.Recall? {
      was := RowBeforeRecall(st.db.messages, e.conversationId, e.id, row);
    } else if e.Send? {
      SendRows(st, e.row);
    }
  }

  lemma RowsStay(st: Chat, e: Event)
    requires Inv(st) && Enabled(st, e)
    ensures Ids(st.db.messages) <= Ids(Next(st, e).db.messages)
  {
    if e.Recall? {
      RewriteKeepsLinks(st.db.messages, Next(st, e).db.messages);
    } else if e.Send? {
      SendRows(st, e.row);
      IdsOfLonger(st.db.messages, e.row);
    } else if e.Persist? {
      IdsOfLonger(st.db.messages, st.stamped[e.id]);
    }
  }

  /** All that the table says about a message: for whom it is, since when, and that it is not unsent. */
  predicate Tells(st: Chat, k: Key, createdAt: int, deleted: bool) {
    forall row :: row in st.db.messages && row.id == k.id ==>
      RecipientOf(row) == Some(k.user) && row.createdAt == createdAt && (row.deleted ==> deleted)
  }

  /** The later version of a stored row is one of the same message. */
  lemma RowGoesOn(st: Chat, e: Event, row: Row) returns (later: Row)
    requires Inv(st) && Enabled(st, e) && row in st.db.messages
    ensures later in Next(st, e).db.messages && later.id == row.id && IsEarlier(row, later)
  {
    RowsStay(st, e);
    assert row.id in Ids(st.db.messages);
    assert row.id in Ids(Next(st, e).db.messages);
    later :| later in Next(st, e).db.messages && later.id == row.id;
    var was := EarlierRow(st, e, later);
    RowIsFound(st.db.messages, was);
    RowIsFound(st.db.messages, row);
  }

  lemma ToldBefore(st: Chat, e: Event, k: Key, createdAt: int, deleted: bool)
    requires Inv(st) && Enabled(st, e) && Tells(Next(st, e), k, createdAt, deleted)
    ensures Tells(st, k, createdAt, deleted)
  {
    forall row | row in st.db.messages && row.id == k.id
      ensures RecipientOf(row) == Some(k.user) && row.createdAt == createdAt && (row.deleted ==> deleted)
    {
      var later := RowGoesOn(st, e, row);
    }
  }

  lemma {:induction false} ToldThroughout(sts: seq<Chat>, es: seq<Event>, j: nat, i: nat, k: Key, createdAt: int,
                                          deleted: bool)
    requires IsRun(sts, es) && j <= i <= |es| && Tells(sts[i], k, createdAt, deleted)
    ensures Tells(sts[j], k, createdAt, deleted)
    decreases i - j
  {
    if j < i {
      ToldThroughout(sts, es, j + 1, i, k, createdAt, deleted);
      RunKeepsInv(sts, es, j);
      ToldBefore(sts[j], es[j], k, createdAt, deleted);
    }
  }

  lemma RowTells(st: Chat, row: Row, r: string)
    requires Inv(st) && row in st.db.messages && RecipientOf(row) == Some(r)
    ensures Tells(st, Key(r, row.id), row.createdAt, row.deleted)
  {
    forall other | other in st.db.messages && other.id == row.id ensures other == row {
      RowIsFound(st.db.messages, other);
      RowIsFound(st.db.messages, row);
    }
  }

  /** The row of a message that is in the table. */
  lemma StoredRow(st: Chat, k: Key, createdAt: int, deleted: bool) returns (row: Row)
    requires Inv(st) && Tells(st, k, createdAt, deleted) && k.id in Ids(st.db.messages)
    ensures row in st.db.messages && row.id == k.id && RecipientOf(row) == Some(k.user) && row.createdAt == createdAt
    ensures row.deleted ==> deleted
    ensures FaceOf(st, row, k.user).Ok() && FaceOf(st, row, k.user).phase != Stamped
    ensures createdAt <= st.clock
  {
    row :| row in st.db.messages && row.id == k.id;
    assert MessageOk(st, row);
  }

  // ---------------------------------------------------------------- one step on the counts

  lemma UnseenOutside(st: Chat, k: Key)
    requires Inv(st) && k.id !in Ids(st.db.messages)
    ensures Count(st.live, k) == 0 && Count(st.replays, k) == 0
  {
    assert Count(st.live, k) + Count(st.replays, k) == 0;
  }

  lemma ConnectOutside(st: Chat, u: string, sid: string, now: int, k: Key)
    requires k.id !in Ids(st.db.messages)
    ensures Count(OnConnect(st, u, sid, now).live, k) == Count(st.live, k)
    ensures Count(OnConnect(st, u, sid, now).replays, k) == Count(st.replays, k)
  {
    if !st.Online(u) && k in Keys(u, PendingRows(st.db.messages, u, st.LastSeen(u))) {
      ReplayIsOfRows(st.db.messages, u, st.LastSeen(u), k);
    }
  }

  /** What a replay holds has not been delivered before. */
  lemma OwedIsUnseen(f: Face)
    requires f.Ok() && !f.online && f.createdAt > f.lastSeen
    ensures f.live == 0 && f.replays == 0
  {}

  lemma KnownFace(st: Chat, row: Row, r: string)
    requires Inv(st) && row in st.db.messages && RecipientOf(row) == Some(r)
    ensures FaceOf(st, row, r).Ok() && FaceOf(st, row, r).phase != Stamped
  {
    assert MessageOk(st, row);
    assert row.id in Ids(st.db.messages);
  }

  predicate Owed(st: Chat, u: string, k: Key, row: Row) {
    u == k.user && !st.Online(u) && !row.deleted && row.createdAt > st.LastSeen(u)
  }

  /** A connection adds one delivery exactly for a message its user is owed. */
  lemma ConnectCounts(st: Chat, u: string, sid: string, now: int, k: Key, row: Row)
    requires Inv(st) && row in st.db.messages && row.id == k.id && RecipientOf(row) == Some(k.user)
    ensures var st' := OnConnect(st, u, sid, now);
            && Count(st'.live, k) == Count(st.live, k)
            && Count(st'.replays, k) == Count(st.replays, k) + (if Owed(st, u, k, row) then 1 else 0)
            && (Owed(st, u, k, row) ==> Deliveries(st, k) == 0)
            && st'.Online(k.user) == (st.Online(k.user) || u == k.user) && st'.LastSeen(k.user) == st.LastSeen(k.user)
  {
    var f, f' := FaceOf(st, row, k.user), FaceOf(OnConnect(st, u, sid, now), row, k.user);
    KnownFace(st, row, k.user);
    if u == k.user && !st.Online(u) {
      ConnectedFace(st, u, sid, now, row);
      if Owed(st, u, k, row) { OwedIsUnseen(f); }
    } else {
      ConnectOfOthers(st, u, sid, now, row, k.user);
      assert f'.replays == f.replays;
    }
    assert f'.live == f.live && f'.lastSeen == f.lastSeen;
  }

  /** The broadcast of the message itself adds one when the recipient is online. */
  lemma BroadcastCounts(st: Chat, k: Key, row: Row)
    requires Inv(st) && row in st.db.messages && row.id == k.id && RecipientOf(row) == Some(k.user)
    requires k.id in st.awaiting
    ensures var st' := OnBroadcast(st, k.id);
            && Count(st.live, k) == 0 && Count(st.replays, k) <= 1
            && Count(st'.live, k) == (if st.Online(k.user) then 1 else 0)
            && Count(st'.replays, k) == Count(st.replays, k)
            && st'.Online(k.user) == st.Online(k.user) && st'.LastSeen(k.user) == st.LastSeen(k.user)
  {
    BroadcastFace(st, row);
    assert MessageOk(st, row);
    var f, f' := FaceOf(st, row, k.user), FaceOf(OnBroadcast(st, k.id), row, k.user);
    assert row.id in Ids(st.db.messages) && f.Ok() && f.phase == Awaiting;
    assert f'.live == f.live + (if f.online then 1 else 0) && f'.replays == f.replays;
  }

  /** A send that is stored: what the recipient has of it right after. */
  lemma SendCounts(st: Chat, row: Row, k: Key)
    requires Inv(st) && Enabled(st, Send(row)) && row.id == k.id && RecipientOf(row) == Some(k.user)
    requires InsertMessage(st.db, row).Done?
    ensures var st' := OnSend(st, row);
            && Count(st'.live, k) == (if st.Online(k.user) then 1 else 0) && Count(st'.replays, k) == 0
            && st'.Online(k.user) == st.Online(k.user) && st'.LastSeen(k.user) == st.LastSeen(k.user)
            && k.id in Ids(st'.db.messages) && k.id !in st'.awaiting
  {
    SendSteps(st, row);
    var st2 := OnPersist(OnStamp(st, row), row.id);
    assert st2.db.messages == st.db.messages + [row] && row in st2.db.messages;
    UnseenOutside(st, k);
    BroadcastCounts(st2, k, row);
    IdsOfLonger(st.db.messages, row);
  }

  lemma RejectedSend(st: Chat, row: Row)
    requires Enabled(st, Send(row)) && InsertMessage(st.db, row).Rejected? && row.id !in st.awaiting
    ensures var st' := OnSend(st, row); st'.live == st.live && st'.replays == st.replays && st'.db == st.db
  {
    var st1 := OnStamp(st, row);
    assert OnPersist(st1, row.id) == st1.(stamped := st1.stamped - {row.id});
  }

  // ---------------------------------------------------------------- delivered twice

  /** The broadcast finds the recipient online, and a replay has held the message already. */
  predicate DoublesIt(st: Chat, e: Event, k: Key) {
    e == Broadcast(k.id) && st.Online(k.user) && Count(st.replays, k) == 1
  }

  lemma StepDoubles(st: Chat, e: Event, k: Key, createdAt: int)
    requires Inv(st) && Enabled(st, e) && Tells(st, k, createdAt, true) && Tells(Next(st, e), k, createdAt, true)
    ensures Deliveries(Next(st, e), k) == 2 <==> Deliveries(st, k) == 2 || DoublesIt(st, e, k)
  {
    if k.id in Ids(st.db.messages) {
      KnownDoubles(st, e, k, createdAt);
    } else {
      UnseenOutside(st, k);
      NewDoubles(st, e, k, createdAt);
    }
  }

  lemma KnownDoubles(st: Chat, e: Event, k: Key, createdAt: int)
    requires Inv(st) && Enabled(st, e) && Tells(st, k, createdAt, true) && k.id in Ids(st.db.messages)
    ensures Deliveries(Next(st, e), k) == 2 <==> Deliveries(st, k) == 2 || DoublesIt(st, e, k)
  {
    var row := StoredRow(st, k, createdAt, true);
    match e
    case Connect(u, sid, now) => ConnectCounts(st, u, sid, now, k, row);
    case Broadcast(id) => if id == k.id { BroadcastCounts(st, k, row); } else { OthersAreReached(st, id, k); }
    case Send(sent) => SendsOfOthers(st, sent, k);
    case _ =>
  }

  lemma NewDoubles(st: Chat, e: Event, k: Key, createdAt: int)
    requires Inv(st) && Enabled(st, e) && Tells(Next(st, e), k, createdAt, true) && k.id !in Ids(st.db.messages)
    requires Deliveries(st, k) == 0
    ensures Deliveries(Next(st, e), k) < 2 && !DoublesIt(st, e, k)
  {
    match e
    case Connect(u, sid, now) => ConnectOutside(st, u, sid, now, k);
    case Broadcast(id) => OthersAreReached(st, id, k);
    case Send(sent) => NewSendDoubles(st, sent, k, createdAt);
    case _ =>
  }

  lemma NewSendDoubles(st: Chat, sent: Row, k: Key, createdAt: int)
    requires Inv(st) && Enabled(st, Send(sent)) && Tells(OnSend(st, sent), k, createdAt, true)
    requires k.id !in Ids(st.db.messages) && Deliveries(st, k) == 0
    ensures Deliveries(OnSend(st, sent), k) < 2
  {
    if sent.id != k.id {
      SendsOfOthers(st, sent, k);
    } else if InsertMessage(st.db, sent).Done? {
      SendRows(st, sent);
      assert sent in OnSend(st, sent).db.messages;
      SendCounts(st, sent, k);
    } else {
      RejectedSend(st, sent);
    }
  }

  function TwiceAt(sts: seq<Chat>, k: Key): nat -> bool {
    (j: nat) => j < |sts| && Deliveries(sts[j], k) == 2
  }

  function DoublesAt(sts: seq<Chat>, es: seq<Event>, k: Key): nat -> bool {
    (j: nat) => j < |es| && j < |sts| && DoublesIt(sts[j], es[j], k)
  }

  lemma RunDoubles(sts: seq<Chat>, es: seq<Event>, j: nat, i: nat, k: Key, createdAt: int)
    requires IsRun(sts, es) && j < i <= |es| && Tells(sts[i], k, createdAt, true)
    ensures Grows(TwiceAt(sts, k), DoublesAt(sts, es, k), j)
  {
    RunKeepsInv(sts, es, j);
    ToldThroughout(sts, es, j, i, k, createdAt, true);
    ToldThroughout(sts, es, j + 1, i, k, createdAt, true);
    StepDoubles(sts[j], es[j], k, createdAt);
  }

  /** In every run, however sends, connections and unsends interleave: a direct message has been
      delivered twice exactly when its broadcast found the recipient online and a replay had held it
      before. It is never delivered more often. */
  lemma DoubledExactly(sts: seq<Chat>, es: seq<Event>, i: nat, row: Row, r: string)
    requires IsRun(sts, es) && i <= |es| && row in sts[i].db.messages && RecipientOf(row) == Some(r)
    ensures Deliveries(sts[i], Key(r, row.id)) <= 2
    ensures Deliveries(sts[i], Key(r, row.id)) == 2 <==>
            exists j: nat :: j < i && DoublesIt(sts[j], es[j], Key(r, row.id))
  {
    var k := Key(r, row.id);
    RunKeepsInv(sts, es, i);
    RowTells(sts[i], row, r);
    assert MessageOk(sts[i], row);
    forall j: nat | j < i ensures Grows(TwiceAt(sts, k), DoublesAt(sts, es, k), j) {
      RunDoubles(sts, es, j, i, k, row.createdAt);
    }
    HappenedExactly(TwiceAt(sts, k), DoublesAt(sts, es, k), i);
    assert TwiceAt(sts, k)(i) <==> Deliveries(sts[i], k) == 2;
    assert forall j: nat :: j < i ==> (DoublesAt(sts, es, k)(j) <==> DoublesIt(sts[j], es[j], k));
  }

  // ---------------------------------------------------------------- lost

  /** Broadcast, not delivered, and of a time no later replay asks for. */
  predicate Lost(st: Chat, k: Key, createdAt: int) {
    && k.id in Ids(st.db.messages) && k.id !in st.awaiting && Deliveries(st, k) == 0
    && (st.Online(k.user) || createdAt <= st.LastSeen(k.user))
  }

  predicate OutOfReach(st: Chat, k: Key, createdAt: int) {
    !st.Online(k.user) && createdAt <= st.LastSeen(k.user)
  }

  /** The broadcast comes when the recipient is away, has left no earlier than the message's time,
      and has had no replay of it. */
  predicate LosesIt(st: Chat, e: Event, k: Key, createdAt: int) {
    match e
    case Broadcast(id) => id == k.id && OutOfReach(st, k, createdAt) && Count(st.replays, k) == 0
    case Send(row) => row.id == k.id && InsertMessage(st.db, row).Done? && OutOfReach(st, k, createdAt)
    case _ => false
  }

  lemma StepLoses(st: Chat, e: Event, k: Key, createdAt: int)
    requires Inv(st) && Enabled(st, e) && Tells(st, k, createdAt, false) && Tells(Next(st, e), k, createdAt, false)
    ensures Lost(Next(st, e), k, createdAt) <==> Lost(st, k, createdAt) || LosesIt(st, e, k, createdAt)
  {
    if k.id !in Ids(st.db.messages) {
      UnseenOutside(st, k);
      NewLoses(st, e, k, createdAt);
    } else if k.id in st.awaiting {
      AwaitingLoses(st, e, k, createdAt);
    } else {
      FinishedLoses(st, e, k, createdAt);
    }
  }

  lemma NewLoses(st: Chat, e: Event, k: Key, createdAt: int)
    requires Inv(st) && Enabled(st, e) && Tells(Next(st, e), k, createdAt, false) && k.id !in Ids(st.db.messages)
    ensures Lost(Next(st, e), k, createdAt) <==> LosesIt(st, e, k, createdAt)
  {
    match e
    case Send(sent) => NewSendLoses(st, sent, k, createdAt);
    case Persist(id) => IdsOfLonger(st.db.messages, st.stamped[id]);
    case Recall(_, _) => RewriteKeepsLinks(st.db.messages, Next(st, e).db.messages);
    case _ =>
  }

  lemma NewSendLoses(st: Chat, sent: Row, k: Key, createdAt: int)
    requires Inv(st) && Enabled(st, Send(sent)) && Tells(OnSend(st, sent), k, createdAt, false)
    requires k.id !in Ids(st.db.messages)
    ensures Lost(OnSend(st, sent), k, createdAt) <==> LosesIt(st, Send(sent), k, createdAt)
  {
    SendRows(st, sent);
    IdsOfLonger(st.db.messages, sent);
    if sent.id == k.id && InsertMessage(st.db, sent).Done? {
      assert sent in OnSend(st, sent).db.messages;
      SendCounts(st, sent, k);
    }
  }

  lemma PersistShape(st: Chat, id: string, k: Key)
    requires id in st.stamped && k.id != id
    ensures var st' := OnPersist(st, id);
            (k.id in st'.awaiting <==> k.id in st.awaiting) && st'.active == st.active && st'.lastSeen == st.lastSeen
  {}

  lemma SendOfOthers(st: Chat, sent: Row, k: Key)
    requires k.id != sent.id
    ensures var st' := OnSend(st, sent);
            && (k.id in st'.awaiting <==> k.id in st.awaiting)
            && st'.active == st.active && st'.lastSeen == st.lastSeen
  {
    PersistShape(OnStamp(st, sent), sent.id, k);
  }

  lemma AwaitingLoses(st: Chat, e: Event, k: Key, createdAt: int)
    requires Inv(st) && Enabled(st, e) && Tells(st, k, createdAt, false) && k.id in Ids(st.db.messages)
    requires k.id in st.awaiting
    ensures Lost(Next(st, e), k, createdAt) <==> LosesIt(st, e, k, createdAt)
  {
    var row := StoredRow(st, k, createdAt, false);
    match e
    case Broadcast(id) => if id == k.id { BroadcastCounts(st, k, row); }
    case Send(sent) => SendOfOthers(st, sent, k);
    case _ =>
  }

  lemma ConnectLoses(st: Chat, u: string, sid: string, now: int, k: Key, row: Row)
    requires Inv(st) && row in st.db.messages && row.id == k.id && RecipientOf(row) == Some(k.user)
    requires k.id !in st.awaiting && !row.deleted
    ensures Lost(OnConnect(st, u, sid, now), k, row.createdAt) <==> Lost(st, k, row.createdAt)
  {
    ConnectCounts(st, u, sid, now, k, row);
    assert k.id in Ids(st.db.messages);
  }

  lemma DisconnectLoses(st: Chat, u: string, sid: string, now: int, k: Key, createdAt: int)
    requires Enabled(st, Disconnect(u, sid, now)) && createdAt <= st.clock
    ensures Lost(OnDisconnect(st, u, sid, now), k, createdAt) <==> Lost(st, k, createdAt)
  {}

  lemma SendLoses(st: Chat, sent: Row, k: Key, createdAt: int)
    requires Inv(st) && Enabled(st, Send(sent)) && k.id in Ids(st.db.messages)
    ensures Lost(OnSend(st, sent), k, createdAt) <==> Lost(st, k, createdAt)
  {
    SendOfOthers(st, sent, k);
    SendsOfOthers(st, sent, k);
    RowsStay(st, Send(sent));
  }

  lemma BroadcastLoses(st: Chat, id: string, k: Key, createdAt: int)
    requires Inv(st) && Enabled(st, Broadcast(id)) && k.id in Ids(st.db.messages) && k.id !in st.awaiting
    ensures Lost(OnBroadcast(st, id), k, createdAt) <==> Lost(st, k, createdAt)
  {
    OthersAreReached(st, id, k);
  }

  lemma OtherLoses(st: Chat, e: Event, k: Key, createdAt: int)
    requires Inv(st) && Enabled(st, e) && k.id in Ids(st.db.messages) && k.id !in st.awaiting
    requires e.Stamp? || e.Persist? || e.Recall?
    ensures Lost(Next(st, e), k, createdAt) <==> Lost(st, k, createdAt)
  {
    RowsStay(st, e);
  }

  lemma FinishedLoses(st: Chat, e: Event, k: Key, createdAt: int)
    requires Inv(st) && Enabled(st, e) && Tells(st, k, createdAt, false) && k.id in Ids(st.db.messages)
    requires k.id !in st.awaiting
    ensures Lost(Next(st, e), k, createdAt) <==> Lost(st, k, createdAt)
  {
    var row := StoredRow(st, k, createdAt, false);
    match e
    case Connect(u, sid, now) => ConnectLoses(st, u, sid, now, k, row);
    case Disconnect(u, sid, now) => DisconnectLoses(st, u, sid, now, k, createdAt);
    case Send(sent) => SendLoses(st, sent, k, createdAt);
    case Broadcast(id) => BroadcastLoses(st, id, k, createdAt);
    case _ => OtherLoses(st, e, k, createdAt);
  }

  function LostAt(sts: seq<Chat>, k: Key, createdAt: int): nat -> bool {
    (j: nat) => j < |sts| && Lost(sts[j], k, createdAt)
  }

  function LosesAt(sts: seq<Chat>, es: seq<Event>, k: Key, createdAt: int): nat -> bool {
    (j: nat) => j < |es| && j < |sts| && LosesIt(sts[j], es[j], k, createdAt)
  }

  lemma RunLoses(sts: seq<Chat>, es: seq<Event>, j: nat, i: nat, k: Key, createdAt: int)
    requires IsRun(sts, es) && j < i <= |es| && Tells(sts[i], k, createdAt, false)
    ensures Grows(LostAt(sts, k, createdAt), LosesAt(sts, es, k, createdAt), j)
  {
    RunKeepsInv(sts, es, j);
    ToldThroughout(sts, es, j, i, k, createdAt, false);
    ToldThroughout(sts, es, j + 1, i, k, createdAt, false);
    StepLoses(sts[j], es[j], k, createdAt);
  }

  /** In every run, strict clock or not: an undeleted message is lost, broadcast but undelivered and
      beyond any later replay, exactly when its broadcast came while the recipient was away, had left
      no earlier than the message's time, and had had no replay of it. */
  lemma LostExactly(sts: seq<Chat>, es: seq<Event>, i: nat, row: Row, r: string)
    requires IsRun(sts, es) && i <= |es| && row in sts[i].db.messages && RecipientOf(row) == Some(r) && !row.deleted
    ensures Lost(sts[i], Key(r, row.id), row.createdAt) <==>
            exists j: nat :: j < i && LosesIt(sts[j], es[j], Key(r, row.id), row.createdAt)
    ensures row.id !in sts[i].awaiting && sts[i].Online(r) ==>
              (Deliveries(sts[i], Key(r, row.id)) == 0 <==>
               exists j: nat :: j < i && LosesIt(sts[j], es[j], Key(r, row.id), row.createdAt))
  {
    var k, t := Key(r, row.id), row.createdAt;
    RunKeepsInv(sts, es, i);
    RowTells(sts[i], row, r);
    assert row.id in Ids(sts[i].db.messages);
    forall j: nat | j < i ensures Grows(LostAt(sts, k, t), LosesAt(sts, es, k, t), j) {
      RunLoses(sts, es, j, i, k, t);
    }
    HappenedExactly(LostAt(sts, k, t), LosesAt(sts, es, k, t), i);
    assert LostAt(sts, k, t)(i) <==> Lost(sts[i], k, t);
    assert forall j: nat :: j < i ==> (LosesAt(sts, es, k, t)(j) <==> LosesIt(sts[j], es[j], k, t));
  }

  // ---------------------------------------------------------------- unsent

  lemma GoneCounts(st: Chat, e: Event, k: Key, row: Row)
    requires Inv(st) && Enabled(st, e)
    requires row in st.db.messages && row.id == k.id && RecipientOf(row) == Some(k.user) && row.deleted
    ensures Count(Next(st, e).replays, k) == Count(st.replays, k)
    ensures Count(Next(st, e).live, k) == Count(st.live, k) + if e == Broadcast(k.id) && st.Online(k.user) then 1 else 0
  {
    assert row.id in Ids(st.db.messages);
    match e
    case Connect(u, sid, now) => ConnectCounts(st, u, sid, now, k, row);
    case Broadcast(id) => if id == k.id { BroadcastCounts(st, k, row); } else { OthersAreReached(st, id, k); }
    case Send(sent) => SendsOfOthers(st, sent, k);
    case _ =>
  }

  lemma NotAwaitedAgain(st: Chat, e: Event, id: string)
    requires Inv(st) && Enabled(st, e) && id in Ids(st.db.messages)
    ensures id in Next(st, e).awaiting ==> id in st.awaiting && e != Broadcast(id)
  {
    if e.Send? {
      SendOfOthers(st, e.row, Key("", id));
    }
  }

  /** Unsending is final: whatever follows, no replay holds an unsent message any more, and it is
      delivered live only if its own broadcast was already suspended. */
  lemma {:induction false} UnsentIsFinal(sts: seq<Chat>, es: seq<Event>, i: nat, n: nat, row: Row, r: string)
    returns (later: Row)
    requires IsRun(sts, es) && i <= n <= |es| && row in sts[i].db.messages && row.deleted && RecipientOf(row) == Some(r)
    ensures later in sts[n].db.messages && later.id == row.id && later.deleted && RecipientOf(later) == Some(r)
    ensures Count(sts[n].replays, Key(r, row.id)) == Count(sts[i].replays, Key(r, row.id))
    ensures row.id in sts[n].awaiting ==> row.id in sts[i].awaiting
    ensures row.id !in sts[i].awaiting || row.id in sts[n].awaiting ==>
              Deliveries(sts[n], Key(r, row.id)) == Deliveries(sts[i], Key(r, row.id))
    ensures Deliveries(sts[n], Key(r, row.id)) > Deliveries(sts[i], Key(r, row.id)) ==>
              exists j: nat :: i <= j < n && es[j] == Broadcast(row.id) && sts[j].Online(r)
    decreases n
  {
    if n == i {
      later := row;
    } else {
      var m := n - 1;
      var before := UnsentIsFinal(sts, es, i, m, row, r);
      RunKeepsInv(sts, es, m);
      assert row.id in Ids(sts[m].db.messages);
      GoneCounts(sts[m], es[m], Key(r, row.id), before);
      NotAwaitedAgain(sts[m], es[m], row.id);
      later := RowGoesOn(sts[m], es[m], before);
    }
  }
}
