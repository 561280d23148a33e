/** Delivery of direct messages over whole runs: exactly once when handlers run to completion, and
    which races it takes for anything else. `DmRaces` says exactly when a message is lost or doubled. */
module DmDeliveryRuns {
  import opened Collections
  import opened MessageTable
  import opened DmDelivery
  import opened DmDeliverySteps
  import opened Standing

  lemma {:induction false} RunKeepsInv(sts: seq<Chat>, es: seq<Event>, i: nat)
    requires IsRun(sts, es) && i <= |es|
    ensures Inv(sts[i])
  {
    if i > 0 {
      RunKeepsInv(sts, es, i - 1);
      NextKeepsInv(sts[i - 1], es[i - 1]);
    }
  }

  // ---------------------------------------------------------------- what the history records

  /** The recipient's last socket closed while the message was between `Date.now()` and its broadcast. */
  ghost predicate LeftDuringSend(st: Chat, e: Event, st': Chat, k: Key) {
    e.Disconnect? && e.u == k.user && st.InSend(k.id) && !st'.Online(k.user)
  }

  /** The recipient came back while the message was between its INSERT and its broadcast. */
  ghost predicate CameDuringSend(st: Chat, e: Event, k: Key) {
    e.Connect? && e.u == k.user && k.id in st.awaiting && !st.Online(k.user)
  }

  lemma DisconnectRaces(st: Chat, u: string, sid: string, now: int, k: Key)
    requires IdsOk(st) && Enabled(st, Disconnect(u, sid, now)) && k in OnDisconnect(st, u, sid, now).raced
    ensures k in st.raced || (k.user == u && st.InSend(k.id) && !OnDisconnect(st, u, sid, now).Online(u))
  {}

  lemma SendRaces(st: Chat, row: Row)
    ensures OnSend(st, row).raced == st.raced
  {
    assert OnPersist(OnStamp(st, row), row.id).raced == st.raced;
  }

  lemma StepRaces(st: Chat, e: Event, k: Key)
    requires Inv(st) && Enabled(st, e) && k in Next(st, e).raced
    ensures k in st.raced || LeftDuringSend(st, e, Next(st, e), k)
  {
    if e.Disconnect? {
      DisconnectRaces(st, e.u, e.sid, e.now, k);
    } else if e.Send? {
      SendRaces(st, e.row);
    } else {
      assert Next(st, e).raced == st.raced;
    }
  }

  lemma ConnectIsEarly(st: Chat, u: string, sid: string, now: int, k: Key)
    requires k in OnConnect(st, u, sid, now).early
    ensures k in st.early || (k.user == u && k.id in st.awaiting && !st.Online(u))
  {
    if k !in st.early {
      ReplayIsOfRows(st.db.messages, u, st.LastSeen(u), k);
    }
  }

  lemma StepIsEarly(st: Chat, e: Event, k: Key)
    requires Inv(st) && Enabled(st, e) && k in Next(st, e).early
    ensures k in st.early || CameDuringSend(st, e, k)
  {
    match e
    case Send(row) => SendSteps(st, row);
    case Connect(u, sid, now) => ConnectIsEarly(st, u, sid, now, k);
    case _ =>
  }

  lemma {:induction false} RacedMeans(sts: seq<Chat>, es: seq<Event>, i: nat, k: Key) returns (j: nat)
    requires IsRun(sts, es) && i <= |es| && k in sts[i].raced
    ensures j < i && LeftDuringSend(sts[j], es[j], sts[j + 1], k)
  {
    assert i > 0;
    j := i - 1;
    if k in sts[j].raced {
      j := RacedMeans(sts, es, j, k);
    } else {
      RunKeepsInv(sts, es, j);
      StepRaces(sts[j], es[j], k);
    }
  }

  lemma {:induction false} EarlyMeans(sts: seq<Chat>, es: seq<Event>, i: nat, k: Key) returns (j: nat)
    requires IsRun(sts, es) && i <= |es| && k in sts[i].early
    ensures j < i && CameDuringSend(sts[j], es[j], k)
  {
    assert i > 0;
    j := i - 1;
    if k in sts[j].early {
      j := EarlyMeans(sts, es, j, k);
    } else {
      RunKeepsInv(sts, es, j);
      StepIsEarly(sts[j], es[j], k);
    }
  }

  /** The message is stamped while the recipient is away, no later than they left. */
  predicate TiesIt(st: Chat, e: Event, k: Key) {
    (e.Stamp? || e.Send?) && e.row.id == k.id && RecipientOf(e.row) == Some(k.user)
    && !st.Online(k.user) && st.LastSeen(k.user) >= e.row.createdAt
  }

  lemma SendTies(st: Chat, row: Row)
    ensures OnSend(st, row).tied == OnStamp(st, row).tied
  {
    assert OnPersist(OnStamp(st, row), row.id).tied == OnStamp(st, row).tied;
  }

  lemma StepTies(st: Chat, e: Event, k: Key)
    requires Enabled(st, e)
    ensures k in Next(st, e).tied <==> k in st.tied || TiesIt(st, e, k)
  {
    if e.Send? {
      SendTies(st, e.row);
    }
  }

  function TiedAt(sts: seq<Chat>, k: Key): nat -> bool {
    (j: nat) => j < |sts| && k in sts[j].tied
  }

  function TiesAt(sts: seq<Chat>, es: seq<Event>, k: Key): nat -> bool {
    (j: nat) => j < |es| && j < |sts| && TiesIt(sts[j], es[j], k)
  }

  lemma RunTies(sts: seq<Chat>, es: seq<Event>, j: nat, k: Key)
    requires IsRun(sts, es) && j < |es|
    ensures Grows(TiedAt(sts, k), TiesAt(sts, es, k), j)
  {
    StepTies(sts[j], es[j], k);
  }

  /** What the history calls tied: some earlier stamp found the recipient away and no earlier gone. */
  lemma TiedExactly(sts: seq<Chat>, es: seq<Event>, i: nat, k: Key)
    requires IsRun(sts, es) && i <= |es|
    ensures k in sts[i].tied <==> exists j: nat :: j < i && TiesIt(sts[j], es[j], k)
  {
    forall j: nat | j < i ensures Grows(TiedAt(sts, k), TiesAt(sts, es, k), j) {
      RunTies(sts, es, j, k);
    }
    HappenedExactly(TiedAt(sts, k), TiesAt(sts, es, k), i);
    assert TiedAt(sts, k)(i) <==> k in sts[i].tied;
    assert forall j: nat :: j < i ==> (TiesAt(sts, es, k)(j) <==> TiesIt(sts[j], es[j], k));
  }

  predicate IsLater(e: Event, clock: int) {
    match e
    case Connect(_, _, now) => clock < now
    case Disconnect(_, _, now) => clock < now
    case Stamp(row) => clock < row.createdAt
    case Send(row) => clock < row.createdAt
    case _ => true
  }

  /** Every reading of the clock is later than the one before. */
  ghost predicate StrictClock(sts: seq<Chat>, es: seq<Event>)
    requires |sts| > |es|
  {
    forall i :: 0 <= i < |es| ==> IsLater(es[i], sts[i].clock)
  }

  lemma StrictStepsTieNothing(st: Chat, e: Event)
    requires Inv(st) && Enabled(st, e) && IsLater(e, st.clock)
    ensures Next(st, e).tied == st.tied
  {
    if e.Send? {
      SendSteps(st, e.row);
    }
  }

  lemma StrictStep(sts: seq<Chat>, es: seq<Event>, i: nat)
    requires IsRun(sts, es) && StrictClock(sts, es) && i < |es|
    ensures Enabled(sts[i], es[i]) && sts[i + 1] == Next(sts[i], es[i]) && IsLater(es[i], sts[i].clock)
  {}

  lemma TiesStayAway(st: Chat, e: Event, st': Chat)
    requires Inv(st) && Enabled(st, e) && st' == Next(st, e) && IsLater(e, st.clock) && st.tied == {}
    ensures st'.tied == {}
  {
    StrictStepsTieNothing(st, e);
  }

  lemma {:induction false} StrictClockTiesNothing(sts: seq<Chat>, es: seq<Event>, i: nat)
    requires IsRun(sts, es) && StrictClock(sts, es) && i <= |es|
    ensures sts[i].tied == {}
  {
    if i > 0 {
      var j := i - 1;
      StrictClockTiesNothing(sts, es, j);
      RunKeepsInv(sts, es, j);
      StrictStep(sts, es, j);
      TiesStayAway(sts[j], es[j], sts[j + 1]);
    }
  }

  // ---------------------------------------------------------------- interleaved sends

  /** Sends split at their awaits, a strict clock: if an undeleted direct message was broadcast and
      its recipient, now online, never got it, then their last socket closed during the send. */
  lemma LossNeedsARace(sts: seq<Chat>, es: seq<Event>, i: nat, row: Row, r: string)
    requires IsRun(sts, es) && StrictClock(sts, es) && i <= |es|
    requires row in sts[i].db.messages && RecipientOf(row) == Some(r) && !row.deleted
    requires row.id !in sts[i].awaiting && sts[i].Online(r) && Deliveries(sts[i], Key(r, row.id)) == 0
    ensures exists j :: 0 <= j < i && LeftDuringSend(sts[j], es[j], sts[j + 1], Key(r, row.id))
  {
    RunKeepsInv(sts, es, i);
    StrictClockTiesNothing(sts, es, i);
    assert MessageOk(sts[i], row);
    assert row.id in Ids(sts[i].db.messages);
    var j := RacedMeans(sts, es, i, Key(r, row.id));
  }

  /** No message is delivered more than twice, and twice only to a recipient who came back between
      its INSERT and its broadcast: once by the replay, once live. */
  lemma DuplicatesNeedARace(sts: seq<Chat>, es: seq<Event>, i: nat, row: Row, r: string)
    requires IsRun(sts, es) && i <= |es| && row in sts[i].db.messages && RecipientOf(row) == Some(r)
    ensures Count(sts[i].live, Key(r, row.id)) <= 1 && Count(sts[i].replays, Key(r, row.id)) <= 1
    ensures Deliveries(sts[i], Key(r, row.id)) == 2 ==>
              exists j :: 0 <= j < i && CameDuringSend(sts[j], es[j], Key(r, row.id))
  {
    RunKeepsInv(sts, es, i);
    assert MessageOk(sts[i], row);
    if Deliveries(sts[i], Key(r, row.id)) == 2 {
      var j := EarlyMeans(sts, es, i, Key(r, row.id));
    }
  }

  lemma OthersAreReached(st: Chat, id: string, k: Key)
    requires Enabled(st, Broadcast(id)) && k.id != id
    ensures Count(OnBroadcast(st, id).live, k) == Count(st.live, k)
    ensures Count(OnBroadcast(st, id).replays, k) == Count(st.replays, k)
  {}

  lemma SendsOfOthers(st: Chat, row: Row, k: Key)
    requires Inv(st) && Enabled(st, Send(row)) && k.id != row.id
    ensures Count(OnSend(st, row).live, k) == Count(st.live, k)
    ensures Count(OnSend(st, row).replays, k) == Count(st.replays, k)
  {
    SendSteps(st, row);
    var st2 := OnPersist(OnStamp(st, row), row.id);
    if row.id in st2.awaiting {
      OthersAreReached(st2, row.id, k);
    }
  }

  // ---------------------------------------------------------------- handlers that run to completion

  predicate RunsToCompletion(e: Event) {
    e.Connect? || e.Disconnect? || e.Send? || e.Recall?
  }

  /** Between such events no send is under way, and a tied message was never seen. */
  ghost predicate Whole(st: Chat) {
    && st.stamped == map[] && st.awaiting == {} && st.raced == {} && st.early == {}
    && forall k :: k in st.tied ==> Count(st.live, k) == 0
  }

  lemma TiedIsUnseen(st: Chat, row: Row, k: Key)
    requires Inv(st) && Whole(st) && Enabled(st, Send(row)) && k in OnStamp(st, row).tied
    ensures Count(st.live, k) == 0
    ensures k !in Reached(OnPersist(OnStamp(st, row), row.id), row)
  {
    if k in st.tied {
      assert k.id in st.used && k.id != row.id;
    } else {
      assert k.id == row.id && row.id !in Ids(st.db.messages);
      assert Count(st.live, k) + Count(st.replays, k) == 0;
    }
  }

  lemma SendKeepsWhole(st: Chat, row: Row)
    requires Inv(st) && Whole(st) && Enabled(st, Send(row))
    ensures Whole(OnSend(st, row))
  {
    SendSteps(st, row);
    var st1 := OnStamp(st, row);
    var st2, st' := OnPersist(st1, row.id), OnSend(st, row);
    assert st1.stamped == map[row.id := row] && st2.stamped == map[];
    assert st'.tied == st1.tied && st2.live == st.live;
    forall k | k in st'.tied ensures Count(st'.live, k) == 0 {
      TiedIsUnseen(st, row, k);
    }
  }

  lemma {:induction false} RunsStayWhole(sts: seq<Chat>, es: seq<Event>, i: nat)
    requires IsRun(sts, es) && i <= |es| && forall j :: 0 <= j < |es| ==> RunsToCompletion(es[j])
    ensures Whole(sts[i])
  {
    if i > 0 {
      RunsStayWhole(sts, es, i - 1);
      RunKeepsInv(sts, es, i - 1);
      match es[i - 1] {
        case Send(row) => SendKeepsWhole(sts[i - 1], row);
        case Connect(u, sid, now) =>
        case Disconnect(u, sid, now) =>
        case Recall(c, id) =>
      }
    }
  }

  /** Exactly once. With handlers that run to completion, at every point of every run: a direct
      message has been delivered to its recipient at most once; an undeleted one exactly once as
      soon as they are, or have since been, online, unless its send was stamped while they were
      away, no later than the time they left. */
  lemma DeliveredExactlyOnce(sts: seq<Chat>, es: seq<Event>, i: nat, row: Row, r: string)
    requires IsRun(sts, es) && i <= |es| && forall j :: 0 <= j < |es| ==> RunsToCompletion(es[j])
    requires row in sts[i].db.messages && RecipientOf(row) == Some(r)
    ensures Deliveries(sts[i], Key(r, row.id)) <= 1
    ensures !row.deleted ==>
              (Deliveries(sts[i], Key(r, row.id)) == 1 <==>
               && (sts[i].Online(r) || row.createdAt <= sts[i].LastSeen(r))
               && !exists j: nat :: j < i && TiesIt(sts[j], es[j], Key(r, row.id)))
  {
    TiedExactly(sts, es, i, Key(r, row.id));
    RunKeepsInv(sts, es, i);
    RunsStayWhole(sts, es, i);
    assert MessageOk(sts[i], row);
    assert FaceOf(sts[i], row, r).Ok();
  }

  /** With a strict clock there is no exception: once online, a recipient has every undeleted
      message exactly once; while away, exactly those no newer than their last visit. */
  lemma StrictClockLosesNothing(sts: seq<Chat>, es: seq<Event>, i: nat, row: Row, r: string)
    requires IsRun(sts, es) && i <= |es| && (forall j :: 0 <= j < |es| ==> RunsToCompletion(es[j]))
    requires StrictClock(sts, es)
    requires row in sts[i].db.messages && RecipientOf(row) == Some(r) && !row.deleted
    ensures Deliveries(sts[i], Key(r, row.id)) ==
            if sts[i].Online(r) || row.createdAt <= sts[i].LastSeen(r) then 1 else 0
  {
    DeliveredExactlyOnce(sts, es, i, row, r);
    StrictClockTiesNothing(sts, es, i);
    TiedExactly(sts, es, i, Key(r, row.id));
  }

  /** Live or later: a send reaches an online recipient at once, and leaves the message pending for
      one who is away. */
  lemma SendDeliversLive(st: Chat, row: Row, r: string)
    requires Inv(st) && Enabled(st, Send(row)) && RecipientOf(row) == Some(r) && InsertMessage(st.db, row).Done?
    ensures var st' := Next(st, Send(row));
            && row in st'.db.messages
            && Count(st'.live, Key(r, row.id)) == (if st.Online(r) then 1 else 0)
            && Count(st'.replays, Key(r, row.id)) == 0
  {
    SendSteps(st, row);
    var st2 := OnPersist(OnStamp(st, row), row.id);
    BroadcastFace(st2, row);
    var k := Key(r, row.id);
    assert k.id !in Ids(st.db.messages);
    assert Count(st.live, k) + Count(st.replays, k) == 0;
    assert FaceOf(st2, row, r).live == 0 && FaceOf(st2, row, r).replays == 0;
    assert FaceOf(OnBroadcast(st2, row.id), row, r).live == if st.Online(r) then 1 else 0;
    assert FaceOf(OnBroadcast(st2, row.id), row, r).replays == 0;
  }

  /** The next connection from nowhere replays a pending message, unless it was unsent first. */
  lemma NextConnectReplays(st: Chat, row: Row, r: string, sid: string, now: int)
    requires Inv(st) && Enabled(st, Connect(r, sid, now)) && !st.Online(r)
    requires row in st.db.messages && RecipientOf(row) == Some(r)
    ensures Deliveries(Next(st, Connect(r, sid, now)), Key(r, row.id)) ==
            Deliveries(st, Key(r, row.id)) + if !row.deleted && row.createdAt > st.LastSeen(r) then 1 else 0
  {
    assert row.id in Ids(st.db.messages);
    ConnectedFace(st, r, sid, now, row);
    var f, f' := FaceOf(st, row, r), FaceOf(OnConnect(st, r, sid, now), row, r);
    assert f'.live == f.live;
    assert f'.replays == f.replays + if !row.deleted && row.createdAt > st.LastSeen(r) then 1 else 0;
  }
}
