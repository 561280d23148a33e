/** Runs in which a direct message is lost, or delivered twice. */
module DmWitnesses {
  import opened Collections
  import opened MessageTable
  import opened DmDelivery
  import opened DmDeliveryRuns
  import opened DmRaces

  /** One more event. */
  lemma Extend(sts: seq<Chat>, es: seq<Event>, e: Event) returns (sts': seq<Chat>, es': seq<Event>)
    requires IsRun(sts, es) && Enabled(sts[|es|], e)
    ensures IsRun(sts', es') && |es'| == |es| + 1 && es'[|es|] == e
    ensures sts'[|es'|] == Next(sts[|es|], e)
    ensures forall j :: 0 <= j < |es| ==> es'[j] == es[j]
    ensures forall j :: 0 <= j <= |es| ==> sts'[j] == sts[j]
  {
    sts', es' := sts + [Next(sts[|es|], e)], es + [e];
  }

  lemma Start() returns (sts: seq<Chat>, es: seq<Event>)
    ensures IsRun(sts, es) && es == [] && sts[0] == INIT
  {
    sts, es := [INIT], [];
  }

  /** A message that can be stored in an empty table. */
  predicate IsFirst(row: Row, r: string) {
    RecipientOf(row) == Some(r) && !row.deleted && row.replyToId.None?
  }

  lemma FirstVisit(st: Chat, r: string, sid: string, now: int)
    requires st.active == map[] && st.clock <= now
    ensures Enabled(st, Connect(r, sid, now))
    ensures var st' := Next(st, Connect(r, sid, now));
            && st'.clock == now && st'.active == map[r := {sid}] && st'.lastSeen == st.lastSeen
            && st'.db == st.db && st'.stamped == st.stamped && st'.awaiting == st.awaiting && st'.used == st.used
            && forall k: Key :: k.id !in Ids(st.db.messages) ==> Count(st'.replays, k) == Count(st.replays, k)
  {
    var st' := Next(st, Connect(r, sid, now));
    assert {} + {sid} == {sid} && PutInBucket(st.active, r, sid) == map[r := {sid}];
    forall k: Key | k.id !in Ids(st.db.messages) ensures Count(st'.replays, k) == Count(st.replays, k) {
      ConnectOutside(st, r, sid, now, k);
    }
  }

  lemma LastVisitEnds(st: Chat, r: string, sid: string, now: int)
    requires st.active == map[r := {sid}] && st.clock <= now
    ensures Enabled(st, Disconnect(r, sid, now))
    ensures var st' := Next(st, Disconnect(r, sid, now));
            && st'.clock == now && st'.active == map[] && st'.lastSeen == st.lastSeen[r := now]
            && st'.db == st.db && st'.stamped == st.stamped && st'.awaiting == st.awaiting && st'.used == st.used
            && st'.replays == st.replays
  {
    assert DropFromBucket(st.active, r, sid) == map[];
  }

  lemma FirstIsPersisted(st: Chat, row: Row)
    requires st.db == Db([], []) && st.stamped == map[row.id := row] && row.replyToId.None?
    ensures Enabled(st, Persist(row.id))
    ensures Next(st, Persist(row.id)) == st.(db := Db([row], []), stamped := map[], awaiting := st.awaiting + {row.id})
  {
    assert [] + [row] == [row];
  }

  lemma AwaitedIsEnabled(st: Chat, row: Row)
    requires st.db.messages == [row] && row.id in st.awaiting
    ensures Enabled(st, Broadcast(row.id))
  {}

  /** Up to the broadcast: the recipient has come and gone, the message is stored. */
  lemma LeavesDuringSend(row: Row, r: string, sid: string) returns (sts: seq<Chat>, es: seq<Event>)
    requires IsFirst(row, r) && row.createdAt >= 2
    ensures var t := row.createdAt;
            && IsRun(sts, es) && StrictClock(sts, es) && |es| == 4
            && sts[4].db.messages == [row] && sts[4].awaiting == {row.id} && sts[4].active == map[]
            && sts[4].LastSeen(r) == t + 1 == sts[4].clock && Count(sts[4].replays, Key(r, row.id)) == 0
  {
    var t := row.createdAt;
    sts, es := Start();
    FirstVisit(INIT, r, sid, t - 1);
    sts, es := Extend(sts, es, Connect(r, sid, t - 1));
    sts, es := Extend(sts, es, Stamp(row));
    LastVisitEnds(sts[2], r, sid, t + 1);
    sts, es := Extend(sts, es, Disconnect(r, sid, t + 1));
    FirstIsPersisted(sts[3], row);
    sts, es := Extend(sts, es, Persist(row.id));
    assert IsLater(es[0], sts[0].clock) && IsLater(es[1], sts[1].clock);
    assert IsLater(es[2], sts[2].clock) && IsLater(es[3], sts[3].clock);
  }

  /** A recipient who leaves and comes back during a send may never get the message, though no two
      clock readings are the same. */
  lemma SendCanBeLost(row: Row, r: string, sid: string) returns (sts: seq<Chat>, es: seq<Event>)
    requires IsFirst(row, r) && row.createdAt >= 2
    ensures IsRun(sts, es) && StrictClock(sts, es) && |es| == 6
    ensures row in sts[6].db.messages && row.id !in sts[6].awaiting && sts[6].Online(r)
    ensures Deliveries(sts[6], Key(r, row.id)) == 0
  {
    sts, es := LeavesDuringSend(row, r, sid);
    sts, es := Extend(sts, es, Broadcast(row.id));
    var now := row.createdAt + 2;
    FirstVisit(sts[5], r, sid, now);
    sts, es := Extend(sts, es, Connect(r, sid, now));
    assert IsLater(es[4], sts[4].clock) && IsLater(es[5], sts[5].clock);
    assert row in sts[6].db.messages;
    LostExactly(sts, es, 6, row, r);
    assert LosesIt(sts[4], es[4], Key(r, row.id), row.createdAt);
  }

  /** Stored, not broadcast, and nobody is online. */
  lemma StoredFirst(row: Row, r: string) returns (sts: seq<Chat>, es: seq<Event>)
    requires IsFirst(row, r) && row.createdAt >= 1
    ensures IsRun(sts, es) && StrictClock(sts, es) && |es| == 2
    ensures sts[2] == INIT.(clock := row.createdAt, used := {row.id}, db := Db([row], []), awaiting := {row.id})
  {
    sts, es := Start();
    sts, es := Extend(sts, es, Stamp(row));
    FirstIsPersisted(sts[1], row);
    sts, es := Extend(sts, es, Persist(row.id));
    assert IsLater(es[0], sts[0].clock) && IsLater(es[1], sts[1].clock);
    assert {} + {row.id} == {row.id};
  }

  lemma FirstReplay(st: Chat, row: Row, r: string, sid: string, now: int)
    requires Inv(st) && IsFirst(row, r) && st.db == Db([row], []) && st.active == map[] && st.lastSeen == map[]
    requires st.replays == map[] && 0 < row.createdAt && st.clock <= now
    ensures Enabled(st, Connect(r, sid, now))
    ensures var st' := Next(st, Connect(r, sid, now));
            && Count(st'.replays, Key(r, row.id)) == 1 && st'.Online(r) && st'.clock == now
            && st'.db == st.db && st'.awaiting == st.awaiting
  {
    assert row in st.db.messages;
    ConnectCounts(st, r, sid, now, Key(r, row.id), row);
  }

  lemma StoredThenReplayed(row: Row, r: string, sid: string) returns (sts: seq<Chat>, es: seq<Event>)
    requires IsFirst(row, r) && row.createdAt >= 1
    ensures IsRun(sts, es) && StrictClock(sts, es) && |es| == 3
    ensures sts[3].db == Db([row], []) && sts[3].awaiting == {row.id}
    ensures sts[3].Online(r) && Count(sts[3].replays, Key(r, row.id)) == 1
  {
    var now := row.createdAt + 1;
    sts, es := StoredFirst(row, r);
    RunKeepsInv(sts, es, 2);
    FirstReplay(sts[2], row, r, sid, now);
    sts, es := Extend(sts, es, Connect(r, sid, now));
    assert IsLater(es[2], sts[2].clock);
  }

  /** A recipient who comes between the insert and the broadcast gets the message twice. */
  lemma SendCanBeDoubled(row: Row, r: string, sid: string) returns (sts: seq<Chat>, es: seq<Event>)
    requires IsFirst(row, r) && row.createdAt >= 1
    ensures IsRun(sts, es) && StrictClock(sts, es) && |es| == 4
    ensures row in sts[4].db.messages && Deliveries(sts[4], Key(r, row.id)) == 2
  {
    sts, es := StoredThenReplayed(row, r, sid);
    AwaitedIsEnabled(sts[3], row);
    assert DoublesIt(sts[3], Broadcast(row.id), Key(r, row.id));
    sts, es := Extend(sts, es, Broadcast(row.id));
    assert IsLater(es[3], sts[3].clock) && row in sts[4].db.messages;
    DoubledExactly(sts, es, 4, row, r);
    assert DoublesIt(sts[3], es[3], Key(r, row.id));
  }

  /** Come and gone at one time. */
  lemma ComeAndGone(r: string, sid: string, t: int) returns (sts: seq<Chat>, es: seq<Event>)
    requires t >= 0
    ensures IsRun(sts, es) && |es| == 2 && es == [Connect(r, sid, t), Disconnect(r, sid, t)]
    ensures var st := sts[2];
            && st.db == Db([], []) && st.used == {} && st.stamped == map[] && st.awaiting == {} && st.active == map[]
            && st.clock == t == st.LastSeen(r)
  {
    sts, es := Start();
    FirstVisit(INIT, r, sid, t);
    sts, es := Extend(sts, es, Connect(r, sid, t));
    LastVisitEnds(sts[1], r, sid, t);
    sts, es := Extend(sts, es, Disconnect(r, sid, t));
  }

  lemma FirstIsSent(st: Chat, row: Row)
    requires st.db == Db([], []) && st.used == {} && st.stamped == map[] && st.awaiting == {} && st.active == map[]
    requires st.clock <= row.createdAt && !row.deleted && row.replyToId.None?
    ensures Enabled(st, Send(row)) && InsertMessage(st.db, row).Done?
    ensures var st' := Next(st, Send(row));
            st'.db == Db([row], []) && row.id !in st'.awaiting && st'.active == map[] && st'.clock == row.createdAt
  {
    FirstIsPersisted(OnStamp(st, row), row);
    SendRows(st, row);
    assert [] + [row] == [row];
  }

  lemma SentWhenGone(row: Row, r: string, sid: string) returns (sts: seq<Chat>, es: seq<Event>)
    requires IsFirst(row, r) && row.createdAt >= 0
    ensures IsRun(sts, es) && |es| == 3 && forall j :: 0 <= j < |es| ==> RunsToCompletion(es[j])
    ensures sts[3].db == Db([row], []) && row.id !in sts[3].awaiting && sts[3].active == map[]
    ensures sts[3].clock == row.createdAt && LosesIt(sts[2], es[2], Key(r, row.id), row.createdAt)
  {
    sts, es := ComeAndGone(r, sid, row.createdAt);
    FirstIsSent(sts[2], row);
    sts, es := Extend(sts, es, Send(row));
  }

  /** Even with handlers that run to completion, a message stamped in the millisecond in which its
      recipient left is not delivered when they come back. */
  lemma TieCanLose(row: Row, r: string, sid: string) returns (sts: seq<Chat>, es: seq<Event>)
    requires IsFirst(row, r) && row.createdAt >= 0
    ensures IsRun(sts, es) && |es| == 4 && forall j :: 0 <= j < |es| ==> RunsToCompletion(es[j])
    ensures row in sts[4].db.messages && row.id !in sts[4].awaiting && sts[4].Online(r)
    ensures Deliveries(sts[4], Key(r, row.id)) == 0
  {
    var now := row.createdAt + 1;
    sts, es := SentWhenGone(row, r, sid);
    FirstVisit(sts[3], r, sid, now);
    sts, es := Extend(sts, es, Connect(r, sid, now));
    assert row in sts[4].db.messages;
    LostExactly(sts, es, 4, row, r);
    assert LosesIt(sts[2], es[2], Key(r, row.id), row.createdAt);
  }
}
