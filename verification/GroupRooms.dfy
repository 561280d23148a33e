/** Which sockets are in a group's room: decided by the last event that put them there or took them
    out, the clients' own moves included (src/feature/chat/handlers/group.handler.ts,
    src/feature/chat/handlers/room.handler.ts). */
module GroupRooms {
  import opened Collections
  import opened GroupModel
  import opened GroupAccess
  import opened GroupInvariants
  import opened GroupRuns
  import opened Standing

  predicate InRoom(st: Store, s: SocketId, c: ConvId) {
    s in st.sockets && c in st.sockets[s].rooms
  }

  /** A new socket of an unblocked member, a socket of a new group's member or of a member who is
      unblocked, and any socket whose client asks. */
  predicate PutsIn(st: Store, e: Event, s: SocketId, c: ConvId) {
    match e
    case OnConnect(u, sid) => sid == s && st.Member(u, c) && !st.Blocked(u, c)
    case OnCreate(u, name, memberIds, d, _) =>
      && d == c && MayCreate(u, name, memberIds)
      && s in st.sockets && st.sockets[s].user in UniqueMembers(u, memberIds)
    case OnBlock(u, d, t, on) =>
      d == c && !on && st.Admin(u, c) && st.Member(t, c) && st.Blocked(t, c) && IsOf(st, s, t)
    case OnJoinRoom(sid, d) => sid == s && d == c && s in st.sockets
    case _ => false
  }

  /** A closed socket, a socket of a member who is blocked or taken out, of any member of a group
      that is deleted or dissolved, and any socket whose client asks. */
  predicate TakesOut(st: Store, e: Event, s: SocketId, c: ConvId) {
    match e
    case OnDisconnect(sid) => sid == s
    case OnBlock(u, d, t, on) =>
      d == c && on && st.Admin(u, c) && st.Member(t, c) && !st.Blocked(t, c) && IsOf(st, s, t)
    case OnDelete(u, d) => d == c && st.Admin(u, c) && IsOfMember(st, s, c)
    case OnLeaveRoom(sid, d) => sid == s && d == c
    case Resume(Removal(d, t, _)) =>
      d == c && (IsOf(st, s, t) || (Dissolves(st, c, t) && IsOfMember(st, s, c)))
    case _ => false
  }

  predicate Dissolves(st: Store, c: ConvId, t: UserId) {
    st.Member(t, c) && |st.records[c].dto.memberIds| == MIN_MEMBERS
  }

  // ---------------------------------------------------------------- one step

  lemma ConnectPuts(w: World, u: UserId, sid: SocketId, s: SocketId, c: ConvId)
    requires GroupOk(w, c) && sid !in w.st.sockets
    ensures InRoom(Connect(w.st, u, sid), s, c) <==> PutsIn(w.st, OnConnect(u, sid), s, c) || InRoom(w.st, s, c)
  {
    assert c in Bucket(w.st.byUser, u) <==> w.st.Member(u, c);
  }

  lemma BlockMovesSockets(st: Store, e: Event, s: SocketId, c: ConvId)
    requires e.OnBlock?
    ensures InRoom(BlockMember(st, e.u, e.c, e.target, e.on), s, c) <==>
            PutsIn(st, e, s, c) || (InRoom(st, s, c) && !TakesOut(st, e, s, c))
  {}

  lemma DeleteTakes(w: World, u: UserId, d: ConvId, s: SocketId, c: ConvId)
    requires GroupOk(w, d) && DeleteCheck(w.st, u, d) == Ok
    ensures InRoom(DeleteGroup(w.st, d, DeletedByAdmin), s, c) <==>
              InRoom(w.st, s, c) && !TakesOut(w.st, OnDelete(u, d), s, c)
  {}

  lemma TakeOutTakes(st: Store, c: ConvId, t: UserId, reason: Reason, s: SocketId, d: ConvId)
    requires c in st.records
    ensures InRoom(TakeOut(st, c, t, reason), s, d) <==> InRoom(st, s, d) && !(d == c && IsOf(st, s, t))
  {}

  lemma DissolutionTakes(st: Store, c: ConvId, s: SocketId, d: ConvId)
    requires RecordOk(st, c)
    ensures InRoom(DeleteGroup(st, c, Dissolved), s, d) <==> InRoom(st, s, d) && !(d == c && IsOfMember(st, s, c))
  {}

  /** Whom a removal leaves, and when what is left is too small. */
  lemma TakenMembers(w: World, c: ConvId, t: UserId, reason: Reason, s: SocketId)
    requires GroupOk(w, c) && c in w.st.records
    ensures var taken := TakeOut(w.st, c, t, reason);
            && RecordOk(taken, c)
            && (IsOfMember(taken, s, c) <==> IsOfMember(w.st, s, c) && !IsOf(w.st, s, t))
            && (taken.Stored(c) && |taken.records[c].dto.memberIds| < MIN_MEMBERS <==> Dissolves(w.st, c, t))
  {
    RemovalKeepsRoles(w.st.records[c].dto, t);
  }

  lemma RemovalTakes(w: World, c: ConvId, t: UserId, reason: Reason, s: SocketId, d: ConvId)
    requires Enabled(w, Resume(Removal(c, t, reason))) && GroupOk(w, c)
    ensures InRoom(Remove(w.st, c, t, reason).0, s, d) <==>
            InRoom(w.st, s, d) && !TakesOut(w.st, Resume(Removal(c, t, reason)), s, d)
  {
    TakeOutTakes(w.st, c, t, reason, s, d);
    TakenMembers(w, c, t, reason, s);
    DissolutionTakes(TakeOut(w.st, c, t, reason), c, s, d);
  }

  lemma InsertPuts(st: Store, dto: GroupDto, s: SocketId, c: ConvId)
    ensures InRoom(Insert(st, dto), s, c) <==>
            (c == dto.conversationId && s in st.sockets && st.sockets[s].user in dto.memberIds) || InRoom(st, s, c)
  {}

  lemma CreateInserts(w: World, e: Event)
    requires e.OnCreate? && Enabled(w, e)
    ensures var dto := NewGroup(e.u, e.name, e.memberIds, e.c, e.now);
            && Next(w, e).st == (if MayCreate(e.u, e.name, e.memberIds) then Insert(w.st, dto) else w.st)
            && dto.conversationId == e.c && dto.memberIds == UniqueMembers(e.u, e.memberIds)
  {
    CreateAnswers(e.u, e.name, e.memberIds);
  }

  lemma CreatePuts(w: World, e: Event, s: SocketId, c: ConvId)
    requires e.OnCreate? && Enabled(w, e)
    ensures InRoom(Next(w, e).st, s, c) <==> PutsIn(w.st, e, s, c) || InRoom(w.st, s, c)
  {
    CreateInserts(w, e);
    InsertPuts(w.st, NewGroup(e.u, e.name, e.memberIds, e.c, e.now), s, c);
  }

  lemma RolesMoveNobody(w: World, e: Event, s: SocketId, c: ConvId)
    requires e.OnPromote? || e.OnMute?
    ensures InRoom(Next(w, e).st, s, c) <==> InRoom(w.st, s, c)
  {}

  ghost predicate ChangesExactly(w: World, e: Event, s: SocketId, c: ConvId)
    requires Enabled(w, e)
  {
    InRoom(Next(w, e).st, s, c) <==> PutsIn(w.st, e, s, c) || (InRoom(w.st, s, c) && !TakesOut(w.st, e, s, c))
  }

  lemma DeleteStep(w: World, e: Event, s: SocketId, c: ConvId)
    requires e.OnDelete? && GroupOk(w, e.c)
    ensures ChangesExactly(w, e, s, c)
  {
    if DeleteCheck(w.st, e.u, e.c) == Ok {
      DeleteTakes(w, e.u, e.c, s, c);
    }
  }

  lemma ResumeStep(w: World, task: Task, s: SocketId, c: ConvId)
    requires Enabled(w, Resume(task)) && GroupOk(w, task.c)
    ensures ChangesExactly(w, Resume(task), s, c)
  {
    if task.Removal? {
      RemovalTakes(w, task.c, task.target, task.reason, s, c);
    }
  }

  lemma OtherStep(w: World, e: Event, s: SocketId, c: ConvId)
    requires e.OnDisconnect? || e.OnLeave? || e.OnKick? || e.OnJoinRoom? || e.OnLeaveRoom?
    ensures ChangesExactly(w, e, s, c)
  {}

  /** Each step puts in and takes out exactly the sockets its event is about. */
  lemma RoomsChangeExactly(w: World, e: Event, s: SocketId, c: ConvId)
    requires Inv(w) && Enabled(w, e)
    ensures InRoom(Next(w, e).st, s, c) <==> PutsIn(w.st, e, s, c) || (InRoom(w.st, s, c) && !TakesOut(w.st, e, s, c))
  {
    if e.OnConnect? {
      ConnectPuts(w, e.u, e.sid, s, c);
    } else if e.OnCreate? {
      CreatePuts(w, e, s, c);
    } else if e.OnPromote? || e.OnMute? {
      RolesMoveNobody(w, e, s, c);
    } else if e.OnBlock? {
      BlockMovesSockets(w.st, e, s, c);
    } else if e.OnDelete? {
      DeleteStep(w, e, s, c);
    } else if e.Resume? {
      ResumeStep(w, e.task, s, c);
    } else {
      OtherStep(w, e, s, c);
    }
  }

  // ---------------------------------------------------------------- runs

  function InRoomAt(ws: seq<World>, s: SocketId, c: ConvId): nat -> bool {
    (j: nat) => j < |ws| && InRoom(ws[j].st, s, c)
  }

  function PutsAt(ws: seq<World>, es: seq<Event>, s: SocketId, c: ConvId): nat -> bool {
    (j: nat) => j < |es| && j < |ws| && PutsIn(ws[j].st, es[j], s, c)
  }

  function TakesAt(ws: seq<World>, es: seq<Event>, s: SocketId, c: ConvId): nat -> bool {
    (j: nat) => j < |es| && j < |ws| && TakesOut(ws[j].st, es[j], s, c)
  }

  lemma RoomsStep(ws: seq<World>, es: seq<Event>, k: nat, s: SocketId, c: ConvId)
    requires |ws| == |es| + 1 && k < |es| && Inv(ws[k]) && Enabled(ws[k], es[k]) && ws[k + 1] == Next(ws[k], es[k])
    ensures Steps(InRoomAt(ws, s, c), PutsAt(ws, es, s, c), TakesAt(ws, es, s, c), k)
  {
    RoomsChangeExactly(ws[k], es[k], s, c);
  }

  /** Over every run, `chat:join` and `chat:leave` included: a socket is in a room exactly when some
      event put it there and none has taken it out since. */
  lemma RoomsAreDecided(ws: seq<World>, es: seq<Event>, i: nat, s: SocketId, c: ConvId)
    requires IsRun(ws, es) && ws[0] == INIT && i <= |es|
    ensures InRoom(ws[i].st, s, c) <==> Stands(PutsAt(ws, es, s, c), TakesAt(ws, es, s, c), i)
  {
    InitInv();
    forall k: nat | k < i ensures Steps(InRoomAt(ws, s, c), PutsAt(ws, es, s, c), TakesAt(ws, es, s, c), k) {
      RunKeepsInv(ws, es, k);
      RoomsStep(ws, es, k, s, c);
    }
    HoldsExactly(InRoomAt(ws, s, c), PutsAt(ws, es, s, c), TakesAt(ws, es, s, c), i);
    assert InRoomAt(ws, s, c)(i) <==> InRoom(ws[i].st, s, c);
  }
}
