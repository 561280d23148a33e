/** Which clients hold a copy of a group that differs from its record, at every point of every run
    (src/feature/chat/handlers/group.handler.ts, src/feature/chat/chat.handler.ts). */
module GroupLags {
  import opened Collections
  import opened GroupModel
  import opened GroupInvariants
  import opened GroupSteps
  import opened GroupRuns
  import opened Standing

  /** This client's copy of the group is not the record. */
  predicate Lags(st: Store, s: SocketId, c: ConvId) {
    s in st.sockets && c in st.sockets[s].view && c in st.records && st.sockets[s].view[c] != st.records[c].dto
  }

  /** A resumed leave or kick takes a member out of a group that survives, while this socket belongs
      to another member. */
  predicate MakesLag(st: Store, e: Event, s: SocketId, c: ConvId) {
    match e
    case Resume(Removal(d, t, _)) =>
      && d == c && st.Member(t, c) && |st.records[c].dto.memberIds| > MIN_MEMBERS
      && IsOfMember(st, s, c) && !IsOf(st, s, t)
    case _ => false
  }

  /** The socket closes; the group is broadcast or deleted; its user is taken out. */
  predicate EndsLag(st: Store, e: Event, s: SocketId, c: ConvId) {
    match e
    case OnDisconnect(sid) => sid == s
    case OnPromote(u, d, t) => d == c && st.Admin(u, c) && st.Member(t, c)
    case OnMute(u, d, t, _) => d == c && st.Admin(u, c) && st.Member(t, c)
    case OnBlock(u, d, t, _) => d == c && st.Admin(u, c) && st.Member(t, c)
    case OnDelete(u, d) => d == c && st.Admin(u, c)
    case Resume(Update(d)) => d == c
    case Resume(Removal(d, t, _)) =>
      d == c && (IsOf(st, s, t) || (st.Member(t, c) && |st.records[c].dto.memberIds| <= MIN_MEMBERS))
    case _ => false
  }

  ghost predicate LagsChange(w: World, e: Event, s: SocketId, c: ConvId)
    requires Enabled(w, e)
  {
    Lags(Next(w, e).st, s, c) <==> MakesLag(w.st, e, s, c) || (Lags(w.st, s, c) && !EndsLag(w.st, e, s, c))
  }

  // ---------------------------------------------------------------- steps that leave the group alone

  lemma FrameLags(w: World, w': World, s: SocketId, c: ConvId)
    requires SameGroup(w, w', c)
    ensures Lags(w'.st, s, c) <==> Lags(w.st, s, c)
  {}

  /** Only a member's client has a copy, and only of a stored group. */
  lemma CopyIsOfMember(w: World, s: SocketId, c: ConvId)
    requires GroupOk(w, c) && s in w.st.sockets
    ensures c in w.st.sockets[s].view <==> IsOfMember(w.st, s, c)
    ensures c in w.st.sockets[s].view ==>
              CopyOk(w.st.sockets[s].view[c], w.st.records[c].dto, Update(c) in w.pending)
  {
    assert ReplicaOk(w, w.st.sockets[s], c);
  }

  // ---------------------------------------------------------------- steps on the group

  /** After a broadcast no copy lags. */
  lemma RefreshEndsLag(st: Store, s: SocketId, c: ConvId)
    requires c in st.records && st.records[c].dto.conversationId == c
    requires s in st.sockets && c in st.sockets[s].view ==> IsOfMember(st, s, c)
    ensures !Lags(Refresh(st, c), s, c)
  {}

  lemma ConnectLags(w: World, u: UserId, sid: SocketId, s: SocketId, c: ConvId)
    requires sid !in w.st.sockets
    ensures Lags(Connect(w.st, u, sid), s, c) <==> Lags(w.st, s, c)
  {}

  lemma CreateLags(w: World, e: Event, s: SocketId, c: ConvId)
    requires e.OnCreate? && Enabled(w, e) && GroupOk(w, c)
    ensures Lags(Next(w, e).st, s, c) <==> Lags(w.st, s, c)
  {
    if CreateCheck(e.u, e.name, e.memberIds) == Ok {
      var dto := NewGroup(e.u, e.name, e.memberIds, e.c, e.now);
      if c != e.c {
        InsertFrame(w, dto, c);
        FrameLags(w, w.(st := Insert(w.st, dto)), s, c);
      } else {
        NewCopies(w, dto, s);
      }
    }
  }

  lemma NewCopies(w: World, dto: GroupDto, s: SocketId)
    requires dto.conversationId !in w.st.records && GroupOk(w, dto.conversationId)
    ensures !Lags(Insert(w.st, dto), s, dto.conversationId) && !Lags(w.st, s, dto.conversationId)
  {
    if s in w.st.sockets {
      CopyIsOfMember(w, s, dto.conversationId);
    }
  }

  lemma RoleChangeEndsLag(w: World, s: SocketId, c: ConvId, dto: GroupDto, sockets: Sockets)
    requires GroupOk(w, c) && w.st.Stored(c) && SameButRoom(sockets, w.st.sockets, c)
    requires dto.conversationId == c && dto.memberIds == w.st.records[c].dto.memberIds
    ensures !Lags(Refresh(w.st.WithDto(c, dto).(sockets := sockets), c), s, c)
  {
    if s in sockets {
      CopyIsOfMember(w, s, c);
    }
    RefreshEndsLag(w.st.WithDto(c, dto).(sockets := sockets), s, c);
  }

  lemma RoleChangeLags(w: World, s: SocketId, d: ConvId, dto: GroupDto, sockets: Sockets, c: ConvId)
    requires GroupOk(w, d) && w.st.Stored(d) && SameButRoom(sockets, w.st.sockets, d)
    requires dto.conversationId == d && dto.memberIds == w.st.records[d].dto.memberIds
    ensures Lags(Refresh(w.st.WithDto(d, dto).(sockets := sockets), d), s, c) <==> Lags(w.st, s, c) && d != c
  {
    if d == c {
      RoleChangeEndsLag(w, s, c, dto, sockets);
    } else {
      RoleChangeFrame(w, d, dto, sockets, c);
      FrameLags(w, w.(st := Refresh(w.st.WithDto(d, dto).(sockets := sockets), d)), s, c);
    }
  }

  lemma PromoteLags(w: World, e: Event, s: SocketId, c: ConvId)
    requires e.OnPromote? && GroupOk(w, e.c)
    ensures LagsChange(w, e, s, c)
  {
    if AdminCheck(w.st, e.u, e.c, e.target) == Ok {
      var dto := w.st.records[e.c].dto;
      RoleChangeLags(w, s, e.c, dto.(adminIds := Toggle(dto.adminIds, e.target, true)), w.st.sockets, c);
    }
  }

  lemma MuteLags(w: World, e: Event, s: SocketId, c: ConvId)
    requires e.OnMute? && GroupOk(w, e.c)
    ensures LagsChange(w, e, s, c)
  {
    if AdminCheck(w.st, e.u, e.c, e.target) == Ok {
      var dto := w.st.records[e.c].dto;
      RoleChangeLags(w, s, e.c, dto.(mutedMembers := Toggle(dto.mutedMembers, e.target, e.on)), w.st.sockets, c);
    }
  }

  lemma BlockLags(w: World, e: Event, s: SocketId, c: ConvId)
    requires e.OnBlock? && GroupOk(w, e.c)
    ensures LagsChange(w, e, s, c)
  {
    if AdminCheck(w.st, e.u, e.c, e.target) == Ok {
      var dto := w.st.records[e.c].dto;
      var blocked := dto.(blockedMembers := Toggle(dto.blockedMembers, e.target, e.on));
      BlockMovesAreLocal(w.st, e.c, e.target, e.on);
      BlockIsRoleChange(w.st, e.u, e.c, e.target, e.on);
      RoleChangeLags(w, s, e.c, blocked, BlockMoves(w.st, e.c, e.target, e.on), c);
    }
  }

  lemma DeletedHasNoCopies(w: World, s: SocketId, c: ConvId)
    requires GroupOk(w, c) && !w.st.Stored(c)
    ensures !Lags(w.st, s, c)
  {
    if s in w.st.sockets {
      CopyIsOfMember(w, s, c);
    }
  }

  lemma DeleteLags(w: World, e: Event, s: SocketId, c: ConvId)
    requires e.OnDelete? && Inv(w)
    ensures LagsChange(w, e, s, c)
  {
    if DeleteCheck(w.st, e.u, e.c) == Ok {
      if e.c == c {
        NextKeepsInv(w, e);
        assert GroupOk(Next(w, e), c);
        DeletedHasNoCopies(Next(w, e), s, c);
      } else {
        DeleteFrame(w, e.c, DeletedByAdmin, c);
        FrameLags(w, Next(w, e), s, c);
      }
    }
  }

  // ---------------------------------------------------------------- a resumed broadcast

  lemma UpdateLags(w: World, d: ConvId, s: SocketId, c: ConvId)
    requires Enabled(w, Resume(Update(d))) && GroupOk(w, d)
    ensures LagsChange(w, Resume(Update(d)), s, c)
  {
    if d == c {
      if s in w.st.sockets {
        CopyIsOfMember(w, s, c);
      }
      RefreshEndsLag(w.st, s, c);
    } else {
      assert w.st.records[d].dto.conversationId == d;
    }
  }

  // ---------------------------------------------------------------- a resumed removal

  /** A copy that had the departed user is not the record without them. */
  lemma DepartedIsInCopy(copy: GroupDto, dto: GroupDto, t: UserId)
    requires Restrict(copy, Elements(dto.memberIds)) == dto && t in dto.memberIds
    ensures copy != RemoveMember(dto, t)
  {
    assert t in copy.memberIds && t !in RemoveMember(dto, t).memberIds;
  }

  lemma AbsentIsNotRemoved(dto: GroupDto, t: UserId)
    requires RolesOk(dto) && t !in dto.memberIds
    ensures RemoveMember(dto, t) == dto
  {}

  /** What a removal leaves of a socket's copy. */
  lemma TakenCopy(st: Store, c: ConvId, t: UserId, reason: Reason, s: SocketId)
    requires c in st.records && s in st.sockets
    ensures var st' := TakeOut(st, c, t, reason);
            && st'.records[c].dto == RemoveMember(st.records[c].dto, t)
            && (c in st'.sockets[s].view <==> c in st.sockets[s].view && !IsOf(st, s, t))
            && (c in st'.sockets[s].view ==> st'.sockets[s].view[c] == st.sockets[s].view[c])
  {}

  lemma SurvivingRemovalLags(w: World, c: ConvId, t: UserId, reason: Reason, s: SocketId)
    requires GroupOk(w, c) && c in w.st.records
    requires !(w.st.Member(t, c) && |w.st.records[c].dto.memberIds| <= MIN_MEMBERS)
    ensures Lags(TakeOut(w.st, c, t, reason), s, c) <==>
            || MakesLag(w.st, Resume(Removal(c, t, reason)), s, c)
            || (Lags(w.st, s, c) && !EndsLag(w.st, Resume(Removal(c, t, reason)), s, c))
  {
    if s in w.st.sockets {
      var dto := w.st.records[c].dto;
      CopyIsOfMember(w, s, c);
      TakenCopy(w.st, c, t, reason, s);
      if t !in dto.memberIds {
        AbsentIsNotRemoved(dto, t);
      } else if c in w.st.sockets[s].view {
        DepartedIsInCopy(w.st.sockets[s].view[c], dto, t);
      }
    }
  }

  lemma RemovalOf(w: World, c: ConvId, t: UserId, reason: Reason)
    requires Enabled(w, Resume(Removal(c, t, reason))) && GroupOk(w, c)
    ensures var st' := Next(w, Resume(Removal(c, t, reason))).st;
            && (w.st.Member(t, c) && |w.st.records[c].dto.memberIds| <= MIN_MEMBERS ==> !st'.Stored(c))
            && (w.st.Stored(c) && !(w.st.Member(t, c) && |w.st.records[c].dto.memberIds| <= MIN_MEMBERS) ==>
                  st' == TakeOut(w.st, c, t, reason))
            && (!w.st.Stored(c) ==> !st'.Stored(c))
  {
    var taken := TakeOut(w.st, c, t, reason);
    assert taken.records[c].dto.memberIds == Without(w.st.records[c].dto.memberIds, t);
  }

  lemma OwnRemovalLags(w: World, c: ConvId, t: UserId, reason: Reason, s: SocketId)
    requires Inv(w) && Enabled(w, Resume(Removal(c, t, reason)))
    ensures LagsChange(w, Resume(Removal(c, t, reason)), s, c)
  {
    var e := Resume(Removal(c, t, reason));
    assert GroupOk(w, c);
    RemovalOf(w, c, t, reason);
    if w.st.Stored(c) && !(w.st.Member(t, c) && |w.st.records[c].dto.memberIds| <= MIN_MEMBERS) {
      SurvivingRemovalLags(w, c, t, reason, s);
    } else {
      NextKeepsInv(w, e);
      assert GroupOk(Next(w, e), c);
      DeletedHasNoCopies(Next(w, e), s, c);
      if !w.st.Stored(c) {
        DeletedHasNoCopies(w, s, c);
      }
    }
  }

  lemma OtherRemovalLags(w: World, d: ConvId, t: UserId, reason: Reason, s: SocketId, c: ConvId)
    requires Enabled(w, Resume(Removal(d, t, reason))) && c != d
    ensures LagsChange(w, Resume(Removal(d, t, reason)), s, c)
  {
    var rest := w.(pending := w.pending - multiset{Removal(d, t, reason)});
    RemovalFrame(rest, d, t, reason, c);
    FrameLags(rest, Removed(rest, d, t, reason), s, c);
  }

  // ---------------------------------------------------------------- every step

  lemma ResumeLags(w: World, task: Task, s: SocketId, c: ConvId)
    requires Inv(w) && Enabled(w, Resume(task))
    ensures LagsChange(w, Resume(task), s, c)
  {
    match task
    case Removal(d, t, reason) =>
      if d == c { OwnRemovalLags(w, c, t, reason, s); } else { OtherRemovalLags(w, d, t, reason, s, c); }
    case Update(d) =>
      assert GroupOk(w, d);
      UpdateLags(w, d, s, c);
  }

  lemma OtherEventLags(w: World, e: Event, s: SocketId, c: ConvId)
    requires e.OnDisconnect? || e.OnLeave? || e.OnKick? || e.OnJoinRoom? || e.OnLeaveRoom?
    ensures LagsChange(w, e, s, c)
  {}

  /** One step: a copy lags after it exactly when the step makes it lag, or it lagged and the step
      does not end it. */
  lemma LagsChangeExactly(w: World, e: Event, s: SocketId, c: ConvId)
    requires Inv(w) && Enabled(w, e)
    ensures Lags(Next(w, e).st, s, c) <==> MakesLag(w.st, e, s, c) || (Lags(w.st, s, c) && !EndsLag(w.st, e, s, c))
  {
    assert GroupOk(w, c);
    if e.OnConnect? {
      ConnectLags(w, e.u, e.sid, s, c);
    } else if e.OnCreate? {
      CreateLags(w, e, s, c);
    } else if e.OnPromote? {
      assert GroupOk(w, e.c);
      PromoteLags(w, e, s, c);
    } else if e.OnMute? {
      assert GroupOk(w, e.c);
      MuteLags(w, e, s, c);
    } else if e.OnBlock? {
      assert GroupOk(w, e.c);
      BlockLags(w, e, s, c);
    } else if e.OnDelete? {
      DeleteLags(w, e, s, c);
    } else if e.Resume? {
      ResumeLags(w, e.task, s, c);
    } else {
      OtherEventLags(w, e, s, c);
    }
  }

  // ---------------------------------------------------------------- runs

  function LagsAt(ws: seq<World>, s: SocketId, c: ConvId): nat -> bool {
    (j: nat) => j < |ws| && Lags(ws[j].st, s, c)
  }

  function MakesAt(ws: seq<World>, es: seq<Event>, s: SocketId, c: ConvId): nat -> bool {
    (j: nat) => j < |es| && j < |ws| && MakesLag(ws[j].st, es[j], s, c)
  }

  function EndsAt(ws: seq<World>, es: seq<Event>, s: SocketId, c: ConvId): nat -> bool {
    (j: nat) => j < |es| && j < |ws| && EndsLag(ws[j].st, es[j], s, c)
  }

  lemma LagsStep(ws: seq<World>, es: seq<Event>, k: nat, s: SocketId, c: ConvId)
    requires |ws| == |es| + 1 && k < |es| && Inv(ws[k]) && Enabled(ws[k], es[k]) && ws[k + 1] == Next(ws[k], es[k])
    ensures Steps(LagsAt(ws, s, c), MakesAt(ws, es, s, c), EndsAt(ws, es, s, c), k)
  {
    LagsChangeExactly(ws[k], es[k], s, c);
  }

  /** At every point of every run, a client's copy of a group lags its record exactly when some
      resumed leave or kick took another member out of the group, while it survived, and since then
      the client's socket has not closed, the group has not been broadcast, deleted or dissolved, and
      the client's own user has not been taken out. */
  lemma LagsAreDecided(ws: seq<World>, es: seq<Event>, i: nat, s: SocketId, c: ConvId)
    requires IsRun(ws, es) && ws[0] == INIT && i <= |es|
    ensures Lags(ws[i].st, s, c) <==> Stands(MakesAt(ws, es, s, c), EndsAt(ws, es, s, c), i)
  {
    InitInv();
    forall k: nat | k < i ensures Steps(LagsAt(ws, s, c), MakesAt(ws, es, s, c), EndsAt(ws, es, s, c), k) {
      RunKeepsInv(ws, es, k);
      LagsStep(ws, es, k, s, c);
    }
    HoldsExactly(LagsAt(ws, s, c), MakesAt(ws, es, s, c), EndsAt(ws, es, s, c), i);
    assert LagsAt(ws, s, c)(i) <==> Lags(ws[i].st, s, c);
  }

  /** A client's view equals its user's part of the store exactly when no such removal stands for any
      group. */
  lemma ViewsAgreeExactly(ws: seq<World>, es: seq<Event>, i: nat, s: SocketId)
    requires IsRun(ws, es) && ws[0] == INIT && i <= |es| && s in ws[i].st.sockets
    ensures var st, k := ws[i].st, ws[i].st.sockets[s];
            k.view == (map c | c in st.records && st.Member(k.user, c) :: st.records[c].dto) <==>
            forall c :: !Stands(MakesAt(ws, es, s, c), EndsAt(ws, es, s, c), i)
  {
    InitInv();
    RunKeepsInv(ws, es, i);
    forall c ensures Stands(MakesAt(ws, es, s, c), EndsAt(ws, es, s, c), i) <==> Lags(ws[i].st, s, c) {
      LagsAreDecided(ws, es, i, s, c);
    }
    ViewEqualsExactly(ws[i], s);
  }

  lemma ViewEqualsExactly(w: World, s: SocketId)
    requires Inv(w) && s in w.st.sockets
    ensures var st, k := w.st, w.st.sockets[s];
            k.view == (map c | c in st.records && st.Member(k.user, c) :: st.records[c].dto) <==>
            forall c :: !Lags(st, s, c)
  {
    var st, k := w.st, w.st.sockets[s];
    var mine := map c | c in st.records && st.Member(k.user, c) :: st.records[c].dto;
    forall c ensures c in k.view <==> c in mine {
      assert GroupOk(w, c);
      CopyIsOfMember(w, s, c);
    }
    if forall c :: !Lags(st, s, c) {
      forall c | c in k.view ensures k.view[c] == mine[c] {
        assert !Lags(st, s, c);
      }
    }
  }
}
