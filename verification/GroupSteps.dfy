/** Each step of the protocol keeps the invariant of `GroupInvariants`. */
module GroupSteps {
  import opened Collections
  import opened GroupModel
  import opened GroupInvariants

  // ---------------------------------------------------------------- connect, disconnect

  lemma ConnectedReplica(w: World, u: UserId, sid: SocketId, c: ConvId)
    requires GroupOk(w, c)
    ensures ReplicaOk(w, Connect(w.st, u, sid).sockets[sid], c)
    ensures RoomOk(w.st, Connect(w.st, u, sid).sockets[sid], c)
  {
    assert c in Bucket(w.st.byUser, u) <==> w.st.Member(u, c);
    if w.st.Member(u, c) {
      CopyIsItself(w.st.records[c].dto);
    }
  }

  lemma ConnectKeepsGroup(w: World, u: UserId, sid: SocketId, c: ConvId)
    requires GroupOk(w, c) && sid !in w.st.sockets
    ensures GroupOk(w.(st := Connect(w.st, u, sid)), c)
  {
    var w' := w.(st := Connect(w.st, u, sid));
    ConnectedReplica(w, u, sid, c);
    forall s | s in w'.st.sockets ensures ReplicaOk(w', w'.st.sockets[s], c) {
      assert s != sid ==> ReplicaOk(w, w.st.sockets[s], c);
      assert ReplicaOk(w, w'.st.sockets[s], c);
    }
    forall x ensures c in Bucket(w'.st.byUser, x) <==> w'.st.Member(x, c) {
      assert c in Bucket(w.st.byUser, x) <==> w.st.Member(x, c);
    }
  }

  lemma ConnectKeepsInv(w: World, u: UserId, sid: SocketId)
    requires Inv(w) && sid !in w.st.sockets
    ensures Inv(w.(st := Connect(w.st, u, sid)))
    ensures KeepsRooms(w.st, Connect(w.st, u, sid))
  {
    var w' := w.(st := Connect(w.st, u, sid));
    forall c ensures GroupOk(w', c) {
      ConnectKeepsGroup(w, u, sid, c);
    }
    forall c | RoomExact(w.st, c) ensures RoomExact(w'.st, c) {
      ConnectedReplica(w, u, sid, c);
      forall s | s in w'.st.sockets ensures RoomOk(w'.st, w'.st.sockets[s], c) {
        assert s != sid ==> RoomOk(w.st, w.st.sockets[s], c);
      }
    }
  }

  lemma DisconnectKeepsInv(w: World, sid: SocketId)
    requires Inv(w)
    ensures Inv(w.(st := Disconnect(w.st, sid)))
    ensures KeepsRooms(w.st, Disconnect(w.st, sid))
  {
    var w' := w.(st := Disconnect(w.st, sid));
    forall c ensures GroupOk(w', c) {
      assert GroupOk(w, c);
      forall s | s in w'.st.sockets ensures ReplicaOk(w', w'.st.sockets[s], c) {
        assert ReplicaOk(w, w.st.sockets[s], c);
      }
    }
    forall c | RoomExact(w.st, c) ensures RoomExact(w'.st, c) {
      forall s | s in w'.st.sockets ensures RoomOk(w'.st, w'.st.sockets[s], c) {
        assert RoomOk(w.st, w.st.sockets[s], c);
      }
    }
  }

  // ---------------------------------------------------------------- steps on one group

  /** A step that touches group `c` only, and leaves that group well-formed, keeps the invariant. */
  lemma OneGroupStep(w: World, w': World, c: ConvId)
    requires Inv(w)
    requires GroupOk(w', c)
    requires forall d :: d != c ==> SameGroup(w, w', d)
    requires NoEmptyBucket(w'.st.byUser) && w'.st.active == w.st.active && TasksOk(w')
    requires w'.st.sockets.Keys == w.st.sockets.Keys
    requires forall s :: s in w.st.sockets ==> w'.st.sockets[s].user == w.st.sockets[s].user
    ensures Inv(w')
  {
    forall d ensures GroupOk(w', d) {
      if d != c {
        FrameGroup(w, w', d);
      }
    }
  }

  lemma OneGroupRooms(w: World, w': World, c: ConvId)
    requires RoomExact(w.st, c) ==> RoomExact(w'.st, c)
    requires forall d :: d != c ==> SameGroup(w, w', d)
    ensures KeepsRooms(w.st, w'.st)
  {
    forall d | d != c && RoomExact(w.st, d) ensures RoomExact(w'.st, d) {
      FrameRooms(w, w', d);
    }
  }

  // ---------------------------------------------------------------- creation

  lemma NewGroupIsWellFormed(u: UserId, name: string, memberIds: seq<UserId>, c: ConvId, now: int)
    requires u != "" && CreateCheck(u, name, memberIds) == Ok
    ensures var dto := NewGroup(u, name, memberIds, c, now);
            && dto.conversationId == c && RolesOk(dto) && dto.blockedMembers == []
            && dto.adminIds == [u] && |dto.memberIds| >= MIN_MEMBERS
  {}

  lemma InsertKeepsGroup(w: World, dto: GroupDto)
    requires var c := dto.conversationId; GroupOk(w, c) && c !in w.st.records
    requires RolesOk(dto) && |dto.memberIds| >= MIN_MEMBERS
    ensures GroupOk(w.(st := Insert(w.st, dto)), dto.conversationId)
  {
    var c := dto.conversationId;
    var w' := w.(st := Insert(w.st, dto));
    CopyIsItself(dto);
    forall s | s in w'.st.sockets ensures ReplicaOk(w', w'.st.sockets[s], c) {
      assert ReplicaOk(w, w.st.sockets[s], c);
    }
    forall x ensures c in Bucket(w'.st.byUser, x) <==> w'.st.Member(x, c) {
      assert c in Bucket(w.st.byUser, x) <==> w.st.Member(x, c);
    }
  }

  lemma InsertFrame(w: World, dto: GroupDto, d: ConvId)
    requires d != dto.conversationId
    ensures SameGroup(w, w.(st := Insert(w.st, dto)), d)
  {}

  lemma InsertRooms(st: Store, dto: GroupDto)
    requires dto.conversationId !in st.records && RoomExact(st, dto.conversationId) && dto.blockedMembers == []
    ensures RoomExact(Insert(st, dto), dto.conversationId)
  {
    var st' := Insert(st, dto);
    forall s | s in st'.sockets ensures RoomOk(st', st'.sockets[s], dto.conversationId) {
      assert RoomOk(st, st.sockets[s], dto.conversationId);
    }
  }

  lemma InsertKeepsInv(w: World, dto: GroupDto)
    requires Inv(w) && dto.conversationId !in w.st.records
    requires RolesOk(dto) && |dto.memberIds| >= MIN_MEMBERS && dto.blockedMembers == []
    ensures Inv(w.(st := Insert(w.st, dto)))
    ensures KeepsRooms(w.st, Insert(w.st, dto))
  {
    var c, w' := dto.conversationId, w.(st := Insert(w.st, dto));
    assert GroupOk(w, c);
    InsertKeepsGroup(w, dto);
    forall d | d != c ensures SameGroup(w, w', d) { InsertFrame(w, dto, d); }
    OneGroupStep(w, w', c);
    if RoomExact(w.st, c) {
      InsertRooms(w.st, dto);
    }
    OneGroupRooms(w, w', c);
  }

  lemma CreateKeepsInv(w: World, u: UserId, name: string, memberIds: seq<UserId>, c: ConvId, now: int)
    requires Inv(w) && u != "" && c !in w.st.records
    ensures Inv(w.(st := Create(w.st, u, name, memberIds, c, now)))
    ensures KeepsRooms(w.st, Create(w.st, u, name, memberIds, c, now))
  {
    if CreateCheck(u, name, memberIds) == Ok {
      NewGroupIsWellFormed(u, name, memberIds, c, now);
      InsertKeepsInv(w, NewGroup(u, name, memberIds, c, now));
    }
  }

  // ---------------------------------------------------------------- deletion

  ghost predicate ViewDomainOk(st: Store, c: ConvId) {
    forall s :: s in st.sockets ==> (c in st.sockets[s].view <==> st.Member(st.sockets[s].user, c))
  }

  /** Deletion works on a group that is too small, which `autoDeleteIfTooSmall` hands to it. */
  lemma DeleteKeepsGroup(w: World, c: ConvId, reason: Reason)
    requires RecordOk(w.st, c) && IndexOk(w.st, c) && ViewDomainOk(w.st, c)
    ensures GroupOk(w.(st := DeleteGroup(w.st, c, reason)), c)
    ensures !DeleteGroup(w.st, c, reason).Stored(c)
  {
    var w' := w.(st := DeleteGroup(w.st, c, reason));
    forall s | s in w'.st.sockets ensures ReplicaOk(w', w'.st.sockets[s], c) {
      assert c in w.st.sockets[s].view <==> w.st.Member(w.st.sockets[s].user, c);
    }
    forall x ensures c in Bucket(w'.st.byUser, x) <==> w'.st.Member(x, c) {
      assert c in Bucket(w.st.byUser, x) <==> w.st.Member(x, c);
    }
  }

  lemma DeleteFrame(w: World, c: ConvId, reason: Reason, d: ConvId)
    requires d != c
    ensures SameGroup(w, w.(st := DeleteGroup(w.st, c, reason)), d)
  {}

  lemma DeleteRooms(st: Store, c: ConvId, reason: Reason)
    requires RecordOk(st, c) && RoomExact(st, c)
    ensures RoomExact(DeleteGroup(st, c, reason), c)
  {
    var st' := DeleteGroup(st, c, reason);
    forall s | s in st'.sockets ensures RoomOk(st', st'.sockets[s], c) {
      assert RoomOk(st, st.sockets[s], c);
    }
  }

  lemma DeleteKeepsInv(w: World, c: ConvId, reason: Reason)
    requires Inv(w)
    ensures Inv(w.(st := DeleteGroup(w.st, c, reason)))
    ensures KeepsRooms(w.st, DeleteGroup(w.st, c, reason))
  {
    var w' := w.(st := DeleteGroup(w.st, c, reason));
    assert GroupOk(w, c);
    forall s | s in w.st.sockets ensures c in w.st.sockets[s].view <==> w.st.Member(w.st.sockets[s].user, c) {
      assert ReplicaOk(w, w.st.sockets[s], c);
    }
    DeleteKeepsGroup(w, c, reason);
    forall d | d != c ensures SameGroup(w, w', d) { DeleteFrame(w, c, reason, d); }
    OneGroupStep(w, w', c);
    if RoomExact(w.st, c) {
      DeleteRooms(w.st, c, reason);
    }
    OneGroupRooms(w, w', c);
  }

  // ---------------------------------------------------------------- refresh

  /** After `broadcastGroupUpdated`, every copy of the group is the record: nothing lags. */
  lemma RefreshMakesFresh(w: World, c: ConvId)
    requires c in w.st.records && RecordOk(w.st, c) && SizeOk(w.st, c) && IndexOk(w.st, c) && ViewDomainOk(w.st, c)
    ensures GroupOk(w.(st := Refresh(w.st, c)), c)
    ensures forall s :: s in Refresh(w.st, c).sockets && c in Refresh(w.st, c).sockets[s].view ==>
              Refresh(w.st, c).sockets[s].view[c] == w.st.records[c].dto
  {
    var w' := w.(st := Refresh(w.st, c));
    CopyIsItself(w.st.records[c].dto);
    forall s | s in w'.st.sockets
      ensures ReplicaOk(w', w'.st.sockets[s], c)
      ensures c in w'.st.sockets[s].view ==> w'.st.sockets[s].view[c] == w.st.records[c].dto
    {
      assert c in w.st.sockets[s].view <==> w.st.Member(w.st.sockets[s].user, c);
    }
    forall x ensures c in Bucket(w'.st.byUser, x) <==> w'.st.Member(x, c) {
      assert c in Bucket(w.st.byUser, x) <==> w.st.Member(x, c);
    }
  }

  lemma InvViewDomain(w: World, c: ConvId)
    requires GroupOk(w, c)
    ensures ViewDomainOk(w.st, c)
  {
    forall s | s in w.st.sockets ensures c in w.st.sockets[s].view <==> w.st.Member(w.st.sockets[s].user, c) {
      assert ReplicaOk(w, w.st.sockets[s], c);
    }
  }

  /** The suspended broadcast of a leave or kick resumes. */
  lemma UpdateKeepsInv(w: World, c: ConvId)
    requires Inv(w) && c in w.st.records
    ensures Inv(World(Refresh(w.st, c), w.pending - multiset{Update(c)}))
    ensures KeepsRooms(w.st, Refresh(w.st, c))
  {
    var w' := World(Refresh(w.st, c), w.pending - multiset{Update(c)});
    assert GroupOk(w, c);
    InvViewDomain(w, c);
    RefreshMakesFresh(w, c);
    assert GroupOk(w', c) by {
      var w1 := w.(st := w'.st);
      assert GroupOk(w1, c);
      forall s | s in w'.st.sockets ensures ReplicaOk(w', w'.st.sockets[s], c) {
        assert ReplicaOk(w1, w'.st.sockets[s], c);
      }
    }
    OneGroupStep(w, w', c);
    if RoomExact(w.st, c) {
      forall s | s in w'.st.sockets ensures RoomOk(w'.st, w'.st.sockets[s], c) {
        assert RoomOk(w.st, w.st.sockets[s], c);
      }
    }
    OneGroupRooms(w, w', c);
  }

  // ---------------------------------------------------------------- promote, mute, block

  /** Sockets that differ from others only in the room of `c`. */
  ghost predicate SameButRoom(sockets: Sockets, others: Sockets, c: ConvId) {
    && sockets.Keys == others.Keys
    && forall s :: s in sockets ==>
         && sockets[s].user == others[s].user && sockets[s].view == others[s].view
         && forall d :: d != c ==> (d in sockets[s].rooms <==> d in others[s].rooms)
  }

  lemma RoleChangeIsGroupOk(w: World, c: ConvId, dto: GroupDto, sockets: Sockets)
    requires GroupOk(w, c) && w.st.Stored(c) && SameButRoom(sockets, w.st.sockets, c)
    requires RolesOk(dto) && dto.conversationId == c && dto.memberIds == w.st.records[c].dto.memberIds
    ensures GroupOk(w.(st := Refresh(w.st.WithDto(c, dto).(sockets := sockets), c)), c)
  {
    var w1 := w.(st := w.st.WithDto(c, dto).(sockets := sockets));
    InvViewDomain(w, c);
    forall s | s in sockets ensures c in sockets[s].view <==> w1.st.Member(sockets[s].user, c) {
      assert c in w.st.sockets[s].view <==> w.st.Member(w.st.sockets[s].user, c);
    }
    forall x ensures c in Bucket(w1.st.byUser, x) <==> w1.st.Member(x, c) {
      assert c in Bucket(w.st.byUser, x) <==> w.st.Member(x, c);
    }
    RefreshMakesFresh(w1, c);
  }

  lemma RoleChangeFrame(w: World, c: ConvId, dto: GroupDto, sockets: Sockets, d: ConvId)
    requires w.st.Stored(c) && SameButRoom(sockets, w.st.sockets, c) && dto.conversationId == c && d != c
    ensures SameGroup(w, w.(st := Refresh(w.st.WithDto(c, dto).(sockets := sockets), c)), d)
  {}

  /** Changing the roles of a stored group, then broadcasting. */
  lemma RoleChangeKeepsInv(w: World, c: ConvId, dto: GroupDto, sockets: Sockets)
    requires Inv(w) && w.st.Stored(c) && SameButRoom(sockets, w.st.sockets, c)
    requires RolesOk(dto) && dto.conversationId == c && dto.memberIds == w.st.records[c].dto.memberIds
    ensures Inv(w.(st := Refresh(w.st.WithDto(c, dto).(sockets := sockets), c)))
  {
    var w' := w.(st := Refresh(w.st.WithDto(c, dto).(sockets := sockets), c));
    assert GroupOk(w, c);
    RoleChangeIsGroupOk(w, c, dto, sockets);
    forall d | d != c ensures SameGroup(w, w', d) { RoleChangeFrame(w, c, dto, sockets, d); }
    OneGroupStep(w, w', c);
  }

  lemma RoleChangeRooms(w: World, c: ConvId, dto: GroupDto, sockets: Sockets)
    requires w.st.Stored(c) && dto.conversationId == c && SameButRoom(sockets, w.st.sockets, c)
    requires RoomExact(w.st, c) ==> forall s :: s in sockets ==>
               (c in sockets[s].rooms <==> sockets[s].user in dto.memberIds && sockets[s].user !in dto.blockedMembers)
    ensures KeepsRooms(w.st, Refresh(w.st.WithDto(c, dto).(sockets := sockets), c))
  {
    var w' := w.(st := Refresh(w.st.WithDto(c, dto).(sockets := sockets), c));
    forall d | d != c ensures SameGroup(w, w', d) { RoleChangeFrame(w, c, dto, sockets, d); }
    OneGroupRooms(w, w', c);
  }

  lemma RolesKeepInv(w: World, u: UserId, c: ConvId, t: UserId, on: bool)
    requires Inv(w) && AdminCheck(w.st, u, c, t) == Ok
    ensures Inv(w.(st := Promote(w.st, u, c, t))) && Inv(w.(st := MuteMember(w.st, u, c, t, on)))
    ensures KeepsRooms(w.st, Promote(w.st, u, c, t)) && KeepsRooms(w.st, MuteMember(w.st, u, c, t, on))
  {
    var dto := w.st.records[c].dto;
    assert GroupOk(w, c);
    var promoted := dto.(adminIds := Toggle(dto.adminIds, t, true));
    var muted := dto.(mutedMembers := Toggle(dto.mutedMembers, t, on));
    ToggleKeepsList(dto.adminIds, t, true);
    ToggleKeepsList(dto.mutedMembers, t, on);
    RoleChangeKeepsInv(w, c, promoted, w.st.sockets);
    RoleChangeKeepsInv(w, c, muted, w.st.sockets);
    assert RoomExact(w.st, c) ==> forall s :: s in w.st.sockets ==> RoomOk(w.st, w.st.sockets[s], c);
    RoleChangeRooms(w, c, promoted, w.st.sockets);
    RoleChangeRooms(w, c, muted, w.st.sockets);
  }

  lemma BlockMovesRooms(st: Store, c: ConvId, t: UserId, on: bool)
    requires st.Stored(c) && RecordOk(st, c) && t in st.records[c].dto.memberIds
    requires RoomExact(st, c)
    ensures var dto := st.records[c].dto;
            var sockets := BlockMoves(st, c, t, on);
            forall s :: s in sockets ==>
              (c in sockets[s].rooms <==>
               sockets[s].user in dto.memberIds && sockets[s].user !in Toggle(dto.blockedMembers, t, on))
  {
    var sockets := BlockMoves(st, c, t, on);
    ToggleKeepsList(st.records[c].dto.blockedMembers, t, on);
    forall s | s in sockets
      ensures c in sockets[s].rooms <==>
              sockets[s].user in st.records[c].dto.memberIds
              && sockets[s].user !in Toggle(st.records[c].dto.blockedMembers, t, on)
    {
      assert RoomOk(st, st.sockets[s], c);
    }
  }

  lemma BlockMovesAreLocal(st: Store, c: ConvId, t: UserId, on: bool)
    requires c in st.records
    ensures SameButRoom(BlockMoves(st, c, t, on), st.sockets, c)
  {}

  lemma BlockIsRoleChange(st: Store, u: UserId, c: ConvId, t: UserId, on: bool)
    requires AdminCheck(st, u, c, t) == Ok
    ensures var dto := st.records[c].dto;
            var blocked := dto.(blockedMembers := Toggle(dto.blockedMembers, t, on));
            BlockMember(st, u, c, t, on) == Refresh(st.WithDto(c, blocked).(sockets := BlockMoves(st, c, t, on)), c)
  {}

  lemma BlockKeepsInv(w: World, u: UserId, c: ConvId, t: UserId, on: bool)
    requires Inv(w) && AdminCheck(w.st, u, c, t) == Ok
    ensures Inv(w.(st := BlockMember(w.st, u, c, t, on)))
    ensures KeepsRooms(w.st, BlockMember(w.st, u, c, t, on))
  {
    var dto := w.st.records[c].dto;
    var blocked := dto.(blockedMembers := Toggle(dto.blockedMembers, t, on));
    assert GroupOk(w, c);
    ToggleKeepsList(dto.blockedMembers, t, on);
    BlockMovesAreLocal(w.st, c, t, on);
    BlockIsRoleChange(w.st, u, c, t, on);
    RoleChangeKeepsInv(w, c, blocked, BlockMoves(w.st, c, t, on));
    if RoomExact(w.st, c) {
      BlockMovesRooms(w.st, c, t, on);
    }
    RoleChangeRooms(w, c, blocked, BlockMoves(w.st, c, t, on));
  }

  // ---------------------------------------------------------------- leave, kick

  /** The group is well-formed but for its size, and its copies may lag by the target. */
  lemma TakeOutKeepsGroup(w: World, c: ConvId, t: UserId, reason: Reason)
    requires GroupOk(w, c) && c in w.st.records
    ensures var w' := World(TakeOut(w.st, c, t, reason), w.pending + multiset{Update(c)});
            RecordOk(w'.st, c) && IndexOk(w'.st, c) && ReplicasOk(w', c)
  {
    var w' := World(TakeOut(w.st, c, t, reason), w.pending + multiset{Update(c)});
    RemovalKeepsRoles(w.st.records[c].dto, t);
    forall s | s in w'.st.sockets ensures ReplicaOk(w', w'.st.sockets[s], c) {
      var k := w.st.sockets[s];
      assert ReplicaOk(w, k, c);
      if c in k.view {
        RemovalKeepsLag(k.view[c], w.st.records[c].dto, t);
      }
    }
    forall x ensures c in Bucket(w'.st.byUser, x) <==> w'.st.Member(x, c) {
      assert c in Bucket(w.st.byUser, x) <==> w.st.Member(x, c);
    }
  }

  lemma TakeOutFrame(w: World, c: ConvId, t: UserId, reason: Reason, d: ConvId)
    requires d != c && c in w.st.records
    ensures SameGroup(w, w.(st := TakeOut(w.st, c, t, reason)), d)
  {}

  lemma TakeOutRooms(st: Store, c: ConvId, t: UserId, reason: Reason)
    requires c in st.records && RoomExact(st, c)
    ensures RoomExact(TakeOut(st, c, t, reason), c)
  {
    var st' := TakeOut(st, c, t, reason);
    forall s | s in st'.sockets ensures RoomOk(st', st'.sockets[s], c) {
      assert RoomOk(st, st.sockets[s], c);
    }
  }

  lemma RemovalKeepsGroup(w: World, c: ConvId, t: UserId, reason: Reason)
    requires GroupOk(w, c) && c in w.st.records
    ensures GroupOk(Removed(w, c, t, reason), c)
  {
    var w' := Removed(w, c, t, reason);
    var taken := World(TakeOut(w.st, c, t, reason), w.pending + multiset{Update(c)});
    TakeOutKeepsGroup(w, c, t, reason);
    if |RemoveMember(w.st.records[c].dto, t).memberIds| < MIN_MEMBERS {
      forall s | s in taken.st.sockets
        ensures c in taken.st.sockets[s].view <==> taken.st.Member(taken.st.sockets[s].user, c)
      {
        assert ReplicaOk(taken, taken.st.sockets[s], c);
      }
      DeleteKeepsGroup(taken, c, Dissolved);
      var dissolved := taken.(st := DeleteGroup(taken.st, c, Dissolved));
      assert w'.st == dissolved.st;
      forall s | s in w'.st.sockets ensures ReplicaOk(w', w'.st.sockets[s], c) {
        assert ReplicaOk(dissolved, w'.st.sockets[s], c);
      }
    } else {
      assert w' == taken;
    }
  }

  lemma RemovalFrame(w: World, c: ConvId, t: UserId, reason: Reason, d: ConvId)
    requires d != c && c in w.st.records
    ensures SameGroup(w, Removed(w, c, t, reason), d)
  {
    var taken := w.(st := TakeOut(w.st, c, t, reason));
    TakeOutFrame(w, c, t, reason, d);
    DeleteFrame(taken, c, Dissolved, d);
  }

  lemma RemovalShape(w: World, c: ConvId, t: UserId, reason: Reason)
    requires c in w.st.records
    ensures var w' := Removed(w, c, t, reason);
            && w'.st.active == w.st.active
            && w'.st.records.Keys == w.st.records.Keys
            && w'.st.sockets.Keys == w.st.sockets.Keys
            && (forall s :: s in w.st.sockets ==> w'.st.sockets[s].user == w.st.sockets[s].user)
            && (NoEmptyBucket(w.st.byUser) ==> NoEmptyBucket(w'.st.byUser))
            && w'.pending <= w.pending + multiset{Update(c)}
  {
    var taken := TakeOut(w.st, c, t, reason);
    var w' := Removed(w, c, t, reason);
    assert w'.st == taken || w'.st == DeleteGroup(taken, c, Dissolved);
  }

  lemma RemovalKeepsRooms(w: World, c: ConvId, t: UserId, reason: Reason)
    requires GroupOk(w, c) && c in w.st.records
    ensures KeepsRooms(w.st, Removed(w, c, t, reason).st)
  {
    var w' := Removed(w, c, t, reason);
    if RoomExact(w.st, c) {
      TakeOutRooms(w.st, c, t, reason);
      TakeOutKeepsGroup(w, c, t, reason);
      DeleteRooms(TakeOut(w.st, c, t, reason), c, Dissolved);
    }
    forall d | d != c ensures SameGroup(w, w', d) { RemovalFrame(w, c, t, reason, d); }
    OneGroupRooms(w, w', c);
  }

  /** A suspended leave or kick resumes, on a record that may have changed or been detached. */
  lemma RemovalKeepsInv(w: World, c: ConvId, t: UserId, reason: Reason)
    requires Inv(w) && c in w.st.records
    ensures Inv(Removed(w, c, t, reason))
    ensures KeepsRooms(w.st, Removed(w, c, t, reason).st)
  {
    var w' := Removed(w, c, t, reason);
    RemovalKeepsGroup(w, c, t, reason);
    forall d | d != c ensures SameGroup(w, w', d) { RemovalFrame(w, c, t, reason, d); }
    RemovalShape(w, c, t, reason);
    OneGroupStep(w, w', c);
    assert GroupOk(w, c);
    RemovalKeepsRooms(w, c, t, reason);
  }

  // ---------------------------------------------------------------- every step

  /** What only changes rooms or suspends a task keeps the invariant. */
  lemma RoomMovesKeepInv(w: World, sockets: Sockets)
    requires Inv(w) && sockets.Keys == w.st.sockets.Keys
    requires forall s :: s in sockets ==>
               sockets[s].user == w.st.sockets[s].user && sockets[s].view == w.st.sockets[s].view
    ensures Inv(w.(st := w.st.(sockets := sockets)))
  {
    var w' := w.(st := w.st.(sockets := sockets));
    forall c ensures GroupOk(w', c) {
      assert GroupOk(w, c);
      forall s | s in sockets ensures ReplicaOk(w', sockets[s], c) {
        assert ReplicaOk(w, w.st.sockets[s], c);
      }
      forall x ensures c in Bucket(w'.st.byUser, x) <==> w'.st.Member(x, c) {
        assert c in Bucket(w.st.byUser, x) <==> w.st.Member(x, c);
      }
    }
  }

  lemma SuspendKeepsInv(w: World, pending: multiset<Task>)
    requires Inv(w) && forall task :: task in pending ==> task.c in w.st.records
    requires forall c :: Update(c) in w.pending ==> Update(c) in pending
    ensures Inv(w.(pending := pending))
  {
    var w' := w.(pending := pending);
    forall c ensures GroupOk(w', c) {
      assert GroupOk(w, c);
      FrameGroup(w, w', c);
    }
  }

  /** A client moves itself into or out of the room of `c`. */
  predicate MovesRoom(e: Event, c: ConvId) { (e.OnJoinRoom? || e.OnLeaveRoom?) && e.c == c }

  lemma MovesKeepOtherRooms(w: World, e: Event, c: ConvId)
    requires (e.OnJoinRoom? || e.OnLeaveRoom?) && !MovesRoom(e, c) && RoomExact(w.st, c)
    ensures RoomExact(Next(w, e).st, c)
  {
    FrameRooms(w, Next(w, e), c);
  }

  lemma ResumeKeepsInv(w: World, task: Task)
    requires Inv(w) && Enabled(w, Resume(task))
    ensures Inv(Next(w, Resume(task)))
    ensures KeepsRooms(w.st, Next(w, Resume(task)).st)
  {
    match task
    case Removal(c, t, reason) =>
      var rest := w.(pending := w.pending - multiset{task});
      SuspendKeepsInv(w, rest.pending);
      assert rest.pending + multiset{task} == w.pending;
      RemovalKeepsInv(rest, c, t, reason);
    case Update(c) =>
      UpdateKeepsInv(w, c);
  }

  lemma NextKeepsInv(w: World, e: Event)
    requires Inv(w) && Enabled(w, e)
    ensures Inv(Next(w, e))
    ensures forall c :: RoomExact(w.st, c) && !MovesRoom(e, c) ==> RoomExact(Next(w, e).st, c)
  {
    match e
    case OnConnect(u, sid) => ConnectKeepsInv(w, u, sid);
    case OnDisconnect(sid) => DisconnectKeepsInv(w, sid);
    case OnCreate(u, name, memberIds, c, now) => CreateKeepsInv(w, u, name, memberIds, c, now);
    case OnLeave(u, c) => SuspendKeepsInv(w, Next(w, e).pending);
    case OnKick(u, c, target) => SuspendKeepsInv(w, Next(w, e).pending);
    case OnPromote(u, c, t) => if AdminCheck(w.st, u, c, t) == Ok { RolesKeepInv(w, u, c, t, true); }
    case OnMute(u, c, t, on) => if AdminCheck(w.st, u, c, t) == Ok { RolesKeepInv(w, u, c, t, on); }
    case OnBlock(u, c, t, on) => if AdminCheck(w.st, u, c, t) == Ok { BlockKeepsInv(w, u, c, t, on); }
    case OnDelete(u, c) => DeleteKeepsInv(w, c, DeletedByAdmin);
    case OnJoinRoom(_, _) => RoomMoveKeepsInv(w, e);
    case OnLeaveRoom(_, _) => RoomMoveKeepsInv(w, e);
    case Resume(task) => ResumeKeepsInv(w, task);
  }

  lemma RoomMoveKeepsInv(w: World, e: Event)
    requires Inv(w) && (e.OnJoinRoom? || e.OnLeaveRoom?)
    ensures Inv(Next(w, e))
    ensures forall c :: RoomExact(w.st, c) && !MovesRoom(e, c) ==> RoomExact(Next(w, e).st, c)
  {
    RoomMovesKeepInv(w, Next(w, e).st.sockets);
    forall c | RoomExact(w.st, c) && !MovesRoom(e, c) ensures RoomExact(Next(w, e).st, c) {
      MovesKeepOtherRooms(w, e, c);
    }
  }
}
