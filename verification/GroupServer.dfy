/** The group handlers as they run: records are shared objects whose lists are reassigned, maps
    are updated in place, loops visit members and sockets one by one
    (src/feature/chat/handlers/group.handler.ts, src/feature/chat/store/group.store.ts).
    Every method computes exactly its step of `GroupModel`. */
module GroupServer {
  import opened Collections
  import opened GroupModel
  import opened GroupAccess
  import opened Namespace

  class GroupRecord {
    const conversationId: ConvId
    const name: string
    const createdAt: int
    const createdBy: UserId
    var memberIds: seq<UserId>
    var adminIds: seq<UserId>
    var mutedMembers: seq<UserId>
    var blockedMembers: seq<UserId>

    constructor (dto: GroupDto)
      ensures Dto() == dto
    {
      conversationId, name, createdAt, createdBy := dto.conversationId, dto.name, dto.createdAt, dto.createdBy;
      memberIds, adminIds := dto.memberIds, dto.adminIds;
      mutedMembers, blockedMembers := dto.mutedMembers, dto.blockedMembers;
    }

    /** The four `filter` assignments of a resumed leave or kick. */
    method Strike(t: UserId)
      modifies this
      ensures Dto() == RemoveMember(old(Dto()), t)
    {
      memberIds := Without(memberIds, t);
      adminIds := Without(adminIds, t);
      mutedMembers := Without(mutedMembers, t);
      blockedMembers := Without(blockedMembers, t);
    }

    /** `toGroupDto` */
    function Dto(): GroupDto
      reads this
    {
      GroupDto(conversationId, name, memberIds, adminIds, mutedMembers, blockedMembers, createdAt, createdBy)
    }
  }

  class Server {
    const nsp: Nsp
    var groupStore: map<ConvId, GroupRecord>
    var groupsByUser: map<UserId, set<ConvId>>
    ghost var created: map<ConvId, GroupRecord>  // every record ever made, stored or not

    ghost predicate Valid()
      reads this, nsp, nsp.users
    {
      && nsp.Valid()
      && NoEmptyBucket(groupsByUser)
      && (forall c :: c in created ==> created[c].conversationId == c)
      && (forall c :: c in groupStore ==> c in created && groupStore[c] == created[c])
    }

    ghost function Records(): map<ConvId, Entry>
      reads this, created.Values
    {
      map c | c in created :: Entry(created[c].Dto(), c in groupStore)
    }

    ghost function Abs(): Store
      reads this, nsp, nsp.users, created.Values
    {
      Store(Records(), groupsByUser, nsp.users.activeUserSockets, nsp.sockets)
    }

    constructor ()
      ensures Valid() && Abs() == INIT.st && fresh(nsp) && fresh(nsp.users)
    {
      nsp := new Nsp();
      groupStore, groupsByUser, created := map[], map[], map[];
    }

    // -------------------------------------------------------------- the index

    method AddUserToGroup(userId: UserId, c: ConvId)
      modifies this`groupsByUser
      ensures groupsByUser == PutInBucket(old(groupsByUser), userId, c)
    {
      if userId !in groupsByUser {
        groupsByUser := groupsByUser[userId := {}];
      }
      groupsByUser := groupsByUser[userId := groupsByUser[userId] + {c}];
    }

    method RemoveUserFromGroup(userId: UserId, c: ConvId)
      modifies this`groupsByUser
      ensures groupsByUser == DropFromBucket(old(groupsByUser), userId, c)
    {
      if userId !in groupsByUser { return; }
      var rest := groupsByUser[userId] - {c};
      groupsByUser := groupsByUser[userId := rest];
      if |rest| == 0 {
        groupsByUser := groupsByUser - {userId};
      }
      assert rest == old(groupsByUser[userId]) - {c};
    }

    // -------------------------------------------------------------- broadcastGroupUpdated

    /** Each member's user room, then the group's own room: a socket in both gets the event twice. */
    method BroadcastGroupUpdated(record: GroupRecord)
      requires Valid() && record.conversationId in created && created[record.conversationId] == record
      modifies nsp`sockets
      ensures Valid() && Abs() == Refresh(old(Abs()), record.conversationId)
    {
      var dto := record.Dto();
      RefreshedSockets(Abs(), dto);
      nsp.EmitToUsers(record.memberIds, GroupUpdated(dto));
      nsp.EmitToRoom(record.conversationId, GroupUpdated(dto));
    }

    // -------------------------------------------------------------- deleteGroup

    /** One turn of the loop of `deleteGroup`. */
    method Forget(uid: UserId, c: ConvId, reason: Reason)
      requires Valid()
      modifies nsp`sockets, this`groupsByUser
      ensures Valid() && Records() == old(Records())
      ensures groupsByUser == DropFromBucket(old(groupsByUser), uid, c)
      ensures nsp.sockets == Forgotten(old(nsp.sockets), {uid}, c, reason)
    {
      RemoveUserFromGroup(uid, c);
      nsp.MoveGroupRoom(c, uid, false);
      nsp.EmitToUser(uid, GroupDeleted(c, reason));
    }

    method ForgetAll(userIds: set<UserId>, c: ConvId, reason: Reason)
      requires Valid()
      modifies nsp`sockets, this`groupsByUser
      ensures Valid() && Records() == old(Records())
      ensures groupsByUser == UnindexAll(old(groupsByUser), userIds, c)
      ensures nsp.sockets == Forgotten(old(nsp.sockets), userIds, c, reason)
    {
      var done := {};
      BucketsDetermineMap(groupsByUser, UnindexAll(groupsByUser, {}, c));
      while userIds - done != {}
        invariant done <= userIds && Valid() && Records() == old(Records())
        invariant groupsByUser == UnindexAll(old(groupsByUser), done, c)
        invariant nsp.sockets == Forgotten(old(nsp.sockets), done, c, reason)
        decreases userIds - done
      {
        var uid :| uid in userIds - done;
        UnindexOneMore(old(groupsByUser), done, uid, c);
        ForgottenOneMore(old(nsp.sockets), done, uid, c, reason);
        Forget(uid, c, reason);
        done := done + {uid};
      }
    }

    method DeleteGroup(c: ConvId, reason: Reason)
      requires Valid()
      modifies nsp`sockets, this`groupsByUser, this`groupStore
      ensures Valid() && Abs() == GroupModel.DeleteGroup(old(Abs()), c, reason)
    {
      if c !in groupStore { return; }
      var record := groupStore[c];
      var allWhoSawIt := Elements(record.memberIds) + Elements(record.blockedMembers);
      ghost var was := Records();
      ForgetAll(allWhoSawIt, c, reason);
      groupStore := groupStore - {c};
      assert Records() == was[c := Entry(record.Dto(), false)];
    }

    // -------------------------------------------------------------- group:create

    /** `addUserToGroup` and `joinGroupRoom`. */
    method Enter(userId: UserId, c: ConvId)
      requires Valid()
      modifies nsp`sockets, this`groupsByUser
      ensures Valid() && Records() == old(Records())
      ensures groupsByUser == PutInBucket(old(groupsByUser), userId, c)
      ensures nsp.sockets == Moved(old(nsp.sockets), {userId}, c, true)
    {
      AddUserToGroup(userId, c);
      nsp.MoveGroupRoom(c, userId, true);
    }

    method EnterAll(members: seq<UserId>, c: ConvId)
      requires Valid()
      modifies nsp`sockets, this`groupsByUser
      ensures Valid() && Records() == old(Records())
      ensures groupsByUser == IndexAll(old(groupsByUser), members, c)
      ensures nsp.sockets == Moved(old(nsp.sockets), Elements(members), c, true)
    {
      assert nsp.sockets == Moved(nsp.sockets, {}, c, true);
      for i := 0 to |members|
        invariant Valid() && Records() == old(Records())
        invariant groupsByUser == IndexAll(old(groupsByUser), members[..i], c)
        invariant nsp.sockets == Moved(old(nsp.sockets), Elements(members[..i]), c, true)
      {
        EnterOneMore(old(groupsByUser), old(nsp.sockets), members, i, c);
        Enter(members[i], c);
      }
      assert members[..|members|] == members;
    }

    method SaveGroup(record: GroupRecord)
      requires Valid() && record.conversationId !in created
      modifies this`groupStore, this`created
      ensures Valid() && created == old(created)[record.conversationId := record]
      ensures Records() == old(Records())[record.conversationId := Entry(record.Dto(), true)]
    {
      groupStore, created := groupStore[record.conversationId := record], created[record.conversationId := record];
    }

    /** `saveGroup`, then both loops of `group:create`. */
    method Announce(record: GroupRecord)
      requires Valid() && record.conversationId !in created
      modifies this, nsp`sockets
      ensures Valid() && Abs() == Insert(old(Abs()), record.Dto())
      ensures created == old(created)[record.conversationId := record]
    {
      ghost var was, dto := Abs(), record.Dto();
      InsertedSockets(was, dto);
      SaveGroup(record);
      EnterAll(record.memberIds, record.conversationId);
      nsp.EmitToUsers(record.memberIds, GroupCreated(record.Dto()));
      assert Records() == Insert(was, dto).records;
    }

    /** A new record, announced to its members. */
    method AddGroup(dto: GroupDto)
      requires Valid() && dto.conversationId !in created
      modifies this, nsp`sockets
      ensures Valid() && Abs() == Insert(old(Abs()), dto)
      ensures forall d :: d in old(created) ==> d in created && created[d] == old(created)[d]
    {
      ghost var was := Abs();
      var record := new GroupRecord(dto);
      assert Abs() == was;
      Announce(record);
    }

    method HandleCreate(u: UserId, name: string, memberIds: seq<UserId>, c: ConvId, now: int) returns (ack: Ack)
      requires Valid() && u != "" && c !in created
      modifies this, nsp`sockets
      ensures Valid() && ack == CreateCheck(u, name, memberIds)
      ensures ack == MinMembers <==> |People(u, memberIds)| < 3
      ensures ack == Ok <==> |People(u, memberIds)| >= 3 && |JsStrings.Trim(name)| <= 60
      ensures ack != Ok ==> Abs() == old(Abs())
      ensures Abs() == Create(old(Abs()), u, name, memberIds, c, now)
      ensures forall d :: d in old(created) ==> d in created && created[d] == old(created)[d]
    {
      CreateAnswers(u, name, memberIds);
      if |UniqueMembers(u, memberIds)| < MIN_MEMBERS { return MinMembers; }
      if |JsStrings.Trim(name)| > MAX_NAME { return NameTooLong; }
      AddGroup(NewGroup(u, name, memberIds, c, now));
      ack := Ok;
    }

    // -------------------------------------------------------------- group:leave, group:kick

    /** Up to `await emitGroupSystemMessage`: the suspended handler keeps the record it checked. */
    method HandleLeave(u: UserId, c: ConvId) returns (ack: Ack, held: Option<GroupRecord>)
      requires Valid()
      ensures ack == LeaveCheck(Abs(), u, c)
      ensures ack == NotFound <==> c !in groupStore
      ensures ack == NotMember <==> c in groupStore && u !in groupStore[c].memberIds
      ensures ack == MustTransferAdmin <==>
                && c in groupStore && u in groupStore[c].memberIds
                && u in groupStore[c].adminIds && |groupStore[c].adminIds| == 1 && |groupStore[c].memberIds| > 1
      ensures ack in {NotFound, NotMember, MustTransferAdmin, Ok}
      ensures ack == Ok ==> c in created && held == Some(created[c])
    {
      if c !in groupStore { return NotFound, None; }
      var record := groupStore[c];
      if u !in record.memberIds { return NotMember, None; }
      if u in record.adminIds && |record.adminIds| == 1 && |record.memberIds| > 1 { return MustTransferAdmin, None; }
      return Ok, Some(record);
    }

    method HandleKick(u: UserId, c: ConvId, target: UserId) returns (ack: Ack, held: Option<GroupRecord>)
      requires Valid()
      ensures ack == KickCheck(Abs(), u, c, target)
      ensures ack == NotFound <==> c !in groupStore
      ensures ack == Forbidden <==> c in groupStore && u !in groupStore[c].adminIds
      ensures ack == CannotKickSelf <==> c in groupStore && u in groupStore[c].adminIds && target == u
      ensures ack == Ok <==>
                c in groupStore && u in groupStore[c].adminIds && target != u && target in groupStore[c].memberIds
      ensures ack in {NotFound, Forbidden, CannotKickSelf, NotMember, Ok}
      ensures ack == Ok ==> c in created && held == Some(created[c])
    {
      if c !in groupStore { return NotFound, None; }
      var record := groupStore[c];
      if u !in record.adminIds { return Forbidden, None; }
      if target == u { return CannotKickSelf, None; }
      if target !in record.memberIds { return NotMember, None; }
      return Ok, Some(record);
    }

    /** When the lists of one record were reassigned and nothing else changed. */
    twostate lemma OneRecordChanged(c: ConvId)
      requires old(Valid()) && unchanged(this) && c in created
      requires forall d :: d in created && d != c ==> unchanged(created[d])
      ensures Records() == old(Records())[c := Entry(created[c].Dto(), c in groupStore)]
    {}

    method TakeOutMember(record: GroupRecord, t: UserId, reason: Reason)
      requires Valid() && record.conversationId in created && created[record.conversationId] == record
      modifies nsp`sockets, this`groupsByUser, record
      ensures Valid() && Abs() == TakeOut(old(Abs()), record.conversationId, t, reason)
      ensures record.Dto() == RemoveMember(old(record.Dto()), t)
    {
      record.Strike(t);
      OneRecordChanged(record.conversationId);
      Forget(t, record.conversationId, reason);
    }

    /** From the resumption to `await autoDeleteIfTooSmall`. The record is the one the handler
        held, which `groupStore` may no longer contain. */
    method ResumeRemoval(record: GroupRecord, t: UserId, reason: Reason) returns (refresh: bool)
      requires Valid() && record.conversationId in created && created[record.conversationId] == record
      modifies nsp`sockets, this`groupsByUser, this`groupStore, record
      ensures Valid() && (Abs(), refresh) == Remove(old(Abs()), record.conversationId, t, reason)
    {
      TakeOutMember(record, t, reason);
      refresh := |record.memberIds| >= MIN_MEMBERS;
      if !refresh {
        DeleteGroup(record.conversationId, Dissolved);
      }
    }

    /** From the second resumption on: `broadcastGroupUpdated`. */
    method ResumeUpdate(record: GroupRecord)
      requires Valid() && record.conversationId in created && created[record.conversationId] == record
      modifies nsp`sockets
      ensures Valid() && Abs() == Refresh(old(Abs()), record.conversationId)
    {
      BroadcastGroupUpdated(record);
    }

    // -------------------------------------------------------------- promote, mute, block, delete

    /** The answer that the lists of the record call for: an admin acts on a member. */
    ghost predicate Answers(ack: Ack, u: UserId, c: ConvId, t: UserId)
      reads this, groupStore.Values
    {
      match ack
      case NotFound => c !in groupStore
      case Forbidden => c in groupStore && u !in groupStore[c].adminIds
      case NotMember => c in groupStore && u in groupStore[c].adminIds && t !in groupStore[c].memberIds
      case Ok => c in groupStore && u in groupStore[c].adminIds && t in groupStore[c].memberIds
      case _ => false
    }

    method CheckAdmin(u: UserId, c: ConvId, t: UserId) returns (ack: Ack)
      requires Valid()
      ensures ack == AdminCheck(Abs(), u, c, t) && Answers(ack, u, c, t)
      ensures ack == Ok ==> c in groupStore && created[c] == groupStore[c]
    {
      if c !in groupStore { return NotFound; }
      if u !in groupStore[c].adminIds { return Forbidden; }
      if t !in groupStore[c].memberIds { return NotMember; }
      return Ok;
    }

    method HandlePromote(u: UserId, c: ConvId, t: UserId) returns (ack: Ack)
      requires Valid()
      modifies nsp`sockets, created.Values
      ensures Valid() && ack == AdminCheck(old(Abs()), u, c, t) && Abs() == Promote(old(Abs()), u, c, t)
      ensures old(Answers(ack, u, c, t)) && (ack != Ok ==> Abs() == old(Abs()))
    {
      ack := CheckAdmin(u, c, t);
      if ack != Ok { return; }
      var record := groupStore[c];
      if t !in record.adminIds {
        record.adminIds := record.adminIds + [t];
      }
      OneRecordChanged(c);
      BroadcastGroupUpdated(record);
    }

    method HandleMute(u: UserId, c: ConvId, t: UserId, on: bool) returns (ack: Ack)
      requires Valid()
      modifies nsp`sockets, created.Values
      ensures Valid() && ack == AdminCheck(old(Abs()), u, c, t) && Abs() == MuteMember(old(Abs()), u, c, t, on)
      ensures old(Answers(ack, u, c, t)) && (ack != Ok ==> Abs() == old(Abs()))
    {
      ack := CheckAdmin(u, c, t);
      if ack != Ok { return; }
      var record := groupStore[c];
      var muted := t in record.mutedMembers;
      if on && !muted {
        record.mutedMembers := record.mutedMembers + [t];
      } else if !on && muted {
        record.mutedMembers := Without(record.mutedMembers, t);
      }
      OneRecordChanged(c);
      BroadcastGroupUpdated(record);
    }

    /** The part of `group:block-member` before its broadcast. */
    method ToggleBlock(record: GroupRecord, t: UserId, on: bool)
      requires Valid() && record.conversationId in created && created[record.conversationId] == record
      modifies nsp`sockets, record
      ensures Valid() && Abs() == BlockToggled(old(Abs()), record.conversationId, t, on)
    {
      var c := record.conversationId;
      BlockMovesAre(Abs(), c, t, on);
      var blocked := t in record.blockedMembers;
      if on && !blocked {
        record.blockedMembers := record.blockedMembers + [t];
        nsp.MoveGroupRoom(c, t, false);
      } else if !on && blocked {
        record.blockedMembers := Without(record.blockedMembers, t);
        nsp.MoveGroupRoom(c, t, true);
      }
      OneRecordChanged(c);
    }

    method HandleBlock(u: UserId, c: ConvId, t: UserId, on: bool) returns (ack: Ack)
      requires Valid()
      modifies nsp`sockets, created.Values
      ensures Valid() && ack == AdminCheck(old(Abs()), u, c, t) && Abs() == BlockMember(old(Abs()), u, c, t, on)
      ensures old(Answers(ack, u, c, t)) && (ack != Ok ==> Abs() == old(Abs()))
    {
      ack := CheckAdmin(u, c, t);
      if ack != Ok { return; }
      var record := groupStore[c];
      ToggleBlock(record, t, on);
      ghost var toggled := Abs();
      assert toggled == BlockToggled(old(Abs()), c, t, on);
      BroadcastGroupUpdated(record);
      assert Abs() == Refresh(toggled, c);
    }

    method HandleDelete(u: UserId, c: ConvId) returns (ack: Ack)
      requires Valid()
      modifies nsp`sockets, this`groupsByUser, this`groupStore
      ensures Valid() && ack == DeleteCheck(old(Abs()), u, c)
      ensures ack == NotFound <==> c !in old(groupStore)
      ensures ack == Forbidden <==> c in old(groupStore) && u !in old(groupStore[c].adminIds)
      ensures ack == Ok <==> c in old(groupStore) && u in old(groupStore[c].adminIds)
      ensures Abs() == if ack == Ok then GroupModel.DeleteGroup(old(Abs()), c, DeletedByAdmin) else old(Abs())
    {
      if c !in groupStore { return NotFound; }
      if u !in groupStore[c].adminIds { return Forbidden; }
      DeleteGroup(c, DeletedByAdmin);
      ack := Ok;
    }

    // -------------------------------------------------------------- connect, disconnect, rooms

    /** `rejoinUserGroups`: the new socket gets one `group:created` per group of its user, and
        joins its room unless they are blocked. */
    method RejoinUserGroups(u: UserId) returns (k: Socket)
      requires Valid()
      ensures k == Connect(Abs(), u, "").sockets[""]
    {
      k := Socket(u, {}, map[]);
      var memberOf := if u in groupsByUser then groupsByUser[u] else {};
      var done := {};
      while memberOf - done != {}
        invariant done <= memberOf && k.user == u
        invariant forall c :: c in k.rooms <==> c in done && c in groupStore && u !in groupStore[c].blockedMembers
        invariant forall c :: c in k.view <==> c in done && c in groupStore
        invariant forall c :: c in k.view ==> k.view[c] == groupStore[c].Dto()
        decreases memberOf - done
      {
        var c :| c in memberOf - done;
        done := done + {c};
        if c in groupStore {
          var group := groupStore[c];
          if u !in group.blockedMembers {
            k := k.Join(c);
          }
          k := k.Receive(GroupCreated(group.Dto()));
        }
      }
      assert forall c :: c in groupStore <==> Abs().Stored(c);
    }

    /** `registerChatHandler` up to its replay of direct messages. */
    method HandleConnect(u: UserId, sid: SocketId) returns (wasEmpty: bool)
      requires Valid() && sid !in nsp.sockets
      modifies nsp, nsp.users
      ensures Valid() && Abs() == Connect(old(Abs()), u, sid)
      ensures wasEmpty <==> Bucket(old(nsp.users.activeUserSockets), u) == {}
    {
      var k := RejoinUserGroups(u);
      wasEmpty := nsp.Open(sid, k);
    }

    method HandleDisconnect(sid: SocketId, now: int)
      requires Valid()
      modifies nsp, nsp.users
      ensures Valid() && Abs() == Disconnect(old(Abs()), sid)
      ensures nsp.users.lastSeenStore ==
              if sid in old(nsp.sockets) && old(nsp.sockets)[sid].user !in nsp.users.activeUserSockets
              then old(nsp.users.lastSeenStore)[old(nsp.sockets)[sid].user := now] else old(nsp.users.lastSeenStore)
    {
      if sid in nsp.sockets {
        nsp.Close(sid, now);
      }
    }

    /** `chat:join` and `chat:leave`, on any conversation id: this socket enters or leaves this room,
        and nobody is in or out of any other. */
    method HandleRoom(sid: SocketId, c: ConvId, join: bool)
      requires Valid()
      modifies nsp`sockets
      ensures Valid()
      ensures Abs() == if sid in old(nsp.sockets)
                       then old(Abs()).(sockets := old(nsp.sockets)[sid := Move(old(nsp.sockets)[sid], c, join)])
                       else old(Abs())
      ensures forall s, d :: s in nsp.sockets ==>
                (d in nsp.sockets[s].rooms <==> if s == sid && d == c then join else d in old(nsp.sockets)[s].rooms)
    {
      if sid in nsp.sockets {
        nsp.sockets := nsp.sockets[sid := Move(nsp.sockets[sid], c, join)];
      }
    }
  }

  /** Told as members and again as a room, the sockets are refreshed. */
  lemma RefreshedSockets(st: Store, dto: GroupDto)
    requires dto.conversationId in st.records && st.records[dto.conversationId].dto == dto
    ensures var e, told := GroupUpdated(dto), Told(st.sockets, Elements(dto.memberIds), GroupUpdated(dto));
            (map s | s in told :: if dto.conversationId in told[s].rooms then told[s].Receive(e) else told[s])
            == Refresh(st, dto.conversationId).sockets
  {
    forall s | s in st.sockets ensures st.sockets[s].Receive(GroupUpdated(dto)).Receive(GroupUpdated(dto))
                                       == st.sockets[s].Receive(GroupUpdated(dto)) {
      ReceiveTwice(st.sockets[s], GroupUpdated(dto));
    }
  }

  lemma UnindexOneMore(byUser: map<UserId, set<ConvId>>, done: set<UserId>, uid: UserId, c: ConvId)
    ensures DropFromBucket(UnindexAll(byUser, done, c), uid, c) == UnindexAll(byUser, done + {uid}, c)
  {
    BucketsDetermineMap(DropFromBucket(UnindexAll(byUser, done, c), uid, c), UnindexAll(byUser, done + {uid}, c));
  }

  lemma EnterOneMore(byUser: map<UserId, set<ConvId>>, sockets: Sockets, members: seq<UserId>, i: nat, c: ConvId)
    requires i < |members|
    ensures IndexAll(byUser, members[..i + 1], c) == PutInBucket(IndexAll(byUser, members[..i], c), members[i], c)
    ensures Moved(Moved(sockets, Elements(members[..i]), c, true), {members[i]}, c, true)
            == Moved(sockets, Elements(members[..i + 1]), c, true)
  {
    assert members[..i + 1][..i] == members[..i];
    MovedOneMore(sockets, Elements(members[..i]), members[i], c, true);
    assert Elements(members[..i + 1]) == Elements(members[..i]) + {members[i]};
  }

  lemma BlockMovesAre(st: Store, c: ConvId, t: UserId, on: bool)
    requires c in st.records
    ensures BlockMoves(st, c, t, on) ==
            if on == (t !in st.records[c].dto.blockedMembers) then Moved(st.sockets, {t}, c, !on) else st.sockets
  {}

  lemma InsertedSockets(st: Store, dto: GroupDto)
    ensures var who := Elements(dto.memberIds);
            Told(Moved(st.sockets, who, dto.conversationId, true), who, GroupCreated(dto)) == Insert(st, dto).sockets
  {}
}
