/** What every step of the group protocol keeps, whatever tasks are suspended and in whatever
    order they resume. The invariant is stated group by group: a step changes at most one. */
module GroupInvariants {
  import opened Collections
  import opened GroupModel

  // ---------------------------------------------------------------- the invariant

  /** Members, admins, muted and blocked users are lists of distinct ids, the last three taken
      from the first. */
  predicate RolesOk(dto: GroupDto) {
    && NoDup(dto.memberIds) && NoDup(dto.adminIds) && NoDup(dto.mutedMembers) && NoDup(dto.blockedMembers)
    && (forall x :: x in dto.adminIds ==> x in dto.memberIds)
    && (forall x :: x in dto.mutedMembers ==> x in dto.memberIds)
    && (forall x :: x in dto.blockedMembers ==> x in dto.memberIds)
  }

  /** A record, stored or detached, keeps its own id and well-formed lists. */
  predicate RecordOk(st: Store, c: ConvId) {
    c in st.records ==> st.records[c].dto.conversationId == c && RolesOk(st.records[c].dto)
  }

  /** A stored group has at least three members. */
  predicate SizeOk(st: Store, c: ConvId) {
    st.Stored(c) ==> |st.records[c].dto.memberIds| >= MIN_MEMBERS
  }

  /** `groupsByUser` is the exact inverse of the stored groups' member lists. */
  ghost predicate IndexOk(st: Store, c: ConvId) {
    forall u :: c in Bucket(st.byUser, u) <==> st.Member(u, c)
  }

  /** The record as a client with an older copy can compute it: everyone who left is struck out. */
  function Restrict(dto: GroupDto, members: set<UserId>): GroupDto {
    dto.(memberIds := Keep(dto.memberIds, members),
         adminIds := Keep(dto.adminIds, members),
         mutedMembers := Keep(dto.mutedMembers, members),
         blockedMembers := Keep(dto.blockedMembers, members))
  }

  /** A client's copy of a group is the record, or lags it only by users who have left since,
      and then the broadcast that will refresh it is still suspended. */
  predicate CopyOk(copy: GroupDto, current: GroupDto, refreshPending: bool) {
    && Restrict(copy, Elements(current.memberIds)) == current
    && (copy != current ==> refreshPending)
  }

  /** A client has a copy of exactly the stored groups its user belongs to. */
  ghost predicate ReplicaOk(w: World, k: Socket, c: ConvId) {
    && (c in k.view <==> w.st.Member(k.user, c))
    && (c in k.view ==> CopyOk(k.view[c], w.st.records[c].dto, Update(c) in w.pending))
  }

  ghost predicate ReplicasOk(w: World, c: ConvId) {
    forall s :: s in w.st.sockets ==> ReplicaOk(w, w.st.sockets[s], c)
  }

  ghost predicate GroupOk(w: World, c: ConvId) {
    RecordOk(w.st, c) && SizeOk(w.st, c) && IndexOk(w.st, c) && ReplicasOk(w, c)
  }

  ghost predicate ActiveOk(st: Store) {
    NoEmptyBucket(st.active) && ActiveMatches(st.active, st.sockets)
  }

  ghost predicate TasksOk(w: World) {
    forall task :: task in w.pending ==> task.c in w.st.records
  }

  ghost predicate Inv(w: World) {
    && NoEmptyBucket(w.st.byUser)
    && ActiveOk(w.st)
    && TasksOk(w)
    && forall c :: GroupOk(w, c)
  }

  /** The socket is open, and this user's; or some member's. */
  predicate IsOf(st: Store, s: SocketId, u: UserId) {
    s in st.sockets && st.sockets[s].user == u
  }

  predicate IsOfMember(st: Store, s: SocketId, c: ConvId) {
    s in st.sockets && st.Member(st.sockets[s].user, c)
  }

  /** The room `chat:c` holds the open sockets of the members who are not blocked. */
  predicate RoomOk(st: Store, k: Socket, c: ConvId) {
    c in k.rooms <==> st.Member(k.user, c) && !st.Blocked(k.user, c)
  }

  ghost predicate RoomExact(st: Store, c: ConvId) {
    forall s :: s in st.sockets ==> RoomOk(st, st.sockets[s], c)
  }

  /** A step that leaves every exact room exact. */
  ghost predicate KeepsRooms(st: Store, st': Store) {
    forall c :: RoomExact(st, c) ==> RoomExact(st', c)
  }

  // ---------------------------------------------------------------- lists of a record

  lemma CopyIsItself(dto: GroupDto)
    requires RolesOk(dto)
    ensures Restrict(dto, Elements(dto.memberIds)) == dto
  {
    var kept := Elements(dto.memberIds);
    KeepAll(dto.memberIds, kept);
    KeepAll(dto.adminIds, kept);
    KeepAll(dto.mutedMembers, kept);
    KeepAll(dto.blockedMembers, kept);
  }

  lemma RemovalKeepsRoles(dto: GroupDto, t: UserId)
    requires RolesOk(dto)
    ensures RolesOk(RemoveMember(dto, t))
  {}

  /** An old copy that lagged the record by departed users still does when one more leaves. */
  lemma RemovalKeepsLag(copy: GroupDto, dto: GroupDto, t: UserId)
    requires Restrict(copy, Elements(dto.memberIds)) == dto
    ensures Restrict(copy, Elements(RemoveMember(dto, t).memberIds)) == RemoveMember(dto, t)
  {
    var kept := Elements(dto.memberIds);
    assert Elements(RemoveMember(dto, t).memberIds) == kept - {t};
    KeepFewer(copy.memberIds, kept, t);
    KeepFewer(copy.adminIds, kept, t);
    KeepFewer(copy.mutedMembers, kept, t);
    KeepFewer(copy.blockedMembers, kept, t);
  }

  lemma ToggleKeepsList(ids: seq<UserId>, x: UserId, on: bool)
    requires NoDup(ids)
    ensures NoDup(Toggle(ids, x, on))
    ensures forall y :: y in Toggle(ids, x, on) <==> if y == x then on else y in ids
  {
    if on && x !in ids {
      NoDupAppend(ids, x);
    }
  }

  // ---------------------------------------------------------------- frames

  /** Nothing about group `c` differs between two states with the same open sockets. */
  ghost predicate SameGroup(w: World, w': World, c: ConvId) {
    && (c in w.st.records <==> c in w'.st.records)
    && (c in w.st.records ==> w'.st.records[c] == w.st.records[c])
    && (forall u :: c in Bucket(w.st.byUser, u) <==> c in Bucket(w'.st.byUser, u))
    && w.st.sockets.Keys == w'.st.sockets.Keys
    && (forall s :: s in w.st.sockets ==> SameFor(w.st.sockets[s], w'.st.sockets[s], c))
    && (Update(c) in w.pending ==> Update(c) in w'.pending)
  }

  predicate SameFor(k: Socket, k': Socket, c: ConvId) {
    && k.user == k'.user
    && (c in k.view <==> c in k'.view)
    && (c in k.view ==> k'.view[c] == k.view[c])
    && (c in k.rooms <==> c in k'.rooms)
  }

  lemma FrameGroup(w: World, w': World, c: ConvId)
    requires GroupOk(w, c) && SameGroup(w, w', c)
    ensures GroupOk(w', c)
  {
    forall s | s in w'.st.sockets ensures ReplicaOk(w', w'.st.sockets[s], c) {
      assert ReplicaOk(w, w.st.sockets[s], c);
    }
  }

  lemma FrameRooms(w: World, w': World, c: ConvId)
    requires SameGroup(w, w', c) && RoomExact(w.st, c)
    ensures RoomExact(w'.st, c)
  {
    forall s | s in w'.st.sockets ensures RoomOk(w'.st, w'.st.sockets[s], c) {
      assert RoomOk(w.st, w.st.sockets[s], c);
    }
  }
}
