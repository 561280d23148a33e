/** The group-membership protocol as a state machine.

    A `Store` is everything the group handlers read or write: the group records, the index
    `groupsByUser`, the open sockets with the rooms they are in, and, for each socket, the replica
    its client builds by folding the `group:*` events it is sent. A `World` adds the suspended
    handlers: code between two awaits is one step, and what follows an await is a task.

    A conversation id is a fresh UUID and names one record for ever, so it also stands for a
    reference to that record. `Entry.stored` tells whether `groupStore` still maps to it. */
module GroupModel {
  import opened Collections
  import JsStrings

  type UserId = string
  type ConvId = string
  type SocketId = string

  datatype GroupDto = GroupDto(
    conversationId: ConvId,
    name: string,
    memberIds: seq<UserId>,
    adminIds: seq<UserId>,
    mutedMembers: seq<UserId>,
    blockedMembers: seq<UserId>,
    createdAt: int,
    createdBy: UserId)

  datatype Reason = Left | Kicked | DeletedByAdmin | Dissolved

  // ---------------------------------------------------------------- clients

  type View = map<ConvId, GroupDto>

  datatype ClientEvent =
    | GroupCreated(dto: GroupDto)
    | GroupUpdated(dto: GroupDto)
    | GroupDeleted(conversationId: ConvId, reason: Reason)

  /** What a client does with an event: insert, replace if present, remove. */
  function Fold(view: View, e: ClientEvent): View {
    match e
    case GroupCreated(dto) => view[dto.conversationId := dto]
    case GroupUpdated(dto) => if dto.conversationId in view then view[dto.conversationId := dto] else view
    case GroupDeleted(c, _) => view - {c}
  }

  /** An open socket: its user (hence its room `user:<id>`), its `chat:` rooms, its client. */
  datatype Socket = Socket(user: UserId, rooms: set<ConvId>, view: View) {
    function Join(c: ConvId): Socket { this.(rooms := rooms + {c}) }
    function Leave(c: ConvId): Socket { this.(rooms := rooms - {c}) }
    function Receive(e: ClientEvent): Socket { this.(view := Fold(view, e)) }
  }

  type Sockets = map<SocketId, Socket>

  // ---------------------------------------------------------------- state

  datatype Entry = Entry(dto: GroupDto, stored: bool)

  datatype Store = Store(
    records: map<ConvId, Entry>,
    byUser: map<UserId, set<ConvId>>,
    active: map<UserId, set<SocketId>>,
    sockets: Sockets)
  {
    predicate Stored(c: ConvId) { c in records && records[c].stored }

    predicate Member(u: UserId, c: ConvId) { Stored(c) && u in records[c].dto.memberIds }

    predicate Admin(u: UserId, c: ConvId) { Stored(c) && u in records[c].dto.adminIds }

    predicate Blocked(u: UserId, c: ConvId) { Stored(c) && u in records[c].dto.blockedMembers }

    function WithDto(c: ConvId, dto: GroupDto): Store
      requires c in records
    {
      this.(records := records[c := records[c].(dto := dto)])
    }
  }

  datatype Ack =
    | Ok | NotFound | NotMember | Forbidden | MustTransferAdmin | CannotKickSelf
    | MinMembers | NameTooLong

  /** `activeUserSockets` lists exactly the open sockets, by user. */
  ghost predicate ActiveMatches(active: map<UserId, set<SocketId>>, sockets: Sockets) {
    forall u, s :: s in Bucket(active, u) <==> s in sockets && sockets[s].user == u
  }

  // ---------------------------------------------------------------- connect, disconnect

  function Connect(st: Store, u: UserId, sid: SocketId): Store {
    var mine := set c | c in Bucket(st.byUser, u) && st.Stored(c);
    st.(active := PutInBucket(st.active, u, sid),
        sockets := st.sockets[sid := Socket(
          u,
          set c | c in mine && u !in st.records[c].dto.blockedMembers,
          map c | c in mine :: st.records[c].dto)])
  }

  function Disconnect(st: Store, sid: SocketId): Store {
    if sid !in st.sockets then st
    else st.(active := DropFromBucket(st.active, st.sockets[sid].user, sid),
             sockets := st.sockets - {sid})
  }

  // ---------------------------------------------------------------- group:create

  const MIN_MEMBERS := 3
  const MAX_NAME := 60

  function UniqueMembers(u: UserId, memberIds: seq<UserId>): (r: seq<UserId>)
    ensures NoDup(r)
    ensures forall x :: x in r <==> x != "" && (x == u || x in memberIds)
  {
    Dedup(NonEmpty([u] + memberIds))
  }

  function CreateCheck(u: UserId, name: string, memberIds: seq<UserId>): Ack {
    if |UniqueMembers(u, memberIds)| < MIN_MEMBERS then MinMembers
    else if |JsStrings.Trim(name)| > MAX_NAME then NameTooLong
    else Ok
  }

  function NewGroup(u: UserId, name: string, memberIds: seq<UserId>, c: ConvId, now: int): GroupDto {
    var members := UniqueMembers(u, memberIds);
    var trimmed := JsStrings.Trim(name);
    var shown := if |members| < 3 then members else members[..3];
    GroupDto(c, if trimmed == "" then JsStrings.Join(shown, ", ") else trimmed,
             members, [u], [], [], now, u)
  }

  /** `addUserToGroup` for each user of a list. */
  function IndexAll(byUser: map<UserId, set<ConvId>>, users: seq<UserId>, c: ConvId): (r: map<UserId, set<ConvId>>)
    ensures forall k, v :: v in Bucket(r, k) <==> v in Bucket(byUser, k) || (k in users && v == c)
    ensures NoEmptyBucket(byUser) ==> NoEmptyBucket(r)
  {
    if users == [] then byUser
    else PutInBucket(IndexAll(byUser, users[..|users| - 1], c), users[|users| - 1], c)
  }

  /** `removeUserFromGroup` for each user of a set. */
  function UnindexAll(byUser: map<UserId, set<ConvId>>, users: set<UserId>, c: ConvId): (r: map<UserId, set<ConvId>>)
    ensures forall k, v :: v in Bucket(r, k) <==> v in Bucket(byUser, k) && !(k in users && v == c)
    ensures NoEmptyBucket(r)
  {
    map u | u in byUser && (if u in users then byUser[u] - {c} else byUser[u]) != {}
      :: if u in users then byUser[u] - {c} else byUser[u]
  }

  /** `saveGroup`, then index, room and event for each member. */
  function Insert(st: Store, dto: GroupDto): Store {
    var c := dto.conversationId;
    Store(st.records[c := Entry(dto, true)],
          IndexAll(st.byUser, dto.memberIds, c),
          st.active,
          map s | s in st.sockets ::
            var k := st.sockets[s];
            if k.user in dto.memberIds then k.Join(c).Receive(GroupCreated(dto)) else k)
  }

  function Create(st: Store, u: UserId, name: string, memberIds: seq<UserId>, c: ConvId, now: int): Store {
    if CreateCheck(u, name, memberIds) != Ok then st
    else Insert(st, NewGroup(u, name, memberIds, c, now))
  }

  // ---------------------------------------------------------------- deletion and refresh

  /** The users' sockets leave the room and their clients are told. */
  function Forgotten(sockets: Sockets, userIds: set<UserId>, c: ConvId, reason: Reason): Sockets {
    map s | s in sockets ::
      var k := sockets[s];
      if k.user in userIds then k.Leave(c).Receive(GroupDeleted(c, reason)) else k
  }

  /** `deleteGroup`, up to its database call. */
  function DeleteGroup(st: Store, c: ConvId, reason: Reason): Store {
    if !st.Stored(c) then st
    else
      var dto := st.records[c].dto;
      var saw := Elements(dto.memberIds) + Elements(dto.blockedMembers);
      Store(st.records[c := Entry(dto, false)],
            UnindexAll(st.byUser, saw, c),
            st.active,
            Forgotten(st.sockets, saw, c, reason))
  }

  /** `broadcastGroupUpdated` on a record that may no longer be stored. */
  function Refresh(st: Store, c: ConvId): Store
    requires c in st.records
  {
    var dto := st.records[c].dto;
    st.(sockets := map s | s in st.sockets ::
          var k := st.sockets[s];
          if k.user in dto.memberIds || c in k.rooms then k.Receive(GroupUpdated(dto)) else k)
  }

  // ---------------------------------------------------------------- group:leave, group:kick

  function LeaveCheck(st: Store, u: UserId, c: ConvId): Ack {
    if !st.Stored(c) then NotFound
    else
      var r := st.records[c].dto;
      if u !in r.memberIds then NotMember
      else if u in r.adminIds && |r.adminIds| == 1 && |r.memberIds| > 1 then MustTransferAdmin
      else Ok
  }

  function KickCheck(st: Store, u: UserId, c: ConvId, target: UserId): Ack {
    if !st.Stored(c) then NotFound
    else
      var r := st.records[c].dto;
      if u !in r.adminIds then Forbidden
      else if target == u then CannotKickSelf
      else if target !in r.memberIds then NotMember
      else Ok
  }

  function RemoveMember(dto: GroupDto, t: UserId): GroupDto {
    dto.(memberIds := Without(dto.memberIds, t),
         adminIds := Without(dto.adminIds, t),
         mutedMembers := Without(dto.mutedMembers, t),
         blockedMembers := Without(dto.blockedMembers, t))
  }

  /** The target leaves the record, the index, the room and its own clients' views. */
  function TakeOut(st: Store, c: ConvId, t: UserId, reason: Reason): Store
    requires c in st.records
  {
    Store(
      st.WithDto(c, RemoveMember(st.records[c].dto, t)).records,
      DropFromBucket(st.byUser, t, c),
      st.active,
      Forgotten(st.sockets, {t}, c, reason))
  }

  /** What follows `emitGroupSystemMessage`, on a record that may no longer be stored: take the
      target out, and dissolve the group if it is too small. The second result says that the
      handler goes on to await `false` and then broadcasts. */
  function Remove(st: Store, c: ConvId, t: UserId, reason: Reason): (Store, bool)
    requires c in st.records
  {
    var taken := TakeOut(st, c, t, reason);
    if |taken.records[c].dto.memberIds| < MIN_MEMBERS then (DeleteGroup(taken, c, Dissolved), false)
    else (taken, true)
  }

  // ---------------------------------------------------------------- promote, mute, block, delete

  function AdminCheck(st: Store, u: UserId, c: ConvId, target: UserId): Ack {
    if !st.Stored(c) then NotFound
    else
      var r := st.records[c].dto;
      if u !in r.adminIds then Forbidden
      else if target !in r.memberIds then NotMember
      else Ok
  }

  /** Add to, or filter out of, a list of ids. */
  function Toggle(ids: seq<UserId>, x: UserId, on: bool): seq<UserId> {
    if on && x !in ids then ids + [x]
    else if !on then Without(ids, x)
    else ids
  }

  function Promote(st: Store, u: UserId, c: ConvId, t: UserId): Store {
    if AdminCheck(st, u, c, t) != Ok then st
    else
      var dto := st.records[c].dto;
      Refresh(st.WithDto(c, dto.(adminIds := Toggle(dto.adminIds, t, true))), c)
  }

  function MuteMember(st: Store, u: UserId, c: ConvId, t: UserId, on: bool): Store {
    if AdminCheck(st, u, c, t) != Ok then st
    else
      var dto := st.records[c].dto;
      Refresh(st.WithDto(c, dto.(mutedMembers := Toggle(dto.mutedMembers, t, on))), c)
  }

  /** The room moves of `group:block-member`, before its broadcast. */
  function BlockMoves(st: Store, c: ConvId, t: UserId, on: bool): Sockets
    requires c in st.records
  {
    var changed := on == (t !in st.records[c].dto.blockedMembers);
    map s | s in st.sockets ::
      var k := st.sockets[s];
      if changed && k.user == t then (if on then k.Leave(c) else k.Join(c)) else k
  }

  function BlockToggled(st: Store, c: ConvId, t: UserId, on: bool): Store
    requires c in st.records
  {
    var dto := st.records[c].dto;
    st.WithDto(c, dto.(blockedMembers := Toggle(dto.blockedMembers, t, on))).(sockets := BlockMoves(st, c, t, on))
  }

  function BlockMember(st: Store, u: UserId, c: ConvId, t: UserId, on: bool): Store {
    if AdminCheck(st, u, c, t) != Ok then st else Refresh(BlockToggled(st, c, t, on), c)
  }

  function DeleteCheck(st: Store, u: UserId, c: ConvId): Ack {
    if !st.Stored(c) then NotFound
    else if u !in st.records[c].dto.adminIds then Forbidden
    else Ok
  }

  // ---------------------------------------------------------------- the whole server

  /** A handler suspended at an await, holding its reference to the record of group `c`. */
  datatype Task =
    | Removal(c: ConvId, target: UserId, reason: Reason)  // awaits emitGroupSystemMessage
    | Update(c: ConvId)                                   // awaits autoDeleteIfTooSmall

  datatype World = World(st: Store, pending: multiset<Task>)

  datatype Event =
    | OnConnect(u: UserId, sid: SocketId)
    | OnDisconnect(sid: SocketId)
    | OnCreate(u: UserId, name: string, memberIds: seq<UserId>, c: ConvId, now: int)
    | OnLeave(u: UserId, c: ConvId)
    | OnKick(u: UserId, c: ConvId, target: UserId)
    | OnPromote(u: UserId, c: ConvId, target: UserId)
    | OnMute(u: UserId, c: ConvId, target: UserId, on: bool)
    | OnBlock(u: UserId, c: ConvId, target: UserId, on: bool)
    | OnDelete(u: UserId, c: ConvId)
    | OnJoinRoom(sid: SocketId, c: ConvId)    // chat:join, which no handler restricts
    | OnLeaveRoom(sid: SocketId, c: ConvId)   // chat:leave
    | Resume(task: Task)

  /** Socket ids and UUIDs are fresh, user ids are not empty, and only suspended tasks resume. */
  predicate Enabled(w: World, e: Event) {
    match e
    case OnConnect(u, sid) => sid !in w.st.sockets
    case OnCreate(u, name, memberIds, c, now) => u != "" && c !in w.st.records
    case Resume(task) => task in w.pending && task.c in w.st.records
    case _ => true
  }

  function Removed(w: World, c: ConvId, t: UserId, reason: Reason): World
    requires c in w.st.records
  {
    var (st, refresh) := Remove(w.st, c, t, reason);
    World(st, if refresh then w.pending + multiset{Update(c)} else w.pending)
  }

  function Next(w: World, e: Event): World
    requires Enabled(w, e)
  {
    match e
    case OnConnect(u, sid) => w.(st := Connect(w.st, u, sid))
    case OnDisconnect(sid) => w.(st := Disconnect(w.st, sid))
    case OnCreate(u, name, memberIds, c, now) => w.(st := Create(w.st, u, name, memberIds, c, now))
    case OnLeave(u, c) =>
      if LeaveCheck(w.st, u, c) != Ok then w
      else w.(pending := w.pending + multiset{Removal(c, u, Left)})
    case OnKick(u, c, target) =>
      if KickCheck(w.st, u, c, target) != Ok then w
      else w.(pending := w.pending + multiset{Removal(c, target, Kicked)})
    case OnPromote(u, c, t) => w.(st := Promote(w.st, u, c, t))
    case OnMute(u, c, t, on) => w.(st := MuteMember(w.st, u, c, t, on))
    case OnBlock(u, c, t, on) => w.(st := BlockMember(w.st, u, c, t, on))
    case OnDelete(u, c) =>
      if DeleteCheck(w.st, u, c) != Ok then w else w.(st := DeleteGroup(w.st, c, DeletedByAdmin))
    case OnJoinRoom(sid, c) =>
      if sid !in w.st.sockets then w
      else w.(st := w.st.(sockets := w.st.sockets[sid := w.st.sockets[sid].Join(c)]))
    case OnLeaveRoom(sid, c) =>
      if sid !in w.st.sockets then w
      else w.(st := w.st.(sockets := w.st.sockets[sid := w.st.sockets[sid].Leave(c)]))
    case Resume(Removal(c, t, reason)) =>
      Removed(w.(pending := w.pending - multiset{Removal(c, t, reason)}), c, t, reason)
    case Resume(Update(c)) => World(Refresh(w.st, c), w.pending - multiset{Update(c)})
  }

  const INIT := World(Store(map[], map[], map[], map[]), multiset{})

  /** A run: each state is followed by the next one under an enabled event. */
  ghost predicate IsRun(ws: seq<World>, es: seq<Event>) {
    |ws| == |es| + 1
    && forall i :: 0 <= i < |es| ==> Enabled(ws[i], es[i]) && ws[i + 1] == Next(ws[i], es[i])
  }
}
