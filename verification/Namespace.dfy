/** The Socket.IO namespace as the group handlers use it: which sockets are open, which rooms they
    are in, and what each client makes of the events it is sent. */
module Namespace {
  import opened Collections
  import opened GroupModel
  import opened UserSockets

  function Move(k: Socket, c: ConvId, join: bool): Socket {
    if join then k.Join(c) else k.Leave(c)
  }

  /** The open sockets of some users join or leave a room. */
  function Moved(sockets: Sockets, who: set<UserId>, c: ConvId, join: bool): Sockets {
    map s | s in sockets :: if sockets[s].user in who then Move(sockets[s], c, join) else sockets[s]
  }

  /** Some users' clients receive an event. */
  function Told(sockets: Sockets, who: set<UserId>, e: ClientEvent): Sockets {
    map s | s in sockets :: if sockets[s].user in who then sockets[s].Receive(e) else sockets[s]
  }

  lemma MovedOneMore(sockets: Sockets, done: set<UserId>, u: UserId, c: ConvId, join: bool)
    ensures Moved(Moved(sockets, done, c, join), {u}, c, join) == Moved(sockets, done + {u}, c, join)
  {
    forall s | s in sockets
      ensures Moved(Moved(sockets, done, c, join), {u}, c, join)[s] == Moved(sockets, done + {u}, c, join)[s]
    {
      assert Move(Move(sockets[s], c, join), c, join).rooms == Move(sockets[s], c, join).rooms;
    }
  }

  /** Receiving an event twice is receiving it once. */
  lemma ReceiveTwice(k: Socket, e: ClientEvent)
    ensures k.Receive(e).Receive(e) == k.Receive(e)
  {
    if e.GroupDeleted? {
      assert k.view - {e.conversationId} - {e.conversationId} == k.view - {e.conversationId};
    }
  }

  lemma ToldOneMore(sockets: Sockets, done: set<UserId>, u: UserId, e: ClientEvent)
    ensures Told(Told(sockets, done, e), {u}, e) == Told(sockets, done + {u}, e)
  {
    forall s | s in sockets
      ensures Told(Told(sockets, done, e), {u}, e)[s] == Told(sockets, done + {u}, e)[s]
    {
      ReceiveTwice(sockets[s], e);
    }
  }

  lemma ForgottenOneMore(sockets: Sockets, done: set<UserId>, u: UserId, c: ConvId, reason: Reason)
    requires u !in done
    ensures Forgotten(Forgotten(sockets, done, c, reason), {u}, c, reason) == Forgotten(sockets, done + {u}, c, reason)
  {
    forall s | s in sockets
      ensures Forgotten(Forgotten(sockets, done, c, reason), {u}, c, reason)[s] ==
                Forgotten(sockets, done + {u}, c, reason)[s]
    {}
  }

  class Nsp {
    const users: UserSocketStore
    var sockets: Sockets

    ghost predicate Valid()
      reads this, users
    {
      ActiveMatches(users.activeUserSockets, sockets)
    }

    constructor ()
      ensures Valid() && sockets == map[] && users.activeUserSockets == map[] && fresh(users)
    {
      users := new UserSocketStore();
      sockets := map[];
    }

    /** `joinGroupRoom` and `leaveGroupRoom`, told apart by `join`. */
    method MoveGroupRoom(c: ConvId, userId: UserId, join: bool)
      requires Valid()
      modifies this`sockets
      ensures Valid() && sockets == Moved(old(sockets), {userId}, c, join)
    {
      var sids := users.GetUserSockets(userId);
      assert forall s :: s in Bucket(users.activeUserSockets, userId) <==> s in sockets && sockets[s].user == userId;
      if sids.None? {
        assert sockets == Moved(sockets, {userId}, c, join);
        return;
      }
      var todo := sids.value;
      while todo != {}
        invariant todo <= sids.value && sockets.Keys == old(sockets).Keys
        invariant forall s :: s in sockets ==>
                    sockets[s] == if s in sids.value && s !in todo then Move(old(sockets)[s], c, join)
                                  else old(sockets)[s]
        decreases |todo|
      {
        var sid :| sid in todo;
        todo := todo - {sid};
        if sid in sockets {
          sockets := sockets[sid := Move(sockets[sid], c, join)];
        }
      }
    }

    /** `nsp.to("user:<id>").emit(e)` */
    method EmitToUser(userId: UserId, e: ClientEvent)
      requires Valid()
      modifies this`sockets
      ensures Valid() && sockets == Told(old(sockets), {userId}, e)
    {
      sockets := map s | s in sockets :: if sockets[s].user == userId then sockets[s].Receive(e) else sockets[s];
    }

    /** `nsp.to("chat:<id>").emit(e)` */
    method EmitToRoom(c: ConvId, e: ClientEvent)
      requires Valid()
      modifies this`sockets
      ensures Valid()
      ensures sockets == map s | s in old(sockets) ::
                           if c in old(sockets)[s].rooms then old(sockets)[s].Receive(e) else old(sockets)[s]
    {
      sockets := map s | s in sockets :: if c in sockets[s].rooms then sockets[s].Receive(e) else sockets[s];
    }

    /** A loop of `EmitToUser` over a member list. */
    method EmitToUsers(userIds: seq<UserId>, e: ClientEvent)
      requires Valid()
      modifies this`sockets
      ensures Valid() && sockets == Told(old(sockets), Elements(userIds), e)
    {
      assert sockets == Told(sockets, {}, e);
      for i := 0 to |userIds|
        invariant Valid() && sockets == Told(old(sockets), Elements(userIds[..i]), e)
      {
        EmitToUser(userIds[i], e);
        ToldOneMore(old(sockets), Elements(userIds[..i]), userIds[i], e);
        assert Elements(userIds[..i + 1]) == Elements(userIds[..i]) + {userIds[i]};
      }
      assert userIds[..|userIds|] == userIds;
    }

    /** A socket connects, and Socket.IO lists it. */
    method Open(sid: SocketId, k: Socket) returns (wasEmpty: bool)
      requires Valid() && sid !in sockets
      modifies this, users`activeUserSockets
      ensures Valid() && sockets == old(sockets)[sid := k]
      ensures users.activeUserSockets == PutInBucket(old(users.activeUserSockets), k.user, sid)
      ensures wasEmpty <==> Bucket(old(users.activeUserSockets), k.user) == {}
    {
      wasEmpty := users.AddUserSocket(k.user, sid);
      sockets := sockets[sid := k];
    }

    /** A socket closes: `removeUserSocket`, and Socket.IO drops it from every room. */
    method Close(sid: SocketId, now: int)
      requires Valid() && sid in sockets
      modifies this, users
      ensures Valid() && sockets == old(sockets) - {sid}
      ensures users.activeUserSockets == DropFromBucket(old(users.activeUserSockets), old(sockets)[sid].user, sid)
      ensures var u := old(sockets)[sid].user;
              users.lastSeenStore == if u !in users.activeUserSockets then old(users.lastSeenStore)[u := now]
                                     else old(users.lastSeenStore)
    {
      assert sid in Bucket(users.activeUserSockets, sockets[sid].user);
      users.RemoveUserSocket(sockets[sid].user, sid, now);
      sockets := sockets - {sid};
    }
  }
}
