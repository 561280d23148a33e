/** Which sockets each user has open, and when their last one closed
    (src/feature/chat/store/user-sockets.store.ts). */
module UserSockets {
  import opened Collections

  class UserSocketStore {
    var activeUserSockets: map<string, set<string>>
    var lastSeenStore: map<string, int>

    constructor ()
      ensures activeUserSockets == map[] && lastSeenStore == map[]
    {
      activeUserSockets, lastSeenStore := map[], map[];
    }

    method AddUserSocket(userId: string, socketId: string) returns (wasEmpty: bool)
      modifies this`activeUserSockets
      ensures activeUserSockets == PutInBucket(old(activeUserSockets), userId, socketId)
      ensures wasEmpty <==> Bucket(old(activeUserSockets), userId) == {}
    {
      if userId !in activeUserSockets {
        activeUserSockets := activeUserSockets[userId := {}];
      }
      wasEmpty := |activeUserSockets[userId]| == 0;
      activeUserSockets := activeUserSockets[userId := activeUserSockets[userId] + {socketId}];
    }

    method RemoveUserSocket(userId: string, socketId: string, now: int)
      modifies this
      ensures activeUserSockets == DropFromBucket(old(activeUserSockets), userId, socketId)
      ensures lastSeenStore ==
              if userId in old(activeUserSockets) && userId !in activeUserSockets
              then old(lastSeenStore)[userId := now]
              else old(lastSeenStore)
    {
      if userId !in activeUserSockets { return; }
      var rest := activeUserSockets[userId] - {socketId};
      activeUserSockets := activeUserSockets[userId := rest];
      if |rest| == 0 {
        activeUserSockets := activeUserSockets - {userId};
        lastSeenStore := lastSeenStore[userId := now];
      }
      assert rest == old(activeUserSockets[userId]) - {socketId};
    }

    function GetUserSockets(userId: string): Option<set<string>>
      reads this
    {
      if userId in activeUserSockets then Some(activeUserSockets[userId]) else None
    }

    function GetLastSeen(userId: string): int
      reads this
    {
      if userId in lastSeenStore then lastSeenStore[userId] else 0
    }
  }
}
