/** Direct-message ids `dm:<a>:<b>` and the rooms a message goes to. Three functions take such an
    id apart in two ways (src/feature/chat/util/broadcast.ts, src/feature/chat/store/message.store.ts). */
module ConversationIds {
  import opened Collections
  import opened JsStrings

  predicate IsDm(conversationId: string) {
    "dm:" <= conversationId
  }

  /** `parts[i]`, which is undefined past the end. */
  function Part(parts: seq<string>, i: nat): Option<string> {
    if i < |parts| then Some(parts[i]) else None
  }

  /** `[a, b] = conversationId.slice(3).split(":")`, both truthy. */
  function WellFormedDm(conversationId: string): Option<(string, string)> {
    if !IsDm(conversationId) then None
    else
      var parts := Split(conversationId[3..], ':');
      if |parts| < 2 || parts[0] == "" || parts[1] == "" then None else Some((parts[0], parts[1]))
  }

  function DmRecipient(conversationId: string, selfId: string): Option<string> {
    match WellFormedDm(conversationId)
    case None => None
    case Some((a, b)) => Some(if a == selfId then b else a)
  }

  predicate DmInvolves(conversationId: string, userId: string) {
    IsDm(conversationId) &&
    var parts := Split(conversationId[3..], ':');
    Part(parts, 0) == Some(userId) || Part(parts, 1) == Some(userId)
  }

  /** The filter of the offline replay: `[, a, b] = conversationId.split(":")`. */
  predicate ReplayInvolves(conversationId: string, userId: string) {
    var parts := Split(conversationId, ':');
    Part(parts, 1) == Some(userId) || Part(parts, 2) == Some(userId)
  }

  datatype Room = UserRoom(userId: string) | ChatRoom(conversationId: string)

  /** `broadcast` */
  function BroadcastRooms(conversationId: string, selfId: string): set<Room> {
    match DmRecipient(conversationId, selfId)
    case Some(recipient) => {UserRoom(recipient), UserRoom(selfId)}
    case None => {ChatRoom(conversationId)}
  }

  /** `broadcastToConversation`: nothing at all for a malformed direct-message id. */
  function ConversationRooms(conversationId: string): set<Room> {
    if !IsDm(conversationId) then {ChatRoom(conversationId)}
    else match WellFormedDm(conversationId)
         case None => {}
         case Some((a, b)) => {UserRoom(a), UserRoom(b)}
  }

  /** The conversation of two users whose ids hold no colon. */
  function DmId(a: string, b: string): string {
    "dm:" + a + ":" + b
  }

  // ---------------------------------------------------------------- theorems

  /** The id is `head`, or goes on with a colon. */
  predicate Begins(conversationId: string, head: string) {
    head <= conversationId && (conversationId == head || conversationId[|head|] == ':')
  }

  lemma PartsOfBegin(s: string, a: string)
    requires ':' !in a && Begins(s, a)
    ensures Split(s, ':')[0] == a
    ensures s != a ==> Split(s, ':') == [a] + Split(s[|a| + 1..], ':')
  {
    if s == a {
      SplitAtom(a, ':');
    } else {
      assert s == a + [':'] + s[|a| + 1..];
      SplitFirst(a, s[|a| + 1..], ':');
    }
  }

  /** The first part of an id is what it begins with. */
  lemma FirstPart(s: string, a: string)
    ensures Split(s, ':')[0] == a <==> ':' !in a && Begins(s, a)
  {
    if Split(s, ':')[0] == a {
      var rest := SplitHead(s, ':');
      assert Split(s, ':')[0] in Split(s, ':');
    }
    if ':' !in a && Begins(s, a) {
      PartsOfBegin(s, a);
    }
  }

  lemma FirstParts(s: string, a: string, b: string)
    ensures |Split(s, ':')| > 1 && Split(s, ':')[0] == a && Split(s, ':')[1] == b <==>
              ':' !in a && ':' !in b && Begins(s, a + ":" + b)
  {
    var parts := Split(s, ':');
    FirstPart(s, a);
    if |parts| > 1 && parts[0] == a && parts[1] == b {
      var rest := SplitHead(s, ':');
      FirstPart(rest, b);
      assert s == a + ":" + rest;
    }
    if ':' !in a && ':' !in b && Begins(s, a + ":" + b) {
      var rest := s[|a| + 1..];
      assert s == a + [':'] + rest && Begins(rest, b);
      PartsOfBegin(s, a);
      FirstPart(rest, b);
    }
  }

  lemma AfterPrefix(conversationId: string, head: string)
    requires IsDm(conversationId)
    ensures Begins(conversationId[3..], head) <==> Begins(conversationId, "dm:" + head)
  {
    assert conversationId == "dm:" + conversationId[3..];
  }

  /** An id is a well-formed direct message of these two exactly when it begins with `dm:a:b`, neither
      of them empty or with a colon in it. */
  lemma WellFormedExactly(conversationId: string, a: string, b: string)
    ensures WellFormedDm(conversationId) == Some((a, b)) <==>
              a != "" && b != "" && ':' !in a && ':' !in b && Begins(conversationId, DmId(a, b))
  {
    if IsDm(conversationId) {
      FirstParts(conversationId[3..], a, b);
      AfterPrefix(conversationId, a + ":" + b);
      assert DmId(a, b) == "dm:" + (a + ":" + b);
    }
  }

  /** It involves a user exactly when it begins with `dm:u`, or with `dm:x:u` for some `x`. */
  lemma InvolvesExactly(conversationId: string, userId: string)
    ensures DmInvolves(conversationId, userId) <==>
              && ':' !in userId
              && (Begins(conversationId, "dm:" + userId)
                  || exists x :: ':' !in x && Begins(conversationId, DmId(x, userId)))
  {
    if IsDm(conversationId) {
      FirstPart(conversationId[3..], userId);
      AfterPrefix(conversationId, userId);
      SecondPart(conversationId, userId);
    }
  }

  lemma SecondPart(conversationId: string, userId: string)
    requires IsDm(conversationId)
    ensures Part(Split(conversationId[3..], ':'), 1) == Some(userId) <==>
              ':' !in userId && exists x :: ':' !in x && Begins(conversationId, DmId(x, userId))
  {
    var s := conversationId[3..];
    var parts := Split(s, ':');
    forall x ensures |parts| > 1 && parts[0] == x && parts[1] == userId <==>
                       ':' !in x && ':' !in userId && Begins(conversationId, DmId(x, userId)) {
      FirstParts(s, x, userId);
      AfterPrefix(conversationId, x + ":" + userId);
      assert DmId(x, userId) == "dm:" + (x + ":" + userId);
    }
    if |parts| > 1 && parts[1] == userId {
      assert ':' !in parts[0] && Begins(conversationId, DmId(parts[0], userId));
    }
  }

  /** Whom a message reaches. A direct message reaches both of its users, whichever of them sends; from
      anyone else, the first of them and the sender. Any other id has one room, its own; so has a
      malformed direct message for a new message, but none for what is told of an old one. */
  lemma RoomsAre(conversationId: string, selfId: string, a: string, b: string)
    ensures WellFormedDm(conversationId) == Some((a, b)) ==>
              && ConversationRooms(conversationId) == {UserRoom(a), UserRoom(b)}
              && BroadcastRooms(conversationId, selfId) ==
                 if selfId == a || selfId == b then {UserRoom(a), UserRoom(b)} else {UserRoom(a), UserRoom(selfId)}
    ensures WellFormedDm(conversationId).None? ==>
              && BroadcastRooms(conversationId, selfId) == {ChatRoom(conversationId)}
              && ConversationRooms(conversationId) == if IsDm(conversationId) then {} else {ChatRoom(conversationId)}
  {}

  /** The two ways to take a direct-message id apart agree, whatever follows `dm:`. */
  lemma ReplayFilterAgrees(conversationId: string, userId: string)
    requires IsDm(conversationId)
    ensures ReplayInvolves(conversationId, userId) <==> DmInvolves(conversationId, userId)
  {
    assert conversationId == "dm" + [':'] + conversationId[3..];
    SplitFirst("dm", conversationId[3..], ':');
  }

  /** For every id and sender, `broadcast` and `broadcastToConversation` pick the same rooms
      exactly when the id is not a direct message, or is a well-formed one of the sender's own. */
  lemma RoomsAgreeExactly(conversationId: string, selfId: string)
    ensures BroadcastRooms(conversationId, selfId) == ConversationRooms(conversationId) <==>
            || !IsDm(conversationId)
            || (WellFormedDm(conversationId).Some? && DmInvolves(conversationId, selfId))
  {
    match WellFormedDm(conversationId)
    case None =>
      assert ChatRoom(conversationId) in BroadcastRooms(conversationId, selfId);
    case Some((a, b)) =>
      assert UserRoom(selfId) in BroadcastRooms(conversationId, selfId);
      assert UserRoom(selfId) in ConversationRooms(conversationId) <==> selfId == a || selfId == b;
      assert UserRoom(b) in ConversationRooms(conversationId);
  }

  /** Each participant's recipient is the other one, in both directions. */
  lemma RecipientIsTheOther(conversationId: string, a: string, b: string)
    requires WellFormedDm(conversationId) == Some((a, b))
    ensures DmRecipient(conversationId, a) == Some(b) && DmRecipient(conversationId, b) == Some(a)
    ensures DmInvolves(conversationId, a) && DmInvolves(conversationId, b)
  {}

  /** An id built from two user ids names exactly these two. */
  lemma DmIdRoundTrip(a: string, b: string)
    requires a != "" && b != "" && ':' !in a && ':' !in b
    ensures WellFormedDm(DmId(a, b)) == Some((a, b))
    ensures forall u :: DmInvolves(DmId(a, b), u) <==> u == a || u == b
  {
    assert DmId(a, b)[3..] == a + [':'] + b;
    SplitFirst(a, b, ':');
    SplitAtom(b, ':');
  }
}
