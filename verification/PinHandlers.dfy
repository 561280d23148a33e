/** The pin store and its handlers as they run, each one step of `Pins`
    (src/feature/chat/handlers/pin.handler.ts, src/feature/chat/store/pin.store.ts,
    src/feature/chat/handlers/room.handler.ts). */
module PinHandlers {
  import opened Collections
  import opened ConversationIds
  import opened MessageTable
  import opened Hydration
  import P = Pins

  class Store {
    var pinnedStore: P.PinStore

    constructor ()
      ensures pinnedStore == map[]
    {
      pinnedStore := map[];
    }

    method GetOrCreatePinned(conversationId: string) returns (list: seq<P.Pin>)
      modifies this
      ensures list == P.PinsOf(old(pinnedStore), conversationId)
      ensures pinnedStore == old(pinnedStore)[conversationId := list]
    {
      if conversationId !in pinnedStore {
        pinnedStore := pinnedStore[conversationId := []];
      }
      list := pinnedStore[conversationId];
    }

    function GetPinned(conversationId: string): Option<seq<P.Pin>>
      reads this
    {
      if conversationId in pinnedStore then Some(pinnedStore[conversationId]) else None
    }

    method SetPinned(conversationId: string, list: seq<P.Pin>)
      modifies this
      ensures pinnedStore == old(pinnedStore)[conversationId := list]
    {
      pinnedStore := pinnedStore[conversationId := list];
    }

    /** What `chat:pin` does once its lookup has come back; `ok` is false for `not_found`. */
    method ResumePin(req: P.PinRequest, msg: Option<ChatMessage>, userId: string, userName: string, now: int)
      returns (ok: bool, emitted: Option<(set<Room>, P.PinEvent)>)
      modifies this
      ensures var e := P.PinResumes(req, msg, userId, userName, now);
              var st := P.Chat(now, old(pinnedStore), map[]);
              && pinnedStore == P.Next(st, e).pins
              && emitted == (if P.Told(st, e).Some?
                             then Some((ConversationRooms(req.conversationId), P.Told(st, e).value)) else None)
              && (ok <==> P.Asks(e, req.conversationId, req.messageId))
              && (emitted.Some? <==> ok && !P.IsPinned(P.PinsOf(old(pinnedStore), req.conversationId), req.messageId))
    {
      emitted := None;
      if msg.Some? && (msg.value.deleted || msg.value.kind == System) { return false, None; }
      var resolvedType, resolvedContent := req.kind, req.content;
      var resolvedSenderId, resolvedSenderName := req.senderId, req.senderName;
      if msg.Some? {
        resolvedType, resolvedContent := Some(msg.value.kind), Some(msg.value.content);
        resolvedSenderId, resolvedSenderName := Some(msg.value.senderId), Some(msg.value.senderName);
      }
      if resolvedType.None? || resolvedContent.None? || P.Falsy(resolvedSenderId) || P.Falsy(resolvedSenderName) {
        return false, None;
      }
      ok := true;
      var list := GetOrCreatePinned(req.conversationId);
      for i := 0 to |list|
        invariant forall k :: 0 <= k < i ==> list[k].id != req.messageId
      {
        if list[i].id == req.messageId { return; }
      }
      var content := resolvedContent.value;
      if resolvedType.value == Text && |content| > P.PIN_SNIPPET_MAX {
        content := content[..P.PIN_SNIPPET_MAX] + "\U{2026}";
      }
      var pin := P.Pin(req.messageId, req.conversationId, content, resolvedType.value,
                       resolvedSenderId.value, resolvedSenderName.value, now, userId, userName);
      pinnedStore := pinnedStore[req.conversationId := [pin] + list];
      emitted := Some((ConversationRooms(req.conversationId), P.Pinned(pin)));
    }

    method HandleUnpin(conversationId: string, messageId: string) returns (emitted: Option<(set<Room>, P.PinEvent)>)
      modifies this
      ensures var e, st := P.Unpin(conversationId, messageId), P.Chat(0, old(pinnedStore), map[]);
              && pinnedStore == P.Next(st, e).pins
              && emitted == (if P.Told(st, e).Some?
                             then Some((ConversationRooms(conversationId), P.Told(st, e).value)) else None)
      ensures emitted == if conversationId in old(pinnedStore)
                         then Some((ConversationRooms(conversationId), P.Unpinned(conversationId, messageId))) else None
    {
      var list := GetPinned(conversationId);
      if list.None? { return None; }
      var kept: seq<P.Pin> := [];
      for i := 0 to |list.value|
        invariant pinnedStore == old(pinnedStore)
        invariant kept == P.RemovePin(list.value[..i], messageId)
      {
        FilterAppend(list.value[..i], list.value[i], P.NotId(messageId));
        assert list.value[..i + 1] == list.value[..i] + [list.value[i]];
        if list.value[i].id != messageId {
          kept := kept + [list.value[i]];
        }
      }
      assert list.value[..|list.value|] == list.value;
      SetPinned(conversationId, kept);
      emitted := Some((ConversationRooms(conversationId), P.Unpinned(conversationId, messageId)));
    }

    /** `chat:join`: what a viewer holds after the replay, if there is one, is the server's list. */
    method HandleJoin(conversationId: string) returns (replay: Option<seq<P.Pin>>)
      ensures replay == var pins := P.PinsOf(pinnedStore, conversationId); if pins != [] then Some(pins) else None
    {
      var pins := GetPinned(conversationId);
      replay := if pins.Some? && |pins.value| > 0 then pins else None;
    }

    /** `chat:pins-fetch` */
    method FetchPins(conversationId: string) returns (pinned: seq<P.Pin>)
      ensures pinned == P.PinsOf(pinnedStore, conversationId)
    {
      var pins := GetPinned(conversationId);
      pinned := if pins.Some? then pins.value else [];
    }
  }
}
