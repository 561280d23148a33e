/** Pinned messages and the clients that follow them (src/feature/chat/handlers/pin.handler.ts,
    src/feature/chat/store/pin.store.ts, src/feature/chat/handlers/room.handler.ts).

    A pin looks its message up, waits, and then does the rest in one step; the step depends on the
    server's pins as they are then and on what the lookup gave, so it is modelled for whatever the
    lookup gave, however long ago. */
module Pins {
  import opened Collections
  import opened ConversationIds
  import opened MessageTable
  import opened Hydration
  import opened MessageViews
  import opened Standing

  const PIN_SNIPPET_MAX := 200

  datatype Pin = Pin(
    id: string,
    conversationId: string,
    content: string,
    kind: MessageType,
    senderId: string,
    senderName: string,
    pinnedAt: int,
    pinnedBy: string,
    pinnedByName: string)

  datatype PinRequest = PinRequest(
    conversationId: string,
    messageId: string,
    content: Option<string>,
    kind: Option<MessageType>,
    senderId: Option<string>,
    senderName: Option<string>)

  // ---------------------------------------------------------------- one request

  predicate Falsy(s: Option<string>) { s.None? || s.value == "" }

  function PinSnippet(kind: MessageType, content: string): string {
    if kind == Text && |content| > PIN_SNIPPET_MAX then content[..PIN_SNIPPET_MAX] + "\U{2026}" else content
  }

  /** The pin a request stands for: from the message if it was found, else from the client's own
      words; None is answered `not_found`. */
  function ResolvePin(req: PinRequest, found: Option<ChatMessage>, userId: string, userName: string, now: int)
    : (pin: Option<Pin>)
    ensures pin.Some? ==>
              && pin.value.id == req.messageId && pin.value.conversationId == req.conversationId
              && pin.value.pinnedAt == now && pin.value.pinnedBy == userId && pin.value.pinnedByName == userName
  {
    if found.Some? && (found.value.deleted || found.value.kind == System) then None
    else
      var kind := if found.Some? then Some(found.value.kind) else req.kind;
      var content := if found.Some? then Some(found.value.content) else req.content;
      var senderId := if found.Some? then Some(found.value.senderId) else req.senderId;
      var senderName := if found.Some? then Some(found.value.senderName) else req.senderName;
      if kind.None? || content.None? || Falsy(senderId) || Falsy(senderName) then None
      else Some(Pin(req.messageId, req.conversationId, PinSnippet(kind.value, content.value), kind.value,
                    senderId.value, senderName.value, now, userId, userName))
  }

  /** A stored message is pinned as it is, whatever the client says of it. */
  predicate PinsMessage(pin: Pin, m: ChatMessage) {
    && Abridges(pin.content, m.kind, m.content, 200) && pin.kind == m.kind
    && pin.senderId == m.senderId && pin.senderName == m.senderName
  }

  /** One that is not found, in the client's own words. */
  predicate PinsWords(pin: Pin, req: PinRequest) {
    && req.kind == Some(pin.kind) && req.content.Some? && Abridges(pin.content, pin.kind, req.content.value, 200)
    && req.senderId == Some(pin.senderId) && req.senderName == Some(pin.senderName)
  }

  /** Which requests resolve, and to what. */
  lemma ResolvesExactly(req: PinRequest, found: Option<ChatMessage>, userId: string, userName: string, now: int)
    ensures var pin := ResolvePin(req, found, userId, userName, now);
            && (pin.Some? <==>
                  if found.Some? then !found.value.deleted && found.value.kind != System
                                      && found.value.senderId != "" && found.value.senderName != ""
                  else req.kind.Some? && req.content.Some?
                       && req.senderId.Some? && req.senderId.value != ""
                       && req.senderName.Some? && req.senderName.value != "")
            && (pin.Some? ==> if found.Some? then PinsMessage(pin.value, found.value) else PinsWords(pin.value, req))
  {}

  predicate IsPinned(list: seq<Pin>, id: string) {
    exists i :: 0 <= i < |list| && list[i].id == id
  }

  /** A second pin of the same message changes nothing. */
  function AddPin(list: seq<Pin>, pin: Pin): seq<Pin> {
    if IsPinned(list, pin.id) then list else [pin] + list
  }

  /** `list.filter((p) => p.id !== messageId)` */
  function RemovePin(list: seq<Pin>, id: string): seq<Pin> {
    Filter(list, NotId(id))
  }

  function NotId(id: string): Pin -> bool {
    (p: Pin) => p.id != id
  }

  type PinStore = map<string, seq<Pin>>

  function PinsOf(store: PinStore, conversationId: string): seq<Pin> {
    if conversationId in store then store[conversationId] else []
  }

  // ---------------------------------------------------------------- the chat

  /** A client that has joined a conversation and not left it. */
  datatype Viewer = Viewer(userId: string, socketId: string, conversationId: string)

  datatype PinEvent = Pinned(pin: Pin) | Unpinned(conversationId: string, messageId: string)

  /** How a client folds what it is told. */
  function Hear(view: seq<Pin>, e: PinEvent): seq<Pin> {
    match e
    case Pinned(pin) => [pin] + view
    case Unpinned(_, id) => RemovePin(view, id)
  }

  /** The event goes to rooms: a viewer's socket is in its user's room and in the conversation's. */
  predicate Reaches(viewer: Viewer, conversationId: string) {
    viewer.conversationId == conversationId
    && var rooms := ConversationRooms(conversationId);
       ChatRoom(conversationId) in rooms || UserRoom(viewer.userId) in rooms
  }

  datatype Chat = Chat(clock: int, pins: PinStore, views: map<Viewer, seq<Pin>>)

  const INIT := Chat(0, map[], map[])

  datatype Event =
    | PinResumes(req: PinRequest, found: Option<ChatMessage>, userId: string, userName: string, now: int)
    | Unpin(conversationId: string, messageId: string)
    | Join(viewer: Viewer)
    | Leave(viewer: Viewer)

  predicate Enabled(st: Chat, e: Event) {
    e.PinResumes? ==> st.clock <= e.now
  }

  /** What an event makes the server tell the conversation. */
  function Told(st: Chat, e: Event): Option<PinEvent> {
    match e
    case PinResumes(req, found, u, name, now) =>
      (match ResolvePin(req, found, u, name, now)
       case Some(pin) => if IsPinned(PinsOf(st.pins, req.conversationId), pin.id) then None else Some(Pinned(pin))
       case None => None)
    case Unpin(c, id) => if c in st.pins then Some(Unpinned(c, id)) else None
    case _ => None
  }

  function About(e: PinEvent): string {
    match e
    case Pinned(pin) => pin.conversationId
    case Unpinned(c, _) => c
  }

  function Broadcast(views: map<Viewer, seq<Pin>>, told: Option<PinEvent>): map<Viewer, seq<Pin>> {
    map v | v in views :: if told.Some? && Reaches(v, About(told.value)) then Hear(views[v], told.value) else views[v]
  }

  function NextPins(pins: PinStore, e: Event): PinStore {
    match e
    case PinResumes(req, found, u, name, now) =>
      (match ResolvePin(req, found, u, name, now)
       case Some(pin) => pins[req.conversationId := AddPin(PinsOf(pins, req.conversationId), pin)]
       case None => pins)
    case Unpin(c, id) => if c in pins then pins[c := RemovePin(pins[c], id)] else pins
    case _ => pins
  }

  /** Joining replays the pins when there are any; a new viewer starts from none. */
  function NextViews(st: Chat, e: Event): map<Viewer, seq<Pin>> {
    match e
    case Join(v) =>
      var pins := PinsOf(st.pins, v.conversationId);
      if pins != [] then st.views[v := pins] else if v in st.views then st.views else st.views[v := []]
    case Leave(v) => st.views - {v}
    case _ => Broadcast(st.views, Told(st, e))
  }

  function Next(st: Chat, e: Event): Chat {
    Chat(if e.PinResumes? then e.now else st.clock, NextPins(st.pins, e), NextViews(st, e))
  }

  ghost predicate IsRun(sts: seq<Chat>, es: seq<Event>) {
    |sts| == |es| + 1 && sts[0] == INIT
    && forall i :: 0 <= i < |es| ==> Enabled(sts[i], es[i]) && sts[i + 1] == Next(sts[i], es[i])
  }

  // ---------------------------------------------------------------- order and distinctness

  /** Distinct messages of this conversation, the latest pin first. */
  predicate ListOk(list: seq<Pin>, conversationId: string, clock: int) {
    && (forall i :: 0 <= i < |list| ==> list[i].conversationId == conversationId && list[i].pinnedAt <= clock)
    && (forall i, j :: 0 <= i < j < |list| ==> list[i].id != list[j].id && list[i].pinnedAt >= list[j].pinnedAt)
  }

  predicate PinsOk(st: Chat) {
    forall c :: c in st.pins ==> ListOk(st.pins[c], c, st.clock)
  }

  lemma AddKeepsList(list: seq<Pin>, pin: Pin, clock: int)
    requires ListOk(list, pin.conversationId, clock) && clock <= pin.pinnedAt
    ensures ListOk(AddPin(list, pin), pin.conversationId, pin.pinnedAt)
  {}

  lemma OneMoreKeepsList(kept: seq<Pin>, list: seq<Pin>, last: Pin, conversationId: string, clock: int)
    requires ListOk(kept, conversationId, clock) && ListOk(list + [last], conversationId, clock)
    requires forall p :: p in kept ==> p in list
    ensures ListOk(kept + [last], conversationId, clock)
  {
    var longer := list + [last];
    assert longer[|list|] == last;
    forall i | 0 <= i < |kept| ensures kept[i].id != last.id && kept[i].pinnedAt >= last.pinnedAt {
      assert kept[i] in list;
      var j :| 0 <= j < |list| && list[j] == kept[i];
      assert longer[j] == kept[i];
    }
  }

  lemma {:induction false} RemoveKeepsList(list: seq<Pin>, id: string, conversationId: string, clock: int)
    requires ListOk(list, conversationId, clock)
    ensures ListOk(RemovePin(list, id), conversationId, clock)
  {
    if list != [] {
      var front, last := list[..|list| - 1], list[|list| - 1];
      assert list == front + [last];
      FilterAppend(front, last, NotId(id));
      RemoveKeepsList(front, id, conversationId, clock);
      if last.id != id {
        FilterMembers(front, NotId(id));
        OneMoreKeepsList(RemovePin(front, id), front, last, conversationId, clock);
      } else {
        assert RemovePin(front, id) + [] == RemovePin(front, id);
      }
    }
  }

  lemma NextKeepsPins(st: Chat, e: Event)
    requires PinsOk(st) && Enabled(st, e)
    ensures PinsOk(Next(st, e))
  {
    match e
    case PinResumes(req, found, u, name, now) =>
      var pin := ResolvePin(req, found, u, name, now);
      if pin.Some? {
        AddKeepsList(PinsOf(st.pins, req.conversationId), pin.value, st.clock);
      }
    case Unpin(c, id) =>
      if c in st.pins {
        RemoveKeepsList(st.pins[c], id, c, st.clock);
      }
    case _ =>
  }

  /** Whatever pins were suspended and whatever was unpinned meanwhile: every list holds distinct
      messages, the latest pin first. */
  lemma {:induction false} ListsStayOrdered(sts: seq<Chat>, es: seq<Event>, i: nat)
    requires IsRun(sts, es) && i <= |es|
    ensures PinsOk(sts[i])
  {
    if i > 0 {
      ListsStayOrdered(sts, es, i - 1);
      NextKeepsPins(sts[i - 1], es[i - 1]);
    }
  }

  // ---------------------------------------------------------------- what is pinned

  /** A request for this message that resolves. */
  predicate Asks(e: Event, conversationId: string, id: string) {
    e.PinResumes? && e.req.conversationId == conversationId && e.req.messageId == id
    && ResolvePin(e.req, e.found, e.userId, e.userName, e.now).Some?
  }

  function AsksAt(es: seq<Event>, conversationId: string, id: string): nat -> bool {
    (j: nat) => j < |es| && Asks(es[j], conversationId, id)
  }

  function UnpinsAt(es: seq<Event>, conversationId: string, id: string): nat -> bool {
    (j: nat) => j < |es| && es[j] == Unpin(conversationId, id)
  }

  lemma StepPins(pins: PinStore, e: Event, conversationId: string, id: string)
    ensures IsPinned(PinsOf(NextPins(pins, e), conversationId), id) <==>
            || Asks(e, conversationId, id)
            || (IsPinned(PinsOf(pins, conversationId), id) && e != Unpin(conversationId, id))
  {
    var list, list' := PinsOf(pins, conversationId), PinsOf(NextPins(pins, e), conversationId);
    match e
    case PinResumes(req, found, u, name, now) =>
      var pin := ResolvePin(req, found, u, name, now);
      if pin.Some? && req.conversationId == conversationId {
        AddedIsPinned(list, pin.value, id);
      }
    case Unpin(c, x) =>
      if c == conversationId && c in pins {
        RemovedIsUnpinned(list, x, id);
      }
    case _ =>
  }

  lemma AddedIsPinned(list: seq<Pin>, pin: Pin, id: string)
    ensures IsPinned(AddPin(list, pin), id) <==> IsPinned(list, id) || pin.id == id
  {
    if !IsPinned(list, pin.id) {
      var added := [pin] + list;
      assert added[0] == pin;
      if IsPinned(list, id) {
        var i :| 0 <= i < |list| && list[i].id == id;
        assert added[i + 1].id == id;
      }
    }
  }

  lemma RemovedIsUnpinned(list: seq<Pin>, x: string, id: string)
    ensures IsPinned(RemovePin(list, x), id) <==> IsPinned(list, id) && id != x
  {
    FilterMembers(list, NotId(x));
    var kept := RemovePin(list, x);
    if IsPinned(kept, id) {
      var i :| 0 <= i < |kept| && kept[i].id == id;
      assert kept[i] in list;
    }
    if IsPinned(list, id) && id != x {
      var i :| 0 <= i < |list| && list[i].id == id;
      assert list[i] in kept;
    }
  }

  function PinnedAt(sts: seq<Chat>, conversationId: string, id: string): nat -> bool {
    (j: nat) => j < |sts| && IsPinned(PinsOf(sts[j].pins, conversationId), id)
  }

  /** A message is pinned exactly when some request for it resolved and no unpin has come since. */
  lemma PinnedExactly(sts: seq<Chat>, es: seq<Event>, i: nat, conversationId: string, id: string)
    requires IsRun(sts, es) && i <= |es|
    ensures IsPinned(PinsOf(sts[i].pins, conversationId), id) <==>
            Stands(AsksAt(es, conversationId, id), UnpinsAt(es, conversationId, id), i)
  {
    forall k: nat | k < i
      ensures Steps(PinnedAt(sts, conversationId, id), AsksAt(es, conversationId, id),
                    UnpinsAt(es, conversationId, id), k)
    {
      StepPins(sts[k].pins, es[k], conversationId, id);
    }
    HoldsExactly(PinnedAt(sts, conversationId, id), AsksAt(es, conversationId, id),
                 UnpinsAt(es, conversationId, id), i);
    assert PinnedAt(sts, conversationId, id)(i) <==> IsPinned(PinsOf(sts[i].pins, conversationId), id);
  }

  /** The pin is what this request resolved to. */
  predicate Resolved(e: Event, pin: Pin) {
    e.PinResumes? && ResolvePin(e.req, e.found, e.userId, e.userName, e.now) == Some(pin)
  }

  predicate ResolvedBefore(es: seq<Event>, i: nat, pin: Pin) {
    exists j :: 0 <= j < i && j < |es| && Resolved(es[j], pin)
  }

  lemma StepResolves(pins: PinStore, e: Event, conversationId: string, pin: Pin)
    requires pin in PinsOf(NextPins(pins, e), conversationId)
    ensures pin in PinsOf(pins, conversationId) || Resolved(e, pin)
  {
    if e.Unpin? && e.conversationId == conversationId {
      FilterMembers(PinsOf(pins, conversationId), NotId(e.messageId));
    }
  }

  /** Whatever is pinned is what some request resolved to, unchanged since. */
  lemma {:induction false} PinsWereAskedFor(sts: seq<Chat>, es: seq<Event>, i: nat, conversationId: string, pin: Pin)
    requires IsRun(sts, es) && i <= |es| && pin in PinsOf(sts[i].pins, conversationId)
    ensures ResolvedBefore(es, i, pin)
  {
    StepResolves(sts[i - 1].pins, es[i - 1], conversationId, pin);
    if !Resolved(es[i - 1], pin) {
      PinsWereAskedFor(sts, es, i - 1, conversationId, pin);
    }
  }

  // ---------------------------------------------------------------- clients that follow

  /** The id is not a direct message, or a well-formed one of the viewer's own. */
  predicate Hears(viewer: Viewer) {
    !IsDm(viewer.conversationId)
    || (WellFormedDm(viewer.conversationId).Some? && DmInvolves(viewer.conversationId, viewer.userId))
  }

  lemma HearsExactly(viewer: Viewer)
    ensures Hears(viewer) <==> Reaches(viewer, viewer.conversationId)
  {
    match WellFormedDm(viewer.conversationId)
    case None =>
    case Some((a, b)) =>
      assert UserRoom(viewer.userId) in ConversationRooms(viewer.conversationId) <==>
               viewer.userId == a || viewer.userId == b;
  }

  predicate InStep(st: Chat, viewer: Viewer) {
    viewer in st.views && Hears(viewer) ==> st.views[viewer] == PinsOf(st.pins, viewer.conversationId)
  }

  lemma NextKeepsStep(st: Chat, e: Event, viewer: Viewer)
    requires InStep(st, viewer)
    ensures InStep(Next(st, e), viewer)
  {
    HearsExactly(viewer);
  }

  /** Clients that hear follow exactly: at every point of every run, a client that folds what it is
      told since it joined has the server's list. */
  lemma {:induction false} ViewsFollow(sts: seq<Chat>, es: seq<Event>, i: nat, viewer: Viewer)
    requires IsRun(sts, es) && i <= |es| && viewer in sts[i].views && Hears(viewer)
    ensures sts[i].views[viewer] == PinsOf(sts[i].pins, viewer.conversationId)
  {
    ViewsStayInStep(sts, es, i, viewer);
  }

  lemma {:induction false} ViewsStayInStep(sts: seq<Chat>, es: seq<Event>, i: nat, viewer: Viewer)
    requires IsRun(sts, es) && i <= |es|
    ensures InStep(sts[i], viewer)
  {
    if i > 0 {
      ViewsStayInStep(sts, es, i - 1, viewer);
      NextKeepsStep(sts[i - 1], es[i - 1], viewer);
    }
  }

  /** Every other client falls behind, from whatever state, with the first message that is newly
      pinned: a view equal to the server's list no longer is. */
  lemma DeafViewFallsBehind(st: Chat, e: Event, viewer: Viewer)
    requires viewer in st.views && !Hears(viewer) && st.views[viewer] == PinsOf(st.pins, viewer.conversationId)
    requires e.PinResumes? && Asks(e, viewer.conversationId, e.req.messageId)
    requires !IsPinned(PinsOf(st.pins, viewer.conversationId), e.req.messageId)
    ensures var st' := Next(st, e);
            viewer in st'.views && st'.views[viewer] != PinsOf(st'.pins, viewer.conversationId)
  {
    HearsExactly(viewer);
    var st' := Next(st, e);
    assert st'.views[viewer] == st.views[viewer];
    assert |PinsOf(st'.pins, viewer.conversationId)| == |st.views[viewer]| + 1;
  }

  /** ... and there are such runs for every one of them. */
  lemma DeafViewsFallBehind(viewer: Viewer, req: PinRequest, found: Option<ChatMessage>,
                            userId: string, userName: string, now: nat)
    returns (sts: seq<Chat>, es: seq<Event>)
    requires !Hears(viewer) && req.conversationId == viewer.conversationId
    requires ResolvePin(req, found, userId, userName, now).Some?
    ensures IsRun(sts, es) && |es| == 2
    ensures viewer in sts[2].views && sts[2].views[viewer] != PinsOf(sts[2].pins, viewer.conversationId)
  {
    es := [Join(viewer), PinResumes(req, found, userId, userName, now)];
    var st1 := Next(INIT, es[0]);
    sts := [INIT, st1, Next(st1, es[1])];
    assert st1.views == map[viewer := []];
    DeafViewFallsBehind(st1, es[1], viewer);
  }
}
