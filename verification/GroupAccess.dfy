/** Who may do what to a group: every answer in terms of the record's own lists, and what every
    suspended removal and every record goes back to (src/feature/chat/handlers/group.handler.ts). */
module GroupAccess {
  import opened Collections
  import opened GroupModel
  import opened GroupInvariants

  // ---------------------------------------------------------------- the answers

  /** The distinct users a group is created for. */
  function People(u: UserId, memberIds: seq<UserId>): set<UserId> {
    Elements([u] + memberIds) - {""}
  }

  predicate MayCreate(u: UserId, name: string, memberIds: seq<UserId>) {
    |People(u, memberIds)| >= 3 && |JsStrings.Trim(name)| <= 60
  }

  lemma MembersArePeople(u: UserId, memberIds: seq<UserId>)
    ensures Elements(UniqueMembers(u, memberIds)) == People(u, memberIds)
    ensures |UniqueMembers(u, memberIds)| == |People(u, memberIds)|
  {
    NoDupCardinality(UniqueMembers(u, memberIds));
    assert Elements(UniqueMembers(u, memberIds)) == People(u, memberIds);
  }

  /** A group is for three users or more, and its name has at most sixty characters when trimmed. */
  lemma CreateAnswers(u: UserId, name: string, memberIds: seq<UserId>)
    ensures CreateCheck(u, name, memberIds) == MinMembers <==> |People(u, memberIds)| < 3
    ensures CreateCheck(u, name, memberIds) == NameTooLong <==>
              |People(u, memberIds)| >= 3 && |JsStrings.Trim(name)| > 60
    ensures CreateCheck(u, name, memberIds) == Ok <==> MayCreate(u, name, memberIds)
  {
    MembersArePeople(u, memberIds);
  }

  /** A member may leave unless they are its only admin and not its only member. */
  predicate MayLeave(st: Store, u: UserId, c: ConvId) {
    st.Member(u, c) &&
    var dto := st.records[c].dto;
    !(u in dto.adminIds && |dto.adminIds| == 1 && |dto.memberIds| > 1)
  }

  /** An admin may take out another member. */
  predicate MayKick(st: Store, u: UserId, c: ConvId, target: UserId) {
    st.Admin(u, c) && st.Member(target, c) && u != target
  }

  /** In a group that keeps the invariant: a member may leave exactly when they are no admin, or there is
      another one. */
  lemma MayLeaveMeans(st: Store, u: UserId, c: ConvId)
    requires RecordOk(st, c) && SizeOk(st, c)
    ensures MayLeave(st, u, c) <==> st.Member(u, c) && (st.Admin(u, c) ==> exists a :: a != u && st.Admin(a, c))
  {
    if st.Admin(u, c) {
      var admins := st.records[c].dto.adminIds;
      if |admins| > 1 {
        NoDupIndices(admins, 0, 1);
        var a := if admins[0] == u then admins[1] else admins[0];
        assert a != u && st.Admin(a, c);
      }
    }
  }

  /** What a request does that needs no suspended task: nothing at all, unless an admin asks, or a
      member asks to leave. */
  lemma RequestsTakeEffect(w: World, e: Event)
    ensures e.OnLeave? ==> Next(w, e) == if MayLeave(w.st, e.u, e.c)
                                         then w.(pending := w.pending + multiset{Removal(e.c, e.u, Left)}) else w
    ensures e.OnKick? ==> Next(w, e) == if MayKick(w.st, e.u, e.c, e.target)
                                        then w.(pending := w.pending + multiset{Removal(e.c, e.target, Kicked)}) else w
    ensures e.OnDelete? ==> if w.st.Admin(e.u, e.c) then !Next(w, e).st.Stored(e.c) else Next(w, e) == w
    ensures (e.OnPromote? || e.OnMute? || e.OnBlock?) && !(w.st.Admin(e.u, e.c) && w.st.Member(e.target, e.c)) ==>
              Next(w, e) == w
  {}

  // ---------------------------------------------------------------- where a suspended removal comes from

  /** The request that suspended this removal, at a point where it was allowed. */
  predicate Asked(w: World, e: Event, c: ConvId, t: UserId, reason: Reason) {
    match reason
    case Left => e == OnLeave(t, c) && MayLeave(w.st, t, c)
    case Kicked => e.OnKick? && e.c == c && e.target == t && MayKick(w.st, e.u, c, t)
    case _ => false
  }

  lemma NewTaskWasAsked(w: World, e: Event, c: ConvId, t: UserId, reason: Reason)
    requires Enabled(w, e) && Removal(c, t, reason) in Next(w, e).pending
    ensures Removal(c, t, reason) in w.pending || Asked(w, e, c, t, reason)
  {
    RequestsTakeEffect(w, e);
  }

  predicate AskedAt(ws: seq<World>, es: seq<Event>, j: nat, c: ConvId, t: UserId, reason: Reason) {
    j < |ws| && j < |es| && Asked(ws[j], es[j], c, t, reason)
  }

  lemma TaskStep(ws: seq<World>, es: seq<Event>, k: nat, c: ConvId, t: UserId, reason: Reason)
    requires IsRun(ws, es) && k < |es| && Removal(c, t, reason) in ws[k + 1].pending
    ensures Removal(c, t, reason) in ws[k].pending || AskedAt(ws, es, k, c, t, reason)
  {
    NewTaskWasAsked(ws[k], es[k], c, t, reason);
  }

  /** In every run, whoever is about to be taken out has asked to leave when they might, or was kicked
      by an admin when they were a member: nothing else suspends a removal. */
  lemma {:induction false} RemovalsWereAskedFor(ws: seq<World>, es: seq<Event>, i: nat, c: ConvId, t: UserId,
                                                reason: Reason) returns (j: nat)
    requires IsRun(ws, es) && ws[0] == INIT && i <= |es| && Removal(c, t, reason) in ws[i].pending
    ensures j < i && AskedAt(ws, es, j, c, t, reason)
  {
    TaskStep(ws, es, i - 1, c, t, reason);
    j := i - 1;
    if Removal(c, t, reason) in ws[j].pending {
      j := RemovalsWereAskedFor(ws, es, j, c, t, reason);
    }
  }

  // ---------------------------------------------------------------- where a record comes from

  /** What never changes on a record. */
  predicate SameOrigin(dto: GroupDto, dto': GroupDto) {
    && dto'.conversationId == dto.conversationId && dto'.name == dto.name
    && dto'.createdAt == dto.createdAt && dto'.createdBy == dto.createdBy
  }

  /** The record goes back to this request: its creator, its time, and its name as asked for, or else
      the ids of the first three members. */
  predicate CreatedBy(dto: GroupDto, e: Event) {
    e.OnCreate? && MayCreate(e.u, e.name, e.memberIds)
    && dto.conversationId == e.c && dto.createdBy == e.u && dto.createdAt == e.now
    && var members, name := UniqueMembers(e.u, e.memberIds), JsStrings.Trim(e.name);
       |members| >= 3 && dto.name == if name != "" then name else JsStrings.Join(members[..3], ", ")
  }

  lemma NewRecordIsCreatedBy(w: World, e: Event)
    requires Enabled(w, e) && e.OnCreate? && e.c in Next(w, e).st.records
    ensures CreatedBy(Next(w, e).st.records[e.c].dto, e)
  {
    CreateAnswers(e.u, e.name, e.memberIds);
    MembersArePeople(e.u, e.memberIds);
  }

  lemma CreateOrigins(w: World, e: Event, c: ConvId)
    requires Enabled(w, e) && e.OnCreate?
    ensures c in Next(w, e).st.records ==> c in w.st.records || c == e.c
    ensures c in w.st.records ==> Next(w, e).st.records[c] == w.st.records[c]
  {}

  lemma RemovalOrigins(w: World, task: Task, c: ConvId)
    requires task.Removal? && Enabled(w, Resume(task))
    ensures Next(w, Resume(task)).st.records.Keys == w.st.records.Keys
    ensures c in w.st.records ==> SameOrigin(w.st.records[c].dto, Next(w, Resume(task)).st.records[c].dto)
  {
    var taken := TakeOut(w.st, task.c, task.target, task.reason);
    var st' := Next(w, Resume(task)).st;
    assert st' == taken || st' == DeleteGroup(taken, task.c, Dissolved);
  }

  /** Reassigning lists of one record touches no origin. */
  lemma ListsChange(st: Store, st': Store, d: ConvId, dto: GroupDto, c: ConvId)
    requires d in st.records && SameOrigin(st.records[d].dto, dto) && st'.records == st.WithDto(d, dto).records
    ensures st'.records.Keys == st.records.Keys
    ensures c in st.records ==> SameOrigin(st.records[c].dto, st'.records[c].dto)
  {}

  lemma RoleOrigins(w: World, e: Event, c: ConvId)
    requires e.OnPromote? || e.OnMute? || e.OnBlock?
    ensures Next(w, e).st.records.Keys == w.st.records.Keys
    ensures c in w.st.records ==> SameOrigin(w.st.records[c].dto, Next(w, e).st.records[c].dto)
  {
    if AdminCheck(w.st, e.u, e.c, e.target) == Ok {
      var dto, t := w.st.records[e.c].dto, e.target;
      var changed := match e
        case OnMute(_, _, _, on) => dto.(mutedMembers := Toggle(dto.mutedMembers, t, on))
        case OnBlock(_, _, _, on) => dto.(blockedMembers := Toggle(dto.blockedMembers, t, on))
        case _ => dto.(adminIds := Toggle(dto.adminIds, t, true));
      ListsChange(w.st, Next(w, e).st, e.c, changed, c);
    }
  }

  lemma OtherOrigins(w: World, e: Event, c: ConvId)
    requires Enabled(w, e) && !e.OnCreate? && !(e.Resume? && e.task.Removal?)
    ensures Next(w, e).st.records.Keys == w.st.records.Keys
    ensures c in w.st.records ==> SameOrigin(w.st.records[c].dto, Next(w, e).st.records[c].dto)
  {
    if e.OnPromote? || e.OnMute? || e.OnBlock? {
      RoleOrigins(w, e, c);
    }
  }

  lemma OriginStep(w: World, e: Event, c: ConvId)
    requires Enabled(w, e) && c in Next(w, e).st.records
    ensures if c in w.st.records then SameOrigin(w.st.records[c].dto, Next(w, e).st.records[c].dto)
            else e.OnCreate? && e.c == c
  {
    if e.OnCreate? {
      CreateOrigins(w, e, c);
    } else if e.Resume? && e.task.Removal? {
      RemovalOrigins(w, e.task, c);
    } else {
      OtherOrigins(w, e, c);
    }
  }

  predicate CreatedAt(dto: GroupDto, es: seq<Event>, j: nat) {
    j < |es| && CreatedBy(dto, es[j])
  }

  lemma RecordStep(ws: seq<World>, es: seq<Event>, k: nat, c: ConvId)
    requires IsRun(ws, es) && k < |es| && c in ws[k + 1].st.records
    ensures if c in ws[k].st.records then SameOrigin(ws[k].st.records[c].dto, ws[k + 1].st.records[c].dto)
            else CreatedAt(ws[k + 1].st.records[c].dto, es, k)
  {
    OriginStep(ws[k], es[k], c);
    if c !in ws[k].st.records {
      NewRecordIsCreatedBy(ws[k], es[k]);
    }
  }

  lemma SameOriginSameRequest(dto: GroupDto, dto': GroupDto, es: seq<Event>, j: nat)
    requires SameOrigin(dto, dto') && CreatedAt(dto, es, j)
    ensures CreatedAt(dto', es, j)
  {}

  ghost predicate HasOrigin(ws: seq<World>, es: seq<Event>, k: nat, c: ConvId) {
    k < |ws| && (c in ws[k].st.records ==> exists j: nat :: j < k && CreatedAt(ws[k].st.records[c].dto, es, j))
  }

  lemma OriginGoesOn(ws: seq<World>, es: seq<Event>, k: nat, c: ConvId)
    requires IsRun(ws, es) && k < |es| && HasOrigin(ws, es, k, c)
    ensures HasOrigin(ws, es, k + 1, c)
  {
    if c in ws[k + 1].st.records {
      RecordStep(ws, es, k, c);
      if c in ws[k].st.records {
        var j: nat :| j < k && CreatedAt(ws[k].st.records[c].dto, es, j);
        SameOriginSameRequest(ws[k].st.records[c].dto, ws[k + 1].st.records[c].dto, es, j);
      }
    }
  }

  lemma {:induction false} OriginsGoOn(ws: seq<World>, es: seq<Event>, i: nat, c: ConvId)
    requires IsRun(ws, es) && ws[0] == INIT && i <= |es|
    ensures HasOrigin(ws, es, i, c)
  {
    if i > 0 {
      OriginsGoOn(ws, es, i - 1, c);
      OriginGoesOn(ws, es, i - 1, c);
    }
  }

  /** In every run, each record, stored or not, still has the id, name, creator and time of the request
      that created it, and that request was allowed. */
  lemma RecordsKeepTheirOrigin(ws: seq<World>, es: seq<Event>, i: nat, c: ConvId)
    requires IsRun(ws, es) && ws[0] == INIT && i <= |es| && c in ws[i].st.records
    ensures exists j: nat :: j < i && CreatedAt(ws[i].st.records[c].dto, es, j)
  {
    OriginsGoOn(ws, es, i, c);
  }
}
