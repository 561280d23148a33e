/** Who belongs to a group, who is its admin, who is muted or blocked there: decided by the last
    event that was about it (src/feature/chat/handlers/group.handler.ts). */
module GroupRoles {
  import opened GroupModel
  import opened GroupAccess
  import opened Standing

  datatype Role = Member | Admin | Muted | Blocked

  function ListOf(dto: GroupDto, role: Role): seq<UserId> {
    match role
    case Member => dto.memberIds
    case Admin => dto.adminIds
    case Muted => dto.mutedMembers
    case Blocked => dto.blockedMembers
  }

  /** On the record of group `c`, stored or not. */
  predicate Holds(st: Store, c: ConvId, x: UserId, role: Role) {
    c in st.records && x in ListOf(st.records[c].dto, role)
  }

  /** Creation makes members and one admin; afterwards only an admin gives a role, to a member. */
  predicate Grants(st: Store, e: Event, c: ConvId, x: UserId, role: Role) {
    match e
    case OnCreate(u, name, memberIds, d, _) =>
      d == c && MayCreate(u, name, memberIds)
      && (match role
          case Member => x != "" && (x == u || x in memberIds)
          case Admin => x == u
          case _ => false)
    case OnPromote(u, d, t) => d == c && t == x && role == Admin && st.Admin(u, c) && st.Member(x, c)
    case OnMute(u, d, t, on) => d == c && t == x && role == Muted && on && st.Admin(u, c) && st.Member(x, c)
    case OnBlock(u, d, t, on) => d == c && t == x && role == Blocked && on && st.Admin(u, c) && st.Member(x, c)
    case _ => false
  }

  /** A resumed leave or kick takes every role; an admin takes back a mute or a block. */
  predicate Revokes(st: Store, e: Event, c: ConvId, x: UserId, role: Role) {
    match e
    case OnMute(u, d, t, on) => d == c && t == x && role == Muted && !on && st.Admin(u, c) && st.Member(x, c)
    case OnBlock(u, d, t, on) => d == c && t == x && role == Blocked && !on && st.Admin(u, c) && st.Member(x, c)
    case Resume(Removal(d, t, _)) => d == c && t == x
    case _ => false
  }

  // ---------------------------------------------------------------- one step

  lemma RoleEventStep(w: World, e: Event, c: ConvId, x: UserId, role: Role)
    requires e.OnPromote? || e.OnMute? || e.OnBlock?
    ensures Holds(Next(w, e).st, c, x, role) <==>
            Grants(w.st, e, c, x, role) || (Holds(w.st, c, x, role) && !Revokes(w.st, e, c, x, role))
  {}

  lemma NewGroupRoles(u: UserId, name: string, memberIds: seq<UserId>, c: ConvId, now: int, x: UserId, role: Role)
    ensures x in ListOf(NewGroup(u, name, memberIds, c, now), role) <==>
            match role
            case Member => x != "" && (x == u || x in memberIds)
            case Admin => x == u
            case _ => false
  {
    assert NewGroup(u, name, memberIds, c, now).memberIds == UniqueMembers(u, memberIds);
  }

  lemma CreateRecords(st: Store, u: UserId, name: string, memberIds: seq<UserId>, c: ConvId, now: int)
    ensures Create(st, u, name, memberIds, c, now).records ==
            if !MayCreate(u, name, memberIds) then st.records
            else st.records[c := Entry(NewGroup(u, name, memberIds, c, now), true)]
  {
    CreateAnswers(u, name, memberIds);
  }

  lemma AddedRecordRoles(st: Store, st': Store, made: bool, dto: GroupDto, d: ConvId, c: ConvId, x: UserId, role: Role)
    requires d !in st.records && st'.records == if made then st.records[d := Entry(dto, true)] else st.records
    ensures Holds(st', c, x, role) <==> (made && c == d && x in ListOf(dto, role)) || Holds(st, c, x, role)
  {}

  lemma CreateStep(st: Store, u: UserId, name: string, memberIds: seq<UserId>, d: ConvId, now: int,
                   c: ConvId, x: UserId, role: Role)
    requires d !in st.records
    ensures Holds(Create(st, u, name, memberIds, d, now), c, x, role) <==>
            Grants(st, OnCreate(u, name, memberIds, d, now), c, x, role) || Holds(st, c, x, role)
  {
    CreateRecords(st, u, name, memberIds, d, now);
    AddedRecordRoles(st, Create(st, u, name, memberIds, d, now), MayCreate(u, name, memberIds),
                     NewGroup(u, name, memberIds, d, now), d, c, x, role);
    NewGroupRoles(u, name, memberIds, d, now, x, role);
  }

  lemma RemovalStep(w: World, task: Task, c: ConvId, x: UserId, role: Role)
    requires task.Removal? && Enabled(w, Resume(task))
    ensures Holds(Next(w, Resume(task)).st, c, x, role) <==>
              Holds(w.st, c, x, role) && !(task.c == c && task.target == x)
  {
    var taken := TakeOut(w.st, task.c, task.target, task.reason);
    var st' := Next(w, Resume(task)).st;
    assert st' == taken || st' == DeleteGroup(taken, task.c, Dissolved);
  }

  /** Each step gives and takes exactly the roles its event is about. */
  lemma RolesChangeExactly(w: World, e: Event, c: ConvId, x: UserId, role: Role)
    requires Enabled(w, e)
    ensures Holds(Next(w, e).st, c, x, role) <==>
            Grants(w.st, e, c, x, role) || (Holds(w.st, c, x, role) && !Revokes(w.st, e, c, x, role))
  {
    if e.OnPromote? || e.OnMute? || e.OnBlock? {
      RoleEventStep(w, e, c, x, role);
    } else if e.OnCreate? {
      CreateStep(w.st, e.u, e.name, e.memberIds, e.c, e.now, c, x, role);
    } else if e.Resume? && e.task.Removal? {
      RemovalStep(w, e.task, c, x, role);
    }
  }

  // ---------------------------------------------------------------- runs

  function GrantsAt(ws: seq<World>, es: seq<Event>, c: ConvId, x: UserId, role: Role): nat -> bool {
    (j: nat) => j < |es| && j < |ws| && Grants(ws[j].st, es[j], c, x, role)
  }

  function RevokesAt(ws: seq<World>, es: seq<Event>, c: ConvId, x: UserId, role: Role): nat -> bool {
    (j: nat) => j < |es| && j < |ws| && Revokes(ws[j].st, es[j], c, x, role)
  }

  function HoldsAt(ws: seq<World>, c: ConvId, x: UserId, role: Role): nat -> bool {
    (j: nat) => j < |ws| && Holds(ws[j].st, c, x, role)
  }

  lemma RolesStep(ws: seq<World>, es: seq<Event>, k: nat, c: ConvId, x: UserId, role: Role)
    requires |ws| == |es| + 1 && k < |es| && Enabled(ws[k], es[k]) && ws[k + 1] == Next(ws[k], es[k])
    ensures Steps(HoldsAt(ws, c, x, role), GrantsAt(ws, es, c, x, role), RevokesAt(ws, es, c, x, role), k)
  {
    RolesChangeExactly(ws[k], es[k], c, x, role);
  }

  /** A user has a role in a group exactly when some event gave it to them and none has taken it
      back since: creation, an admin's promotion, mute or block; a leave, a kick, an unmute, an
      unblock. Nothing else, in any interleaving, adds or removes anyone anywhere. */
  lemma RolesAreExactly(ws: seq<World>, es: seq<Event>, i: nat, c: ConvId, x: UserId, role: Role)
    requires IsRun(ws, es) && ws[0] == INIT && i <= |es|
    ensures Holds(ws[i].st, c, x, role) <==> Stands(GrantsAt(ws, es, c, x, role), RevokesAt(ws, es, c, x, role), i)
  {
    forall k: nat | k < i
      ensures Steps(HoldsAt(ws, c, x, role), GrantsAt(ws, es, c, x, role), RevokesAt(ws, es, c, x, role), k)
    {
      RolesStep(ws, es, k, c, x, role);
    }
    HoldsExactly(HoldsAt(ws, c, x, role), GrantsAt(ws, es, c, x, role), RevokesAt(ws, es, c, x, role), i);
    assert HoldsAt(ws, c, x, role)(i) <==> Holds(ws[i].st, c, x, role);
  }
}
