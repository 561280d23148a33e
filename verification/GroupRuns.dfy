/** Whole runs of the group protocol, from an empty server, under every interleaving. */
module GroupRuns {
  import opened Collections
  import opened GroupModel
  import opened GroupInvariants
  import opened GroupSteps

  lemma {:induction false} RunKeepsInv(ws: seq<World>, es: seq<Event>, i: nat)
    requires IsRun(ws, es) && Inv(ws[0]) && i <= |es|
    ensures Inv(ws[i])
  {
    if i > 0 {
      RunKeepsInv(ws, es, i - 1);
      NextKeepsInv(ws[i - 1], es[i - 1]);
    }
  }

  lemma StepKeepsRoom(w: World, e: Event, c: ConvId)
    requires Inv(w) && Enabled(w, e) && RoomExact(w.st, c) && !MovesRoom(e, c)
    ensures RoomExact(Next(w, e).st, c)
  {
    NextKeepsInv(w, e);
  }

  lemma {:induction false} RunKeepsRoom(ws: seq<World>, es: seq<Event>, i: nat, c: ConvId)
    requires IsRun(ws, es) && Inv(ws[0]) && i <= |es| && RoomExact(ws[0].st, c)
    requires forall j :: 0 <= j < i ==> !MovesRoom(es[j], c)
    ensures RoomExact(ws[i].st, c)
  {
    if i > 0 {
      RunKeepsRoom(ws, es, i - 1, c);
      RunKeepsInv(ws, es, i - 1);
      StepKeepsRoom(ws[i - 1], es[i - 1], c);
    }
  }

  lemma InitInv()
    ensures Inv(INIT) && forall c :: RoomExact(INIT.st, c)
  {
    forall c ensures GroupOk(INIT, c) {}
  }

  // ---------------------------------------------------------------- main theorems

  /** At every yield point, with any number of suspended leaves and kicks: the index is the exact
      inverse of the member lists, without empty sets; a stored group has at least three distinct
      members, among whom its admins, muted and blocked users are listed once. */
  lemma MembershipIsConsistent(ws: seq<World>, es: seq<Event>, i: nat)
    requires IsRun(ws, es) && ws[0] == INIT && i <= |es|
    ensures var st := ws[i].st;
            && NoEmptyBucket(st.byUser)
            && (forall u, c :: c in Bucket(st.byUser, u) <==> st.Stored(c) && u in st.records[c].dto.memberIds)
            && (forall c :: st.Stored(c) ==>
                  && RolesOk(st.records[c].dto)
                  && |Elements(st.records[c].dto.memberIds)| == |st.records[c].dto.memberIds| >= 3)
            && (forall u, s :: s in Bucket(st.active, u) <==> s in st.sockets && st.sockets[s].user == u)
  {
    InitInv();
    RunKeepsInv(ws, es, i);
    var st := ws[i].st;
    forall u, c ensures c in Bucket(st.byUser, u) <==> st.Stored(c) && u in st.records[c].dto.memberIds {
      assert GroupOk(ws[i], c);
    }
    forall c | st.Stored(c)
      ensures RolesOk(st.records[c].dto)
      ensures |Elements(st.records[c].dto.memberIds)| == |st.records[c].dto.memberIds| >= 3
    {
      assert GroupOk(ws[i], c);
      NoDupCardinality(st.records[c].dto.memberIds);
    }
  }

  /** At every yield point, each client holds a copy of exactly the stored groups its user belongs
      to. A copy is the record itself, unless a leave or kick of that group is suspended at
      `await autoDeleteIfTooSmall`; even then it differs only by users who have left. */
  lemma ReplicasAgree(ws: seq<World>, es: seq<Event>, i: nat, s: SocketId, c: ConvId)
    requires IsRun(ws, es) && ws[0] == INIT && i <= |es| && s in ws[i].st.sockets
    ensures var st, k := ws[i].st, ws[i].st.sockets[s];
            && (c in k.view <==> st.Stored(c) && k.user in st.records[c].dto.memberIds)
            && (c in k.view ==> Restrict(k.view[c], Elements(st.records[c].dto.memberIds)) == st.records[c].dto)
            && (c in k.view && Update(c) !in ws[i].pending ==> k.view[c] == st.records[c].dto)
  {
    InitInv();
    RunKeepsInv(ws, es, i);
    assert GroupOk(ws[i], c);
    assert ReplicaOk(ws[i], ws[i].st.sockets[s], c);
  }

  /** When no broadcast is suspended, a client's whole view is its user's part of the store. */
  lemma ReplicasEqualWhenQuiescent(ws: seq<World>, es: seq<Event>, i: nat, s: SocketId)
    requires IsRun(ws, es) && ws[0] == INIT && i <= |es| && s in ws[i].st.sockets
    requires forall c :: Update(c) !in ws[i].pending
    ensures var st, k := ws[i].st, ws[i].st.sockets[s];
            k.view == map c | c in st.records && st.Member(k.user, c) :: st.records[c].dto
  {
    var st, k := ws[i].st, ws[i].st.sockets[s];
    forall c
      ensures c in k.view <==> c in st.records && st.Member(k.user, c)
      ensures c in k.view ==> k.view[c] == st.records[c].dto
    {
      ReplicasAgree(ws, es, i, s, c);
    }
  }

  /** As long as no client moves itself into or out of the room of `c`, whatever other rooms it
      joins or leaves: if `c` is a stored group, the room holds exactly the open sockets of its
      members who are not blocked; otherwise it is empty. */
  lemma RoomsAreExact(ws: seq<World>, es: seq<Event>, i: nat, s: SocketId, c: ConvId)
    requires IsRun(ws, es) && ws[0] == INIT && i <= |es|
    requires forall j :: 0 <= j < i ==> !MovesRoom(es[j], c)
    ensures var st := ws[i].st;
            (s in st.sockets && c in st.sockets[s].rooms) <==>
            st.Stored(c) && exists u ::
              u in st.records[c].dto.memberIds && u !in st.records[c].dto.blockedMembers && s in Bucket(st.active, u)
  {
    InitInv();
    RunKeepsInv(ws, es, i);
    RunKeepsRoom(ws, es, i, c);
    var st := ws[i].st;
    if s in st.sockets {
      assert RoomOk(st, st.sockets[s], c);
      assert s in Bucket(st.active, st.sockets[s].user);
    }
  }

  // ---------------------------------------------------------------- when copies lag

  ghost predicate Fresh(st: Store, c: ConvId) {
    forall s :: s in st.sockets && c in st.sockets[s].view && c in st.records ==>
                  st.sockets[s].view[c] == st.records[c].dto
  }

  /** A resumed leave or kick makes a copy lag exactly when it takes out a member of a stored
      group of more than three, and some other member is online. */
  lemma LagAppearsExactly(w: World, c: ConvId, t: UserId, reason: Reason)
    requires Inv(w) && Enabled(w, Resume(Removal(c, t, reason))) && Fresh(w.st, c)
    ensures !Fresh(Next(w, Resume(Removal(c, t, reason))).st, c) <==>
            && w.st.Member(t, c)
            && |w.st.records[c].dto.memberIds| > MIN_MEMBERS
            && exists s :: s in w.st.sockets && w.st.sockets[s].user != t && w.st.Member(w.st.sockets[s].user, c)
  {
    var st' := Next(w, Resume(Removal(c, t, reason))).st;
    var dto, dto' := w.st.records[c].dto, RemoveMember(w.st.records[c].dto, t);
    assert GroupOk(w, c);
    if |dto'.memberIds| < MIN_MEMBERS {
      forall s | s in st'.sockets ensures c !in st'.sockets[s].view {
        DeletedFromViews(w, c, t, reason, s);
      }
    } else {
      assert st' == TakeOut(w.st, c, t, reason);
      forall s | s in st'.sockets
        ensures c in st'.sockets[s].view <==> w.st.Member(w.st.sockets[s].user, c) && w.st.sockets[s].user != t
        ensures c in st'.sockets[s].view ==> st'.sockets[s].view[c] == dto
      {
        assert ReplicaOk(w, w.st.sockets[s], c);
      }
      assert dto' == dto <==> t !in dto.memberIds;
    }
  }

  lemma DeletedFromViews(w: World, c: ConvId, t: UserId, reason: Reason, s: SocketId)
    requires Inv(w) && Enabled(w, Resume(Removal(c, t, reason))) && s in w.st.sockets
    requires |RemoveMember(w.st.records[c].dto, t).memberIds| < MIN_MEMBERS
    ensures c !in Next(w, Resume(Removal(c, t, reason))).st.sockets[s].view
  {
    var w' := Next(w, Resume(Removal(c, t, reason)));
    ResumeKeepsInv(w, Removal(c, t, reason));
    assert GroupOk(w', c);
    assert ReplicaOk(w', w'.st.sockets[s], c);
    assert !w'.st.Stored(c);
  }

  // ---------------------------------------------------------------- runs put together

  lemma RunCons(w: World, e: Event, ws: seq<World>, es: seq<Event>)
    requires IsRun(ws, es) && Enabled(w, e) && ws[0] == Next(w, e)
    ensures IsRun([w] + ws, [e] + es)
    ensures ([w] + ws)[|[e] + es|] == ws[|es|]
  {
    forall i | 0 <= i < |[e] + es|
      ensures Enabled(([w] + ws)[i], ([e] + es)[i]) && ([w] + ws)[i + 1] == Next(([w] + ws)[i], ([e] + es)[i])
    {
      if i > 0 {
        assert ([w] + ws)[i] == ws[i - 1] && ([e] + es)[i] == es[i - 1] && ([w] + ws)[i + 1] == ws[i];
      }
    }
  }

  lemma RunsJoin(ws: seq<World>, es: seq<Event>, later: seq<World>, more: seq<Event>)
    requires IsRun(ws, es) && IsRun(later, more) && ws[|es|] == later[0]
    ensures IsRun(ws[..|es|] + later, es + more)
    ensures (ws[..|es|] + later)[|es + more|] == later[|more|]
  {
    var all, events := ws[..|es|] + later, es + more;
    forall i | 0 <= i < |events| ensures Enabled(all[i], events[i]) && all[i + 1] == Next(all[i], events[i]) {
      if i >= |es| {
        assert all[i] == later[i - |es|] && events[i] == more[i - |es|] && all[i + 1] == later[i - |es| + 1];
      } else {
        assert all[i] == ws[i] && all[i + 1] == ws[i + 1];
      }
    }
  }

  lemma CreatedLists(w: World, a: UserId, name: string, memberIds: seq<UserId>, c: ConvId, now: int)
    requires a != "" && c !in w.st.records && CreateCheck(a, name, memberIds) == Ok
    ensures var st' := Next(w, OnCreate(a, name, memberIds, c, now)).st;
            && st'.Stored(c) && st'.records[c].dto.adminIds == [a]
            && st'.records[c].dto.memberIds == UniqueMembers(a, memberIds)
  {
    NewGroupIsWellFormed(a, name, memberIds, c, now);
  }

  // ---------------------------------------------------------------- a copy that lags

  lemma QuiescentIsFresh(w: World, c: ConvId)
    requires Inv(w) && Update(c) !in w.pending
    ensures Fresh(w.st, c)
  {
    assert GroupOk(w, c);
    forall s | s in w.st.sockets && c in w.st.sockets[s].view && c in w.st.records
      ensures w.st.sockets[s].view[c] == w.st.records[c].dto
    {
      assert ReplicaOk(w, w.st.sockets[s], c);
    }
  }

  /** A member leaves a group of four or more while another is online. */
  lemma LeaveLags(w: World, a: UserId, sid: SocketId, b: UserId, c: ConvId) returns (ws: seq<World>, es: seq<Event>)
    requires Inv(w) && w.pending == multiset{} && sid in w.st.sockets && w.st.sockets[sid].user == a != b
    requires w.st.Member(a, c) && w.st.Member(b, c) && w.st.records[c].dto.adminIds == [a]
    requires |w.st.records[c].dto.memberIds| > MIN_MEMBERS
    ensures IsRun(ws, es) && ws[0] == w && !Fresh(ws[|es|].st, c)
  {
    var leave, resume := OnLeave(b, c), Resume(Removal(c, b, Left));
    var w1 := Next(w, leave);
    assert w1.st == w.st && Removal(c, b, Left) in w1.pending;
    NextKeepsInv(w, leave);
    QuiescentIsFresh(w, c);
    LagAppearsExactly(w1, c, b, Left);
    var w2 := Next(w1, resume);
    RunCons(w1, resume, [w2], []);
    RunCons(w, leave, [w1] + [w2], [resume] + []);
    ws, es := [w] + ([w1] + [w2]), [leave] + ([resume] + []);
  }

  /** Copies do lag: from an empty server, in a run that makes any group of four or more. */
  lemma CopiesCanLag(a: UserId, b: UserId, name: string, memberIds: seq<UserId>, c: ConvId, now: int, sid: SocketId)
    returns (ws: seq<World>, es: seq<Event>)
    requires a != "" && b != "" && a != b && b in memberIds
    requires CreateCheck(a, name, memberIds) == Ok && |UniqueMembers(a, memberIds)| > MIN_MEMBERS
    ensures IsRun(ws, es) && ws[0] == INIT && !Fresh(ws[|es|].st, c)
  {
    var connect, create := OnConnect(a, sid), OnCreate(a, name, memberIds, c, now);
    var w1 := Next(INIT, connect);
    assert w1.st.sockets[sid].user == a && w1.st.records == map[];
    var w2 := Next(w1, create);
    CreatedLists(w1, a, name, memberIds, c, now);
    InitInv();
    NextKeepsInv(INIT, connect);
    NextKeepsInv(w1, create);
    CreateKeepsUsers(w1, create, sid);
    ws, es := LeaveLags(w2, a, sid, b, c);
    RunCons(w1, create, ws, es);
    ws, es := [w1] + ws, [create] + es;
    RunCons(INIT, connect, ws, es);
    ws, es := [INIT] + ws, [connect] + es;
  }

  lemma CreateKeepsUsers(w: World, e: Event, sid: SocketId)
    requires e.OnCreate? && Enabled(w, e) && sid in w.st.sockets
    ensures Next(w, e).pending == w.pending && sid in Next(w, e).st.sockets
    ensures Next(w, e).st.sockets[sid].user == w.st.sockets[sid].user
  {}

  // ---------------------------------------------------------------- groups only shrink

  predicate Departs(w: World, e: Event, c: ConvId) {
    e.Resume? && e.task.Removal? && e.task.c == c && c in w.st.records && e.task.target in w.st.records[c].dto.memberIds
  }

  /** What one step may do to the record of group `c`: keep its members, or lose the target. */
  ghost predicate Evolves(w: World, w': World, e: Event, c: ConvId)
    requires c in w.st.records
  {
    && c in w'.st.records
    && w'.st.records[c].dto.memberIds ==
       (if Departs(w, e, c) then Without(w.st.records[c].dto.memberIds, e.task.target)
        else w.st.records[c].dto.memberIds)
    && (w'.st.Stored(c) ==> w.st.Stored(c))
  }

  lemma RemovalEvolves(w: World, c: ConvId, task: Task)
    requires task.Removal? && Enabled(w, Resume(task)) && c in w.st.records
    ensures Evolves(w, Next(w, Resume(task)), Resume(task), c)
    ensures Departs(w, Resume(task), c) && w.st.Stored(c) && RecordOk(w.st, c) ==>
              (!Next(w, Resume(task)).st.Stored(c) <==> |w.st.records[c].dto.memberIds| <= MIN_MEMBERS)
    ensures !Departs(w, Resume(task), c) && w.st.Stored(c) && SizeOk(w.st, c) ==> Next(w, Resume(task)).st.Stored(c)
  {
    var taken := TakeOut(w.st, task.c, task.target, task.reason);
    var st' := Next(w, Resume(task)).st;
    assert st' == taken || st' == DeleteGroup(taken, task.c, Dissolved);
  }

  lemma RoleEventEvolves(w: World, e: Event, c: ConvId)
    requires c in w.st.records && (e.OnPromote? || e.OnMute? || e.OnBlock?)
    ensures Evolves(w, Next(w, e), e, c)
    ensures w.st.Stored(c) ==> Next(w, e).st.Stored(c)
  {}

  lemma DeleteEvolves(w: World, e: Event, c: ConvId)
    requires e.OnDelete? && c in w.st.records
    ensures Evolves(w, Next(w, e), e, c)
    ensures w.st.Stored(c) ==> (!Next(w, e).st.Stored(c) <==> e.c == c && e.u in w.st.records[c].dto.adminIds)
  {}

  lemma CreateEvolves(w: World, e: Event, c: ConvId)
    requires e.OnCreate? && Enabled(w, e) && c in w.st.records
    ensures Evolves(w, Next(w, e), e, c) && (w.st.Stored(c) ==> Next(w, e).st.Stored(c))
  {
    assert e.c != c;
  }

  lemma SameRecordEvolves(w: World, w': World, e: Event, c: ConvId)
    requires c in w.st.records && w'.st.records == w.st.records && !(e.Resume? && e.task.Removal?)
    ensures Evolves(w, w', e, c) && (w.st.Stored(c) ==> w'.st.Stored(c))
  {}

  lemma OtherEventEvolves(w: World, e: Event, c: ConvId)
    requires Enabled(w, e) && c in w.st.records && !(e.Resume? && e.task.Removal?)
    ensures Evolves(w, Next(w, e), e, c)
    ensures w.st.Stored(c) ==>
              (!Next(w, e).st.Stored(c) <==> e.OnDelete? && e.c == c && e.u in w.st.records[c].dto.adminIds)
  {
    if e.OnPromote? || e.OnMute? || e.OnBlock? {
      RoleEventEvolves(w, e, c);
    } else if e.OnCreate? {
      CreateEvolves(w, e, c);
    } else if e.OnDelete? {
      DeleteEvolves(w, e, c);
    } else {
      SameRecordEvolves(w, Next(w, e), e, c);
    }
  }

  /** One step: a record stays, a member list loses at most the target, a detached record is
      never stored again, and a stored group ends exactly when deleted or down to two members. */
  lemma RecordEvolves(w: World, e: Event, c: ConvId)
    requires Enabled(w, e) && c in w.st.records
    ensures Evolves(w, Next(w, e), e, c)
    ensures Inv(w) && w.st.Stored(c) ==>
              (!Next(w, e).st.Stored(c) <==>
               || (Departs(w, e, c) && |w.st.records[c].dto.memberIds| == MIN_MEMBERS)
               || (e.OnDelete? && e.c == c && e.u in w.st.records[c].dto.adminIds))
  {
    if Inv(w) {
      assert GroupOk(w, c);
    }
    if e.Resume? && e.task.Removal? {
      RemovalEvolves(w, c, e.task);
    } else {
      OtherEventEvolves(w, e, c);
    }
  }

  /** How many resumed leaves and kicks of a run took a member out of group `c`. */
  ghost function Departures(ws: seq<World>, es: seq<Event>, c: ConvId): nat
    requires IsRun(ws, es)
  {
    if es == [] then 0
    else
      var n := |es| - 1;
      assert IsRun(ws[..n + 1], es[..n]);
      Departures(ws[..n + 1], es[..n], c) + if Departs(ws[n], es[n], c) then 1 else 0
  }

  /** Conservation: over any run, the members a record has lost are the departures, no one joins,
      and a deleted group stays deleted. */
  lemma {:induction false} GroupsOnlyShrink(ws: seq<World>, es: seq<Event>, c: ConvId)
    requires IsRun(ws, es) && Inv(ws[0]) && c in ws[0].st.records
    ensures c in ws[|es|].st.records
    ensures |ws[0].st.records[c].dto.memberIds| == |ws[|es|].st.records[c].dto.memberIds| + Departures(ws, es, c)
    ensures forall u :: u in ws[|es|].st.records[c].dto.memberIds ==> u in ws[0].st.records[c].dto.memberIds
    ensures ws[|es|].st.Stored(c) ==> ws[0].st.Stored(c)
  {
    if es != [] {
      var n := |es| - 1;
      var front, past := ws[..n + 1], es[..n];
      assert IsRun(front, past);
      GroupsOnlyShrink(front, past, c);
      RunKeepsInv(ws, es, n);
      RecordEvolves(ws[n], es[n], c);
      assert GroupOk(ws[n], c);
    }
  }

  /** A group of `n` members survives at most `n - 3` departures; the one after dissolves it in
      the same step. */
  lemma DeparturesAreBounded(ws: seq<World>, es: seq<Event>, c: ConvId)
    requires IsRun(ws, es) && Inv(ws[0]) && c in ws[0].st.records
    ensures ws[|es|].st.Stored(c) ==> Departures(ws, es, c) <= |ws[0].st.records[c].dto.memberIds| - 3
    ensures es != [] && ws[|es| - 1].st.Stored(c) && Departures(ws, es, c) == |ws[0].st.records[c].dto.memberIds| - 2
            ==> !ws[|es|].st.Stored(c)
  {
    GroupsOnlyShrink(ws, es, c);
    RunKeepsInv(ws, es, |es|);
    assert GroupOk(ws[|es|], c);
  }

  lemma StaleSocket(w: World, c: ConvId, t: UserId, reason: Reason, s: SocketId)
    requires GroupOk(w, c) && c in w.st.records && !w.st.Member(t, c) && s in w.st.sockets
    ensures var k, k' := w.st.sockets[s], TakeOut(w.st, c, t, reason).sockets[s];
            && k'.user == k.user && k'.view == k.view
            && ((k.user == t ==> c !in k.rooms) ==> k' == k)
            && (RoomExact(w.st, c) && k.user == t ==> c !in k.rooms)
  {
    assert ReplicaOk(w, w.st.sockets[s], c);
    assert RoomExact(w.st, c) ==> RoomOk(w.st, w.st.sockets[s], c);
  }

  /** Resuming a removal whose group is gone, or whose target has already left it, changes neither
      the stored groups, nor the index, nor any client's copy; nor any room, unless a socket of the
      target had been moved into this one. */
  lemma StaleRemovalIsHarmless(w: World, c: ConvId, t: UserId, reason: Reason)
    requires Inv(w) && Enabled(w, Resume(Removal(c, t, reason))) && !w.st.Member(t, c)
    ensures var st, st' := w.st, Next(w, Resume(Removal(c, t, reason))).st;
            && st'.byUser == st.byUser && st'.active == st.active
            && (forall d :: st.Stored(d) <==> st'.Stored(d))
            && (forall d :: st.Stored(d) ==> st'.records[d] == st.records[d])
            && st'.sockets.Keys == st.sockets.Keys
            && (forall s :: s in st.sockets ==> st'.sockets[s].user == st.sockets[s].user
                                                && st'.sockets[s].view == st.sockets[s].view)
            && ((forall s :: s in st.sockets && st.sockets[s].user == t ==> c !in st.sockets[s].rooms)
                ==> st'.sockets == st.sockets)
            && (RoomExact(st, c) ==> st'.sockets == st.sockets)
  {
    var st := w.st;
    var taken := TakeOut(st, c, t, reason);
    assert GroupOk(w, c);
    assert c !in Bucket(st.byUser, t) by { assert c in Bucket(st.byUser, t) <==> st.Member(t, c); }
    BucketsDetermineMap(taken.byUser, st.byUser);
    forall s | s in st.sockets
      ensures taken.sockets[s].user == st.sockets[s].user && taken.sockets[s].view == st.sockets[s].view
      ensures (st.sockets[s].user == t ==> c !in st.sockets[s].rooms) ==> taken.sockets[s] == st.sockets[s]
      ensures RoomExact(st, c) && st.sockets[s].user == t ==> c !in st.sockets[s].rooms
    {
      StaleSocket(w, c, t, reason, s);
    }
    assert Next(w, Resume(Removal(c, t, reason))).st == taken;
  }
}
