/** When does a stored group keep an admin?  `group:leave` and `group:kick` check the admin list,
    suspend, and take the target out without looking again. */
module GroupAdmins {
  import opened Collections
  import opened GroupModel
  import opened GroupInvariants
  import opened GroupSteps
  import opened GroupRuns
  import opened Standing

  /** A suspended leave or kick will take `t` out of group `c`. */
  ghost predicate Targeted(w: World, c: ConvId, t: UserId) {
    exists reason :: Removal(c, t, reason) in w.pending
  }

  /** The stable predicate: some admin is not about to be taken out. */
  ghost predicate SomeAdminStays(w: World, c: ConvId) {
    w.st.Stored(c) ==> exists a :: a in w.st.records[c].dto.adminIds && !Targeted(w, c, a)
  }

  /** A leave or kick of group `c` that passes its checks starts only while an admin other than its
      target is not targeted by an earlier one. Other events, and other groups, are not restricted. */
  ghost predicate StartsSafely(w: World, e: Event, c: ConvId) {
    match e
    case OnLeave(u, d) => d == c && LeaveCheck(w.st, u, c) == Ok ==> AnotherAdminStays(w, c, u)
    case OnKick(u, d, t) => d == c && KickCheck(w.st, u, c, t) == Ok ==> AnotherAdminStays(w, c, t)
    case _ => true
  }

  ghost predicate AnotherAdminStays(w: World, c: ConvId, t: UserId)
    requires c in w.st.records
  {
    exists a :: a in w.st.records[c].dto.adminIds && a != t && !Targeted(w, c, a)
  }

  /** At most one user is the target of the suspended leaves and kicks of group `c`. */
  ghost predicate OneTarget(w: World, c: ConvId) {
    forall t, t' :: Targeted(w, c, t) && Targeted(w, c, t') ==> t == t'
  }

  // ---------------------------------------------------------------- steps

  lemma RoleEventsKeepAdmins(w: World, e: Event, c: ConvId, a: UserId)
    requires e.OnPromote? || e.OnMute? || e.OnBlock?
    requires c in w.st.records && a in w.st.records[c].dto.adminIds
    ensures c in Next(w, e).st.records && a in Next(w, e).st.records[c].dto.adminIds
  {}

  /** An admin stays admin, but for the step that takes them out. */
  lemma AdminsEvolve(w: World, e: Event, c: ConvId, a: UserId)
    requires Enabled(w, e) && c in w.st.records && a in w.st.records[c].dto.adminIds
    requires !(e.Resume? && e.task.Removal? && e.task.c == c && e.task.target == a)
    ensures c in Next(w, e).st.records && a in Next(w, e).st.records[c].dto.adminIds
  {
    if e.OnPromote? || e.OnMute? || e.OnBlock? {
      RoleEventsKeepAdmins(w, e, c, a);
    } else if e.Resume? && e.task.Removal? {
      var taken := TakeOut(w.st, e.task.c, e.task.target, e.task.reason);
      var st' := Next(w, e).st;
      assert st' == taken || st' == DeleteGroup(taken, e.task.c, Dissolved);
    }
  }

  lemma PendingEvolves(w: World, e: Event, c: ConvId, a: UserId)
    requires Enabled(w, e) && Targeted(Next(w, e), c, a)
    ensures Targeted(w, c, a) || (e == OnLeave(a, c) && LeaveCheck(w.st, a, c) == Ok)
            || (e.OnKick? && e.c == c && e.target == a && KickCheck(w.st, e.u, c, a) == Ok)
  {
    var reason :| Removal(c, a, reason) in Next(w, e).pending;
    assert Removal(c, a, reason) !in w.pending ==> e.OnLeave? || e.OnKick?;
  }

  lemma SafeStartKeepsAdmin(w: World, e: Event, c: ConvId)
    requires Inv(w) && Enabled(w, e) && SomeAdminStays(w, c) && StartsSafely(w, e, c)
    ensures SomeAdminStays(Next(w, e), c)
  {
    var w' := Next(w, e);
    if w'.st.Stored(c) && c in w.st.records {
      RecordEvolves(w, e, c);
      var a :| a in w.st.records[c].dto.adminIds && !Targeted(w, c, a);
      if e.OnLeave? && e.c == c && LeaveCheck(w.st, e.u, c) == Ok {
        a :| a in w.st.records[c].dto.adminIds && a != e.u && !Targeted(w, c, a);
      } else if e.OnKick? && e.c == c && KickCheck(w.st, e.u, c, e.target) == Ok {
        a :| a in w.st.records[c].dto.adminIds && a != e.target && !Targeted(w, c, a);
      }
      assert !(e.Resume? && e.task.Removal? && e.task.c == c && e.task.target == a);
      AdminsEvolve(w, e, c, a);
      if Targeted(w', c, a) {
        PendingEvolves(w, e, c, a);
      }
    } else if w'.st.Stored(c) {
      NewGroupHasAdmin(w, e, c);
    }
  }

  lemma NewGroupHasAdmin(w: World, e: Event, c: ConvId)
    requires Inv(w) && Enabled(w, e) && c !in w.st.records && Next(w, e).st.Stored(c)
    ensures SomeAdminStays(Next(w, e), c)
  {
    OnlyCreateAddsRecords(w, e, c);
    NewGroupIsWellFormed(e.u, e.name, e.memberIds, c, e.now);
    assert e.u in Next(w, e).st.records[c].dto.adminIds;
    assert forall task :: task in w.pending ==> task.c != c;
  }

  lemma RoleEventsAddNoRecord(w: World, e: Event)
    requires e.OnPromote? || e.OnMute? || e.OnBlock?
    ensures Next(w, e).st.records.Keys == w.st.records.Keys
  {}

  lemma ResumeAddsNoRecord(w: World, task: Task)
    requires Enabled(w, Resume(task))
    ensures Next(w, Resume(task)).st.records.Keys == w.st.records.Keys
  {
    if task.Removal? {
      var taken := TakeOut(w.st, task.c, task.target, task.reason);
      var st' := Next(w, Resume(task)).st;
      assert st' == taken || st' == DeleteGroup(taken, task.c, Dissolved);
    }
  }

  lemma OnlyCreateAddsRecords(w: World, e: Event, c: ConvId)
    requires Enabled(w, e) && c !in w.st.records && c in Next(w, e).st.records
    ensures e.OnCreate? && e.c == c && CreateCheck(e.u, e.name, e.memberIds) == Ok
  {
    if e.OnPromote? || e.OnMute? || e.OnBlock? {
      RoleEventsAddNoRecord(w, e);
    } else if e.Resume? {
      ResumeAddsNoRecord(w, e.task);
    }
  }

  /** The handlers' own checks give a safe start when no other target is suspended. */
  lemma ChecksGiveSafeStart(w: World, e: Event, c: ConvId)
    requires Inv(w) && Enabled(w, e) && SomeAdminStays(w, c) && OneTarget(Next(w, e), c)
    ensures StartsSafely(w, e, c)
  {
    match e
    case OnLeave(u, d) =>
      if d == c && LeaveCheck(w.st, u, c) == Ok {
        OneTargetLeavesAnother(w, e, c, u);
      }
    case OnKick(u, d, t) =>
      if d == c && KickCheck(w.st, u, c, t) == Ok {
        OneTargetLeavesAnother(w, e, c, t);
      }
    case _ =>
  }

  lemma OneTargetLeavesAnother(w: World, e: Event, c: ConvId, t: UserId)
    requires Inv(w) && Enabled(w, e) && SomeAdminStays(w, c) && OneTarget(Next(w, e), c)
    requires || (e == OnLeave(t, c) && LeaveCheck(w.st, t, c) == Ok)
             || (e.OnKick? && e.c == c && e.target == t && KickCheck(w.st, e.u, c, t) == Ok)
    ensures AnotherAdminStays(w, c, t)
  {
    var admins := w.st.records[c].dto.adminIds;
    assert GroupOk(w, c);
    var a := if e.OnKick? then e.u else if admins[0] != t then admins[0] else admins[|admins| - 1];
    assert a in admins && a != t by {
      if e.OnLeave? && admins[0] == t {
        NoDupIndices(admins, 0, |admins| - 1);
      }
    }
    var w' := Next(w, e);
    assert Targeted(w', c, t) by {
      assert Removal(c, t, if e.OnKick? then Kicked else Left) in w'.pending;
    }
    if Targeted(w, c, a) {
      var reason :| Removal(c, a, reason) in w.pending;
      assert Removal(c, a, reason) in w'.pending;
      assert Targeted(w', c, a);
    }
  }

  // ---------------------------------------------------------------- runs

  lemma {:induction false} SafeRunsKeepAdmins(ws: seq<World>, es: seq<Event>, i: nat, c: ConvId)
    requires IsRun(ws, es) && ws[0] == INIT && i <= |es|
    requires forall j :: 0 <= j < i ==> StartsSafely(ws[j], es[j], c)
    ensures SomeAdminStays(ws[i], c)
    ensures ws[i].st.Stored(c) ==> ws[i].st.records[c].dto.adminIds != []
  {
    if i > 0 {
      SafeRunsKeepAdmins(ws, es, i - 1, c);
      InitInv();
      RunKeepsInv(ws, es, i - 1);
      SafeStartKeepsAdmin(ws[i - 1], es[i - 1], c);
    }
  }

  /** While at most one user of the group is about to leave or be kicked, it has an admin, whatever
      happens in other groups. */
  lemma {:induction false} OneRemovalAtATimeKeepsAdmins(ws: seq<World>, es: seq<Event>, i: nat, c: ConvId)
    requires IsRun(ws, es) && ws[0] == INIT && i <= |es|
    requires forall j :: 0 <= j <= i ==> OneTarget(ws[j], c)
    ensures SomeAdminStays(ws[i], c)
    ensures ws[i].st.Stored(c) ==> ws[i].st.records[c].dto.adminIds != []
  {
    if i > 0 {
      OneRemovalAtATimeKeepsAdmins(ws, es, i - 1, c);
      InitInv();
      RunKeepsInv(ws, es, i - 1);
      assert OneTarget(ws[i], c);
      ChecksGiveSafeStart(ws[i - 1], es[i - 1], c);
      SafeStartKeepsAdmin(ws[i - 1], es[i - 1], c);
    }
  }

  // ---------------------------------------------------------------- when the admins are lost

  predicate Adminless(st: Store, c: ConvId) {
    c in st.records && st.records[c].dto.adminIds == []
  }

  /** A resumed leave or kick takes out the only admin. */
  predicate TakesLastAdmin(st: Store, e: Event, c: ConvId) {
    match e
    case Resume(Removal(d, t, _)) => d == c && c in st.records && st.records[c].dto.adminIds == [t]
    case _ => false
  }

  lemma RoleEventsKeepSomeAdmin(w: World, e: Event, c: ConvId)
    requires e.OnPromote? || e.OnMute? || e.OnBlock?
    ensures Adminless(Next(w, e).st, c) <==> Adminless(w.st, c)
  {}

  lemma WithoutLeavesNone(ids: seq<UserId>, t: UserId)
    requires NoDup(ids)
    ensures Without(ids, t) == [] <==> ids == [] || ids == [t]
  {
    if |ids| > 1 {
      var x := if ids[0] == t then ids[1] else ids[0];
      assert ids[1] in ids[1..];
      assert x in Without(ids, t);
    } else if |ids| == 1 {
      assert ids == [ids[0]];
      assert ids[0] != t ==> ids[0] in Without(ids, t);
    }
  }

  lemma RemovalLosesAdmins(w: World, d: ConvId, t: UserId, reason: Reason, c: ConvId)
    requires Enabled(w, Resume(Removal(d, t, reason))) && RecordOk(w.st, c)
    ensures Adminless(Next(w, Resume(Removal(d, t, reason))).st, c) <==>
            Adminless(w.st, c) || TakesLastAdmin(w.st, Resume(Removal(d, t, reason)), c)
  {
    var taken := TakeOut(w.st, d, t, reason);
    var st' := Next(w, Resume(Removal(d, t, reason))).st;
    assert st' == taken || st' == DeleteGroup(taken, d, Dissolved);
    if c in w.st.records {
      WithoutLeavesNone(w.st.records[c].dto.adminIds, t);
    }
  }

  lemma CreateHasAdmin(w: World, e: Event, c: ConvId)
    requires e.OnCreate? && Enabled(w, e)
    ensures Adminless(Next(w, e).st, c) <==> Adminless(w.st, c)
  {
    assert NewGroup(e.u, e.name, e.memberIds, e.c, e.now).adminIds == [e.u];
  }

  lemma AdminsLostExactly(w: World, e: Event, c: ConvId)
    requires Inv(w) && Enabled(w, e)
    ensures Adminless(Next(w, e).st, c) <==> TakesLastAdmin(w.st, e, c) || Adminless(w.st, c)
  {
    assert GroupOk(w, c);
    if e.OnPromote? || e.OnMute? || e.OnBlock? {
      RoleEventsKeepSomeAdmin(w, e, c);
    } else if e.OnCreate? {
      CreateHasAdmin(w, e, c);
    } else if e.Resume? && e.task.Removal? {
      RemovalLosesAdmins(w, e.task.c, e.task.target, e.task.reason, c);
    }
  }

  function AdminlessAt(ws: seq<World>, c: ConvId): nat -> bool {
    (j: nat) => j < |ws| && Adminless(ws[j].st, c)
  }

  function LastAdminGoesAt(ws: seq<World>, es: seq<Event>, c: ConvId): nat -> bool {
    (j: nat) => j < |es| && j < |ws| && TakesLastAdmin(ws[j].st, es[j], c)
  }

  lemma AdminlessStep(ws: seq<World>, es: seq<Event>, k: nat, c: ConvId)
    requires |ws| == |es| + 1 && k < |es| && Inv(ws[k]) && Enabled(ws[k], es[k]) && ws[k + 1] == Next(ws[k], es[k])
    ensures Grows(AdminlessAt(ws, c), LastAdminGoesAt(ws, es, c), k)
  {
    AdminsLostExactly(ws[k], es[k], c);
  }

  /** In every run, a group has no admin exactly when some earlier resumed leave or kick took out its
      only one. Nothing gives it an admin again. */
  lemma AdminlessExactly(ws: seq<World>, es: seq<Event>, i: nat, c: ConvId)
    requires IsRun(ws, es) && ws[0] == INIT && i <= |es|
    ensures Adminless(ws[i].st, c) <==> exists j: nat :: j < i && TakesLastAdmin(ws[j].st, es[j], c)
  {
    InitInv();
    forall k: nat | k < i ensures Grows(AdminlessAt(ws, c), LastAdminGoesAt(ws, es, c), k) {
      RunKeepsInv(ws, es, k);
      AdminlessStep(ws, es, k, c);
    }
    HappenedExactly(AdminlessAt(ws, c), LastAdminGoesAt(ws, es, c), i);
    assert AdminlessAt(ws, c)(i) <==> Adminless(ws[i].st, c);
    assert forall j: nat :: j < i ==> (LastAdminGoesAt(ws, es, c)(j) <==> TakesLastAdmin(ws[j].st, es[j], c));
  }

  // ---------------------------------------------------------------- when the admins can be lost

  /** Suspended tasks of group `c` resuming one after the other, with nothing in between. */
  ghost predicate IsSchedule(w: World, c: ConvId, tasks: seq<Task>)
    decreases |tasks|
  {
    tasks == []
    || (tasks[0].c == c && Enabled(w, Resume(tasks[0])) && IsSchedule(Next(w, Resume(tasks[0])), c, tasks[1..]))
  }

  ghost function AfterSchedule(w: World, c: ConvId, tasks: seq<Task>): World
    requires IsSchedule(w, c, tasks)
    decreases |tasks|
  {
    if tasks == [] then w else AfterSchedule(Next(w, Resume(tasks[0])), c, tasks[1..])
  }

  ghost predicate Orphaned(w: World, c: ConvId) {
    w.st.Stored(c) && Adminless(w.st, c)
  }

  ghost predicate CanBeOrphaned(w: World, c: ConvId) {
    exists tasks :: IsSchedule(w, c, tasks) && Orphaned(AfterSchedule(w, c, tasks), c)
  }

  lemma {:induction false} ScheduleTakesOutTargets(w: World, c: ConvId, tasks: seq<Task>)
    requires Inv(w) && c in w.st.records && IsSchedule(w, c, tasks)
    ensures var w' := AfterSchedule(w, c, tasks);
            && Inv(w') && c in w'.st.records
            && (forall a :: a in w.st.records[c].dto.adminIds ==>
                  || (a in w'.st.records[c].dto.adminIds)
                  || (Targeted(w, c, a) && a !in w'.st.records[c].dto.memberIds))
            && (forall u :: u in w'.st.records[c].dto.memberIds ==> u in w.st.records[c].dto.memberIds)
    decreases |tasks|
  {
    if tasks != [] {
      var e := Resume(tasks[0]);
      var w1 := Next(w, e);
      NextKeepsInv(w, e);
      RecordEvolves(w, e, c);
      ScheduleTakesOutTargets(w1, c, tasks[1..]);
      var w' := AfterSchedule(w1, c, tasks[1..]);
      forall a | a in w.st.records[c].dto.adminIds && a !in w'.st.records[c].dto.adminIds
        ensures Targeted(w, c, a) && a !in w'.st.records[c].dto.memberIds
      {
        if tasks[0].Removal? && tasks[0].target == a {
          assert Removal(c, a, tasks[0].reason) in w.pending;
          assert GroupOk(w, c);
          assert a !in w1.st.records[c].dto.memberIds;
        } else {
          AdminsEvolve(w, e, c, a);
          PendingEvolves(w, e, c, a);
        }
      }
    }
  }

  lemma {:induction false} TakeOutEveryAdmin(w: World, c: ConvId) returns (tasks: seq<Task>)
    requires Inv(w) && w.st.Stored(c)
    requires forall a :: a in w.st.records[c].dto.adminIds ==> Targeted(w, c, a)
    requires |w.st.records[c].dto.memberIds| - |w.st.records[c].dto.adminIds| >= MIN_MEMBERS
    ensures IsSchedule(w, c, tasks) && Orphaned(AfterSchedule(w, c, tasks), c)
    decreases |w.st.records[c].dto.adminIds|
  {
    var dto := w.st.records[c].dto;
    if dto.adminIds == [] {
      tasks := [];
    } else {
      var a := dto.adminIds[0];
      assert Targeted(w, c, a);
      var reason :| Removal(c, a, reason) in w.pending;
      var task := Removal(c, a, reason);
      var w1 := Next(w, Resume(task));
      assert GroupOk(w, c);
      NextKeepsInv(w, Resume(task));
      RemovalEvolves(w, c, task);
      assert w1.st == TakeOut(w.st, c, a, reason);
      forall b | b in w1.st.records[c].dto.adminIds ensures Targeted(w1, c, b) {
        assert Targeted(w, c, b);
        var r :| Removal(c, b, r) in w.pending;
        assert Removal(c, b, r) != task;
        assert Removal(c, b, r) in w1.pending;
      }
      var rest := TakeOutEveryAdmin(w1, c);
      tasks := [task] + rest;
      assert tasks[1..] == rest;
    }
  }

  /** The tasks already suspended on a stored group can leave it stored without an admin exactly
      when every admin is a target and at least three members are not admins. */
  lemma OrphaningExactly(w: World, c: ConvId)
    requires Inv(w) && w.st.Stored(c)
    ensures CanBeOrphaned(w, c) <==>
            && (forall a :: a in w.st.records[c].dto.adminIds ==> Targeted(w, c, a))
            && |w.st.records[c].dto.memberIds| - |w.st.records[c].dto.adminIds| >= MIN_MEMBERS
  {
    var dto := w.st.records[c].dto;
    if CanBeOrphaned(w, c) {
      var tasks :| IsSchedule(w, c, tasks) && Orphaned(AfterSchedule(w, c, tasks), c);
      ScheduleTakesOutTargets(w, c, tasks);
      var left := AfterSchedule(w, c, tasks).st.records[c].dto.memberIds;
      assert GroupOk(AfterSchedule(w, c, tasks), c) && GroupOk(w, c);
      NonAdminsBound(dto, left);
    }
    if (forall a :: a in dto.adminIds ==> Targeted(w, c, a)) && |dto.memberIds| - |dto.adminIds| >= MIN_MEMBERS {
      var tasks := TakeOutEveryAdmin(w, c);
    }
  }

  lemma NonAdminsBound(dto: GroupDto, left: seq<UserId>)
    requires RolesOk(dto) && NoDup(left)
    requires forall u :: u in left ==> u in dto.memberIds && u !in dto.adminIds
    ensures |left| <= |dto.memberIds| - |dto.adminIds|
  {
    var members, admins := Elements(dto.memberIds), Elements(dto.adminIds);
    NoDupCardinality(dto.memberIds);
    NoDupCardinality(dto.adminIds);
    NoDupCardinality(left);
    assert admins <= members && Elements(left) <= members - admins;
    SubsetCardinality(Elements(left), members - admins);
  }

  lemma {:induction false} SubsetCardinality(a: set<string>, b: set<string>)
    requires a <= b
    ensures |a| <= |b|
  {
    if a != {} {
      var x :| x in a;
      SubsetCardinality(a - {x}, b - {x});
    }
  }

  lemma RemovalLists(w: World, c: ConvId, t: UserId, reason: Reason)
    requires w.st.Stored(c) && Enabled(w, Resume(Removal(c, t, reason)))
    requires |Without(w.st.records[c].dto.memberIds, t)| >= MIN_MEMBERS
    ensures var w' := Next(w, Resume(Removal(c, t, reason)));
            && w'.st.Stored(c)
            && w'.st.records[c].dto == RemoveMember(w.st.records[c].dto, t)
            && w'.pending == w.pending - multiset{Removal(c, t, reason)} + multiset{Update(c)}
  {
    assert Next(w, Resume(Removal(c, t, reason))).st == TakeOut(w.st, c, t, reason);
  }

  /** The two removals, suspended together, resume. */
  lemma TwoRemovalsFrom(w: World, c: ConvId, a: UserId, b: UserId) returns (ws: seq<World>, es: seq<Event>)
    requires w.st.Stored(c) && a != b && w.st.records[c].dto.adminIds == [a, b]
    requires Removal(c, a, Left) in w.pending && Removal(c, b, Left) in w.pending
    requires |Without(w.st.records[c].dto.memberIds, a)| >= MIN_MEMBERS
    requires |Without(Without(w.st.records[c].dto.memberIds, a), b)| >= MIN_MEMBERS
    ensures IsRun(ws, es) && ws[0] == w && Orphaned(ws[|es|], c)
  {
    var e1, e2 := Resume(Removal(c, a, Left)), Resume(Removal(c, b, Left));
    RemovalLists(w, c, a, Left);
    var w1 := Next(w, e1);
    assert [a, b][1..] == [b] && Without([a, b], a) == [b];
    RemovalLists(w1, c, b, Left);
    var w2 := Next(w1, e2);
    assert Without([b], b) == [];
    RunCons(w1, e2, [w2], []);
    RunCons(w, e1, [w1] + [w2], [e2] + []);
    ws, es := [w] + ([w1] + [w2]), [e1] + ([e2] + []);
  }

  /** Two admins of a group of at least five leave at once: neither check sees the other leaver. */
  lemma TwoLeaversFrom(w: World, c: ConvId, a: UserId, b: UserId) returns (ws: seq<World>, es: seq<Event>)
    requires w.st.Stored(c) && a != b && w.st.records[c].dto.adminIds == [a, b]
    requires a in w.st.records[c].dto.memberIds && b in w.st.records[c].dto.memberIds
    requires |Without(w.st.records[c].dto.memberIds, a)| >= MIN_MEMBERS
    requires |Without(Without(w.st.records[c].dto.memberIds, a), b)| >= MIN_MEMBERS
    ensures IsRun(ws, es) && ws[0] == w && Orphaned(ws[|es|], c)
  {
    var w1 := Next(w, OnLeave(a, c));
    assert w1.st == w.st && Removal(c, a, Left) in w1.pending;
    var w2 := Next(w1, OnLeave(b, c));
    assert w2.st == w.st && w2.pending == w1.pending + multiset{Removal(c, b, Left)};
    ws, es := TwoRemovalsFrom(w2, c, a, b);
    RunCons(w1, OnLeave(b, c), ws, es);
    ws, es := [w1] + ws, [OnLeave(b, c)] + es;
    RunCons(w, OnLeave(a, c), ws, es);
    ws, es := [w] + ws, [OnLeave(a, c)] + es;
  }

  /** The bound on targets is needed: from an empty server, a run orphans any group of five or
      more, once it has a second admin. */
  lemma TwoLeaversOrphanAGroup(a: UserId, b: UserId, name: string, memberIds: seq<UserId>, c: ConvId, now: int)
    returns (ws: seq<World>, es: seq<Event>)
    requires a != "" && b != "" && a != b && b in memberIds
    requires CreateCheck(a, name, memberIds) == Ok && |UniqueMembers(a, memberIds)| >= 5
    ensures IsRun(ws, es) && ws[0] == INIT && Orphaned(ws[|es|], c)
  {
    var w2;
    w2, ws, es := TwoAdmins(a, b, name, memberIds, c, now);
    var later, more := TwoLeaversFrom(w2, c, a, b);
    RunsJoin(ws, es, later, more);
    ws, es := ws[..2] + later, es + more;
  }

  /** A new group whose creator promotes a second member. */
  lemma TwoAdmins(a: UserId, b: UserId, name: string, memberIds: seq<UserId>, c: ConvId, now: int)
    returns (w2: World, ws: seq<World>, es: seq<Event>)
    requires a != "" && b != "" && a != b && b in memberIds && CreateCheck(a, name, memberIds) == Ok
    ensures IsRun(ws, es) && ws[0] == INIT && |es| == 2 && ws[2] == w2
    ensures w2.st.Stored(c) && w2.st.records[c].dto.adminIds == [a, b]
    ensures w2.st.records[c].dto.memberIds == UniqueMembers(a, memberIds)
  {
    var create, promote := OnCreate(a, name, memberIds, c, now), OnPromote(a, c, b);
    var w1 := Next(INIT, create);
    CreatedLists(INIT, a, name, memberIds, c, now);
    w2 := PromotedSecond(w1, a, c, b);
    RunCons(w1, promote, [w2], []);
    RunCons(INIT, create, [w1] + [w2], [promote] + []);
    ws, es := [INIT] + ([w1] + [w2]), [create] + ([promote] + []);
  }

  lemma PromotedSecond(w: World, a: UserId, c: ConvId, b: UserId) returns (w': World)
    requires w.st.Stored(c) && w.st.records[c].dto.adminIds == [a] && a != b && b in w.st.records[c].dto.memberIds
    ensures w' == Next(w, OnPromote(a, c, b)) && w'.st.Stored(c)
    ensures w'.st.records[c].dto.adminIds == [a, b] && w'.st.records[c].dto.memberIds == w.st.records[c].dto.memberIds
  {
    w' := Next(w, OnPromote(a, c, b));
    PromoteLists(w, a, c, b);
    assert [a] + [b] == [a, b];
  }

  lemma PromoteLists(w: World, u: UserId, c: ConvId, t: UserId)
    requires AdminCheck(w.st, u, c, t) == Ok && t !in w.st.records[c].dto.adminIds
    ensures var dto, st' := w.st.records[c].dto, Next(w, OnPromote(u, c, t)).st;
            st'.records[c] == Entry(dto.(adminIds := dto.adminIds + [t]), true)
  {}
}
