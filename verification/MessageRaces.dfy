/** Edits, unsends and reactions check a message, wait for the table and then write: the check may
    be out of date by the time of the write (src/feature/chat/handlers/message.handler.ts,
    src/feature/chat/handlers/reaction.handler.ts). What the checks still guarantee, over every
    interleaving, and what they do not. */
module MessageRaces {
  import opened Collections
  import opened MessageTable
  import opened Hydration

  // ---------------------------------------------------------------- the checks

  datatype Refusal = NotMember | Muted | Forbidden | Gone | NonEditable | NotFound | InvalidEmoji

  /** The checks of `chat:edit`, on the message it found. */
  function EditCheck(target: ChatMessage, userId: string): Option<Refusal> {
    if target.senderId != userId then Some(Forbidden)
    else if target.deleted then Some(Gone)
    else if target.kind != Text then Some(NonEditable)
    else None
  }

  function UnsendCheck(target: ChatMessage, userId: string): Option<Refusal> {
    if target.senderId != userId then Some(Forbidden) else None
  }

  function ReactCheck(target: Option<ChatMessage>): Option<Refusal> {
    if target.None? || target.value.deleted || target.value.kind == System then Some(NotFound) else None
  }

  // ---------------------------------------------------------------- suspended writes

  datatype Task =
    | EditTask(userId: string, conversationId: string, id: string, content: string, editedAt: int)
    | UnsendTask(userId: string, conversationId: string, id: string)
    | ReactTask(userId: string, userName: string, conversationId: string, id: string, emoji: Option<string>)
  {
    /** The one statement the handler still has to run. */
    function Statement(): Statement {
      match this
      case EditTask(_, c, i, content, at) => Edit(c, i, content, at)
      case UnsendTask(_, c, i) => Unsend(c, i)
      case ReactTask(u, name, _, i, Some(e)) => React(Reaction(i, u, name, e))
      case ReactTask(u, _, _, i, None) => Unreact(i, u)
    }
  }

  /** The message was there, and the checks let the handler write. */
  predicate Passes(db: Db, task: Task) {
    var target := FoundMessage(db, task.conversationId, task.id);
    target.Some? &&
    match task
    case EditTask(u, _, _, _, _) => EditCheck(target.value, u).None?
    case UnsendTask(u, _, _) => UnsendCheck(target.value, u).None?
    case ReactTask(_, _, _, _, _) => ReactCheck(target).None?
  }

  datatype State = State(db: Db, used: set<string>, tasks: seq<Task>)

  const INIT := State(Db([], []), {}, [])

  datatype Event =
    | Begin(task: Task)
    | Write(k: nat)
    | Send(row: Row)
    | Dissolve(conversationId: string)

  predicate Enabled(st: State, e: Event) {
    match e
    case Write(k) => k < |st.tasks|
    case Send(row) => row.id !in st.used && !row.deleted
    case _ => true
  }

  function StatementOf(st: State, e: Event): Option<Statement>
    requires Enabled(st, e)
  {
    match e
    case Begin(_) => None
    case Write(k) => Some(st.tasks[k].Statement())
    case Send(row) => Some(Insert(row))
    case Dissolve(c) => Some(DeleteAll(c))
  }

  function Next(st: State, e: Event): State
    requires Enabled(st, e)
  {
    var s := StatementOf(st, e);
    State(if s.Some? then Execute(st.db, s.value) else st.db,
          if e.Send? then st.used + {e.row.id} else st.used,
          match e
          case Begin(task) => if Passes(st.db, task) then st.tasks + [task] else st.tasks
          case Write(k) => st.tasks[..k] + st.tasks[k + 1..]
          case _ => st.tasks)
  }

  ghost predicate IsRun(sts: seq<State>, es: seq<Event>) {
    |sts| == |es| + 1 && sts[0] == INIT
    && forall i :: 0 <= i < |es| ==> Enabled(sts[i], es[i]) && sts[i + 1] == Next(sts[i], es[i])
  }

  // ---------------------------------------------------------------- where a row comes from

  /** A later version of a row: most of it never changes, and an unsend is not taken back. */
  predicate Descends(row: Row, later: Row) {
    && later == row.(content := later.content, editedAt := later.editedAt, deleted := later.deleted,
                        replyToId := later.replyToId)
    && (row.deleted ==> later.deleted)
    && (later.replyToId == row.replyToId || later.replyToId.None?)
  }

  predicate SameText(row: Row, later: Row) {
    later.content == row.content && later.editedAt == row.editedAt && later.deleted == row.deleted
  }

  predicate Rewrites(s: Statement, row: Row) {
    (s.Edit? || s.Unsend?) && s.id == row.id && s.conversationId == row.conversationId
  }

  lemma {:induction false} SurvivorOrigin(messages: seq<Row>, ids: set<string>, later: Row) returns (row: Row)
    requires later in DeleteRows(messages, ids)
    ensures row in messages && Descends(row, later) && SameText(row, later)
  {
    var n := |messages| - 1;
    var front := DeleteRows(messages[..n], ids);
    if later in front {
      row := SurvivorOrigin(messages[..n], ids, later);
    } else {
      row := messages[n];
    }
  }

  /** Every row but a new one is a version of a row that was there; its text is another only if the
      statement rewrites that very row. */
  lemma Origin(db: Db, s: Statement, later: Row) returns (row: Row)
    requires later in Execute(db, s).messages && !(s.Insert? && later == s.row)
    ensures row in db.messages && Descends(row, later)
    ensures SameText(row, later) || Rewrites(s, row)
  {
    match s
    case DeleteAll(c) =>
      var ids := set r | r in db.messages && r.conversationId == c :: r.id;
      row := SurvivorOrigin(db.messages, ids, later);
    case Edit(_, _, _, _) =>
      var i :| 0 <= i < |db.messages| && Execute(db, s).messages[i] == later;
      row := db.messages[i];
    case Unsend(_, _) =>
      var i :| 0 <= i < |db.messages| && Execute(db, s).messages[i] == later;
      row := db.messages[i];
    case _ =>
      row := later;
  }

  // ---------------------------------------------------------------- the invariant

  /** What a check still guarantees about its row while the write waits. */
  predicate TaskFits(task: Task, row: Row) {
    row.id == task.id ==>
      && row.conversationId == task.conversationId
      && (match task
          case EditTask(u, _, _, _, _) => SenderOf(row) == u && row.kind == Text
          case UnsendTask(u, _, _) => SenderOf(row) == u
          case ReactTask(_, _, _, _, _) => row.kind != System)
  }

  predicate ReactionFits(r: Reaction, row: Row) {
    row.id == r.messageId ==> row.kind != System
  }

  predicate TasksOk(st: State) {
    forall t, row :: t in st.tasks && row in st.db.messages ==> TaskFits(t, row)
  }

  predicate ReactionsOk(db: Db) {
    forall r, row :: r in db.reactions && row in db.messages ==> ReactionFits(r, row)
  }

  predicate Inv(st: State) {
    && DbOk(st.db) && TasksOk(st) && ReactionsOk(st.db)
    && Ids(st.db.messages) <= st.used
    && (forall t :: t in st.tasks ==> t.id in st.used)
  }

  lemma PassingFits(db: Db, task: Task, row: Row)
    requires LinksOk(db.messages) && Passes(db, task) && row in db.messages
    ensures TaskFits(task, row)
  {
    if row.id == task.id {
      RowIsFound(db.messages, row);
    }
  }

  lemma FitsLater(task: Task, row: Row, later: Row)
    requires TaskFits(task, row) && Descends(row, later)
    ensures TaskFits(task, later)
  {}

  lemma StepKeepsTasks(st: State, e: Event, t: Task, later: Row)
    requires Inv(st) && Enabled(st, e) && t in Next(st, e).tasks && later in Next(st, e).db.messages
    ensures TaskFits(t, later)
  {
    match e
    case Begin(task) =>
      if t !in st.tasks {
        PassingFits(st.db, task, later);
      }
    case Send(row) =>
      if later == row {
        assert t.id in st.used;
      } else {
        var was := Origin(st.db, Insert(row), later);
        FitsLater(t, was, later);
      }
    case Write(k) =>
      var was := Origin(st.db, st.tasks[k].Statement(), later);
      FitsLater(t, was, later);
    case Dissolve(c) =>
      var was := Origin(st.db, DeleteAll(c), later);
      FitsLater(t, was, later);
  }

  /** A reaction after a statement: one that was there, or the one the statement puts. */
  lemma ReactionOrigin(db: Db, s: Statement, r: Reaction)
    requires KeysOk(db.reactions) && r in Execute(db, s).reactions
    ensures r in db.reactions || (s.React? && r == s.reaction)
  {
    match s
    case React(put) => PutKeepsKeys(db.reactions, put);
    case Unreact(m, u) => FilterMembers(db.reactions, (x: Reaction) => !SameKey(x, m, u));
    case DeleteAll(c) =>
      var ids := set x | x in db.messages && x.conversationId == c :: x.id;
      FilterMembers(db.reactions, (x: Reaction) => x.messageId !in ids);
    case _ =>
  }

  lemma StatementKeepsReactions(db: Db, s: Statement, r: Reaction, later: Row)
    requires DbOk(db) && ReactionsOk(db)
    requires r in Execute(db, s).reactions && later in Execute(db, s).messages
    requires s.Insert? ==> s.row.id !in Ids(db.messages)
    requires s.React? ==> forall row :: row in db.messages ==> ReactionFits(s.reaction, row)
    ensures ReactionFits(r, later)
  {
    ReactionOrigin(db, s, r);
    if s.Insert? && later == s.row {
      assert r.messageId in Ids(db.messages);
    } else {
      var was := Origin(db, s, later);
      assert ReactionFits(r, was);
    }
  }

  lemma StepKeepsReactions(st: State, e: Event)
    requires Inv(st) && Enabled(st, e)
    ensures ReactionsOk(Next(st, e).db)
  {
    var s := StatementOf(st, e);
    if s.Some? {
      assert s.value.React? ==> forall row :: row in st.db.messages ==> ReactionFits(s.value.reaction, row) by {
        if e.Write? && s.value.React? {
          forall row | row in st.db.messages ensures ReactionFits(s.value.reaction, row) {
            assert TaskFits(st.tasks[e.k], row);
          }
        }
      }
      assert s.value.Insert? ==> s.value.row.id !in Ids(st.db.messages);
      forall r, row | r in Next(st, e).db.reactions && row in Next(st, e).db.messages ensures ReactionFits(r, row) {
        StatementKeepsReactions(st.db, s.value, r, row);
      }
    }
  }

  lemma StatementKeepsIds(db: Db, s: Statement)
    ensures Ids(Execute(db, s).messages) <= Ids(db.messages) + if s.Insert? then {s.row.id} else {}
  {
    forall x | x in Ids(Execute(db, s).messages)
      ensures x in Ids(db.messages) || (s.Insert? && x == s.row.id)
    {
      var later :| later in Execute(db, s).messages && later.id == x;
      if !(s.Insert? && later == s.row) {
        var was := Origin(db, s, later);
      }
    }
  }

  lemma NextKeepsInv(st: State, e: Event)
    requires Inv(st) && Enabled(st, e)
    ensures Inv(Next(st, e))
  {
    var st' := Next(st, e);
    var s := StatementOf(st, e);
    if s.Some? {
      StatementKeepsDb(st.db, s.value);
      StatementKeepsIds(st.db, s.value);
    }
    StepKeepsReactions(st, e);
    forall t, row | t in st'.tasks && row in st'.db.messages ensures TaskFits(t, row) {
      StepKeepsTasks(st, e, t, row);
    }
    assert TasksKnown(st, e);
  }

  predicate TasksKnown(st: State, e: Event)
    requires Enabled(st, e)
  {
    forall t :: t in Next(st, e).tasks ==> t.id in Next(st, e).used
  }

  lemma {:induction false} RunKeepsInv(sts: seq<State>, es: seq<Event>, i: nat)
    requires IsRun(sts, es) && i <= |es|
    ensures Inv(sts[i])
  {
    if i > 0 {
      RunKeepsInv(sts, es, i - 1);
      NextKeepsInv(sts[i - 1], es[i - 1]);
    }
  }

  // ---------------------------------------------------------------- what the checks guarantee

  lemma StepChangesOwn(st: State, e: Event, row: Row, later: Row)
    requires Inv(st) && Enabled(st, e) && row in st.db.messages && later in Next(st, e).db.messages
    requires later.id == row.id
    ensures Descends(row, later)
    ensures !SameText(row, later) ==>
              && e.Write? && !st.tasks[e.k].ReactTask?
              && st.tasks[e.k].id == row.id && st.tasks[e.k].userId == SenderOf(row)
  {
    assert row.id in Ids(st.db.messages);
    var was := row;
    if e.Begin? {
      RowIsFound(st.db.messages, later);
    } else {
      was := Origin(st.db, StatementOf(st, e).value, later);
      RowIsFound(st.db.messages, was);
    }
    RowIsFound(st.db.messages, row);
    if e.Write? {
      assert TaskFits(st.tasks[e.k], row);
    }
  }

  /** However the handlers interleave: a stored message keeps its sender, conversation, type and
      time, an unsend is final, and its text, edit mark and deletion only ever change by a write
      that its own sender asked for. */
  lemma OnlyTheSenderRewrites(sts: seq<State>, es: seq<Event>, i: nat, row: Row, later: Row)
    requires IsRun(sts, es) && i < |es|
    requires row in sts[i].db.messages && later in sts[i + 1].db.messages && later.id == row.id
    ensures Descends(row, later)
    ensures !SameText(row, later) ==>
              && es[i].Write? && es[i].k < |sts[i].tasks|
              && var task := sts[i].tasks[es[i].k];
                 !task.ReactTask? && task.id == row.id && task.userId == SenderOf(row)
  {
    RunKeepsInv(sts, es, i);
    StepChangesOwn(sts[i], es[i], row, later);
  }

  /** No system message ever carries a reaction. */
  lemma SystemMessagesHaveNoReactions(sts: seq<State>, es: seq<Event>, i: nat, row: Row)
    requires IsRun(sts, es) && i <= |es| && row in sts[i].db.messages && row.kind == System
    ensures ReactionsOf(sts[i].db.reactions, row.id) == []
  {
    RunKeepsInv(sts, es, i);
    NoReactionTo(sts[i].db.reactions, row);
  }

  lemma {:induction false} NoReactionTo(reactions: seq<Reaction>, row: Row)
    requires row.kind == System && forall r :: r in reactions ==> ReactionFits(r, row)
    ensures ReactionsOf(reactions, row.id) == []
  {
    if reactions != [] {
      var n := |reactions| - 1;
      assert reactions[n] in reactions;
      NoReactionTo(reactions[..n], row);
    }
  }

  // ---------------------------------------------------------------- what they do not

  /** An unsent message has no text. */
  predicate Blank(db: Db) {
    forall r :: r in db.messages && r.deleted ==> r.content == ""
  }

  /** An edit that passed its check lands on a message that has been unsent since. */
  predicate LateEdit(st: State, e: Event) {
    && e.Write? && e.k < |st.tasks| && st.tasks[e.k].EditTask? && st.tasks[e.k].content != ""
    && var target := FindRow(st.db.messages, st.tasks[e.k].conversationId, st.tasks[e.k].id);
       target.Some? && target.value.deleted
  }

  lemma EditLands(messages: seq<Row>, c: string, id: string, content: string, at: int, row: Row)
    requires row in messages && row.id == id && row.conversationId == c
    ensures row.(content := content, editedAt := Some(at)) in SetContent(messages, c, id, content, at)
  {
    var i :| 0 <= i < |messages| && messages[i] == row;
    assert SetContent(messages, c, id, content, at)[i] == row.(content := content, editedAt := Some(at));
  }

  lemma LateEditShows(st: State, e: Event)
    requires Enabled(st, e) && LateEdit(st, e)
    ensures !Blank(Next(st, e).db)
  {
    var t := st.tasks[e.k];
    var row := FindRow(st.db.messages, t.conversationId, t.id).value;
    EditLands(st.db.messages, t.conversationId, t.id, t.content, t.editedAt, row);
    assert row.(content := t.content, editedAt := Some(t.editedAt)) in Next(st, e).db.messages;
  }

  lemma WriteStaysBlank(st: State, e: Event, i: nat)
    requires Inv(st) && Enabled(st, e) && e.Write? && !LateEdit(st, e) && Blank(st.db)
    requires i < |Next(st, e).db.messages|
    ensures Next(st, e).db.messages[i].deleted ==> Next(st, e).db.messages[i].content == ""
  {
    var was := st.db.messages[i];
    assert was in st.db.messages;
    if st.tasks[e.k].EditTask? && was.id == st.tasks[e.k].id {
      RowIsFound(st.db.messages, was);
    }
  }

  lemma StepStaysBlank(st: State, e: Event)
    requires Inv(st) && Enabled(st, e) && !LateEdit(st, e) && Blank(st.db)
    ensures Blank(Next(st, e).db)
  {
    forall r | r in Next(st, e).db.messages && r.deleted ensures r.content == "" {
      if e.Write? {
        var i :| 0 <= i < |Next(st, e).db.messages| && Next(st, e).db.messages[i] == r;
        WriteStaysBlank(st, e, i);
      } else if !e.Begin? {
        var was := Origin(st.db, StatementOf(st, e).value, r);
      }
    }
  }

  /** Unsent messages stay without text in exactly the runs where no edit lands late. */
  lemma {:induction false} BlankExactly(sts: seq<State>, es: seq<Event>, i: nat)
    requires IsRun(sts, es) && i <= |es|
    ensures (forall j :: 0 <= j <= i ==> Blank(sts[j].db)) <==> (forall j :: 0 <= j < i ==> !LateEdit(sts[j], es[j]))
  {
    if i > 0 {
      BlankExactly(sts, es, i - 1);
      RunKeepsInv(sts, es, i - 1);
      if LateEdit(sts[i - 1], es[i - 1]) {
        LateEditShows(sts[i - 1], es[i - 1]);
        assert !Blank(sts[i].db);
      } else if Blank(sts[i - 1].db) {
        StepStaysBlank(sts[i - 1], es[i - 1]);
      }
    }
  }

  // ---------------------------------------------------------------- reactions to unsent messages

  /** A reaction appears on a message that has been unsent. */
  ghost predicate GainsOnUnsent(st: State, st': State) {
    exists r, row :: r in st'.db.reactions && r !in st.db.reactions
                     && row in st.db.messages && row.id == r.messageId && row.deleted
  }

  /** A new reaction that passed its check is written to a message that has been unsent since. */
  predicate LateReaction(st: State, e: Event) {
    && e.Write? && e.k < |st.tasks| && st.tasks[e.k].ReactTask? && st.tasks[e.k].emoji.Some?
    && var task := st.tasks[e.k];
       var target := FindRow(st.db.messages, task.conversationId, task.id);
       target.Some? && target.value.deleted
       && Reaction(task.id, task.userId, task.userName, task.emoji.value) !in st.db.reactions
  }

  lemma PutIsIn(reactions: seq<Reaction>, put: Reaction)
    ensures put in PutReaction(reactions, put)
  {
    if HasReaction(reactions, put.messageId, put.userId) {
      var i :| 0 <= i < |reactions| && SameKey(reactions[i], put.messageId, put.userId);
      assert PutReaction(reactions, put)[i] == put;
    }
  }

  lemma LateReactionShows(st: State, e: Event)
    requires Inv(st) && Enabled(st, e) && LateReaction(st, e)
    ensures GainsOnUnsent(st, Next(st, e))
  {
    var task := st.tasks[e.k];
    var r := Reaction(task.id, task.userId, task.userName, task.emoji.value);
    var row := FindRow(st.db.messages, task.conversationId, task.id).value;
    PutIsIn(st.db.reactions, r);
    assert row.id in Ids(st.db.messages);
    assert r in Next(st, e).db.reactions && row in st.db.messages;
  }

  lemma NewReactionIsLate(st: State, e: Event, r: Reaction, row: Row)
    requires Inv(st) && Enabled(st, e) && r in Next(st, e).db.reactions && r !in st.db.reactions
    requires row in st.db.messages && row.id == r.messageId && row.deleted
    ensures LateReaction(st, e)
  {
    if !e.Begin? {
      var s := StatementOf(st, e).value;
      ReactionOrigin(st.db, s, r);
      assert e.Write? && TaskFits(st.tasks[e.k], row);
      RowIsFound(st.db.messages, row);
    }
  }

  /** One step: an unsent message gains a reaction exactly when a reaction lands late. */
  lemma GainsExactly(st: State, e: Event)
    requires Inv(st) && Enabled(st, e)
    ensures GainsOnUnsent(st, Next(st, e)) <==> LateReaction(st, e)
  {
    if LateReaction(st, e) {
      LateReactionShows(st, e);
    }
    if GainsOnUnsent(st, Next(st, e)) {
      var r, row :| r in Next(st, e).db.reactions && r !in st.db.reactions
                    && row in st.db.messages && row.id == r.messageId && row.deleted;
      NewReactionIsLate(st, e, r, row);
    }
  }

  ghost predicate GainsAt(sts: seq<State>, j: nat) {
    j + 1 < |sts| && GainsOnUnsent(sts[j], sts[j + 1])
  }

  predicate LateReactionAt(sts: seq<State>, es: seq<Event>, j: nat) {
    j < |sts| && j < |es| && LateReaction(sts[j], es[j])
  }

  /** Unsent messages gain a reaction at exactly the points of a run where one lands late. */
  lemma GainsInRunsExactly(sts: seq<State>, es: seq<Event>, i: nat)
    requires IsRun(sts, es) && i <= |es|
    ensures forall j: nat :: j < i ==> (GainsAt(sts, j) <==> LateReactionAt(sts, es, j))
  {
    forall j: nat | j < i ensures GainsAt(sts, j) <==> LateReactionAt(sts, es, j) {
      RunKeepsInv(sts, es, j);
      GainsExactly(sts[j], es[j]);
    }
  }

  // ---------------------------------------------------------------- handlers that run to completion

  /** Nothing happens between a check and its write. */
  ghost predicate Serial(sts: seq<State>, es: seq<Event>)
    requires |sts| > |es|
  {
    forall i :: 0 <= i < |es| && sts[i].tasks != [] ==> es[i].Write?
  }

  lemma {:induction false} SerialChecksHold(sts: seq<State>, es: seq<Event>, i: nat)
    requires IsRun(sts, es) && Serial(sts, es) && i <= |es|
    ensures sts[i].tasks == [] || (|sts[i].tasks| == 1 && Passes(sts[i].db, sts[i].tasks[0]))
  {
    if i > 0 {
      SerialChecksHold(sts, es, i - 1);
      assert sts[i - 1].tasks != [] ==> es[i - 1].Write?;
    }
  }

  /** With handlers that run to completion no edit is ever late. */
  lemma SerialRunsStayBlank(sts: seq<State>, es: seq<Event>, i: nat)
    requires IsRun(sts, es) && Serial(sts, es) && i <= |es|
    ensures Blank(sts[i].db)
  {
    forall j | 0 <= j < i ensures !LateEdit(sts[j], es[j]) {
      SerialChecksHold(sts, es, j);
    }
    BlankExactly(sts, es, i);
  }

  /** ... nor any reaction. */
  lemma SerialRunsGainNothing(sts: seq<State>, es: seq<Event>, i: nat)
    requires IsRun(sts, es) && Serial(sts, es) && i < |es|
    ensures !GainsOnUnsent(sts[i], sts[i + 1])
  {
    SerialChecksHold(sts, es, i);
    RunKeepsInv(sts, es, i);
    GainsExactly(sts[i], es[i]);
  }

  // ---------------------------------------------------------------- runs in which they are late

  /** Otherwise it can be, for any sender, conversation and text: an unsend between the check of an
      edit and its write leaves an unsent message with the edited text. */
  lemma EditCanLandLate(row: Row, userId: string, content: string, at: int)
    returns (sts: seq<State>, es: seq<Event>)
    requires row.senderId == Some(userId) && row.kind == Text && !row.deleted && row.replyToId.None? && content != ""
    ensures IsRun(sts, es) && |es| == 5
    ensures sts[5].db.messages == [row.(content := content, editedAt := Some(at), deleted := true)]
  {
    var edit := EditTask(userId, row.conversationId, row.id, content, at);
    var gone := row.(content := "", deleted := true);
    assert SetContent([gone], row.conversationId, row.id, content, at) ==
             [gone.(content := content, editedAt := Some(at))];
    sts, es := RunAroundUnsend(row, userId, edit);
  }

  /** Likewise for a reaction, of any user: an unsend between its check and its write leaves an unsent
      message with the reaction. */
  lemma ReactionCanLandLate(row: Row, userId: string, reader: string, name: string, emoji: string)
    returns (sts: seq<State>, es: seq<Event>)
    requires row.senderId == Some(userId) && row.kind != System && !row.deleted && row.replyToId.None?
    ensures IsRun(sts, es) && |es| == 5
    ensures sts[5].db == Db([row.(content := "", deleted := true)], [Reaction(row.id, reader, name, emoji)])
  {
    LatePut(row.(content := "", deleted := true), Reaction(row.id, reader, name, emoji));
    sts, es := RunAroundUnsend(row, userId, ReactTask(reader, name, row.conversationId, row.id, Some(emoji)));
  }

  lemma LatePut(row: Row, r: Reaction)
    requires r.messageId == row.id
    ensures Execute(Db([row], []), React(r)) == Db([row], [r])
  {
    assert row in [row] && [] + [r] == [r];
  }

  /** A message is sent, the task passes its check, the message is unsent, and the task writes. */
  lemma RunAroundUnsend(row: Row, userId: string, task: Task) returns (sts: seq<State>, es: seq<Event>)
    requires row.senderId == Some(userId) && !row.deleted && row.replyToId.None? && Passes(Db([row], []), task)
    ensures IsRun(sts, es) && |es| == 5
    ensures sts[5].db == Execute(Db([row.(content := "", deleted := true)], []), task.Statement())
  {
    var unsend := UnsendTask(userId, row.conversationId, row.id);
    var db1, db2, used := Db([row], []), Db([row.(content := "", deleted := true)], []), {row.id};
    SentAndGone(row, userId);
    es := [Send(row), Begin(task), Begin(unsend), Write(1), Write(0)];
    sts := [INIT, State(db1, used, []), State(db1, used, [task]), State(db1, used, [task, unsend]),
            State(db2, used, [task]), State(Execute(db2, task.Statement()), used, [])];
    WriteStep(sts[3], 1, sts[4]);
    WriteStep(sts[4], 0, sts[5]);
    WitnessSteps(sts, es, row, task, unsend);
  }

  lemma SentAndGone(row: Row, userId: string)
    requires row.senderId == Some(userId) && !row.deleted && row.replyToId.None?
    ensures Next(INIT, Send(row)) == State(Db([row], []), {row.id}, [])
    ensures var unsend := UnsendTask(userId, row.conversationId, row.id);
            && Passes(Db([row], []), unsend)
            && Execute(Db([row], []), unsend.Statement()) == Db([row.(content := "", deleted := true)], [])
  {
    assert [row][..0] == [];
    assert SetDeleted([row], row.conversationId, row.id) == [row.(content := "", deleted := true)];
  }

  lemma WriteStep(st: State, k: nat, next: State)
    requires k < |st.tasks| && next.tasks == st.tasks[..k] + st.tasks[k + 1..]
    requires next.db == Execute(st.db, st.tasks[k].Statement()) && next.used == st.used
    ensures Enabled(st, Write(k)) && Next(st, Write(k)) == next
  {}

  lemma WitnessSteps(sts: seq<State>, es: seq<Event>, row: Row, first: Task, second: Task)
    requires !row.deleted && |sts| == 6
    requires es == [Send(row), Begin(first), Begin(second), Write(1), Write(0)] && sts[0] == INIT
    requires Next(INIT, es[0]) == sts[1]
    requires Next(sts[1], es[1]) == sts[2]
    requires Next(sts[2], es[2]) == sts[3]
    requires Enabled(sts[3], es[3]) && Next(sts[3], es[3]) == sts[4]
    requires Enabled(sts[4], es[4]) && Next(sts[4], es[4]) == sts[5]
    ensures IsRun(sts, es)
  {
    forall i | 0 <= i < |es| ensures Enabled(sts[i], es[i]) && sts[i + 1] == Next(sts[i], es[i]) {
      if i == 0 {
      } else if i == 1 {
      } else if i == 2 {
      } else if i == 3 {
      } else {
        assert i == 4;
      }
    }
  }
}
