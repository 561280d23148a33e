/** Reactions converge: each user's last write on a message wins, whatever the interleaving
    (`applyReaction`, src/feature/chat/store/message.store.ts). */
module Reactions {
  import opened Collections
  import opened MessageTable

  predicate IsReactionWrite(s: Statement) { s.React? || s.Unreact? }

  /** Two statements write to the same (message, user). */
  predicate Touches(s: Statement, messageId: string, userId: string) {
    match s
    case React(r) => SameKey(r, messageId, userId)
    case Unreact(m, u) => m == messageId && u == userId
    case _ => false
  }

  /** The row under a key. */
  function Lookup(reactions: seq<Reaction>, messageId: string, userId: string): Option<Reaction> {
    if reactions == [] then None
    else
      var n := |reactions| - 1;
      if SameKey(reactions[n], messageId, userId) then Some(reactions[n])
      else Lookup(reactions[..n], messageId, userId)
  }

  /** A key's value after one write of its own. */
  function After(s: Statement): Option<Reaction>
    requires IsReactionWrite(s)
  {
    if s.React? then Some(s.reaction) else None
  }

  /** A key's value after a run of writes: that of the last one on this key, if any. */
  function LastWrite(before: Option<Reaction>, writes: seq<Statement>, messageId: string, userId: string)
    : Option<Reaction>
    requires forall s :: s in writes ==> IsReactionWrite(s)
  {
    if writes == [] then before
    else
      var n := |writes| - 1;
      assert writes[n] in writes;
      if Touches(writes[n], messageId, userId) then After(writes[n])
      else LastWrite(before, writes[..n], messageId, userId)
  }

  function OnKey(messageId: string, userId: string): Statement -> bool {
    (s: Statement) => Touches(s, messageId, userId)
  }

  // ---------------------------------------------------------------- one write

  lemma {:induction false} LookupIsIn(reactions: seq<Reaction>, messageId: string, userId: string)
    ensures Lookup(reactions, messageId, userId).Some? <==> HasReaction(reactions, messageId, userId)
    ensures var found := Lookup(reactions, messageId, userId);
            found.Some? ==> found.value in reactions && SameKey(found.value, messageId, userId)
  {
    if reactions != [] {
      var n := |reactions| - 1;
      assert reactions == reactions[..n] + [reactions[n]];
      LookupIsIn(reactions[..n], messageId, userId);
      if HasReaction(reactions[..n], messageId, userId) {
        var r :| r in reactions[..n] && SameKey(r, messageId, userId);
        assert r in reactions;
      }
    }
  }

  lemma {:induction false} LookupFindsRow(reactions: seq<Reaction>, r: Reaction)
    requires KeysOk(reactions) && r in reactions
    ensures Lookup(reactions, r.messageId, r.userId) == Some(r)
  {
    var n := |reactions| - 1;
    assert reactions == reactions[..n] + [reactions[n]];
    if r in reactions[..n] {
      LookupFindsRow(reactions[..n], r);
      assert !SameKey(reactions[n], r.messageId, r.userId) by {
        assert SameKey(r, r.messageId, r.userId);
      }
    }
  }

  lemma {:induction false} RewriteLookup(reactions: seq<Reaction>, put: Reaction, messageId: string, userId: string)
    ensures var rewritten := seq(|reactions|, i requires 0 <= i < |reactions| =>
              if SameKey(reactions[i], put.messageId, put.userId) then put else reactions[i]);
            Lookup(rewritten, messageId, userId) ==
            if SameKey(put, messageId, userId) && HasReaction(reactions, messageId, userId) then Some(put)
            else Lookup(reactions, messageId, userId)
  {
    LookupIsIn(reactions, messageId, userId);
    if reactions != [] {
      var n := |reactions| - 1;
      var rewritten := seq(|reactions|, i requires 0 <= i < |reactions| =>
        if SameKey(reactions[i], put.messageId, put.userId) then put else reactions[i]);
      var front := seq(n, i requires 0 <= i < n =>
        if SameKey(reactions[..n][i], put.messageId, put.userId) then put else reactions[..n][i]);
      assert rewritten[..n] == front;
      RewriteLookup(reactions[..n], put, messageId, userId);
      LookupIsIn(reactions[..n], messageId, userId);
    }
  }

  lemma PutLookup(reactions: seq<Reaction>, put: Reaction, messageId: string, userId: string)
    ensures Lookup(PutReaction(reactions, put), messageId, userId) ==
            if SameKey(put, messageId, userId) then Some(put) else Lookup(reactions, messageId, userId)
  {
    if HasReaction(reactions, put.messageId, put.userId) {
      RewriteLookup(reactions, put, messageId, userId);
    } else {
      assert (reactions + [put])[..|reactions|] == reactions;
    }
  }

  function NotOnKey(messageId: string, userId: string): Reaction -> bool {
    (r: Reaction) => !SameKey(r, messageId, userId)
  }

  lemma {:induction false} DeleteLookup(reactions: seq<Reaction>, m: string, u: string, messageId: string,
                                        userId: string)
    ensures Lookup(Filter(reactions, NotOnKey(m, u)), messageId, userId) ==
            if m == messageId && u == userId then None else Lookup(reactions, messageId, userId)
  {
    if reactions != [] {
      var front, last := reactions[..|reactions| - 1], reactions[|reactions| - 1];
      assert reactions == front + [last];
      FilterAppend(front, last, NotOnKey(m, u));
      DeleteLookup(front, m, u, messageId, userId);
      var kept := Filter(front, NotOnKey(m, u));
      if SameKey(last, m, u) {
        assert kept + [] == kept;
      } else {
        assert (kept + [last])[..|kept|] == kept;
      }
    }
  }

  /** One write on an existing message sets its own key and no other. */
  lemma WriteSetsItsKey(db: Db, s: Statement, messageId: string, userId: string)
    requires IsReactionWrite(s) && messageId in Ids(db.messages)
    ensures Execute(db, s).messages == db.messages
    ensures Lookup(Execute(db, s).reactions, messageId, userId) ==
            if Touches(s, messageId, userId) then After(s) else Lookup(db.reactions, messageId, userId)
  {
    match s
    case React(r) =>
      PutLookup(db.reactions, r, messageId, userId);
    case Unreact(m, u) =>
      FilterAgrees(db.reactions, NotOnKey(m, u), (r: Reaction) => !SameKey(r, m, u));
      DeleteLookup(db.reactions, m, u, messageId, userId);
  }

  // ---------------------------------------------------------------- runs

  lemma {:induction false} ExecuteLast(db: Db, statements: seq<Statement>)
    requires statements != []
    ensures ExecuteAll(db, statements) ==
            Execute(ExecuteAll(db, statements[..|statements| - 1]), statements[|statements| - 1])
    decreases |statements|
  {
    if |statements| > 1 {
      ExecuteLast(Execute(db, statements[0]), statements[1..]);
      assert statements[1..][..|statements| - 2] == statements[..|statements| - 1][1..];
    }
  }

  /** Last writer wins, key by key: the table after any run of reaction writes holds, under every
      key of an existing message, exactly the last write on that key. */
  lemma {:induction false} LastWriteWins(db: Db, writes: seq<Statement>, messageId: string, userId: string)
    requires (forall s :: s in writes ==> IsReactionWrite(s)) && messageId in Ids(db.messages)
    ensures ExecuteAll(db, writes).messages == db.messages
    ensures Lookup(ExecuteAll(db, writes).reactions, messageId, userId) ==
            LastWrite(Lookup(db.reactions, messageId, userId), writes, messageId, userId)
    decreases |writes|
  {
    if writes != [] {
      var n := |writes| - 1;
      assert writes == writes[..n] + [writes[n]];
      LastWriteWins(db, writes[..n], messageId, userId);
      ExecuteLast(db, writes);
      WriteSetsItsKey(ExecuteAll(db, writes[..n]), writes[n], messageId, userId);
    }
  }

  /** The last write on a key is decided by the writes on that key alone. */
  lemma {:induction false} LastWriteOfOwn(before: Option<Reaction>, writes: seq<Statement>, messageId: string,
                                          userId: string)
    requires forall s :: s in writes ==> IsReactionWrite(s)
    ensures forall s :: s in Filter(writes, OnKey(messageId, userId)) ==> IsReactionWrite(s)
    ensures LastWrite(before, writes, messageId, userId) ==
            LastWrite(before, Filter(writes, OnKey(messageId, userId)), messageId, userId)
  {
    FilterMembers(writes, OnKey(messageId, userId));
    if writes != [] {
      var front, last := writes[..|writes| - 1], writes[|writes| - 1];
      assert writes == front + [last];
      FilterAppend(front, last, OnKey(messageId, userId));
      FilterMembers(front, OnKey(messageId, userId));
      LastWriteOfOwn(before, front, messageId, userId);
      var kept := Filter(front, OnKey(messageId, userId));
      if Touches(last, messageId, userId) {
        assert (kept + [last])[|kept|] == last;
      } else {
        assert kept + [] == kept;
      }
    }
  }

  /** Two interleavings of the same writes: every key sees its own writes in the same order. */
  ghost predicate SameOrderPerKey(a: seq<Statement>, b: seq<Statement>) {
    forall m, u :: Filter(a, OnKey(m, u)) == Filter(b, OnKey(m, u))
  }

  lemma OneInterleavingCovers(db: Db, a: seq<Statement>, b: seq<Statement>, r: Reaction)
    requires DbOk(db) && SameOrderPerKey(a, b) && r in ExecuteAll(db, a).reactions
    requires (forall s :: s in a ==> IsReactionWrite(s)) && (forall s :: s in b ==> IsReactionWrite(s))
    ensures r in ExecuteAll(db, b).reactions
  {
    RunsKeepDb(db, a);
    WritesKeepMessages(db, a);
    LastWriteWins(db, a, r.messageId, r.userId);
    LastWriteWins(db, b, r.messageId, r.userId);
    var before := Lookup(db.reactions, r.messageId, r.userId);
    LastWriteOfOwn(before, a, r.messageId, r.userId);
    LastWriteOfOwn(before, b, r.messageId, r.userId);
    assert Filter(a, OnKey(r.messageId, r.userId)) == Filter(b, OnKey(r.messageId, r.userId));
    LookupFindsRow(ExecuteAll(db, a).reactions, r);
    LookupIsIn(ExecuteAll(db, b).reactions, r.messageId, r.userId);
  }

  lemma {:induction false} WritesKeepMessages(db: Db, writes: seq<Statement>)
    requires forall s :: s in writes ==> IsReactionWrite(s)
    ensures ExecuteAll(db, writes).messages == db.messages
    decreases |writes|
  {
    if writes != [] {
      assert writes[0] in writes;
      WritesKeepMessages(Execute(db, writes[0]), writes[1..]);
    }
  }

  /** Convergence: interleavings that keep each key's order give the same table, row for row, with
      at most one reaction per (message, user). */
  lemma InterleavingsConverge(db: Db, a: seq<Statement>, b: seq<Statement>)
    requires DbOk(db) && SameOrderPerKey(a, b)
    requires (forall s :: s in a ==> IsReactionWrite(s)) && (forall s :: s in b ==> IsReactionWrite(s))
    ensures var t, t' := ExecuteAll(db, a).reactions, ExecuteAll(db, b).reactions;
            KeysOk(t) && KeysOk(t') && forall r :: r in t <==> r in t'
  {
    RunsKeepDb(db, a);
    RunsKeepDb(db, b);
    assert SameOrderPerKey(b, a);
    forall r ensures r in ExecuteAll(db, a).reactions <==> r in ExecuteAll(db, b).reactions {
      if r in ExecuteAll(db, a).reactions {
        OneInterleavingCovers(db, a, b, r);
      }
      if r in ExecuteAll(db, b).reactions {
        OneInterleavingCovers(db, b, a, r);
      }
    }
  }
}
