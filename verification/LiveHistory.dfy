/** Backward paging while messages are edited, unsent and sent: each page shows the rows as they are
    then, but which messages it shows is decided by ids, conversations and times alone, and these no
    statement changes (`getHistory`, src/feature/chat/store/message.store.ts). */
module LiveHistory {
  import opened Collections
  import opened MessageTable
  import opened RowOrder
  import opened History

  // ---------------------------------------------------------------- what paging depends on

  /** The row with only its id, its conversation and its time. */
  function Bare(r: Row): Row {
    Row(r.id, r.conversationId, None, "", "", Text, None, None, false, r.createdAt)
  }

  function Bared(rows: seq<Row>): seq<Row> {
    seq(|rows|, i requires 0 <= i < |rows| => Bare(rows[i]))
  }

  lemma BaredAppend(rows: seq<Row>, r: Row)
    ensures Bared(rows + [r]) == Bared(rows) + [Bare(r)]
  {}

  lemma {:induction false} BareFilter(rows: seq<Row>, keep: Row -> bool)
    requires forall r :: keep(Bare(r)) == keep(r)
    ensures Filter(Bared(rows), keep) == Bared(Filter(rows, keep))
  {
    if rows != [] {
      var front, last := rows[..|rows| - 1], rows[|rows| - 1];
      assert rows == front + [last];
      BareFilter(front, keep);
      BaredAppend(front, last);
      FilterAppend(front, last, keep);
      FilterAppend(Bared(front), Bare(last), keep);
      BaredAppend(Filter(front, keep), last);
      assert Bared(Filter(front, keep)) + [] == Bared(Filter(front, keep));
      assert Filter(front, keep) + [] == Filter(front, keep);
    }
  }

  lemma {:induction false} BareInsert(sorted: seq<Row>, r: Row)
    ensures InsertRow(Bared(sorted), Bare(r)) == Bared(InsertRow(sorted, r))
  {
    if sorted == [] {
      assert Bared([r]) == [Bare(r)];
    } else {
      var front, last := sorted[..|sorted| - 1], sorted[|sorted| - 1];
      assert sorted == front + [last];
      BareInsert(front, r);
      BaredAppend(front, last);
      BaredAppend(sorted, r);
      BaredAppend(InsertRow(front, r), last);
      InsertAtEnd(front, last, r);
      InsertAtEnd(Bared(front), Bare(last), Bare(r));
    }
  }

  lemma {:induction false} BareSort(rows: seq<Row>)
    ensures Sort(Bared(rows)) == Bared(Sort(rows))
  {
    if rows != [] {
      var front, last := rows[..|rows| - 1], rows[|rows| - 1];
      assert rows == front + [last];
      BareSort(front);
      BaredAppend(front, last);
      SortAtEnd(front, last);
      SortAtEnd(Bared(front), Bare(last));
      BareInsert(Sort(front), last);
    }
  }

  lemma BareWindow(messages: seq<Row>, conversationId: string, cursor: Option<int>)
    ensures Window(Bared(messages), conversationId, cursor) == Bared(Window(messages, conversationId, cursor))
  {
    BareFilter(messages, Windowed(conversationId, cursor));
    BareSort(Filter(messages, Windowed(conversationId, cursor)));
  }

  lemma BarePage(messages: seq<Row>, conversationId: string, cursor: Option<int>, limit: nat)
    ensures var p := HistoryPage(messages, conversationId, cursor, limit);
            HistoryPage(Bared(messages), conversationId, cursor, limit) == Page(Bared(p.rows), p.nextCursor, p.hasMore)
  {
    BareWindow(messages, conversationId, cursor);
    PageIsSuffix(messages, conversationId, cursor, limit);
    PageIsSuffix(Bared(messages), conversationId, cursor, limit);
    BareSuffix(Window(messages, conversationId, cursor), limit);
  }

  lemma BareSuffix(w: seq<Row>, limit: nat)
    ensures |w| > limit ==> Bared(w)[|w| - limit..] == Bared(w[|w| - limit..])
    ensures forall i :: 0 <= i < |w| ==> Bared(w)[i].createdAt == w[i].createdAt
  {}

  // ---------------------------------------------------------------- tables that change meanwhile

  /** Rows stay in place, rewritten or not, and others may follow them. */
  ghost predicate KeepsPlaces(before: seq<Row>, after: seq<Row>) {
    Bared(before) <= Bared(after)
  }

  /** Between two requests rows may be rewritten in place, and inserted: any in other conversations,
      but in this one only with a time at or after the current cursor. */
  ghost predicate ChangesAbove(before: seq<Row>, after: seq<Row>, conversationId: string, t: int) {
    && KeepsPlaces(before, after)
    && forall r :: r in after[|before|..] && r.conversationId == conversationId ==> r.createdAt >= t
  }

  lemma ChangesCompose(a: seq<Row>, b: seq<Row>, d: seq<Row>, conversationId: string, t: int)
    requires ChangesAbove(a, b, conversationId, t) && ChangesAbove(b, d, conversationId, t)
    ensures ChangesAbove(a, d, conversationId, t)
  {
    forall r | r in d[|a|..] && r.conversationId == conversationId ensures r.createdAt >= t {
      var i :| |a| <= i < |d| && d[i] == r;
      if i < |b| {
        assert Bared(d)[i] == Bared(b)[i] && b[i] in b[|a|..];
      } else {
        assert d[i] in d[|b|..];
      }
    }
  }

  /** No conversation is deleted, and what is sent in this one is no older than the cursor. */
  predicate SendsAbove(s: Statement, conversationId: string, t: int) {
    !s.DeleteAll? && (s.Insert? && s.row.conversationId == conversationId ==> s.row.createdAt >= t)
  }

  /** However much is sent, edited, unsent and reacted to between two requests. */
  lemma {:induction false} StatementsChangeAbove(db: Db, statements: seq<Statement>, conversationId: string, t: int)
    requires forall k :: 0 <= k < |statements| ==> SendsAbove(statements[k], conversationId, t)
    ensures ChangesAbove(db.messages, ExecuteAll(db, statements).messages, conversationId, t)
    decreases |statements|
  {
    if statements != [] {
      var next := Execute(db, statements[0]);
      StatementsChangeAbove(next, statements[1..], conversationId, t);
      StatementChangesAbove(db, statements[0], conversationId, t);
      ChangesCompose(db.messages, next.messages, ExecuteAll(db, statements).messages, conversationId, t);
    }
  }

  lemma StatementChangesAbove(db: Db, s: Statement, conversationId: string, t: int)
    requires SendsAbove(s, conversationId, t)
    ensures ChangesAbove(db.messages, Execute(db, s).messages, conversationId, t)
  {}

  ghost predicate LiveFollows(a: Request, b: Request, conversationId: string, limit: nat) {
    var p := HistoryPage(a.messages, conversationId, a.cursor, limit);
    && p.nextCursor.Some? && b.cursor == p.nextCursor
    && ChangesAbove(a.messages, b.messages, conversationId, p.nextCursor.value)
  }

  /** A client that keeps asking for the next older page. */
  ghost predicate IsLiveReading(requests: seq<Request>, conversationId: string, limit: nat) {
    && requests != []
    && (forall k :: 0 <= k < |requests| ==> NonZero(requests[k].messages, conversationId))
    && (forall k :: 0 <= k < |requests| - 1 ==> LiveFollows(requests[k], requests[k + 1], conversationId, limit))
  }

  function BareRequest(q: Request): Request {
    Request(Bared(q.messages), q.cursor)
  }

  function BareRequests(requests: seq<Request>): seq<Request> {
    seq(|requests|, k requires 0 <= k < |requests| => BareRequest(requests[k]))
  }

  lemma BareNonZero(messages: seq<Row>, conversationId: string)
    requires NonZero(messages, conversationId)
    ensures NonZero(Bared(messages), conversationId)
  {
    forall r | r in Bared(messages) && r.conversationId == conversationId ensures r.createdAt != 0 {
      var i :| 0 <= i < |messages| && Bare(messages[i]) == r;
      assert messages[i] in messages;
    }
  }

  lemma BareFollows(a: Request, b: Request, conversationId: string, limit: nat)
    requires LiveFollows(a, b, conversationId, limit)
    ensures Follows(BareRequest(a), BareRequest(b), conversationId, limit)
  {
    BarePage(a.messages, conversationId, a.cursor, limit);
    var n, t := |a.messages|, b.cursor.value;
    forall r | r in Bared(b.messages)[n..] && r.conversationId == conversationId ensures r.createdAt >= t {
      var i :| n <= i < |b.messages| && Bare(b.messages[i]) == r;
      assert b.messages[i] in b.messages[n..];
    }
  }

  /** Seen bare, it is a reading of tables that only grow. */
  lemma BareReading(requests: seq<Request>, conversationId: string, limit: nat)
    requires IsLiveReading(requests, conversationId, limit)
    ensures IsReading(BareRequests(requests), conversationId, limit)
    ensures Ended(BareRequests(requests), conversationId, limit) <==> Ended(requests, conversationId, limit)
  {
    forall k | 0 <= k < |requests| ensures NonZero(BareRequests(requests)[k].messages, conversationId) {
      BareNonZero(requests[k].messages, conversationId);
    }
    forall k | 0 <= k < |requests| - 1
      ensures Follows(BareRequests(requests)[k], BareRequests(requests)[k + 1], conversationId, limit)
    {
      BareFollows(requests[k], requests[k + 1], conversationId, limit);
    }
    var last := requests[|requests| - 1];
    BarePage(last.messages, conversationId, last.cursor, limit);
  }

  lemma BaredConcat(a: seq<Row>, b: seq<Row>)
    ensures Bared(a + b) == Bared(a) + Bared(b)
  {}

  lemma {:induction false} BareChunks(chunks: seq<Chunk>, bare: seq<Chunk>)
    requires |bare| == |chunks| && forall k :: 0 <= k < |chunks| ==> bare[k].page == Bared(chunks[k].page)
    ensures ReadOf(bare) == Bared(ReadOf(chunks))
  {
    if chunks != [] {
      BareChunks(chunks[1..], bare[1..]);
      BaredConcat(ReadOf(chunks[1..]), chunks[0].page);
    }
  }

  /** The messages read are those the bare reading reads. */
  lemma BareRead(requests: seq<Request>, conversationId: string, limit: nat)
    ensures ReadOf(ChunksOf(BareRequests(requests), conversationId, limit)) ==
            Bared(ReadOf(ChunksOf(requests, conversationId, limit)))
  {
    var chunks := ChunksOf(requests, conversationId, limit);
    var bare := ChunksOf(BareRequests(requests), conversationId, limit);
    forall k | 0 <= k < |requests| ensures bare[k].page == Bared(chunks[k].page) {
      BarePage(requests[k].messages, conversationId, requests[k].cursor, limit);
    }
    BareChunks(chunks, bare);
  }

  lemma BareWindows(requests: seq<Request>, conversationId: string, k: nat)
    requires k < |requests|
    ensures WindowsOf(BareRequests(requests), conversationId)[k] == Bared(WindowsOf(requests, conversationId)[k])
  {
    BareWindow(requests[k].messages, conversationId, requests[k].cursor);
  }

  // ---------------------------------------------------------------- main theorems

  function IdsOf(rows: seq<Row>): seq<string> {
    seq(|rows|, i requires 0 <= i < |rows| => rows[i].id)
  }

  lemma SameBareSameIds(a: seq<Row>, b: seq<Row>)
    requires Bared(a) == Bared(b)
    ensures IdsOf(a) == IdsOf(b)
  {
    assert |Bared(a)| == |Bared(b)|;
    forall i | 0 <= i < |a| ensures a[i].id == b[i].id {
      assert Bared(a)[i] == Bared(b)[i];
    }
  }

  /** With distinct times, whatever is edited, unsent or newly sent between the requests: the pages,
      each put before those read earlier, list every message of the conversation once, in order. */
  lemma PagesListTheHistory(requests: seq<Request>, conversationId: string, limit: nat)
    requires limit >= 1 && IsLiveReading(requests, conversationId, limit) && Ended(requests, conversationId, limit)
    requires DistinctTimes(Window(requests[0].messages, conversationId, requests[0].cursor))
    ensures IdsOf(ReadOf(ChunksOf(requests, conversationId, limit))) ==
            IdsOf(Window(requests[0].messages, conversationId, requests[0].cursor))
  {
    BareReading(requests, conversationId, limit);
    BareWindows(requests, conversationId, 0);
    BareRead(requests, conversationId, limit);
    PagesAreTheHistory(BareRequests(requests), conversationId, limit);
    SameBareSameIds(ReadOf(ChunksOf(requests, conversationId, limit)), WindowsOf(requests, conversationId)[0]);
  }

  lemma BareCut(w: seq<Row>, limit: nat)
    ensures CutsClean(Bared(w), limit) <==> CutsClean(w, limit)
  {}

  /** The client lists the whole history exactly when, in the sorted window of every request, the
      newest `limit` rows are newer than the row before them. */
  lemma ListsAllExactly(requests: seq<Request>, conversationId: string, limit: nat)
    requires limit >= 1 && IsLiveReading(requests, conversationId, limit) && Ended(requests, conversationId, limit)
    ensures var windows := WindowsOf(requests, conversationId);
            Bared(ReadOf(ChunksOf(requests, conversationId, limit))) == Bared(windows[0]) <==>
            forall k :: 0 <= k < |windows| ==> CutsClean(windows[k], limit)
  {
    var windows, bare := WindowsOf(requests, conversationId), WindowsOf(BareRequests(requests), conversationId);
    BareReading(requests, conversationId, limit);
    BareRead(requests, conversationId, limit);
    CompleteExactly(BareRequests(requests), conversationId, limit);
    forall k | 0 <= k < |requests|
      ensures bare[k] == Bared(windows[k]) && (CutsClean(bare[k], limit) <==> CutsClean(windows[k], limit))
    {
      BareWindows(requests, conversationId, k);
      BareCut(windows[k], limit);
    }
  }

  /** A version of the message lies before the newest `limit` rows, and is as old as the oldest of them. */
  predicate CutsOff(w: seq<Row>, limit: nat, r: Row) {
    |w| > limit > 0 && Bare(r) in Bared(w[..|w| - limit]) && r.createdAt == w[|w| - limit].createdAt
  }

  lemma BareCutOff(w: seq<Row>, limit: nat, r: Row)
    ensures CutOff(Bared(w), limit, Bare(r)) <==> CutsOff(w, limit, r)
  {
    if |w| > limit > 0 {
      assert Bared(w)[..|w| - limit] == Bared(w[..|w| - limit]);
    }
  }

  lemma {:induction false} BareLinks(messages: seq<Row>)
    requires LinksOk(messages)
    ensures LinksOk(Bared(messages)) && Ids(Bared(messages)) == Ids(messages)
  {
    if messages != [] {
      var n := |messages| - 1;
      BareLinks(messages[..n]);
      assert Bared(messages)[..n] == Bared(messages[..n]);
      IdsOfPrefix(messages);
      IdsOfPrefix(Bared(messages));
    }
  }

  lemma BareIsIn(rows: seq<Row>, r: Row)
    requires r in rows
    ensures Bare(r) in Bared(rows)
  {
    var i :| 0 <= i < |rows| && rows[i] == r;
    assert Bared(rows)[i] == Bare(r);
  }

  /** No message is listed twice, and one is missed exactly when in the sorted window of some request
      it lies before the newest `limit` rows and is as old as the oldest of them. */
  lemma MissedMessagesExactly(requests: seq<Request>, conversationId: string, limit: nat, r: Row)
    requires limit >= 1 && IsLiveReading(requests, conversationId, limit) && Ended(requests, conversationId, limit)
    requires LinksOk(requests[0].messages) && r in Window(requests[0].messages, conversationId, requests[0].cursor)
    ensures var read := Bared(ReadOf(ChunksOf(requests, conversationId, limit)));
            var windows := WindowsOf(requests, conversationId);
            && multiset(read)[Bare(r)] <= 1
            && (Bare(r) !in read <==> exists k :: 0 <= k < |windows| && CutsOff(windows[k], limit, r))
  {
    var windows, bare := WindowsOf(requests, conversationId), WindowsOf(BareRequests(requests), conversationId);
    BareReading(requests, conversationId, limit);
    BareRead(requests, conversationId, limit);
    BareLinks(requests[0].messages);
    BareWindows(requests, conversationId, 0);
    BareIsIn(windows[0], r);
    MissedRowsExactly(BareRequests(requests), conversationId, limit, Bare(r));
    forall k | 0 <= k < |requests| ensures CutOff(bare[k], limit, Bare(r)) <==> CutsOff(windows[k], limit, r) {
      BareWindows(requests, conversationId, k);
      BareCutOff(windows[k], limit, r);
    }
  }
}
